/** A small program with one setting, in camel case and with a variable of its own: the laws at work, and the cases
    outside their conditions. */
module ConfigExample {
  import opened Text
  import opened PathLists
  import opened Placeholders
  import opened YamlTree
  import opened YamlUpdates
  import opened ConfigFile
  import opened ConfigModel
  import opened ConfigReload
  import opened ConfigLaws
  import opened ConfigRoundTrip
  import opened ConfigRuns

  const MODE: Key := ["db", "sslMode"]
  const PLAIN := "db" + "." + "sslMode"
  const PADDED := "db" + "." + " sslMode"
  const VARIABLE := "MODE"

  /** The validator turns one value down. */
  function Program(): App {
    App(map[DISABLED := Field(StringsType, ""), MODE := Field(StringType, VARIABLE)], "APP",
        (ty, n) => None, raw => None, c => if MODE in c && c[MODE] == Str("bad") then None else Some(c))
  }

  function ListNode(list: seq<string>): Node {
    Node(Sequence, "!!seq", "", StringNodes(list))
  }

  function Section(key: string, value: Node): Node {
    Node(Mapping, "!!map", "", [KeyNode(key), value])
  }

  /** A mapping with two sections. */
  function Sections(a: string, x: Node, b: string, y: Node): Node {
    Node(Mapping, "!!map", "", [KeyNode(a), x, KeyNode(b), y])
  }

  function File(value: string, list: seq<string>): Node {
    Sections("db", Section("sslMode", StringNode(value)), "env_override", Section("disabled_paths", ListNode(list)))
  }

  function Snapshot(value: string, list: seq<string>): Config {
    map[DISABLED := Strs(list), MODE := Str(value)]
  }

  // ---------------------------------------------------------------- names

  lemma {:induction false} DbIsCanonical()
    ensures CanonicalSegment("db")
  {
    assert !IsDigit("db"[0]);
  }

  lemma {:induction false} SslModeIsCanonical()
    ensures CanonicalSegment("sslMode")
  {
    assert !IsDigit("sslMode"[0]);
  }

  lemma {:induction false} OverrideIsCanonical()
    ensures CanonicalSegment("env_override")
  {
    assert !IsDigit("env_override"[0]);
  }

  lemma {:induction false} PathsIsCanonical()
    ensures CanonicalSegment("disabled_paths")
  {
    assert !IsDigit("disabled_paths"[0]);
  }

  lemma {:induction false} NamesAreCanonical()
    ensures Canonical(MODE) && Canonical(DISABLED)
  {
    DbIsCanonical();
    SslModeIsCanonical();
    OverrideIsCanonical();
    PathsIsCanonical();
  }

  lemma {:induction false} SectionsDiffer()
    ensures Lower("db") != Lower("env_override") && Lower("db") == "db" && "db" != "env_override"
  {
    assert |Lower("db")| == 2 && |Lower("env_override")| == 12;
  }

  lemma {:induction false} KeysDiffer()
    ensures DISABLED != MODE && FoldApart(DISABLED, MODE) && FoldApart(MODE, DISABLED)
  {
    SectionsDiffer();
    assert Fold(DISABLED)[0] == Lower("env_override") && Fold(MODE)[0] == Lower("db");
    assert |Fold(DISABLED)| == 2 && |Fold(MODE)| == 2;
  }

  lemma {:induction false} ProgramIsWellFormed()
    ensures WellFormedApp(Program())
  {
    NamesAreCanonical();
    KeysDiffer();
    ProgramHasTwoKeys();
    forall c ensures Program().validate(c) == Some(c) || Program().validate(c) == None {
    }
  }

  lemma {:induction false} ProgramHasTwoKeys()
    ensures Program().fields.Keys == {DISABLED, MODE} && Program().fields[DISABLED] == Field(StringsType, "")
  {
    KeysDiffer();
  }

  lemma {:induction false} PlainPath()
    ensures Segments(PLAIN) == MODE && PathText(MODE) == PLAIN && Trimmed(PLAIN) && PLAIN != ""
  {
    NamesAreCanonical();
    assert MODE[1..] == ["sslMode"];
    assert PathText(MODE) == PLAIN;
    SegmentsOfPathText(MODE);
  }

  lemma {:induction false} PaddedSegment()
    ensures TrimSpace(" sslMode") == "sslMode" && '.' !in " sslMode"
  {
    TrimPadded(" ", "sslMode", "");
    assert " " + "sslMode" + "" == " sslMode";
  }

  lemma {:induction false} PaddedPath()
    ensures Segments(PADDED) == MODE && PADDED != PLAIN && Trimmed(PADDED) && PADDED != ""
  {
    PaddedSegment();
    DbIsCanonical();
    TrimFixed("db");
    SplitJoin(["db", " sslMode"], '.');
    assert ["db", " sslMode"][1..] == [" sslMode"];
    assert Join(["db", " sslMode"], ".") == PADDED;
    assert |PADDED| == 11 && |PLAIN| == 10;
  }

  /** The two spellings of the path. */
  predicate IsSpelling(path: string) {
    path == PLAIN || path == PADDED
  }

  lemma {:induction false} Spelling(path: string)
    requires IsSpelling(path)
    ensures Segments(path) == MODE && Normalize([path]) == [path] && '$' !in path
  {
    PlainPath();
    PaddedPath();
    NamesAreCanonical();
    NoDollarInPath(path);
    OneIsNormal(path);
  }

  lemma {:induction false} OneIsNormal(path: string)
    requires path != "" && Trimmed(path)
    ensures Normalize([path]) == [path]
  {
    TrimFixed(path);
    assert [path][..0] == [];
    assert Normalize([]) == [];
  }

  // ---------------------------------------------------------------- the file

  /** A section with one key. */
  lemma {:induction false} SectionIs(key: string, value: Node)
    requires WellFormed(value) && FoldsOnce(value) && Readable(value) && value.kind != Mapping
    ensures WellFormed(Section(key, value)) && FoldsOnce(Section(key, value)) && Readable(Section(key, value))
    ensures LoadIndex(Section(key, value).content, key, 0) == Some(1)
    ensures MapIndex(Section(key, value).content, key, 0) == Some(1)
    ensures Spells(Section(key, value), [key])
  {
    SectionReads(key, value);
    SectionFolds(key, value);
  }

  lemma {:induction false} SectionReads(key: string, value: Node)
    requires WellFormed(value) && Readable(value)
    ensures WellFormed(Section(key, value)) && Readable(Section(key, value))
    ensures LoadIndex(Section(key, value).content, key, 0) == Some(1)
    ensures MapIndex(Section(key, value).content, key, 0) == Some(1)
  {
  }

  lemma {:induction false} SectionFolds(key: string, value: Node)
    requires FoldsOnce(value) && value.kind != Mapping
    ensures FoldsOnce(Section(key, value)) && Spells(Section(key, value), [key])
  {
    assert [key][1..] == [];
    assert forall i :: 0 <= i < 1 && i % 2 == 0 ==> Section(key, value).content[i] == KeyNode(key);
  }

  lemma {:induction false} ListIs(list: seq<string>)
    ensures WellFormed(ListNode(list)) && FoldsOnce(ListNode(list)) && Readable(ListNode(list))
  {
  }

  lemma {:induction false} SectionsLookUp(a: string, x: Node, b: string, y: Node)
    requires Lower(a) != Lower(b)
    ensures var content := Sections(a, x, b, y).content;
            && LoadIndex(content, a, 0) == Some(1) && LoadIndex(content, b, 0) == Some(3)
            && MapIndex(content, a, 0) == Some(1) && MapIndex(content, b, 0) == Some(3)
  {
    var content := Sections(a, x, b, y).content;
    assert a != b;
    assert LoadIndex(content, b, 2) == Some(3) && MapIndex(content, b, 2) == Some(3);
  }

  lemma {:induction false} SectionsFit(a: string, x: Node, b: string, y: Node, key: string)
    requires Lower(a) != Lower(b) && FoldsOnce(x) && FoldsOnce(y) && Spells(y, [key])
    ensures FoldsOnce(Sections(a, x, b, y)) && Spells(Sections(a, x, b, y), [b, key])
  {
    var n := Sections(a, x, b, y);
    assert [b, key][1..] == [key];
    forall i, j | 0 <= i < j < 4 && i % 2 == 0 && j % 2 == 0 ensures FoldDiffer(n.content, i, j) {
      assert i == 0 && j == 2;
    }
  }

  lemma {:induction false} SectionsRead(a: string, x: Node, b: string, y: Node)
    requires a != b && WellFormed(x) && WellFormed(y) && Readable(x) && Readable(y)
    ensures WellFormed(Sections(a, x, b, y)) && Readable(Sections(a, x, b, y))
  {
    SectionsWellFormed(a, x, b, y);
    SectionsReadable(a, x, b, y);
  }

  lemma {:induction false} SectionsWellFormed(a: string, x: Node, b: string, y: Node)
    requires WellFormed(x) && WellFormed(y)
    ensures WellFormed(Sections(a, x, b, y))
  {
  }

  lemma {:induction false} SectionsReadable(a: string, x: Node, b: string, y: Node)
    requires a != b && Readable(x) && Readable(y)
    ensures Readable(Sections(a, x, b, y))
  {
  }

  lemma {:induction false} PartsAre(value: string, list: seq<string>)
    ensures var db := Section("sslMode", StringNode(value));
            && WellFormed(db) && FoldsOnce(db) && Readable(db)
            && LoadIndex(db.content, "sslMode", 0) == Some(1) && MapIndex(db.content, "sslMode", 0) == Some(1)
    ensures var over := Section("disabled_paths", ListNode(list));
            && WellFormed(over) && FoldsOnce(over) && Readable(over) && Spells(over, ["disabled_paths"])
            && LoadIndex(over.content, "disabled_paths", 0) == Some(1)
            && MapIndex(over.content, "disabled_paths", 0) == Some(1)
  {
    SectionIs("sslMode", StringNode(value));
    ListIs(list);
    SectionIs("disabled_paths", ListNode(list));
  }

  lemma {:induction false} TwoStepLookup(n: Node, a: string, b: string, i: nat, j: nat)
    requires n.kind == Mapping && LoadIndex(n.content, a, 0) == Some(i)
    requires n.content[i].kind == Mapping && LoadIndex(n.content[i].content, b, 0) == Some(j)
    ensures LoadLookup(n, [a, b]) == Some(n.content[i].content[j])
  {
    assert [a, b][1..] == [b] && [b][1..] == [];
    LookupStep(n, [a, b]);
    LookupStep(n.content[i], [b]);
  }

  lemma {:induction false} FileIs(value: string, list: seq<string>)
    ensures WellFormed(File(value, list)) && FitKeys(File(value, list), DISABLED) && CanRead(File(value, list))
    ensures LoadLookup(File(value, list), DISABLED) == Some(ListNode(list))
    ensures LoadLookup(File(value, list), MODE) == Some(StringNode(value))
  {
    var db, over := Section("sslMode", StringNode(value)), Section("disabled_paths", ListNode(list));
    SectionsDiffer();
    PartsAre(value, list);
    SectionsLookUp("db", db, "env_override", over);
    SectionsFit("db", db, "env_override", over, "disabled_paths");
    SectionsRead("db", db, "env_override", over);
    TwoStepLookup(File(value, list), "db", "sslMode", 1, 1);
    TwoStepLookup(File(value, list), "env_override", "disabled_paths", 3, 1);
  }

  lemma {:induction false} TwoStepResolve(n: Node, a: string, b: string, i: nat, j: nat)
    requires a != "" && b != "" && n.kind == Mapping && MapIndex(n.content, a, 0) == Some(i)
    requires n.content[i].kind == Mapping && MapIndex(n.content[i].content, b, 0) == Some(j)
    ensures Resolve(n, [a, b]) == Ok([i, j])
  {
    assert [a, b][1..] == [b];
    assert Resolve(n.content[i], [b]) == Ok([j]);
    assert [i] + [j] == [i, j];
  }

  lemma {:induction false} FileResolves(value: string, list: seq<string>)
    ensures Resolve(File(value, list), MODE) == Ok([1, 1]) && Resolve(File(value, list), DISABLED) == Ok([3, 1])
  {
    SectionsDiffer();
    PartsAre(value, list);
    SectionsLookUp("db", Section("sslMode", StringNode(value)), "env_override",
                   Section("disabled_paths", ListNode(list)));
    TwoStepResolve(File(value, list), "db", "sslMode", 1, 1);
    TwoStepResolve(File(value, list), "env_override", "disabled_paths", 3, 1);
  }

  lemma {:induction false} ReplaceOne(n: Node, j: nat, m: Node)
    requires j < |n.content|
    ensures HasPos(n, [j]) && At(n, [j]) == n.content[j] && Put(n, [j], m) == n.(content := n.content[j := m])
  {
    var p: Pos := [j];
    assert p[1..] == [] && p[0] == j;
    assert HasPos(n.content[j], []) && At(n.content[j], []) == n.content[j] && Put(n.content[j], [], m) == m;
    assert HasPos(n, p);
  }

  lemma {:induction false} ReplaceTwo(root: Node, i: nat, j: nat, m: Node)
    requires i < |root.content| && j < |root.content[i].content|
    ensures HasPos(root, [i, j]) && At(root, [i, j]) == root.content[i].content[j]
    ensures Put(root, [i, j], m) ==
            root.(content := root.content[i := root.content[i].(content := root.content[i].content[j := m])])
  {
    ReplaceOne(root.content[i], j, m);
    var p: Pos := [i, j];
    assert p[1..] == [j] && p[0] == i;
    assert HasPos(root, p);
  }

  lemma {:induction false} WritesAre(value: string, list: seq<string>, value': string, list': seq<string>)
    ensures HasPos(File(value, list), [1, 1]) && At(File(value, list), [1, 1]) == StringNode(value)
    ensures HasPos(File(value, list), [3, 1]) && At(File(value, list), [3, 1]) == ListNode(list)
    ensures Put(File(value, list), [1, 1], StringNode(value')) == File(value', list)
    ensures Put(File(value, list), [3, 1], ListNode(list')) == File(value, list')
  {
    var file := File(value, list);
    ReplaceTwo(file, 1, 1, StringNode(value'));
    ReplaceTwo(file, 3, 1, ListNode(list'));
    assert [KeyNode("sslMode"), StringNode(value)][1 := StringNode(value')] == [KeyNode("sslMode"), StringNode(value')];
    assert [KeyNode("disabled_paths"), ListNode(list)][1 := ListNode(list')] ==
      [KeyNode("disabled_paths"), ListNode(list')];
    assert file.content[1 := Section("sslMode", StringNode(value'))] == File(value', list).content;
    assert file.content[3 := Section("disabled_paths", ListNode(list'))] == File(value, list').content;
  }

  // ---------------------------------------------------------------- snapshots and reloads

  /** A list as the program writes it. */
  ghost predicate IsList(list: seq<string>) {
    Normalize(list) == list && forall i :: 0 <= i < |list| ==> '$' !in list[i]
  }

  lemma {:induction false} ListReads(value: string, list: seq<string>)
    requires IsList(list)
    ensures FileDisabled(File(value, list)) == list && PlainDisabled(File(value, list))
  {
    FileIs(value, list);
    WrittenList(list);
  }

  lemma {:induction false} SnapshotIs(value: string, list: seq<string>)
    ensures Typed(Program(), Snapshot(value, list)) && DISABLED in Program().fields && MODE in Program().fields
    ensures Snapshot(value, list)[MODE] == Str(value) && Snapshot(value, list)[DISABLED] == Strs(list)
  {
    KeysDiffer();
    assert Snapshot(value, list).Keys == {DISABLED, MODE} == Program().fields.Keys;
  }

  lemma {:induction false} SnapshotValidates(value: string, list: seq<string>)
    requires Normalize(list) == list && value != "bad"
    ensures WellFormedApp(Program()) && Typed(Program(), Snapshot(value, list))
    ensures Validate(Program(), Snapshot(value, list)) == Some(Snapshot(value, list))
  {
    ProgramIsWellFormed();
    SnapshotIs(value, list);
    assert Snapshot(value, list)[DISABLED := Strs(list)] == Snapshot(value, list);
  }

  lemma {:induction false} ModeIsSettled(v: string)
    requires v != "bad"
    ensures WellFormedApp(Program()) && MODE in Program().fields && Fixes(Program(), MODE, Str(v))
  {
    ProgramIsWellFormed();
    KeysDiffer();
  }

  /** An environment in which the setting's variable holds a text. */
  function Holding(v: string): Env {
    map[VARIABLE := v]
  }

  lemma {:induction false} VariableIs(v: string)
    requires v != ""
    ensures MODE in Program().fields && EnvValue(Program(), Holding(v), MODE) == Some(v)
    ensures FromEnv(Program(), Program().fields[MODE].ty, v) == Some(Str(v))
  {
    KeysDiffer();
    TrimFixed("MODE");
    var prefixed := PrefixJoin("APP", "MODE");
    assert "APP" + "_" == "APP_" && "APP_"[0] == 'A' && "MODE"[0] == 'M';
    assert prefixed == "APP_" + "MODE" && prefixed[0] == 'A';
    assert Candidates("APP", "MODE") == [prefixed, "MODE"];
    assert [prefixed, "MODE"][1..] == ["MODE"] && prefixed != "MODE";
    assert LookupFirst(Holding(v), ["MODE"]) == Some(v);
    assert LookupFirst(Holding(v), [prefixed, "MODE"]) == Some(v);
  }

  lemma {:induction false} NoVariable()
    ensures MODE in Program().fields && DISABLED in Program().fields
    ensures EnvValue(Program(), map[], MODE) == None && forall env :: EnvValue(Program(), env, DISABLED) == None
  {
    KeysDiffer();
    assert TrimSpace("") == "";
    LookupNone(Candidates("APP", TrimSpace("MODE")));
  }

  lemma {:induction false} LookupNone(names: seq<string>)
    ensures LookupFirst(map[], names) == None
  {
    if names != [] {
      LookupNone(names[1..]);
    }
  }

  /** What a reload of the file gives: the file's value if there is no variable or the plain path is listed, and the
      variable's value otherwise. */
  function Loaded(value: string, list: seq<string>, env: Env): string {
    match EnvValue(Program(), env, MODE)
    case None => value
    case Some(v) => if PLAIN in list then value else v
  }

  lemma {:induction false} LeavesAre(value: string, list: seq<string>, env: Env)
    requires '$' !in value && IsList(list)
    ensures WellFormedApp(Program()) && MODE in Program().fields && DISABLED in Program().fields
    ensures FileLeaf(Program(), File(value, list), env, DISABLED) == Some(Strs(list))
    ensures FileLeaf(Program(), File(value, list), env, MODE) == Some(Str(value))
  {
    ProgramIsWellFormed();
    SnapshotIs(value, list);
    FileIs(value, list);
    ListReads(value, list);
    PlainDisabledReads(Program(), File(value, list), env);
    NoDollarIsPlain(value);
    WrittenLeafReadsBack(Program(), File(value, list), env, MODE, Str(value));
  }

  lemma {:induction false} OverrideIs(app: App, env: Env, disabled: set<string>, c: Config, d: Config)
    requires c.Keys == app.fields.Keys && d.Keys == c.Keys
    requires forall k :: k in c ==> OverrideLeaf(app, env, disabled, k, c[k]) == d[k]
    ensures Override(app, env, disabled, c) == d
  {
  }

  lemma {:induction false} ListIsLeft(list: seq<string>, env: Env)
    ensures DISABLED in Program().fields
    ensures OverrideLeaf(Program(), env, DisabledSet(list), DISABLED, Strs(list)) == Strs(list)
  {
    NoVariable();
  }

  lemma {:induction false} ModeIsTaken(value: string, list: seq<string>, env: Env)
    requires IsList(list)
    ensures MODE in Program().fields
    ensures OverrideLeaf(Program(), env, DisabledSet(list), MODE, Str(value)) == Str(Loaded(value, list, env))
  {
    KeysDiffer();
    PlainPath();
  }

  lemma {:induction false} OverridesAre(value: string, list: seq<string>, env: Env)
    requires IsList(list)
    ensures Typed(Program(), Snapshot(value, list))
    ensures Override(Program(), env, DisabledSet(list), Snapshot(value, list)) ==
            Snapshot(Loaded(value, list, env), list)
  {
    SnapshotIs(value, list);
    SnapshotIs(Loaded(value, list, env), list);
    ListIsLeft(list, env);
    ModeIsTaken(value, list, env);
    OverrideIs(Program(), env, DisabledSet(list), Snapshot(value, list), Snapshot(Loaded(value, list, env), list));
  }

  /** The snapshot before validation, for settings whose two leaves are known. */
  lemma {:induction false} UnvalidatedOf(settings: Node, value: string, list: seq<string>, env: Env)
    requires WellFormedApp(Program()) && MODE in Program().fields && DISABLED in Program().fields && IsList(list)
    requires FileLeaf(Program(), settings, env, DISABLED) == Some(Strs(list))
    requires FileLeaf(Program(), settings, env, MODE) == Some(Str(value))
    ensures Unvalidated(Program(), settings, env) == Some(Snapshot(Loaded(value, list, env), list))
  {
    SnapshotIs(value, list);
    OverridesAre(value, list, env);
    UnvalidatedFrom(Program(), settings, env, Snapshot(value, list));
  }

  lemma {:induction false} UnvalidatedIs(value: string, list: seq<string>, env: Env)
    requires '$' !in value && IsList(list)
    ensures WellFormedApp(Program())
    ensures Unvalidated(Program(), File(value, list), env) == Some(Snapshot(Loaded(value, list, env), list))
  {
    LeavesAre(value, list, env);
    UnvalidatedOf(File(value, list), value, list, env);
  }

  lemma {:induction false} ReloadIs(value: string, list: seq<string>, env: Env)
    requires '$' !in value && IsList(list) && Loaded(value, list, env) != "bad"
    ensures WellFormedApp(Program())
    ensures Rebuild(Program(), File(value, list), env) == Ok(Snapshot(Loaded(value, list, env), list))
  {
    FileIs(value, list);
    UnvalidatedIs(value, list, env);
    SnapshotValidates(Loaded(value, list, env), list);
  }

  lemma {:induction false} BadIsRejected(list: seq<string>)
    requires IsList(list)
    ensures WellFormedApp(Program()) && Rebuild(Program(), File("bad", list), map[]).Err?
  {
    SnapshotIs("bad", list);
    NoVariable();
    UnvalidatedIs("bad", list, map[]);
  }

  // ---------------------------------------------------------------- a force-file update

  function Rename(path: string, value: string): Update {
    Update.Update(StringKind, path, value, [], false)
  }

  function Relist(list: seq<string>): Update {
    Update.Update(StringSliceKind, DISABLED_PATH, "", list, true)
  }

  lemma {:induction false} RenameIs(before: string, after: string, list: seq<string>, path: string)
    requires IsSpelling(path)
    ensures Apply(File(before, list), Rename(path, after), true) == Ok((File(after, list), [1, 1]))
  {
    Spelling(path);
    FileResolves(before, list);
    WritesAre(before, list, after, list);
  }

  lemma {:induction false} RelistIs(value: string, list: seq<string>, list': seq<string>)
    requires Normalize(list') == list'
    ensures Apply(File(value, list), Relist(list'), true) == Ok((File(value, list'), [3, 1]))
  {
    ProgramIsWellFormed();
    DisabledPathSegments(Program());
    FileResolves(value, list);
    WritesAre(value, list, value, list');
  }

  lemma {:induction false} BatchOfTwo(root: Node, u: Update, v: Update, mid: Node, end: Node, p: Pos, q: Pos)
    requires Apply(root, u, true) == Ok((mid, p)) && Apply(mid, v, true) == Ok((end, q))
    ensures ApplyAll(root, [u, v], true) == Ok((end, [p, q]))
  {
    assert [u, v][..1] == [u] && [u][..0] == [];
    assert ApplyAll(root, [], true) == Ok((root, []));
    assert [] + [p] == [p];
    assert ApplyAll(root, [u], true) == Ok((mid, [p]));
    assert [p] + [q] == [p, q];
  }

  lemma {:induction false} UpdatesOfTwo(app: App, access: Access, file: Node, env: Env, c: Config, p: string,
                                        q: string, u: Update, v: Update)
    requires Typed(app, c)
    requires PathUpdate(app, access, file, env, c, FORCE_FILE, p) == Ok(u) &&
             PathUpdate(app, access, file, env, c, FORCE_FILE, q) == Ok(v)
    ensures PathUpdates(app, access, file, env, c, FORCE_FILE, [p, q]) == Ok([u, v])
  {
    assert [p, q][..1] == [p] && [p][..0] == [];
    assert PathUpdates(app, access, file, env, c, FORCE_FILE, []) == Ok([]);
    assert [] + [u] == [u];
    assert PathUpdates(app, access, file, env, c, FORCE_FILE, [p]) == Ok([u]);
    assert [u] + [v] == [u, v];
  }

  const ACCESS := Access(true, true, true)

  lemma {:induction false} PathUpdatesAre(before: string, after: string, path: string, env: Env)
    requires IsSpelling(path)
    ensures Typed(Program(), Snapshot(after, [path]))
    ensures PathUpdates(Program(), ACCESS, File(before, []), env, Snapshot(after, [path]), FORCE_FILE,
                        [path, DISABLED_PATH]) ==
            Ok([Rename(path, after), Relist([path])])
  {
    ProgramIsWellFormed();
    SnapshotIs(after, [path]);
    Spelling(path);
    DisabledPathSegments(Program());
    UpdatesOfTwo(Program(), ACCESS, File(before, []), env, Snapshot(after, [path]), path, DISABLED_PATH,
                 Rename(path, after), Relist([path]));
  }

  lemma {:induction false} PersistIs(before: string, after: string, path: string, env: Env)
    requires IsSpelling(path)
    ensures Typed(Program(), Snapshot(after, [path]))
    ensures Persist(Program(), ACCESS, File(before, []), env, Snapshot(after, [path]), FORCE_FILE,
                    [path, DISABLED_PATH]) ==
            Ok(File(after, [path]))
  {
    Spelling(path);
    PathUpdatesAre(before, after, path, env);
    RenameIs(before, after, [], path);
    RelistIs(after, [], [path]);
    BatchOfTwo(File(before, []), Rename(path, after), Relist([path]), File(after, []), File(after, [path]), [1, 1],
               [3, 1]);
  }

  lemma {:induction false} DraftIs(before: string, after: string, path: string, env: Env)
    requires IsSpelling(path)
    ensures WellFormedApp(Program()) && Typed(Program(), Snapshot(after, []))
    ensures Prepare(Program(), ACCESS, File(before, []), env, Snapshot(after, []), Options([path], FORCE_FILE)) ==
            Ok(Draft(Snapshot(after, [path]), [path], true))
  {
    ProgramIsWellFormed();
    SnapshotIs(after, []);
    Spelling(path);
    assert [] + [path] == [path] && Normalize([]) == [];
    assert Snapshot(after, [])[DISABLED := Strs([path])] == Snapshot(after, [path]);
  }

  lemma {:induction false} PlanIs(before: string, after: string, path: string, env: Env)
    requires IsSpelling(path) && after != "bad"
    ensures WellFormedApp(Program()) && Typed(Program(), Snapshot(after, []))
    ensures Plan(Program(), ACCESS, File(before, []), env, Snapshot(after, []), Options([path], FORCE_FILE)) ==
            Ok(Outcome(Snapshot(after, [path]), Some(File(after, [path]))))
  {
    DraftIs(before, after, path, env);
    Spelling(path);
    SnapshotValidates(after, [path]);
    PersistIs(before, after, path, env);
    var draft := Draft(Snapshot(after, [path]), [path], true);
    assert WriteList(draft) == [path, DISABLED_PATH];
    PlanFrom(Program(), ACCESS, File(before, []), env, Snapshot(after, []), Options([path], FORCE_FILE), draft,
             Snapshot(after, [path]), Ok(Some(File(after, [path]))));
  }

  lemma {:induction false} EmptyList()
    ensures IsList([])
  {
    assert Normalize([]) == [];
  }

  lemma {:induction false} IsUpdated(before: string, after: string, path: string, env: Env)
    requires IsSpelling(path) && after != "bad"
    ensures Updated(Program(), ACCESS, File(before, []), env, Snapshot(after, []), Options([path], FORCE_FILE),
                    Outcome(Snapshot(after, [path]), Some(File(after, [path]))))
  {
    Spelling(path);
    EmptyList();
    FileIs(before, []);
    ListReads(before, []);
    PlanIs(before, after, path, env);
  }

  lemma {:induction false} ReachesIfPlain(after: string, env: Env, path: string)
    requires IsSpelling(path)
    ensures WellFormedApp(Program()) && Typed(Program(), Snapshot(after, [])) && MODE in Program().fields
    ensures TextReaches(Program(), env, Snapshot(after, []), Options([path], FORCE_FILE), MODE) <==> path == PLAIN
  {
    ProgramIsWellFormed();
    SnapshotIs(after, []);
    PlainPath();
    ReachesByText(Program(), env, Snapshot(after, []), [path], MODE);
    assert PLAIN in [path] <==> path == PLAIN;
  }

  lemma {:induction false} ReachesByText(app: App, env: Env, edited: Config, paths: seq<string>, key: Key)
    requires WellFormedApp(app) && Typed(app, edited) && key in app.fields
    ensures TextReaches(app, env, edited, Options(paths, FORCE_FILE), key) <==>
            PathText(key) in paths || PathText(key) in Disabled(app, edited)
  {
  }

  lemma {:induction false} PublishedIsSettled(after: string, env: Env, path: string)
    requires '$' !in after && after != "bad"
    ensures WellFormedApp(Program()) && Typed(Program(), Snapshot(after, [path])) && MODE in Program().fields
    ensures PlainLeaf(Snapshot(after, [path])[MODE]) &&
            Settled(Program(), env, FORCE_FILE, MODE, Snapshot(after, [path]))
  {
    SnapshotIs(after, [path]);
    ModeIsSettled(after);
    NoDollarIsPlain(after);
  }

  lemma {:induction false} LoadedIs(after: string, other: string, path: string)
    requires IsSpelling(path) && other != ""
    ensures Loaded(after, [path], Holding(other)) == if path == PLAIN then after else other
  {
    VariableIs(other);
  }

  lemma {:induction false} SpellingIsList(path: string)
    requires IsSpelling(path)
    ensures IsList([path])
  {
    Spelling(path);
  }

  lemma {:induction false} ReloadAfter(after: string, other: string, path: string)
    requires IsSpelling(path) && '$' !in after && after != "bad" && other != "bad" && other != ""
    ensures WellFormedApp(Program())
    ensures Rebuild(Program(), File(after, [path]), Holding(other)) ==
            Ok(Snapshot(if path == PLAIN then after else other, [path]))
  {
    SpellingIsList(path);
    LoadedIs(after, other, path);
    ReloadIs(after, [path], Holding(other));
  }

  /** Force-file at work, against a variable that holds another text: all that the central law asks for holds but
      for the text of the path. With the plain text the written value survives; with a padded text, which the update
      accepts just as well, it does not. */
  lemma {:induction false} ForceFileAtWork(before: string, after: string, other: string, path: string)
    requires '$' !in after && after != "bad" && other != "bad" && other != "" && other != after && IsSpelling(path)
    ensures Updated(Program(), ACCESS, File(before, []), Holding(other), Snapshot(after, []),
                    Options([path], FORCE_FILE), Outcome(Snapshot(after, [path]), Some(File(after, [path]))))
    ensures Segments(path) == MODE && MODE in Program().fields && WellFormedApp(Program())
    ensures Typed(Program(), Snapshot(after, [])) && Typed(Program(), Snapshot(after, [path]))
    ensures TextReaches(Program(), Holding(other), Snapshot(after, []), Options([path], FORCE_FILE), MODE) <==>
            path == PLAIN
    ensures PlainLeaf(Snapshot(after, [path])[MODE]) &&
            Settled(Program(), Holding(other), FORCE_FILE, MODE, Snapshot(after, [path]))
    ensures Rebuild(Program(), File(after, [path]), Holding(other)) ==
            Ok(Snapshot(if path == PLAIN then after else other, [path]))
  {
    IsUpdated(before, after, path, Holding(other));
    Spelling(path);
    ReachesIfPlain(after, Holding(other), path);
    PublishedIsSettled(after, Holding(other), path);
    ReloadAfter(after, other, path);
  }

  // ---------------------------------------------------------------- a padded path in runtime-env-only mode

  lemma {:induction false} SnapshotSet(before: string, v: string, list: seq<string>, key: Key)
    requires key == MODE
    ensures Snapshot(before, list)[key := Str(v)] == Snapshot(v, list)
  {
    KeysDiffer();
  }

  /** A path that a variable owns. */
  lemma {:induction false} TookFrom(app: App, access: Access, file: Node, env: Env, disabled: set<string>, c: Config,
                                    path: string, raw: string, d: Config)
    requires Segments(path) in app.fields && EnvValue(app, env, Segments(path)) == Some(raw)
    requires FromEnv(app, app.fields[Segments(path)].ty, raw) == Some(Str(raw)) && d == c[Segments(path) := Str(raw)]
    ensures TakeFromEnv(app, access, file, env, disabled, c, path) == Ok((d, true))
  {
  }

  lemma {:induction false} TookIs(before: string, v: string)
    requires v != ""
    ensures TakeFromEnv(Program(), ACCESS, File(before, [PLAIN]), Holding(v), DisabledSet([PLAIN]),
                        Snapshot(before, [PLAIN]), PADDED) ==
            Ok((Snapshot(v, [PLAIN]), true))
  {
    PaddedPath();
    VariableIs(v);
    SnapshotSet(before, v, [PLAIN], Segments(PADDED));
    TookFrom(Program(), ACCESS, File(before, [PLAIN]), Holding(v), DisabledSet([PLAIN]), Snapshot(before, [PLAIN]),
             PADDED, v, Snapshot(v, [PLAIN]));
  }

  lemma {:induction false} TakenOne(app: App, access: Access, file: Node, env: Env, disabled: set<string>, c: Config,
                                    path: string, d: Config)
    requires TakeFromEnv(app, access, file, env, disabled, c, path) == Ok((d, true))
    ensures TakeAllFromEnv(app, access, file, env, disabled, c, [path]) == Ok((d, {path}))
  {
    assert [path][..0] == [];
    assert TakeAllFromEnv(app, access, file, env, disabled, c, []) == Ok((c, {}));
    assert {} + {path} == {path};
  }

  lemma {:induction false} WithoutPadded()
    ensures Without([PADDED], {PADDED}) == [] && Without([PLAIN], {PADDED}) == [PLAIN]
  {
    PaddedPath();
    assert [PADDED][..0] == [] && [PLAIN][..0] == [];
    assert Without([], {PADDED}) == [];
  }

  lemma {:induction false} RuntimePrepare(app: App, access: Access, file: Node, env: Env, edited: Config, path: string,
                                          c: Config, list: seq<string>)
    requires WellFormedApp(app) && Typed(app, edited) && Typed(app, c) && Disabled(app, c) == list &&
             Disabled(app, edited) == list
    requires TakeAllFromEnv(app, access, file, env, DisabledSet(list), edited, [path]) == Ok((c, {path}))
    requires Normalize(list) == list && path !in list && Without([path], {path}) == [] && Without(list, {path}) == list
    ensures Prepare(app, access, file, env, edited, Options([path], RUNTIME_ENV_ONLY)) == Ok(Draft(c, [], false))
  {
    assert c[DISABLED := Strs(list)] == c;
  }

  lemma {:induction false} RuntimeDraftIs(before: string, v: string)
    requires v != ""
    ensures WellFormedApp(Program()) && Typed(Program(), Snapshot(before, [PLAIN]))
    ensures Prepare(Program(), ACCESS, File(before, [PLAIN]), Holding(v), Snapshot(before, [PLAIN]),
                    Options([PADDED], RUNTIME_ENV_ONLY)) ==
            Ok(Draft(Snapshot(v, [PLAIN]), [], false))
  {
    ProgramIsWellFormed();
    SnapshotIs(before, [PLAIN]);
    SnapshotIs(v, [PLAIN]);
    Spelling(PLAIN);
    PaddedPath();
    TookIs(before, v);
    TakenOne(Program(), ACCESS, File(before, [PLAIN]), Holding(v), DisabledSet([PLAIN]), Snapshot(before, [PLAIN]),
             PADDED, Snapshot(v, [PLAIN]));
    WithoutPadded();
    RuntimePrepare(Program(), ACCESS, File(before, [PLAIN]), Holding(v), Snapshot(before, [PLAIN]), PADDED,
                   Snapshot(v, [PLAIN]), [PLAIN]);
  }

  lemma {:induction false} RuntimePlanIs(before: string, v: string)
    requires v != "bad" && v != ""
    ensures Updated(Program(), ACCESS, File(before, [PLAIN]), Holding(v), Snapshot(before, [PLAIN]),
                    Options([PADDED], RUNTIME_ENV_ONLY), Outcome(Snapshot(v, [PLAIN]), None))
  {
    RuntimeDraftIs(before, v);
    Spelling(PLAIN);
    Spelling(PADDED);
    SnapshotValidates(v, [PLAIN]);
    PlanFrom(Program(), ACCESS, File(before, [PLAIN]), Holding(v), Snapshot(before, [PLAIN]),
             Options([PADDED], RUNTIME_ENV_ONLY), Draft(Snapshot(v, [PLAIN]), [], false), Snapshot(v, [PLAIN]),
               Ok(None));
    SpellingIsList(PLAIN);
    FileIs(before, [PLAIN]);
    ListReads(before, [PLAIN]);
    SnapshotIs(before, [PLAIN]);
  }

  /** Runtime-env-only with a padded path while the plain one is listed: the update publishes the variable's value, and
      the reload goes back to the file's. */
  lemma {:induction false} RuntimeEnvOnlyAtWork(before: string, v: string)
    requires '$' !in before && before != "bad" && v != "bad" && v != "" && v != before
    ensures Updated(Program(), ACCESS, File(before, [PLAIN]), Holding(v), Snapshot(before, [PLAIN]),
                    Options([PADDED], RUNTIME_ENV_ONLY), Outcome(Snapshot(v, [PLAIN]), None))
    ensures WellFormedApp(Program()) &&
            Rebuild(Program(), File(before, [PLAIN]), Holding(v)) == Ok(Snapshot(before, [PLAIN]))
    ensures MODE in Snapshot(v, [PLAIN]) && Snapshot(before, [PLAIN])[MODE] != Snapshot(v, [PLAIN])[MODE]
  {
    RuntimePlanIs(before, v);
    SnapshotIs(before, [PLAIN]);
    SnapshotIs(v, [PLAIN]);
    ReloadAfter(before, v, PLAIN);
  }

  // ---------------------------------------------------------------- an outside edit that is turned down

  function InStep(value: string): State {
    State(Some(Snapshot(value, [])), None, File(value, []), map[], [], [], false)
  }

  lemma {:induction false} LoadedIsFit(value: string)
    requires '$' !in value && value != "bad"
    ensures WellFormedApp(Program()) && Invariant(Program(), InStep(value))
  {
    EmptyList();
    FileIs(value, []);
    ListReads(value, []);
    NoVariable();
    ReloadIs(value, [], map[]);
    RebuildKeeps(Program(), File(value, []), map[], Snapshot(value, []), false);
  }

  /** A manager in step with its file; an outside edit with a bad value and another list; the edit is turned down, and
      the lists have parted. */
  lemma {:induction false} RejectedEditAtWork(value: string)
    requires '$' !in value && value != "bad"
    ensures WellFormedApp(Program()) && Invariant(Program(), InStep(value)) && GoodFile(File("bad", [PLAIN]))
    ensures Typed(Program(), Snapshot(value, []))
    ensures var after :=
            Next(Program(), Next(Program(), InStep(value), OutsideEdit(File("bad", [PLAIN]))), FileChanged);
            after.snapshot == Some(Snapshot(value, [])) && after.file == File("bad", [PLAIN])
    ensures !Synced(Program(), Snapshot(value, []), File("bad", [PLAIN]))
  {
    LoadedIsFit(value);
    Spelling(PLAIN);
    SpellingIsList(PLAIN);
    FileIs("bad", [PLAIN]);
    ListReads("bad", [PLAIN]);
    BadIsRejected([PLAIN]);
    EmptyList();
    ListReads(value, []);
    EditThenFileChanged(Program(), InStep(value), File("bad", [PLAIN]));
    RejectedEditStays(Program(), InStep(value), File("bad", [PLAIN]));
    OutsideEditPartsListsExactly(Program(), InStep(value), File("bad", [PLAIN]));
  }

  // ---------------------------------------------------------------- the default mode

  lemma {:induction false} RenameFree(before: string, after: string)
    requires '$' !in before
    ensures Apply(File(before, []), Rename(PLAIN, after), false) == Ok((File(after, []), [1, 1]))
  {
    Spelling(PLAIN);
    FileResolves(before, []);
    WritesAre(before, [], after, []);
    NoDollarIsPlain(before);
  }

  lemma {:induction false} UpdatesOfOne(app: App, access: Access, file: Node, env: Env, c: Config, mode: int, p: string)
    requires Typed(app, c)
    ensures PathUpdates(app, access, file, env, c, mode, [p]) ==
            match PathUpdate(app, access, file, env, c, mode, p) case Err(e) => Err(e) case Ok(u) => Ok([u])
  {
    assert [p][..0] == [];
    assert PathUpdates(app, access, file, env, c, mode, []) == Ok([]);
    match PathUpdate(app, access, file, env, c, mode, p)
    case Err(_) =>
    case Ok(u) => assert [] + [u] == [u];
  }

  lemma {:induction false} BatchOfOne(root: Node, u: Update, end: Node, p: Pos)
    requires Apply(root, u, false) == Ok((end, p))
    ensures ApplyAll(root, [u], false) == Ok((end, [p]))
  {
    assert [u][..0] == [] && [] + [p] == [p];
    assert ApplyAll(root, [], false) == Ok((root, []));
  }

  lemma {:induction false} RejectWrites(before: string, after: string)
    requires '$' !in before
    ensures Typed(Program(), Snapshot(after, []))
    ensures Persist(Program(), ACCESS, File(before, []), map[], Snapshot(after, []), REJECT, [PLAIN]) ==
            Ok(File(after, []))
  {
    SnapshotIs(after, []);
    Spelling(PLAIN);
    NoVariable();
    RenameFree(before, after);
    BatchOfOne(File(before, []), Rename(PLAIN, after), File(after, []), [1, 1]);
    UpdatesOfOne(Program(), ACCESS, File(before, []), map[], Snapshot(after, []), REJECT, PLAIN);
  }

  lemma {:induction false} RejectRefuses(before: string, after: string, other: string)
    requires other != ""
    ensures Typed(Program(), Snapshot(after, []))
    ensures Persist(Program(), ACCESS, File(before, []), Holding(other), Snapshot(after, []), REJECT, [PLAIN]) ==
            Err(ManagedByEnv(PLAIN))
  {
    SnapshotIs(after, []);
    Spelling(PLAIN);
    VariableIs(other);
    UpdatesOfOne(Program(), ACCESS, File(before, []), Holding(other), Snapshot(after, []), REJECT, PLAIN);
  }

  /** The default mode: where no variable is set the value is written and nothing else changes; against a variable that
      is set the update is refused. */
  lemma {:induction false} RejectAtWork(before: string, after: string, other: string)
    requires '$' !in before && after != "bad" && other != ""
    ensures WellFormedApp(Program()) && Typed(Program(), Snapshot(after, []))
    ensures Plan(Program(), ACCESS, File(before, []), map[], Snapshot(after, []), Options([PLAIN], REJECT)) ==
            Ok(Outcome(Snapshot(after, []), Some(File(after, []))))
    ensures Plan(Program(), ACCESS, File(before, []), Holding(other), Snapshot(after, []), Options([PLAIN], REJECT)) ==
            Err(ManagedByEnv(PLAIN))
  {
    ProgramIsWellFormed();
    SnapshotIs(after, []);
    EmptyList();
    SnapshotValidates(after, []);
    RejectWrites(before, after);
    RejectRefuses(before, after, other);
  }
}
