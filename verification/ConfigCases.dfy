/** Cases outside what one would expect of the configuration engine, on the program of the examples. */
module ConfigCases {
  import opened Text
  import opened PathLists
  import opened Placeholders
  import opened YamlTree
  import opened YamlUpdates
  import opened ConfigFile
  import opened ConfigModel
  import opened ConfigReload
  import opened ConfigLaws
  import opened ConfigLayers
  import opened ConfigKeeping
  import opened ConfigSources
  import opened ConfigRuns
  import opened ConfigExample

  // ---------------------------------------------------------------- a listed path with capitals

  const HOLE := "${X}"

  /** An environment with the placeholder's variable alone. */
  function Filling(v: string): Env {
    map["X" := v]
  }

  lemma {:induction false} HoleIsFilled(v: string)
    requires v != ""
    ensures Substitute(HOLE, Filling(v), true) == v
  {
    NamedHole("X", "", Filling(v), true);
    assert "${" + "X" + "}" + "" == HOLE && v + "" == v;
  }

  lemma {:induction false} CapitalIsLowered(s: string, i: nat)
    requires i < |s| && LowerChar(s[i]) != s[i]
    ensures Lower(s) != s
  {
    assert Lower(s)[i] == LowerChar(s[i]);
  }

  /** The loader does not know a setting under the text of a key that has a capital. */
  lemma {:induction false} FoldedTextDiffers(key: Key, i: nat, text: string)
    requires Canonical(key) && i < |key| && Lower(key[i]) != key[i] && Segments(text) == key
    ensures SettingText(key) != text
  {
    if SettingText(key) == text {
      SegmentsBelow(key, text);
    }
  }

  lemma {:induction false} FoldedPathDiffers()
    ensures SettingText(MODE) != PLAIN
  {
    NamesAreCanonical();
    PlainPath();
    ModeHasCapital();
    FoldedTextDiffers(MODE, 1, PLAIN);
  }

  lemma {:induction false} ModeHasCapital()
    ensures Lower(MODE[1]) != MODE[1]
  {
    CapitalIsLowered("sslMode", 3);
  }

  lemma {:induction false} OnlyThePlaceholder(v: string)
    ensures MODE in Program().fields && EnvValue(Program(), Filling(v), MODE) == None
  {
    KeysDiffer();
    TrimFixed("MODE");
    var prefixed := PrefixJoin("APP", "MODE");
    assert |prefixed| >= 4 && |"MODE"| == 4 && |"X"| == 1;
    assert [prefixed, "MODE"][1..] == ["MODE"] && ["MODE"][1..] == [] && [prefixed][1..] == [];
    assert LookupFirst(Filling(v), ["MODE"]) == None;
  }

  lemma {:induction false} OnlyPlainIsListed(p: string)
    ensures p in DisabledSet([PLAIN]) <==> p == PLAIN
  {
    SpellingIsList(PLAIN);
  }

  lemma {:induction false} HoleLoads(v: string)
    requires v != "" && WellFormedApp(Program())
    ensures MODE in Program().fields
    ensures FileLeaf(Program(), File(HOLE, [PLAIN]), Filling(v), MODE) == Some(Str(v))
  {
    SnapshotIs("", []);
    SpellingIsList(PLAIN);
    FileIs(HOLE, [PLAIN]);
    ListReads(HOLE, [PLAIN]);
    FoldedPathDiffers();
    OnlyPlainIsListed(SettingText(MODE));
    TextLeaf(Program(), File(HOLE, [PLAIN]), Filling(v), MODE, HOLE);
    HoleIsFilled(v);
  }

  lemma {:induction false} ListLoads(value: string, list: seq<string>, env: Env)
    requires WellFormedApp(Program()) && IsList(list)
    ensures DISABLED in Program().fields
    ensures FileLeaf(Program(), File(value, list), env, DISABLED) == Some(Strs(list))
  {
    ListReads(value, list);
    PlainDisabledReads(Program(), File(value, list), env);
  }

  /** The path is in the list as the field spells it, and the setting still takes what the environment holds: the
      file loads differently in any two environments with different values. */
  lemma {:induction false} CapitalsAtWork(v: string)
    requires v != "" && v != "bad"
    ensures WellFormedApp(Program()) && PathText(MODE) in Normalize(FileDisabled(File(HOLE, [PLAIN])))
    ensures Rebuild(Program(), File(HOLE, [PLAIN]), Filling(v)) == Ok(Snapshot(v, [PLAIN]))
  {
    ProgramIsWellFormed();
    PlainPath();
    SpellingIsList(PLAIN);
    FileIs(HOLE, [PLAIN]);
    ListReads(HOLE, [PLAIN]);
    HoleLoads(v);
    ListLoads(HOLE, [PLAIN], Filling(v));
    OnlyThePlaceholder(v);
    UnvalidatedOf(File(HOLE, [PLAIN]), v, [PLAIN], Filling(v));
    SnapshotValidates(v, [PLAIN]);
  }

  // ---------------------------------------------------------------- a second load

  /** A mapping whose values substitution leaves alone. */
  lemma {:induction false} ProcessMapping(n: Node, path: string, disabled: set<string>, env: Env)
    requires n.kind == Mapping
    requires forall i, q :: 0 <= i < |n.content| && i % 2 == 1 ==>
             Process(n.content[i], q, disabled, env) == n.content[i]
    ensures Process(n, path, disabled, env) == n
  {
    assert Process(n, path, disabled, env).content == n.content;
  }

  lemma {:induction false} ProcessSection(key: string, value: Node, path: string, env: Env, disabled: set<string>)
    requires forall q :: Process(value, q, disabled, env) == value
    ensures Process(Section(key, value), path, disabled, env) == Section(key, value)
  {
    var n := Section(key, value);
    forall i, q | 0 <= i < |n.content| && i % 2 == 1 ensures Process(n.content[i], q, disabled, env) == n.content[i] {
      assert i == 1;
    }
    ProcessMapping(n, path, disabled, env);
  }

  lemma {:induction false} ProcessSections(a: string, x: Node, b: string, y: Node, env: Env, disabled: set<string>)
    requires forall q :: Process(x, q, disabled, env) == x
    requires forall q :: Process(y, q, disabled, env) == y
    ensures Process(Sections(a, x, b, y), "", disabled, env) == Sections(a, x, b, y)
  {
    var n := Sections(a, x, b, y);
    forall i, q | 0 <= i < |n.content| && i % 2 == 1 ensures Process(n.content[i], q, disabled, env) == n.content[i] {
      assert i == 1 || i == 3;
    }
    ProcessMapping(n, "", disabled, env);
  }

  /** The layer that a load of a file without placeholders leaves is the file. */
  lemma {:induction false} LayerIs(value: string, env: Env)
    requires '$' !in value
    ensures LayerAfter(File(value, []), env) == File(value, [])
  {
    var disabled := DisabledSet(FileDisabled(File(value, [])));
    var text, list := StringNode(value), ListNode([]);
    NoDollarIsPlain(value);
    forall q ensures Process(text, q, disabled, env) == text {
      SubstitutePlain(value, env, q !in disabled);
    }
    forall q ensures Process(list, q, disabled, env) == list {
      assert Process(list, q, disabled, env).content == list.content;
    }
    forall q ensures Process(Section("sslMode", text), q, disabled, env) == Section("sslMode", text) {
      ProcessSection("sslMode", text, q, env, disabled);
    }
    forall q ensures Process(Section("disabled_paths", list), q, disabled, env) == Section("disabled_paths", list) {
      ProcessSection("disabled_paths", list, q, env, disabled);
    }
    ProcessSections("db", Section("sslMode", text), "env_override", Section("disabled_paths", list), env, disabled);
  }

  lemma {:induction false} OverlaySection(key: string, x: Node, y: Node)
    requires x.kind != Mapping
    ensures Overlay(Section(key, x), Section(key, y)) == Section(key, x)
  {
    var over, under := Section(key, x), Section(key, y);
    assert LoadIndex(under.content, key, 0) == Some(1) && LoadIndex(over.content, key, 0) == Some(1);
    assert Rest(over.content, under.content, 2) == [];
    assert Rest(over.content, under.content, 0) == [];
    assert Merged(over, under) == over.content;
    assert over.content + [] == over.content;
  }

  lemma {:induction false} OverlaySections(a: string, x: Node, x': Node, b: string, y: Node, y': Node)
    requires Lower(a) != Lower(b) && Overlay(x, x') == x && Overlay(y, y') == y
    ensures Overlay(Sections(a, x, b, y), Sections(a, x', b, y')) == Sections(a, x, b, y)
  {
    var over, under := Sections(a, x, b, y), Sections(a, x', b, y');
    SectionsLookUp(a, x, b, y);
    SectionsLookUp(a, x', b, y');
    assert Rest(over.content, under.content, 4) == [];
    assert Rest(over.content, under.content, 2) == [];
    assert Rest(over.content, under.content, 0) == [];
    assert Merged(over, under) == over.content;
    assert over.content + [] == over.content;
  }

  /** What a second load sees is what the first one saw. */
  lemma {:induction false} SettingsAre(before: string, after: string, list: seq<string>)
    ensures Settings(Some(File(before, [])), File(after, list)) == File(before, [])
  {
    SectionsDiffer();
    OverlaySection("sslMode", StringNode(before), StringNode(after));
    OverlaySection("disabled_paths", ListNode([]), ListNode(list));
    OverlaySections("db", Section("sslMode", StringNode(before)), Section("sslMode", StringNode(after)),
                    "env_override", Section("disabled_paths", ListNode([])), Section("disabled_paths", ListNode(list)));
  }

  /** The manager after its first load. */
  function LoadedOnce(value: string): State {
    State(Some(Snapshot(value, [])), Some(File(value, [])), File(value, []), map[], [],
          [Published(Snapshot(value, []))], false)
  }

  lemma {:induction false} FirstLoad(value: string)
    requires '$' !in value && value != "bad"
    ensures WellFormedApp(Program()) && AfterLoad(Program(), Start(File(value, []), map[])) == LoadedOnce(value)
  {
    EmptyList();
    NoVariable();
    FileIs(value, []);
    ReloadIs(value, [], map[]);
    LayerIs(value, map[]);
    assert [] + [Published(Snapshot(value, []))] == [Published(Snapshot(value, []))];
  }

  /** An update function that sets the one field. */
  function Setting(value: string): Config -> Config {
    c => c[MODE := Str(value)]
  }

  lemma {:induction false} ForcedUpdate(before: string, after: string)
    requires after != "bad"
    ensures WellFormedApp(Program()) && Typed(Program(), Setting(after)(Snapshot(before, [])))
    ensures UpdateOutcome(Program(), LoadedOnce(before), Setting(after), Options([PLAIN], FORCE_FILE), ACCESS) ==
            Ok(Outcome(Snapshot(after, [PLAIN]), Some(File(after, [PLAIN]))))
  {
    assert Snapshot(before, [])[MODE := Str(after)] == Snapshot(after, []);
    Spelling(PLAIN);
    PlanIs(before, after, PLAIN, map[]);
  }

  lemma {:induction false} SecondLoad(before: string, after: string, s: State)
    requires '$' !in before && before != "bad" && WellFormedApp(Program())
    requires s.layer == Some(File(before, [])) && s.file == File(after, [PLAIN]) && s.env == map[]
    ensures AfterLoad(Program(), s).snapshot == Some(Snapshot(before, []))
  {
    EmptyList();
    NoVariable();
    FileIs(before, []);
    FileIs(after, [PLAIN]);
    SettingsAre(before, after, [PLAIN]);
    ReloadIs(before, [], map[]);
  }

  /** Load, a force-file update, and Load again on the same manager: the second load publishes what the first one saw.
      The value that was written is gone from memory, and so is the path from the list. */
  lemma {:induction false} SecondLoadAtWork(before: string, after: string)
    requires '$' !in before && before != "bad" && after != "bad"
    ensures WellFormedApp(Program()) && Typed(Program(), Setting(after)(Snapshot(before, [])))
    ensures Typed(Program(), Snapshot(before, []))
    ensures var loaded := AfterLoad(Program(), Start(File(before, []), map[]));
            var updated :=
              AfterUpdate(Program(), LoadedOnce(before), Setting(after), Options([PLAIN], FORCE_FILE), ACCESS);
            && loaded == LoadedOnce(before)
            && updated.snapshot == Some(Snapshot(after, [PLAIN])) && updated.file == File(after, [PLAIN])
            && AfterLoad(Program(), updated).snapshot == Some(Snapshot(before, []))
    ensures !Synced(Program(), Snapshot(before, []), File(after, [PLAIN]))
  {
    FirstLoad(before);
    ForcedUpdate(before, after);
    SnapshotIs(before, []);
    SpellingIsList(PLAIN);
    ListReads(after, [PLAIN]);
    SecondLoad(before, after,
               UpdatedWith(LoadedOnce(before), Outcome(Snapshot(after, [PLAIN]), Some(File(after, [PLAIN])))));
  }

  // ---------------------------------------------------------------- a placeholder that is let in

  const NUMBER := "${X:1}"

  lemma {:induction false} NumberFilled(v: string)
    requires v != ""
    ensures Substitute(NUMBER, Filling(v), true) == v && Substitute(NUMBER, Filling(v), false) == "1"
  {
    DefaultedHole("X", "1", "", Filling(v), true);
    DefaultedHole("X", "1", "", Filling(v), false);
    assert "${" + "X" + ":" + "1" + "}" + "" == NUMBER && v + "" == v && "1" + "" == "1";
  }

  /** A number with a default, whose path is in the list, in any program that reads "1" as a number and some other text
      not at all: it decodes as long as the path is in the list. Once runtime-env-only takes the path off, the
      placeholder takes the variable's text, and the file does not decode any more. */
  lemma {:induction false} PlaceholderOpens(app: App, file: Node, key: Key, v: string)
    requires WellFormedApp(app) && key in app.fields && app.fields[key].ty == IntType(64) && v != ""
    requires app.weakDecode(IntType(64), StringNode("1")) == Some(Int(1))
    requires app.weakDecode(IntType(64), StringNode(v)) == None
    requires LoadLookup(file, key) == Some(StringNode(NUMBER)) && SettingText(key) in Listed(file)
    ensures FileLeaf(app, file, Filling(v), key) == Some(Int(1))
    ensures OpenedLeaf(app, file, {SettingText(key)}, Filling(v), key) == None
  {
    FileLeafAt(app, file, Filling(v), key);
    NumberFilled(v);
  }
}
