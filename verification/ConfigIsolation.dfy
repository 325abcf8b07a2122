/** When the environment cannot reach a setting: disabled paths, letter case, and two runs compared. */
module ConfigIsolation {
  import opened Text
  import opened PathLists
  import opened Placeholders
  import opened YamlTree
  import opened YamlUpdates
  import opened ConfigFile
  import opened ConfigModel
  import opened ConfigReload
  import opened ConfigLaws

  // ---------------------------------------------------------------- what substitution reads

  /** The path of the value at an odd place of a mapping. */
  function ValuePath(n: Node, path: string, i: nat): string
    requires 0 < i < |n.content|
  {
    SettingPath(path, Lower(n.content[i - 1].value))
  }

  /** Every string below either stands under a disabled path or holds no placeholder. */
  ghost predicate Sealed(n: Node, path: string, disabled: set<string>)
    decreases n
  {
    match n.kind
    case Scalar => n.tag != "!!str" || path in disabled || Plain(n.value)
    case Sequence => forall i :: 0 <= i < |n.content| ==> Sealed(n.content[i], path, disabled)
    case Mapping =>
      forall i :: 0 < i < |n.content| && i % 2 == 1 ==> Sealed(n.content[i], ValuePath(n, path, i), disabled)
  }

  lemma {:induction false} SealedIsSame(n: Node, path: string, disabled: set<string>, env: Env, env': Env)
    requires Sealed(n, path, disabled)
    ensures Process(n, path, disabled, env) == Process(n, path, disabled, env')
    decreases n
  {
    var a, b := Process(n, path, disabled, env), Process(n, path, disabled, env');
    match n.kind
    case Scalar =>
      if path in disabled {
        SubstituteWithoutEnvironment(n.value, env, env');
      } else if n.tag == "!!str" {
        SubstitutePlain(n.value, env, true);
        SubstitutePlain(n.value, env', true);
      }
    case Sequence =>
      forall i | 0 <= i < |n.content| ensures a.content[i] == b.content[i] {
        SealedIsSame(n.content[i], path, disabled, env, env');
      }
      assert a.content == b.content;
    case Mapping =>
      forall i | 0 <= i < |n.content| ensures a.content[i] == b.content[i] {
        if i % 2 == 1 {
          assert Sealed(n.content[i], ValuePath(n, path, i), disabled);
          SealedIsSame(n.content[i], ValuePath(n, path, i), disabled, env, env');
        }
      }
      assert a.content == b.content;
  }

  function Filler(n: nat): (r: string)
    ensures |r| == n
  {
    seq(n, i => 'x')
  }

  /** A string in the open makes a difference. */
  lemma {:induction false} OpenDiffers(n: Node, path: string, disabled: set<string>) returns (env: Env)
    requires !Sealed(n, path, disabled)
    ensures Process(n, path, disabled, env) != Process(n, path, disabled, map[])
    decreases n
  {
    match n.kind
    case Scalar =>
      var v := Filler(|n.value| + 1);
      var name := PlaceholderDepends(n.value, v);
      env := map[name := v];
    case Sequence =>
      var i :| 0 <= i < |n.content| && !Sealed(n.content[i], path, disabled);
      env := OpenDiffers(n.content[i], path, disabled);
      assert Process(n, path, disabled, env).content[i] != Process(n, path, disabled, map[]).content[i];
    case Mapping =>
      var i :| 0 < i < |n.content| && i % 2 == 1 && !Sealed(n.content[i], ValuePath(n, path, i), disabled);
      env := OpenDiffers(n.content[i], ValuePath(n, path, i), disabled);
      assert Process(n, path, disabled, env).content[i] != Process(n, path, disabled, map[]).content[i];
  }

  /** A setting is the same after substitution in every two environments exactly when it is sealed. */
  lemma SealedExactly(n: Node, path: string, disabled: set<string>)
    ensures Sealed(n, path, disabled) <==>
            forall env, env' :: Process(n, path, disabled, env) == Process(n, path, disabled, env')
  {
    if Sealed(n, path, disabled) {
      forall env, env' ensures Process(n, path, disabled, env) == Process(n, path, disabled, env') {
        SealedIsSame(n, path, disabled, env, env');
      }
    } else {
      var env := OpenDiffers(n, path, disabled);
    }
  }

  /** A disabled path seals a scalar or a list, if the list names it as the loader does: in lower case. */
  lemma {:induction false} DisabledIsSealed(n: Node, path: string, disabled: set<string>)
    requires Flat(n) && path in disabled
    ensures Sealed(n, path, disabled)
    decreases n
  {
    if n.kind == Sequence {
      forall i | 0 <= i < |n.content| ensures Sealed(n.content[i], path, disabled) {
        DisabledIsSealed(n.content[i], path, disabled);
      }
    }
  }

  // ---------------------------------------------------------------- two runs

  lemma {:induction false} StringItemsOfAll(items: seq<Node>)
    requires AllStrings(items)
    ensures |StringItems(items)| == |items|
    ensures forall i :: 0 <= i < |items| ==> StringItems(items)[i] == items[i].value
  {
    if items != [] {
      StringItemsOfAll(items[..|items| - 1]);
    }
  }

  lemma ProcessStrings(n: Node, path: string, disabled: set<string>, env: Env)
    requires n.kind == Sequence && AllStrings(n.content)
    ensures var m := Process(n, path, disabled, env);
            && m.kind == Sequence && m.tag == n.tag && |m.content| == |n.content| && AllStrings(m.content)
            && forall i :: 0 <= i < |n.content| ==>
                 m.content[i].value == Substitute(n.content[i].value, env, path !in disabled)
  {
    var m := Process(n, path, disabled, env);
    forall i | 0 <= i < |n.content|
      ensures m.content[i].kind == Scalar && m.content[i].tag == "!!str"
      ensures m.content[i].value == Substitute(n.content[i].value, env, path !in disabled)
    {
      assert m.content[i] == Process(n.content[i], path, disabled, env);
    }
  }

  /** A text that trims to a path without '$' is plain. */
  lemma PaddedPathIsPlain(y: string)
    requires '$' !in TrimSpace(y)
    ensures Plain(y)
  {
    if '$' in y {
      TrimKeeps(y, '$');
    }
    NoDollarIsPlain(y);
  }

  /** Substitution keeps the entries of a list that hold no '$'. */
  lemma SubstitutedListKeeps(n: Node, path: string, disabled: set<string>, env: Env, p: string)
    requires n.kind == Sequence && AllStrings(n.content)
    requires '$' !in p && p in Normalize(StringItems(n.content))
    ensures p in Normalize(StringItems(Process(n, path, disabled, env).content))
  {
    var items := StringItems(n.content);
    NormalizeMember(items, p);
    var i :| 0 <= i < |items| && TrimSpace(items[i]) == p;
    StringItemsOfAll(n.content);
    PaddedPathIsPlain(items[i]);
    SubstitutePlain(items[i], env, path !in disabled);
    ProcessStrings(n, path, disabled, env);
    var items' := StringItems(Process(n, path, disabled, env).content);
    StringItemsOfAll(Process(n, path, disabled, env).content);
    assert items'[i] == items[i];
    NormalizeMember(items', p);
  }

  /** A path that stands in the file's list is in the consulted set, in every environment. */
  lemma ListedPathConsulted(app: App, file: Node, env: Env, n: Node, p: string)
    requires WellFormedApp(app) && '$' !in p && p in Normalize(FileDisabled(file))
    requires LoadLookup(file, DISABLED) == Some(n) && n.kind == Sequence && n.tag != "!!null" && AllStrings(n.content)
    ensures FileLeaf(app, file, env, DISABLED).Some? && FileLeaf(app, file, env, DISABLED).value.Strs?
    ensures p in Normalize(FileLeaf(app, file, env, DISABLED).value.ss)
  {
    var disabled := DisabledSet(FileDisabled(file));
    FileLeafAt(app, file, env, DISABLED);
    SubstitutedListKeeps(n, SettingText(DISABLED), disabled, env, p);
    ProcessStrings(n, SettingText(DISABLED), disabled, env);
  }

  /** Two runs: the value loaded for a path in the file's disabled_paths is the same in any two environments, if the
      setting is sealed. The list shuts out the field's own variable by the path as the field spells it, and
      placeholders by the path in lower case. */
  lemma DisabledPathIgnoresEnvironment(app: App, file: Node, key: Key, n: Node, env: Env, env': Env, c: Config,
                                       c': Config)
    requires WellFormedApp(app) && key in app.fields && PathText(key) in Normalize(FileDisabled(file))
    requires LoadLookup(file, DISABLED) == Some(n) && n.kind == Sequence && n.tag != "!!null" && AllStrings(n.content)
    requires LoadLookup(file, key).Some? ==>
               Sealed(LoadLookup(file, key).value, SettingText(key), DisabledSet(FileDisabled(file)))
    requires Unvalidated(app, file, env) == Some(c) && Unvalidated(app, file, env') == Some(c')
    ensures c[key] == c'[key]
  {
    JoinChars(key, ".", '$');
    ListedPathConsulted(app, file, env, n, PathText(key));
    ListedPathConsulted(app, file, env', n, PathText(key));
    UnvalidatedAt(app, file, env, c, key);
    UnvalidatedAt(app, file, env', c', key);
    FileLeafAt(app, file, env, key);
    FileLeafAt(app, file, env', key);
    if LoadLookup(file, key).Some? {
      SealedIsSame(LoadLookup(file, key).value, SettingText(key), DisabledSet(FileDisabled(file)), env, env');
    }
  }

  /** For a field with a lower-case path, whose setting is a scalar or a list, the entry in the list is enough. */
  lemma LowerCasePathIgnoresEnvironment(app: App, file: Node, key: Key, n: Node, env: Env, env': Env, c: Config,
                                        c': Config)
    requires WellFormedApp(app) && key in app.fields && PathText(key) in Normalize(FileDisabled(file)) &&
             Fold(key) == key
    requires LoadLookup(file, DISABLED) == Some(n) && n.kind == Sequence && n.tag != "!!null" && AllStrings(n.content)
    requires LoadLookup(file, key).Some? ==> Flat(LoadLookup(file, key).value)
    requires Unvalidated(app, file, env) == Some(c) && Unvalidated(app, file, env') == Some(c')
    ensures c[key] == c'[key]
  {
    if LoadLookup(file, key).Some? {
      DisabledIsSealed(LoadLookup(file, key).value, SettingText(key), DisabledSet(FileDisabled(file)));
    }
    DisabledPathIgnoresEnvironment(app, file, key, n, env, env', c, c');
  }

  // ---------------------------------------------------------------- the loaded value, exactly

  /** A setting in the form that its field reads as text: a string, or a list of strings. */
  predicate ReadsAsText(ty: LeafType, n: Node) {
    && n.tag != "!!null"
    && ((ty.StringType? && n.kind == Scalar && n.tag == "!!str") ||
        (ty.StringsType? && n.kind == Sequence && AllStrings(n.content)))
  }

  lemma {:induction false} StringItemsTell(a: seq<Node>, b: seq<Node>)
    requires AllStrings(a) && AllStrings(b) && |a| == |b| && StringItems(a) == StringItems(b)
    ensures forall i :: 0 <= i < |a| ==> a[i].value == b[i].value
  {
    StringItemsOfAll(a);
    StringItemsOfAll(b);
    forall i | 0 <= i < |a| ensures a[i].value == b[i].value {
      assert StringItems(a)[i] == StringItems(b)[i];
    }
  }

  /** Decoding such a setting loses nothing of what substitution made of it. */
  lemma {:induction false} DecodeTells(app: App, ty: LeafType, n: Node, path: string, disabled: set<string>, env: Env,
                                       env': Env)
    requires ReadsAsText(ty, n)
    ensures Decode(app, ty, Process(n, path, disabled, env)) == Decode(app, ty, Process(n, path, disabled, env')) <==>
            Process(n, path, disabled, env) == Process(n, path, disabled, env')
  {
    var m, m' := Process(n, path, disabled, env), Process(n, path, disabled, env');
    if n.kind == Sequence {
      ProcessStrings(n, path, disabled, env);
      ProcessStrings(n, path, disabled, env');
      if StringItems(m.content) == StringItems(m'.content) {
        StringItemsTell(m.content, m'.content);
        forall i | 0 <= i < |n.content| ensures m.content[i] == m'.content[i] {
          assert m.content[i] == Process(n.content[i], path, disabled, env);
          assert m'.content[i] == Process(n.content[i], path, disabled, env');
        }
        assert m.content == m'.content;
      }
    }
  }

  lemma {:induction false} LeafTells(app: App, file: Node, key: Key, n: Node, env: Env, env': Env)
    requires WellFormedApp(app) && key in app.fields && LoadLookup(file, key) == Some(n)
    requires ReadsAsText(app.fields[key].ty, n)
    ensures var path, disabled := SettingText(key), DisabledSet(FileDisabled(file));
            FileLeaf(app, file, env, key) == FileLeaf(app, file, env', key) <==>
            Process(n, path, disabled, env) == Process(n, path, disabled, env')
  {
    FileLeafAt(app, file, env, key);
    FileLeafAt(app, file, env', key);
    DecodeTells(app, app.fields[key].ty, n, SettingText(key), DisabledSet(FileDisabled(file)), env, env');
  }

  /** What the file gives for a field is the same in every environment. */
  ghost predicate LeafIsFixed(app: App, file: Node, key: Key)
    requires key in app.fields
  {
    forall env, env' :: FileLeaf(app, file, env, key) == FileLeaf(app, file, env', key)
  }

  /** What the file gives for a field is the same in every environment exactly when the setting is sealed. */
  lemma {:induction false} LoadedSealedExactly(app: App, file: Node, key: Key, n: Node)
    requires WellFormedApp(app) && key in app.fields && LoadLookup(file, key) == Some(n)
    requires ReadsAsText(app.fields[key].ty, n)
    ensures LeafIsFixed(app, file, key) <==> Sealed(n, SettingText(key), DisabledSet(FileDisabled(file)))
  {
    var path, disabled := SettingText(key), DisabledSet(FileDisabled(file));
    if Sealed(n, path, disabled) {
      forall env, env' ensures FileLeaf(app, file, env, key) == FileLeaf(app, file, env', key) {
        SealedIsSame(n, path, disabled, env, env');
        LeafTells(app, file, key, n, env, env');
      }
    } else {
      var env := OpenDiffers(n, path, disabled);
      LeafTells(app, file, key, n, env, map[]);
    }
  }
}
