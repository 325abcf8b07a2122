/** What file and environment give for a field, said without the machinery that works it out: which variable speaks for
    a field, what its text is read as, what a placeholder in the file becomes, and what a missing setting is. */
module ConfigSources {
  import opened Text
  import opened PathLists
  import opened Placeholders
  import opened YamlTree
  import opened ConfigFile
  import opened ConfigModel
  import opened ConfigReload
  import opened ConfigLaws
  import opened ConfigLayers
  import opened ConfigRoundTrip
  import opened ConfigKeeping
  import opened ConfigRuns

  // ---------------------------------------------------------------- the variable of a field

  /** A tagged field takes the variable with the program's prefix if that is set and not empty, and else the variable of
      the very name in its tag. A name that has the prefix already is looked up once. */
  lemma {:induction false} VariableOfField(app: App, env: Env, key: Key, name: string)
    requires key in app.fields && app.envPrefix != ""
    requires TrimSpace(app.fields[key].envName) == name && name != "" && name != "-"
    ensures var prefixed := app.envPrefix + "_" + name;
            !(app.envPrefix + "_" <= name) ==>
              EnvValue(app, env, key) ==
                if prefixed in env && env[prefixed] != "" then Some(env[prefixed])
                else if name in env && env[name] != "" then Some(env[name])
                else None
    ensures app.envPrefix + "_" <= name ==>
              EnvValue(app, env, key) == if name in env && env[name] != "" then Some(env[name]) else None
  {
    var prefixed := app.envPrefix + "_" + name;
    assert |prefixed| > |name|;
    FirstOfOne(env, name);
    FirstOfTwo(env, prefixed, name);
  }

  lemma {:induction false} FirstOfOne(env: Env, a: string)
    ensures LookupFirst(env, [a]) == if a in env && env[a] != "" then Some(env[a]) else None
  {
    assert [a][1..] == [];
  }

  lemma {:induction false} FirstOfTwo(env: Env, a: string, b: string)
    ensures LookupFirst(env, [a, b]) ==
            if a in env && env[a] != "" then Some(env[a])
            else if b in env && env[b] != "" then Some(env[b])
            else None
  {
    FirstOfOne(env, b);
    assert [a, b][1..] == [b];
  }

  /** A field without a name in its tag, or with a dash, has no variable. */
  lemma {:induction false} UntaggedField(app: App, env: Env, key: Key)
    requires key in app.fields && TrimSpace(app.fields[key].envName) in {"", "-"}
    ensures EnvValue(app, env, key) == None
  {
  }

  // ---------------------------------------------------------------- the text of a variable

  /** The word in small letters, in capitals, or with a capital in front. */
  predicate IsSpellingOf(s: string, word: string)
    requires word != ""
  {
    s == word || s == Upper(word) || s == Upper(word[..1]) + word[1..]
  }

  lemma {:induction false} WordsInCapitals()
    ensures Upper("true") == "TRUE" && Upper("false") == "FALSE" && Upper("t") == "T" && Upper("f") == "F"
    ensures "true"[..1] == "t" && "true"[1..] == "rue" && "false"[..1] == "f" && "false"[1..] == "alse"
    ensures "t"[..1] == "t" && "t"[1..] == "" && "f"[..1] == "f" && "f"[1..] == ""
  {
  }

  /** A text is read as true exactly if it is the digit 1 or spells the word, or its first letter; as false likewise. */
  lemma {:induction false} FlagText(app: App, s: string)
    ensures FromEnv(app, BoolType, s) == Some(Bool(true)) <==>
            s == "1" || IsSpellingOf(s, "true") || IsSpellingOf(s, "t")
    ensures FromEnv(app, BoolType, s) == Some(Bool(false)) <==>
            s == "0" || IsSpellingOf(s, "false") || IsSpellingOf(s, "f")
    ensures FromEnv(app, BoolPtrType, s) == FromEnv(app, BoolType, s)
  {
    WordsInCapitals();
    assert "T" + "rue" == "True" && "F" + "alse" == "False" && "T" + "" == "T" && "F" + "" == "F";
  }

  /** A number in decimal digits, with or without a sign and zeros in front, is read as that number, if it fits. */
  lemma {:induction false} NumberText(app: App, bits: nat, zeros: nat, n: nat)
    ensures FromEnv(app, IntType(bits), Zeros(zeros) + Digits(n)) == if FitsBits(n, bits) then Some(Int(n)) else None
    ensures FromEnv(app, IntType(bits), "+" + (Zeros(zeros) + Digits(n))) ==
            if FitsBits(n, bits) then Some(Int(n)) else None
    ensures FromEnv(app, IntType(bits), "-" + (Zeros(zeros) + Digits(n))) ==
            if FitsBits(0 - n, bits) then Some(Int(0 - n)) else None
  {
    PaddedDecimal(zeros, n);
  }

  /** A list of texts with commas between them is read as the list of the trimmed texts, if none is blank. */
  lemma {:induction false} ListText(app: App, parts: seq<string>)
    requires parts != [] && forall i :: 0 <= i < |parts| ==> ',' !in parts[i] && TrimSpace(parts[i]) != ""
    ensures var r := FromEnv(app, StringsType, Join(parts, ","));
            && r.Some? && r.value.Strs? && |r.value.ss| == |parts|
            && forall i :: 0 <= i < |parts| ==> r.value.ss[i] == TrimSpace(parts[i])
  {
    SplitJoin(parts, ',');
    NoneBlank(parts);
  }

  lemma {:induction false} NoneBlank(parts: seq<string>)
    requires forall i :: 0 <= i < |parts| ==> TrimSpace(parts[i]) != ""
    ensures |NonBlank(parts)| == |parts|
    ensures forall i :: 0 <= i < |parts| ==> NonBlank(parts)[i] == TrimSpace(parts[i])
  {
    if parts != [] {
      var init := parts[..|parts| - 1];
      NoneBlank(init);
      assert NonBlank(parts) == NonBlank(init) + [TrimSpace(parts[|parts| - 1])];
    }
  }

  lemma {:induction false} NonBlankSnoc(parts: seq<string>, last: string)
    ensures NonBlank(parts + [last]) ==
            if TrimSpace(last) == "" then NonBlank(parts) else NonBlank(parts) + [TrimSpace(last)]
  {
    assert (parts + [last])[..|parts|] == parts;
  }

  lemma {:induction false} LastApart(a: seq<string>, b: seq<string>)
    requires b != []
    ensures a + b == (a + b[..|b| - 1]) + [b[|b| - 1]]
  {
  }

  /** A blank text anywhere among them is passed over. */
  lemma {:induction false} BlankIsPassedOver(a: seq<string>, blank: string, b: seq<string>)
    requires TrimSpace(blank) == ""
    ensures NonBlank(a + [blank] + b) == NonBlank(a + b)
    decreases |b|
  {
    if b == [] {
      NonBlankSnoc(a, blank);
      assert a + [blank] + b == a + [blank] && a + b == a;
    } else {
      var init, last := b[..|b| - 1], b[|b| - 1];
      BlankIsPassedOver(a, blank, init);
      NonBlankSnoc(a + [blank] + init, last);
      NonBlankSnoc(a + init, last);
      LastApart(a + [blank], b);
      LastApart(a, b);
    }
  }

  /** Texts of blanks alone, however many, are no list. */
  lemma {:induction false} BlanksAreNoList(app: App, parts: seq<string>)
    requires parts != [] && forall i :: 0 <= i < |parts| ==> ',' !in parts[i] && TrimSpace(parts[i]) == ""
    ensures FromEnv(app, StringsType, Join(parts, ",")) == None
  {
    SplitJoin(parts, ',');
    AllBlank(parts);
  }

  lemma {:induction false} AllBlank(parts: seq<string>)
    requires forall i :: 0 <= i < |parts| ==> TrimSpace(parts[i]) == ""
    ensures NonBlank(parts) == []
  {
    if parts != [] {
      AllBlank(parts[..|parts| - 1]);
    }
  }

  // ---------------------------------------------------------------- the setting in the file

  /** A string field, from a string in the file. */
  lemma {:induction false} TextLeaf(app: App, file: Node, env: Env, key: Key, text: string)
    requires WellFormedApp(app) && key in app.fields && app.fields[key].ty == StringType
    requires LoadLookup(file, key) == Some(StringNode(text))
    ensures FileLeaf(app, file, env, key) == Some(Str(Substitute(text, env, SettingText(key) !in Listed(file))))
  {
    FileLeafAt(app, file, env, key);
  }

  lemma {:induction false} HoleAmid(front: string, name: string, default: string, rest: string, env: Env,
                                    useEnvironment: bool)
    requires name != "" && '}' !in name && ':' !in name && '}' !in default && '$' !in front && '$' !in rest
    ensures Substitute(front + "${" + name + ":" + default + "}" + rest, env, useEnvironment) ==
            front + (if useEnvironment && name in env && env[name] != "" then env[name] else default) + rest
  {
    var hole := "${" + name + ":" + default + "}" + rest;
    assert front + "${" + name + ":" + default + "}" + rest == front + hole;
    SubstituteAfter(front, hole, env, useEnvironment);
    DefaultedHole(name, default, rest, env, useEnvironment);
    NoDollarIsPlain(rest);
    SubstitutePlain(rest, env, useEnvironment);
  }

  /** A string in the file with a placeholder in it, for a field whose path is not listed: the variable takes the
      placeholder's place if it is set and not empty, and the default does otherwise. */
  lemma {:induction false} HoleInFile(app: App, file: Node, env: Env, key: Key, front: string, name: string,
                                      default: string, rest: string)
    requires WellFormedApp(app) && key in app.fields && app.fields[key].ty == StringType
    requires name != "" && '}' !in name && ':' !in name && '}' !in default && '$' !in front && '$' !in rest
    requires LoadLookup(file, key) == Some(StringNode(front + "${" + name + ":" + default + "}" + rest))
    ensures SettingText(key) !in Listed(file) ==>
              FileLeaf(app, file, env, key) ==
                Some(Str(front + (if name in env && env[name] != "" then env[name] else default) + rest))
    ensures SettingText(key) in Listed(file) ==> FileLeaf(app, file, env, key) == Some(Str(front + default + rest))
  {
    TextLeaf(app, file, env, key, front + "${" + name + ":" + default + "}" + rest);
    HoleAmid(front, name, default, rest, env, SettingText(key) !in Listed(file));
  }

  /** No variable speaks for a field, or its text cannot be read in the field's type, or the path is listed. */
  ghost predicate NoVariableTakes(app: App, file: Node, env: Env, key: Key)
    requires key in app.fields
  {
    || EnvValue(app, env, key) == None
    || FromEnv(app, app.fields[key].ty, EnvValue(app, env, key).value) == None
    || (PlainDisabled(file) && PathText(key) in Listed(file))
  }

  /** Such a field is loaded as the file gives it. */
  lemma {:induction false} LoadedFromFile(app: App, file: Node, env: Env, key: Key, v: Leaf, c: Config)
    requires WellFormedApp(app) && key in app.fields && key != DISABLED
    requires FileLeaf(app, file, env, key) == Some(v) && NoVariableTakes(app, file, env, key) && Fixes(app, key, v)
    requires Rebuild(app, file, env) == Ok(c)
    ensures c[key] == v
  {
    var raw := RebuildAt(app, file, env, c);
    UnvalidatedAt(app, file, env, raw, key);
    if PlainDisabled(file) {
      PlainDisabledReads(app, file, env);
    }
    ValidateFixed(app, key, raw, c);
  }

  /** A string field that a variable owns, with a path that is not listed, is loaded as the text of the variable. */
  lemma {:induction false} LoadedFromVariable(app: App, file: Node, env: Env, key: Key, name: string, c: Config)
    requires WellFormedApp(app) && key in app.fields && app.fields[key].ty == StringType && app.envPrefix != ""
    requires TrimSpace(app.fields[key].envName) == name && name != "" && name != "-"
    requires !(app.envPrefix + "_" <= name) && app.envPrefix + "_" + name in env
    requires env[app.envPrefix + "_" + name] != "" && Fixes(app, key, Str(env[app.envPrefix + "_" + name]))
    requires PlainDisabled(file) && PathText(key) !in Listed(file) && Rebuild(app, file, env) == Ok(c)
    ensures c[key] == Str(env[app.envPrefix + "_" + name])
  {
    VariableOfField(app, env, key, name);
    var raw := RebuildAt(app, file, env, c);
    UnvalidatedAt(app, file, env, raw, key);
    PlainDisabledReads(app, file, env);
    ValidateFixed(app, key, raw, c);
  }

  /** A setting that the file lacks is the empty text, false, zero, the empty list, or nothing, by the field's type. */
  lemma {:induction false} MissingSetting(app: App, file: Node, env: Env, key: Key)
    requires WellFormedApp(app) && key in app.fields && LoadLookup(file, key) == None
    ensures var leaf := FileLeaf(app, file, env, key);
            && (app.fields[key].ty == StringType ==> leaf == Some(Str("")))
            && (app.fields[key].ty == BoolType ==> leaf == Some(Bool(false)))
            && (app.fields[key].ty == BoolPtrType ==> leaf == Some(NilPtr))
            && (app.fields[key].ty.IntType? ==> leaf == Some(Int(0)))
            && (app.fields[key].ty == StringsType ==> leaf == Some(Strs([])))
  {
    FileLeafAt(app, file, env, key);
  }

  /** So is a setting that is written as null. */
  lemma {:induction false} NullSetting(app: App, file: Node, env: Env, key: Key, text: string)
    requires WellFormedApp(app) && key in app.fields && LoadLookup(file, key) == Some(Node(Scalar, "!!null", text, []))
    ensures var leaf := FileLeaf(app, file, env, key);
            && (app.fields[key].ty == StringType ==> leaf == Some(Str("")))
            && (app.fields[key].ty == BoolType ==> leaf == Some(Bool(false)))
            && (app.fields[key].ty == BoolPtrType ==> leaf == Some(NilPtr))
            && (app.fields[key].ty.IntType? ==> leaf == Some(Int(0)))
            && (app.fields[key].ty == StringsType ==> leaf == Some(Strs([])))
  {
    ScalarLeaf(app, file, env, key, Node(Scalar, "!!null", text, []));
  }

  lemma {:induction false} BlankAddsNothing(path: string, blank: string)
    requires (forall i :: 0 <= i < |blank| ==> IsSpace(blank[i])) && path != ""
    ensures SettingPath(path, Lower(blank)) == path
  {
    forall c | c in Lower(blank) ensures IsSpace(c) {
      var i :| 0 <= i < |blank| && Lower(blank)[i] == c;
      assert IsSpace(blank[i]);
    }
    TrimBlank(Lower(blank));
  }

  lemma {:induction false} PairProcessed(key: string, n: Node, path: string, disabled: set<string>, env: Env)
    ensures Process(Node(Mapping, "!!map", "", [KeyNode(key), n]), path, disabled, env) ==
            Node(Mapping, "!!map", "", [KeyNode(key), Process(n, SettingPath(path, Lower(key)), disabled, env)])
  {
    var pair := Node(Mapping, "!!map", "", [KeyNode(key), n]);
    assert Process(pair, path, disabled, env).content ==
      [KeyNode(key), Process(n, SettingPath(path, Lower(key)), disabled, env)];
  }

  /** A setting under a blank key counts to the path of the mapping that it is in: if that is listed, a placeholder in
      it takes its default. */
  lemma {:induction false} BlankKeyIsInside(path: string, blank: string, name: string, default: string, env: Env,
                                            disabled: set<string>)
    requires (forall i :: 0 <= i < |blank| ==> IsSpace(blank[i])) && path in disabled && path != ""
    requires name != "" && '}' !in name && ':' !in name && '}' !in default
    ensures var hole := StringNode("${" + name + ":" + default + "}");
            Process(Node(Mapping, "!!map", "", [KeyNode(blank), hole]), path, disabled, env) ==
            Node(Mapping, "!!map", "", [KeyNode(blank), StringNode(default)])
  {
    var text := "${" + name + ":" + default + "}";
    BlankAddsNothing(path, blank);
    DefaultedHole(name, default, "", env, false);
    assert text + "" == text && default + "" == default;
    PairProcessed(blank, StringNode(text), path, disabled, env);
  }

  lemma {:induction false} ScalarLeaf(app: App, file: Node, env: Env, key: Key, n: Node)
    requires WellFormedApp(app) && key in app.fields && LoadLookup(file, key) == Some(n)
    requires n.kind == Scalar && n.tag != "!!str"
    ensures FileLeaf(app, file, env, key) == Decode(app, app.fields[key].ty, n)
  {
    FileLeafAt(app, file, env, key);
  }

  lemma {:induction false} DecodedFlag(app: App, b: bool)
    ensures Decode(app, BoolType, Node(Scalar, "!!bool", if b then "true" else "false", [])) == Some(Bool(b))
  {
  }

  /** What is written as a flag is read as that flag. */
  lemma {:induction false} FlagSetting(app: App, file: Node, env: Env, key: Key, b: bool)
    requires WellFormedApp(app) && key in app.fields && app.fields[key].ty == BoolType
    requires LoadLookup(file, key) == Some(Node(Scalar, "!!bool", if b then "true" else "false", []))
    ensures FileLeaf(app, file, env, key) == Some(Bool(b))
  {
    ScalarLeaf(app, file, env, key, Node(Scalar, "!!bool", if b then "true" else "false", []));
    DecodedFlag(app, b);
  }

  lemma {:induction false} DecodedNumber(app: App, bits: nat, number: int)
    requires FitsBits(number, bits)
    ensures Decode(app, IntType(bits), Node(Scalar, "!!int", FormatInt(number), [])) == Some(Int(number))
  {
    ParseFormatted(number, bits);
  }

  /** What is written as a number is read as that number. */
  lemma {:induction false} NumberSetting(app: App, file: Node, env: Env, key: Key, number: int)
    requires WellFormedApp(app) && key in app.fields && app.fields[key].ty.IntType?
    requires FitsBits(number, app.fields[key].ty.bits)
    requires LoadLookup(file, key) == Some(Node(Scalar, "!!int", FormatInt(number), []))
    ensures FileLeaf(app, file, env, key) == Some(Int(number))
  {
    ScalarLeaf(app, file, env, key, Node(Scalar, "!!int", FormatInt(number), []));
    DecodedNumber(app, app.fields[key].ty.bits, number);
  }

  // ---------------------------------------------------------------- files that are refused

  /** The keys of a mapping are scalars, and no two are the same. */
  ghost predicate HasFitKeys(n: Node) {
    && (forall i :: 0 <= i < |n.content| && i % 2 == 0 ==> n.content[i].kind == Scalar)
    && (forall i, j :: 0 <= i < j < |n.content| && i % 2 == 0 && j % 2 == 0 ==>
        n.content[i].value != n.content[j].value)
  }

  lemma {:induction false} ReadableAt(n: Node, p: Pos)
    requires Readable(n) && HasPos(n, p)
    ensures Readable(At(n, p))
    decreases |p|
  {
    if p != [] {
      ReadableAt(n.content[p[0]], p[1..]);
    }
  }

  lemma {:induction false} ReadableIfFit(n: Node)
    requires forall p :: HasPos(n, p) && At(n, p).kind == Mapping ==> HasFitKeys(At(n, p))
    ensures Readable(n)
    decreases n
  {
    assert At(n, []) == n;
    forall i | 0 <= i < |n.content| ensures Readable(n.content[i]) {
      forall p | HasPos(n.content[i], p) && At(n.content[i], p).kind == Mapping
        ensures HasFitKeys(At(n.content[i], p))
      {
        assert ([i] + p)[1..] == p && HasPos(n, [i] + p) && At(n, [i] + p) == At(n.content[i], p);
      }
      ReadableIfFit(n.content[i]);
    }
  }

  ghost predicate IsUnfitAt(n: Node, p: Pos) {
    HasPos(n, p) && At(n, p).kind == Mapping && !HasFitKeys(At(n, p))
  }

  lemma {:induction false} ReadableExactly(n: Node)
    ensures Readable(n) <==> !exists p :: IsUnfitAt(n, p)
  {
    if Readable(n) {
      forall p | HasPos(n, p) && At(n, p).kind == Mapping ensures !IsUnfitAt(n, p) {
        ReadableAt(n, p);
      }
    } else if !exists p :: IsUnfitAt(n, p) {
      forall p | HasPos(n, p) && At(n, p).kind == Mapping ensures HasFitKeys(At(n, p)) {
        assert !IsUnfitAt(n, p);
      }
      ReadableIfFit(n);
    }
  }

  /** A file is refused by the reader exactly if it is no mapping, or has a mapping anywhere with a key that is no
      scalar or comes twice. */
  lemma {:induction false} RefusedExactly(app: App, file: Node, env: Env)
    requires WellFormedApp(app)
    ensures Rebuild(app, file, env) == Err(ReadFailed) <==> file.kind != Mapping || exists p :: IsUnfitAt(file, p)
  {
    ReadableExactly(file);
  }

  // ---------------------------------------------------------------- what the manager publishes

  /** What a first load publishes is what file and environment amount to; so it is for a file change, at any time. */
  lemma {:induction false} FirstLoadAndFileChange(app: App, s: State, c: Config)
    requires WellFormedApp(app) && Rebuild(app, s.file, s.env) == Ok(c)
    ensures s.layer == None ==> AfterLoad(app, s).snapshot == Some(c)
    ensures AfterFileChanged(app, s).snapshot == Some(c)
  {
  }

  /** So a first load, and any handled file change that is accepted, publish for a string field with a placeholder the
      variable's text, or else the default. */
  lemma {:induction false} HoleIsPublished(app: App, s: State, key: Key, front: string, name: string, default: string,
                                           rest: string, c: Config)
    requires WellFormedApp(app) && key in app.fields && app.fields[key].ty == StringType && key != DISABLED
    requires name != "" && '}' !in name && ':' !in name && '}' !in default && '$' !in front && '$' !in rest
    requires LoadLookup(s.file, key) == Some(StringNode(front + "${" + name + ":" + default + "}" + rest))
    requires SettingText(key) !in Listed(s.file) && NoVariableTakes(app, s.file, s.env, key)
    requires Fixes(app, key, Str(front + (if name in s.env && s.env[name] != "" then s.env[name] else default) + rest))
    requires Rebuild(app, s.file, s.env) == Ok(c)
    ensures c[key] == Str(front + (if name in s.env && s.env[name] != "" then s.env[name] else default) + rest)
    ensures s.layer == None ==> AfterLoad(app, s).snapshot == Some(c)
    ensures AfterFileChanged(app, s).snapshot == Some(c)
  {
    HoleInFile(app, s.file, s.env, key, front, name, default, rest);
    LoadedFromFile(app, s.file, s.env, key,
                   Str(front + (if name in s.env && s.env[name] != "" then s.env[name] else default) + rest), c);
    FirstLoadAndFileChange(app, s, c);
  }
}
