/** The configuration snapshot, how it is rebuilt from file and environment, and how an update is planned. */
module ConfigModel {
  import opened Text
  import opened PathLists
  import opened Placeholders
  import opened YamlTree
  import opened ConfigFile

  // ---------------------------------------------------------------- the snapshot

  /** The type of a configuration field. `OtherType` stands for fields that are read but never written
      back, such as the list of executor pools. */
  datatype LeafType = StringType | BoolType | BoolPtrType | IntType(bits: nat) | StringsType | OtherType

  datatype Leaf = Str(s: string) | Bool(b: bool) | Int(n: int) | Strs(ss: seq<string>) | NilPtr | Other(text: string)

  predicate HasType(v: Leaf, ty: LeafType) {
    match ty
    case StringType => v.Str?
    case BoolType => v.Bool?
    case BoolPtrType => v.Bool? || v.NilPtr?
    case IntType(bits) => v.Int? && FitsBits(v.n, bits)
    case StringsType => v.Strs?
    case OtherType => v.Other?
  }

  function Zero(ty: LeafType): (v: Leaf)
    ensures HasType(v, ty)
  {
    match ty
    case StringType => Str("")
    case BoolType => Bool(false)
    case BoolPtrType => NilPtr
    case IntType(bits) => Int(0)
    case StringsType => Strs([])
    case OtherType => Other("")
  }

  /** A field: its type and its environment variable tag ("" or "-" for none). */
  datatype Field = Field(ty: LeafType, envName: string)

  type Config = map<Key, Leaf>

  /** The parts of the program that the engine takes as given: the configuration structure, the prefix of
      environment variable names, the loader's lenient conversions, and the section validators. */
  datatype App = App(
    fields: map<Key, Field>,
    envPrefix: string,
    weakDecode: (LeafType, Node) -> Option<Leaf>,
    envDecode: string -> Option<Leaf>,
    validate: Config -> Option<Config>)

  const DISABLED: Key := ["env_override", "disabled_paths"]
  const DISABLED_PATH := "env_override" + "." + "disabled_paths"

  predicate Typed(app: App, c: Config) {
    c.Keys == app.fields.Keys && forall k :: k in c ==> HasType(c[k], app.fields[k].ty)
  }

  /** The leaves of a structure: keys are canonical, and none lies inside another, even for the loader, which does
      not see letter case. */
  ghost predicate WellFormedApp(app: App) {
    && (forall k :: k in app.fields ==> Canonical(k))
    && (forall j, k {:trigger FoldApart(j, k)} :: j in app.fields && k in app.fields && j != k ==> FoldApart(j, k))
    && DISABLED in app.fields && app.fields[DISABLED] == Field(StringsType, "")
    && (forall ty, n :: app.weakDecode(ty, n).Some? ==> HasType(app.weakDecode(ty, n).value, ty))
    && (forall raw :: app.envDecode(raw).Some? ==> HasType(app.envDecode(raw).value, OtherType))
    && (forall c {:trigger app.validate(c)} :: Typed(app, c) && app.validate(c).Some? ==>
        Typed(app, app.validate(c).value))
  }

  function Disabled(app: App, c: Config): seq<string>
    requires Typed(app, c) && DISABLED in app.fields && app.fields[DISABLED].ty == StringsType
  {
    c[DISABLED].ss
  }

  /** The paths of a list as the set that is consulted. */
  function DisabledSet(paths: seq<string>): set<string> {
    set p | p in Normalize(paths)
  }

  /** Config.Validate: the section validators, and the normal form of disabled_paths. */
  function Validate(app: App, c: Config): (r: Option<Config>)
    requires WellFormedApp(app) && Typed(app, c)
    ensures r.Some? ==> Typed(app, r.value) && Disabled(app, r.value) == Normalize(Disabled(app, c))
  {
    match app.validate(c)
    case None => None
    case Some(d) => Some(d[DISABLED := Strs(Normalize(Disabled(app, c)))])
  }

  // ---------------------------------------------------------------- environment variables

  function PrefixJoin(prefix: string, name: string): string {
    if prefix == "" || HasPrefix(name, prefix + "_") then name else prefix + "_" + name
  }

  /** The names under which a variable is looked up, the prefixed one first. */
  function Candidates(prefix: string, name: string): seq<string> {
    var prefixed := PrefixJoin(prefix, name);
    if prefixed == name then [name] else [prefixed, name]
  }

  /** The first candidate that is set and not empty. */
  function LookupFirst(env: Env, names: seq<string>): (r: Option<string>)
    ensures r.Some? ==> r.value != ""
  {
    if names == [] then None
    else if Getenv(env, names[0]) != "" then Some(env[names[0]])
    else LookupFirst(env, names[1..])
  }

  /** The variable that a field is tagged with. */
  function EnvTag(app: App, key: Key): Option<string>
    requires key in app.fields
  {
    var name := TrimSpace(app.fields[key].envName);
    if name == "" || name == "-" then None else Some(name)
  }

  /** The value that the environment currently holds for a field. */
  function EnvValue(app: App, env: Env, key: Key): Option<string>
    requires key in app.fields
  {
    match EnvTag(app, key)
    case None => None
    case Some(name) => LookupFirst(env, Candidates(app.envPrefix, name))
  }

  function ParseBool(s: string): Option<bool> {
    if s in {"1", "t", "T", "TRUE", "true", "True"} then Some(true)
    else if s in {"0", "f", "F", "FALSE", "false", "False"} then Some(false)
    else None
  }

  /** splitEnvList: the trimmed parts between commas that are not blank. */
  function NonBlank(parts: seq<string>): seq<string> {
    if parts == [] then []
    else
      var init := NonBlank(parts[..|parts| - 1]);
      var last := TrimSpace(parts[|parts| - 1]);
      if last == "" then init else init + [last]
  }

  /** setValueFromEnv: the field's value read from the text of a variable, if it can be. */
  function FromEnv(app: App, ty: LeafType, raw: string): Option<Leaf> {
    match ty
    case StringType => Some(Str(raw))
    case BoolType => (match ParseBool(raw) case None => None case Some(b) => Some(Bool(b)))
    case BoolPtrType => (match ParseBool(raw) case None => None case Some(b) => Some(Bool(b)))
    case IntType(bits) => (match ParseInt(raw, bits) case None => None case Some(n) => Some(Int(n)))
    case StringsType =>
      var values := NonBlank(Split(raw, ','));
      if values == [] then None else Some(Strs(values))
    case OtherType => app.envDecode(raw)
  }

  /** overrideStructFields at one field. A value that does not parse leaves the field alone. */
  function OverrideLeaf(app: App, env: Env, disabled: set<string>, key: Key, v: Leaf): Leaf
    requires key in app.fields
  {
    match EnvValue(app, env, key)
    case None => v
    case Some(raw) =>
      if PathText(key) in disabled then v
      else
        match FromEnv(app, app.fields[key].ty, raw)
        case None => v
        case Some(w) => w
  }

  function Override(app: App, env: Env, disabled: set<string>, c: Config): Config
    requires c.Keys == app.fields.Keys
  {
    map k | k in c :: OverrideLeaf(app, env, disabled, k, c[k])
  }

  // ---------------------------------------------------------------- placeholder substitution

  function SettingPath(base: string, key: string): string {
    var k := TrimSpace(key);
    if base == "" then k else if k == "" then base else base + "." + k
  }

  /** processValue: the setting below a path, with placeholders replaced in its strings. A path that is
      disabled takes defaults only. */
  function Process(n: Node, path: string, disabled: set<string>, env: Env): Node
    decreases n
  {
    match n.kind
    case Scalar =>
      if n.tag == "!!str" then n.(value := Substitute(n.value, env, path !in disabled)) else n
    case Sequence =>
      n.(content := seq(|n.content|, i requires 0 <= i < |n.content| => Process(n.content[i], path, disabled, env)))
    case Mapping =>
      n.(content := seq(|n.content|, i requires 0 <= i < |n.content| =>
        if i % 2 == 0 then n.content[i]
        else Process(n.content[i], SettingPath(path, Lower(n.content[i - 1].value)), disabled, env)))
  }

  /** The strings among the items of a sequence. */
  function StringItems(items: seq<Node>): seq<string> {
    if items == [] then []
    else
      var init := StringItems(items[..|items| - 1]);
      var last := items[|items| - 1];
      if last.kind == Scalar && last.tag == "!!str" then init + [last.value] else init
  }

  /** The strings that a setting holds as a list, none if it is missing or no list. */
  function ListItems(setting: Option<Node>): seq<string> {
    match setting
    case None => []
    case Some(n) => if n.kind == Sequence then StringItems(n.content) else []
  }

  /** The paths that the file itself disables, as written. */
  function FileDisabled(file: Node): seq<string> {
    ListItems(LoadLookup(file, DISABLED))
  }

  // ---------------------------------------------------------------- rebuilding the snapshot

  predicate AllStrings(items: seq<Node>) {
    forall i :: 0 <= i < |items| ==> items[i].kind == Scalar && items[i].tag == "!!str"
  }

  /** A field's value from its node: the exact forms that the writer produces, and the loader's lenient
      conversions for everything else. */
  function Decode(app: App, ty: LeafType, n: Node): Option<Leaf> {
    if n.tag == "!!null" then Some(Zero(ty))
    else if ty.StringType? && n.kind == Scalar && n.tag == "!!str" then Some(Str(n.value))
    else if (ty.BoolType? || ty.BoolPtrType?) && n.kind == Scalar && n.tag == "!!bool" &&
      n.value in {"true", "false"} then
      Some(Bool(n.value == "true"))
    else if ty.IntType? && n.kind == Scalar && n.tag == "!!int" && ParseInt(n.value, ty.bits).Some?
         && FormatInt(ParseInt(n.value, ty.bits).value) == n.value then
      Some(Int(ParseInt(n.value, ty.bits).value))
    else if ty.StringsType? && n.kind == Sequence && AllStrings(n.content) then Some(Strs(StringItems(n.content)))
    else app.weakDecode(ty, n)
  }

  function FileLeaf(app: App, file: Node, env: Env, key: Key): Option<Leaf>
    requires key in app.fields
  {
    match LoadLookup(Process(file, "", DisabledSet(FileDisabled(file)), env), key)
    case None => Some(Zero(app.fields[key].ty))
    case Some(n) => Decode(app, app.fields[key].ty, n)
  }

  lemma DecodeTyped(app: App, ty: LeafType, n: Node)
    requires WellFormedApp(app) && Decode(app, ty, n).Some?
    ensures HasType(Decode(app, ty, n).value, ty)
  {
  }

  lemma FileLeafTyped(app: App, file: Node, env: Env, key: Key)
    requires WellFormedApp(app) && key in app.fields && FileLeaf(app, file, env, key).Some?
    ensures HasType(FileLeaf(app, file, env, key).value, app.fields[key].ty)
  {
    match LoadLookup(Process(file, "", DisabledSet(FileDisabled(file)), env), key)
    case None =>
    case Some(n) => DecodeTyped(app, app.fields[key].ty, n);
  }

  lemma FromEnvTyped(app: App, ty: LeafType, raw: string)
    requires WellFormedApp(app) && FromEnv(app, ty, raw).Some?
    ensures HasType(FromEnv(app, ty, raw).value, ty)
  {
  }

  lemma OverrideTyped(app: App, env: Env, disabled: set<string>, c: Config)
    requires WellFormedApp(app) && Typed(app, c)
    ensures Typed(app, Override(app, env, disabled, c))
  {
    forall k | k in c
      ensures HasType(OverrideLeaf(app, env, disabled, k, c[k]), app.fields[k].ty)
    {
      var raw := EnvValue(app, env, k);
      if raw.Some? && FromEnv(app, app.fields[k].ty, raw.value).Some? {
        FromEnvTyped(app, app.fields[k].ty, raw.value);
      }
    }
  }

  /** Decoded fields with the environment laid over them: the snapshot before validation. */
  function Unvalidated(app: App, file: Node, env: Env): (r: Option<Config>)
    requires WellFormedApp(app)
    ensures r.Some? ==> Typed(app, r.value)
  {
    if forall k :: k in app.fields ==> FileLeaf(app, file, env, k).Some? then
      var c := map k | k in app.fields :: FileLeaf(app, file, env, k).value;
      assert Typed(app, c) by {
        forall k | k in c ensures HasType(c[k], app.fields[k].ty) {
          FileLeafTyped(app, file, env, k);
        }
      }
      OverrideTyped(app, env, DisabledSet(Disabled(app, c)), c);
      Some(Override(app, env, DisabledSet(Disabled(app, c)), c))
    else None
  }

  lemma UnvalidatedFrom(app: App, settings: Node, env: Env, c: Config)
    requires WellFormedApp(app) && Typed(app, c)
    requires forall k :: k in app.fields ==> FileLeaf(app, settings, env, k) == Some(c[k])
    ensures Unvalidated(app, settings, env) == Some(Override(app, env, DisabledSet(Disabled(app, c)), c))
    ensures Typed(app, Override(app, env, DisabledSet(Disabled(app, c)), c))
  {
    assert (map k | k in app.fields :: FileLeaf(app, settings, env, k).value) == c;
    OverrideTyped(app, env, DisabledSet(Disabled(app, c)), c);
  }

  /** The YAML reader refuses a mapping with a repeated key or a key that is not a scalar. */
  predicate Readable(n: Node)
    decreases n
  {
    && (n.kind == Mapping ==>
          && (forall i :: 0 <= i < |n.content| && i % 2 == 0 ==> n.content[i].kind == Scalar)
          && (forall i, j :: 0 <= i < j < |n.content| && i % 2 == 0 && j % 2 == 0 ==>
              n.content[i].value != n.content[j].value))
    && forall i :: 0 <= i < |n.content| ==> Readable(n.content[i])
  }

  datatype LoadError = ReadFailed | UnmarshalFailed | ValidationFailed

  /** The loader reads a mapping without repeated keys. */
  predicate CanRead(file: Node) {
    file.kind == Mapping && Readable(file)
  }

  /** The second half of a load: decoding, the environment, validation. */
  function Settle(app: App, settings: Node, env: Env): (r: Result<Config, LoadError>)
    requires WellFormedApp(app)
    ensures r.Ok? ==> Typed(app, r.value)
  {
    match Unvalidated(app, settings, env)
    case None => Err(UnmarshalFailed)
    case Some(c) =>
      match Validate(app, c)
      case None => Err(ValidationFailed)
      case Some(d) => Ok(d)
  }

  /** The snapshot that file and environment amount to, for a loader that holds nothing else. */
  function Rebuild(app: App, file: Node, env: Env): (r: Result<Config, LoadError>)
    requires WellFormedApp(app)
    ensures r.Ok? ==> Typed(app, r.value)
  {
    if !CanRead(file) then Err(ReadFailed) else Settle(app, file, env)
  }

  // ---------------------------------------------------------------- planning an update

  const REJECT := 0
  const FORCE_FILE := 1
  const RUNTIME_ENV_ONLY := 2

  /** The paths to write back and what to do about fields that the environment owns. */
  datatype Options = Options(paths: seq<string>, mode: int)

  /** What is known of the file: its path is set, it has a YAML extension, it can be written. */
  datatype Access = Access(hasPath: bool, isYaml: bool, writable: bool)

  datatype UpdateError =
    | NotLoaded
    | NoConfigPath
    | NotYaml
    | RootNotMapping
    | UnsupportedMode
    | Invalid
    | ManagedByEnv(path: string)
    | MissingRuntimeEnv(path: string)
    | UnknownKey(path: string)
    | NilValue(path: string)
    | NotPersistable(path: string)
    | CannotSet(path: string)
    | Yaml(error: Error)
    | WriteFailed

  /** The value of the variable that currently owns a path, if one does. */
  function ActiveEnv(app: App, env: Env, path: string): Option<string> {
    if Segments(path) in app.fields then EnvValue(app, env, Segments(path)) else None
  }

  function HasFilePlaceholder(access: Access, file: Node, path: string): Result<bool, UpdateError> {
    if !access.hasPath then Err(NoConfigPath)
    else if !access.isYaml then Err(NotYaml)
    else if file.kind != Mapping then Err(RootNotMapping)
    else
      match Resolve(file, Segments(path))
      case Err(e) => Err(Yaml(e))
      case Ok(p) => Ok(ContainsPlaceholder(At(file, p)))
  }

  function IsEnvManaged(app: App, access: Access, file: Node, env: Env, path: string): Result<bool, UpdateError> {
    if ActiveEnv(app, env, path).Some? then Ok(true) else HasFilePlaceholder(access, file, path)
  }

  /** applyRuntimeEnvOnlyPersistPaths, one path: a path that the environment owns takes its value from there. */
  function TakeFromEnv(app: App, access: Access, file: Node, env: Env, disabled: set<string>, c: Config, path: string)
    : Result<(Config, bool), UpdateError>
  {
    match IsEnvManaged(app, access, file, env, path)
    case Err(e) => Err(e)
    case Ok(managed) =>
      if !managed && path !in disabled then Ok((c, false))
      else
        match ActiveEnv(app, env, path)
        case None => Err(MissingRuntimeEnv(path))
        case Some(raw) =>
          match FromEnv(app, app.fields[Segments(path)].ty, raw)
          case None => Err(CannotSet(path))
          case Some(v) => Ok((c[Segments(path) := v], true))
  }

  /** The same for a list of paths: the edited snapshot and the paths that were taken from the environment. */
  function TakeAllFromEnv(app: App, access: Access, file: Node, env: Env, disabled: set<string>, c: Config,
                          paths: seq<string>)
    : (r: Result<(Config, set<string>), UpdateError>)
  {
    if paths == [] then Ok((c, {}))
    else
      var path := paths[|paths| - 1];
      match TakeAllFromEnv(app, access, file, env, disabled, c, paths[..|paths| - 1])
      case Err(e) => Err(e)
      case Ok((d, taken)) =>
        match TakeFromEnv(app, access, file, env, disabled, d, path)
        case Err(e) => Err(e)
        case Ok((d', took)) => Ok((d', if took then taken + {path} else taken))
  }

  lemma {:induction false} TakeAllTyped(app: App, access: Access, file: Node, env: Env, disabled: set<string>,
                                        c: Config, paths: seq<string>)
    requires WellFormedApp(app) && Typed(app, c)
    requires TakeAllFromEnv(app, access, file, env, disabled, c, paths).Ok?
    ensures Typed(app, TakeAllFromEnv(app, access, file, env, disabled, c, paths).value.0)
  {
    if paths != [] {
      var init := paths[..|paths| - 1];
      TakeAllTyped(app, access, file, env, disabled, c, init);
      var d := TakeAllFromEnv(app, access, file, env, disabled, c, init).value.0;
      TakeTyped(app, access, file, env, disabled, d, paths[|paths| - 1]);
    }
  }

  lemma TakeTyped(app: App, access: Access, file: Node, env: Env, disabled: set<string>, c: Config, path: string)
    requires WellFormedApp(app) && Typed(app, c) && TakeFromEnv(app, access, file, env, disabled, c, path).Ok?
    ensures Typed(app, TakeFromEnv(app, access, file, env, disabled, c, path).value.0)
  {
    if TakeFromEnv(app, access, file, env, disabled, c, path).value.1 {
      var key := Segments(path);
      var raw := ActiveEnv(app, env, path).value;
      assert key in app.fields;
      FromEnvTyped(app, app.fields[key].ty, raw);
    }
  }

  /** What is to be validated and then written: the candidate snapshot, the paths to write, and whether
      disabled_paths is written as well. */
  datatype Draft = Draft(config: Config, paths: seq<string>, metadata: bool)

  /** The part of Update between the caller's edit and validation. */
  function Prepare(app: App, access: Access, file: Node, env: Env, edited: Config, opts: Options)
    : (r: Result<Draft, UpdateError>)
    requires WellFormedApp(app) && Typed(app, edited)
    ensures r.Ok? ==> Typed(app, r.value.config)
  {
    if opts.paths == [] then Ok(Draft(edited, [], false))
    else if opts.mode == RUNTIME_ENV_ONLY then
      var disabled := Disabled(app, edited);
      match TakeAllFromEnv(app, access, file, env, DisabledSet(disabled), edited, opts.paths)
      case Err(e) => Err(e)
      case Ok((c, taken)) =>
        TakeAllTyped(app, access, file, env, DisabledSet(disabled), edited, opts.paths);
        var current := Disabled(app, c);
        var next := if taken == {} then current else Without(Normalize(current), taken);
        Ok(Draft(c[DISABLED := Strs(next)], Without(opts.paths, taken),
                 exists p :: p in taken && p in Normalize(current)))
    else if opts.mode == FORCE_FILE then
      var current := Disabled(app, edited);
      var next := Normalize(current + opts.paths);
      Ok(Draft(edited[DISABLED := Strs(next)], opts.paths, next != Normalize(current)))
    else Ok(Draft(edited, opts.paths, false))
  }

  /** yamlScalarUpdateFromConfigValue. */
  function UpdateFor(path: string, v: Leaf): Result<Update, UpdateError> {
    match v
    case Str(s) => Ok(Update(StringKind, path, s, [], false))
    case Bool(b) => Ok(Update(BoolKind, path, if b then "true" else "false", [], false))
    case Int(n) => Ok(Update(IntKind, path, FormatInt(n), [], false))
    case Strs(ss) => Ok(Update(StringSliceKind, path, "", ss, path == DISABLED_PATH))
    case NilPtr => Err(NilValue(path))
    case Other(_) => Err(NotPersistable(path))
  }

  /** The update that writes one path back, if the path may be written. */
  function PathUpdate(app: App, access: Access, file: Node, env: Env, c: Config, mode: int, path: string)
    : Result<Update, UpdateError>
    requires Typed(app, c)
  {
    if mode != FORCE_FILE && ActiveEnv(app, env, path).Some? then Err(ManagedByEnv(path))
    else
      var managed := if mode == RUNTIME_ENV_ONLY then HasFilePlaceholder(access, file, path) else Ok(false);
      match managed
      case Err(e) => Err(e)
      case Ok(m) =>
        if m then Err(MissingRuntimeEnv(path))
        else if Segments(path) !in app.fields then Err(UnknownKey(path))
        else UpdateFor(path, c[Segments(path)])
  }

  function PathUpdates(app: App, access: Access, file: Node, env: Env, c: Config, mode: int, paths: seq<string>)
    : (r: Result<seq<Update>, UpdateError>)
    requires Typed(app, c)
    ensures r.Ok? ==> |r.value| == |paths|
  {
    if paths == [] then Ok([])
    else
      match PathUpdates(app, access, file, env, c, mode, paths[..|paths| - 1])
      case Err(e) => Err(e)
      case Ok(us) =>
        match PathUpdate(app, access, file, env, c, mode, paths[|paths| - 1])
        case Err(e) => Err(e)
        case Ok(u) => Ok(us + [u])
  }

  /** persistConfigUpdate: the rewritten file. */
  function Persist(app: App, access: Access, file: Node, env: Env, c: Config, mode: int, paths: seq<string>)
    : Result<Node, UpdateError>
    requires Typed(app, c)
  {
    if !access.hasPath then Err(NoConfigPath)
    else if !(REJECT <= mode <= RUNTIME_ENV_ONLY) then Err(UnsupportedMode)
    else
      match PathUpdates(app, access, file, env, c, mode, paths)
      case Err(e) => Err(e)
      case Ok(us) =>
        if !access.isYaml then Err(NotYaml)
        else if file.kind != Mapping then Err(RootNotMapping)
        else
          match ApplyAll(file, us, mode == FORCE_FILE)
          case Err(e) => Err(Yaml(e))
          case Ok((tree, _)) => if access.writable then Ok(tree) else Err(WriteFailed)
  }

  /** The outcome of an update: the snapshot to publish and, if anything is written back, the new file. */
  datatype Outcome = Outcome(published: Config, written: Option<Node>)

  /** The paths that a draft writes back. */
  function WriteList(draft: Draft): seq<string> {
    if draft.metadata then draft.paths + [DISABLED_PATH] else draft.paths
  }

  /** What the writing half of an update comes to. */
  function Writing(app: App, access: Access, file: Node, env: Env, c: Config, mode: int, writes: seq<string>)
    : Result<Option<Node>, UpdateError>
    requires Typed(app, c)
  {
    if writes == [] then Ok(None)
    else
      match Persist(app, access, file, env, c, mode, writes)
      case Err(e) => Err(e)
      case Ok(tree) => Ok(Some(tree))
  }

  /** Everything that Update decides before it publishes. */
  function Plan(app: App, access: Access, file: Node, env: Env, edited: Config, opts: Options)
    : (r: Result<Outcome, UpdateError>)
    requires WellFormedApp(app) && Typed(app, edited)
    ensures r.Ok? ==> Typed(app, r.value.published)
  {
    match Prepare(app, access, file, env, edited, opts)
    case Err(e) => Err(e)
    case Ok(draft) =>
      match Validate(app, draft.config)
      case None => Err(Invalid)
      case Some(c) =>
        match Writing(app, access, file, env, c, opts.mode, WriteList(draft))
        case Err(e) => Err(e)
        case Ok(written) => Ok(Outcome(c, written))
  }

  /** The stages of an update, put together. */
  lemma PlanFrom(app: App, access: Access, file: Node, env: Env, edited: Config, opts: Options, draft: Draft, c: Config,
                 written: Result<Option<Node>, UpdateError>)
    requires WellFormedApp(app) && Typed(app, edited) && Prepare(app, access, file, env, edited, opts) == Ok(draft)
    requires Validate(app, draft.config) == Some(c) &&
             written == Writing(app, access, file, env, c, opts.mode, WriteList(draft))
    ensures Plan(app, access, file, env, edited, opts) ==
            match written case Err(e) => Err(e) case Ok(w) => Ok(Outcome(c, w))
  {
  }
}
