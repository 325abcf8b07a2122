/** The loader's own memory. A load puts every setting it has processed on top of the file, so that a second load on
    the same manager sees the first one's settings before the file's. */
module ConfigLayers {
  import opened Text
  import opened PathLists
  import opened Placeholders
  import opened YamlTree
  import opened ConfigFile
  import opened ConfigModel
  import opened ConfigReload
  import opened ConfigLaws

  // ---------------------------------------------------------------- one tree on top of another

  /** The pairs of the lower mapping whose keys the upper one lacks. */
  function Rest(over: seq<Node>, under: seq<Node>, from: nat): seq<Node>
    decreases |under| - from
  {
    if from + 1 >= |under| then []
    else if under[from].kind == Scalar && LoadIndex(over, under[from].value, 0).Some? then Rest(over, under, from + 2)
    else [under[from], under[from + 1]] + Rest(over, under, from + 2)
  }

  /** The settings of the upper tree, and below them those of the lower one that it lacks. */
  function Overlay(over: Node, under: Node): Node
    decreases over
  {
    if over.kind == Mapping && under.kind == Mapping then
      over.(content := Merged(over, under) + Rest(over.content, under.content, 0))
    else over
  }

  /** The upper mapping, each of its values over the lower one's under the same key. */
  function Merged(over: Node, under: Node): (r: seq<Node>)
    ensures |r| == |over.content|
    decreases over, 0
  {
    seq(|over.content|, i requires 0 <= i < |over.content| =>
      if i % 2 == 0 then over.content[i]
      else
        match LoadIndex(under.content, over.content[i - 1].value, 0)
        case None => over.content[i]
        case Some(j) => Overlay(over.content[i], under.content[j]))
  }

  lemma {:induction false} LoadIndexConcat(a: seq<Node>, b: seq<Node>, segment: string, from: nat)
    requires |a| % 2 == 0 && from % 2 == 0 && from <= |a|
    ensures LoadIndex(a + b, segment, from) ==
            if LoadIndex(a, segment, from).Some? then LoadIndex(a, segment, from)
            else match LoadIndex(b, segment, 0) case None => None case Some(i) => Some(|a| + i)
    decreases |a| - from
  {
    if from < |a| {
      LoadIndexConcat(a, b, segment, from + 2);
    } else {
      LoadIndexShift(a, b, segment, 0);
    }
  }

  lemma {:induction false} LoadIndexShift(a: seq<Node>, b: seq<Node>, segment: string, from: nat)
    ensures LoadIndex(a + b, segment, |a| + from) ==
            match LoadIndex(b, segment, from) case None => None case Some(i) => Some(|a| + i)
    decreases |b| - from
  {
    if from + 1 < |b| && !IsFoldedKey(b[from], segment) {
      LoadIndexShift(a, b, segment, from + 2);
    }
  }

  /** A key that the upper mapping lacks is found among the rest as in the lower mapping. */
  lemma {:induction false} RestIndex(over: seq<Node>, under: seq<Node>, segment: string, from: nat)
    requires LoadIndex(over, segment, 0).None?
    ensures LoadIndex(Rest(over, under, from), segment, 0).Some? <==> LoadIndex(under, segment, from).Some?
    ensures LoadIndex(under, segment, from).Some? ==>
              Rest(over, under, from)[LoadIndex(Rest(over, under, from), segment, 0).value] ==
              under[LoadIndex(under, segment, from).value]
    decreases |under| - from
  {
    if from + 1 < |under| {
      RestIndex(over, under, segment, from + 2);
      if IsFoldedKey(under[from], segment) {
        LoadIndexFolds(over, under[from].value, segment, 0);
      } else if !(under[from].kind == Scalar && LoadIndex(over, under[from].value, 0).Some?) {
        LoadIndexShift([under[from], under[from + 1]], Rest(over, under, from + 2), segment, 0);
      }
    }
  }

  /** One level of a lookup in the overlay. */
  lemma {:induction false} OverlayIndex(over: Node, under: Node, segment: string)
    requires over.kind == Mapping && under.kind == Mapping && |over.content| % 2 == 0
    ensures var content := Overlay(over, under).content;
            match LoadIndex(over.content, segment, 0)
            case Some(i) => LoadIndex(content, segment, 0) == Some(i) && content[i] == Merged(over, under)[i]
            case None =>
              && (LoadIndex(content, segment, 0).Some? <==> LoadIndex(under.content, segment, 0).Some?)
              && (LoadIndex(under.content, segment, 0).Some? ==>
                    content[LoadIndex(content, segment, 0).value] ==
                      under.content[LoadIndex(under.content, segment, 0).value])
  {
    var merged, rest := Merged(over, under), Rest(over.content, under.content, 0);
    LoadIndexSameKeys(over.content, merged, segment, 0);
    LoadIndexConcat(merged, rest, segment, 0);
    if LoadIndex(over.content, segment, 0).None? {
      RestIndex(over.content, under.content, segment, 0);
    }
  }

  /** The upper tree leaves the key to the lower one: its mappings lead to a place where the key is missing. */
  predicate LeavesOpen(n: Node, key: Key)
    decreases |key|
  {
    key != [] && n.kind == Mapping &&
    match LoadIndex(n.content, key[0], 0)
    case None => true
    case Some(i) => LeavesOpen(n.content[i], key[1..])
  }

  lemma {:induction false} OpenMisses(n: Node, key: Key)
    requires LeavesOpen(n, key)
    ensures LoadLookup(n, key) == None
    decreases |key|
  {
    match LoadIndex(n.content, key[0], 0)
    case None =>
    case Some(i) => OpenMisses(n.content[i], key[1..]);
  }

  lemma {:induction false} StepLacking(over: Node, under: Node, key: Key)
    requires WellFormed(over) && over.kind == Mapping && under.kind == Mapping && key != []
    requires LoadIndex(over.content, key[0], 0).None?
    ensures LoadLookup(Overlay(over, under), key) == LoadLookup(under, key)
  {
    OverlayIndex(over, under, key[0]);
    LookupStep(under, key);
    LookupStep(Overlay(over, under), key);
  }

  lemma {:induction false} StepHaving(over: Node, under: Node, key: Key, i: nat)
    requires WellFormed(over) && over.kind == Mapping && under.kind == Mapping && key != []
    requires LoadIndex(over.content, key[0], 0) == Some(i)
    ensures LoadLookup(Overlay(over, under), key) ==
            match LoadIndex(under.content, key[0], 0)
            case None => LoadLookup(over.content[i], key[1..])
            case Some(j) => LoadLookup(Overlay(over.content[i], under.content[j]), key[1..])
  {
    OverlayIndex(over, under, key[0]);
    LookupStep(Overlay(over, under), key);
    LoadIndexFolds(under.content, over.content[i - 1].value, key[0], 0);
  }

  /** One level of a lookup through both trees. */
  lemma {:induction false} OverlayStep(over: Node, under: Node, key: Key)
    requires WellFormed(over) && over.kind == Mapping && under.kind == Mapping && key != []
    ensures LoadLookup(Overlay(over, under), key) ==
            match (LoadIndex(over.content, key[0], 0), LoadIndex(under.content, key[0], 0))
            case (None, _) => LoadLookup(under, key)
            case (Some(i), None) => LoadLookup(over.content[i], key[1..])
            case (Some(i), Some(j)) => LoadLookup(Overlay(over.content[i], under.content[j]), key[1..])
  {
    match LoadIndex(over.content, key[0], 0)
    case None => StepLacking(over, under, key);
    case Some(i) => StepHaving(over, under, key, i);
  }

  /** A value of the upper tree stands. */
  lemma {:induction false} OverlayHas(over: Node, under: Node, key: Key)
    requires WellFormed(over) && LoadLookup(over, key).Some? && LoadLookup(over, key).value.kind != Mapping
    ensures LoadLookup(Overlay(over, under), key) == LoadLookup(over, key)
    decreases |key|
  {
    if key != [] && under.kind == Mapping {
      OverlayStep(over, under, key);
      LookupStep(over, key);
      var i, j := LoadIndex(over.content, key[0], 0).value, LoadIndex(under.content, key[0], 0);
      if j.Some? {
        OverlayHas(over.content[i], under.content[j.value], key[1..]);
      }
    }
  }

  /** A key that the upper tree leaves open shows the lower tree's value. */
  lemma {:induction false} OverlayOpen(over: Node, under: Node, key: Key)
    requires WellFormed(over) && LeavesOpen(over, key)
    ensures LoadLookup(Overlay(over, under), key) == LoadLookup(under, key)
    decreases |key|
  {
    OpenMisses(over, key);
    if under.kind == Mapping {
      OverlayStep(over, under, key);
      LookupStep(over, key);
      LookupStep(under, key);
      var i, j := LoadIndex(over.content, key[0], 0), LoadIndex(under.content, key[0], 0);
      if i.Some? && j.Some? {
        OverlayOpen(over.content[i.value], under.content[j.value], key[1..]);
      }
    }
  }

  /** A value of the upper tree on the way to the key hides what lies below. */
  lemma {:induction false} OverlayBlocked(over: Node, under: Node, key: Key)
    requires WellFormed(over) && LoadLookup(over, key).None? && !LeavesOpen(over, key)
    ensures LoadLookup(Overlay(over, under), key) == None
    decreases |key|
  {
    if over.kind == Mapping && under.kind == Mapping {
      OverlayStep(over, under, key);
      LookupStep(over, key);
      var i, j := LoadIndex(over.content, key[0], 0), LoadIndex(under.content, key[0], 0);
      if i.Some? && j.Some? {
        OverlayBlocked(over.content[i.value], under.content[j.value], key[1..]);
      }
    }
  }

  // ---------------------------------------------------------------- the list after a repeated load

  /** The settings that a load works on. */
  function Settings(layer: Option<Node>, file: Node): Node {
    match layer
    case None => file
    case Some(over) => Overlay(over, file)
  }

  /** The layer that a load leaves behind. */
  function LayerAfter(settings: Node, env: Env): Node {
    Process(settings, "", DisabledSet(FileDisabled(settings)), env)
  }

  ghost predicate LayerOk(layer: Option<Node>) {
    layer.Some? ==> WellFormed(layer.value) && PlainDisabled(layer.value)
  }

  lemma {:induction false} ProcessWellFormed(n: Node, path: string, disabled: set<string>, env: Env)
    requires WellFormed(n)
    ensures WellFormed(Process(n, path, disabled, env))
    decreases n
  {
    var m := Process(n, path, disabled, env);
    forall i | 0 <= i < |m.content| ensures WellFormed(m.content[i]) {
      if n.kind == Sequence {
        ProcessWellFormed(n.content[i], path, disabled, env);
      } else if i % 2 == 1 {
        ProcessWellFormed(n.content[i], SettingPath(path, Lower(n.content[i - 1].value)), disabled, env);
      }
    }
  }

  lemma {:induction false} RestWellFormed(over: seq<Node>, under: seq<Node>, from: nat)
    requires forall i :: 0 <= i < |under| ==> WellFormed(under[i])
    ensures |Rest(over, under, from)| % 2 == 0
    ensures forall i :: 0 <= i < |Rest(over, under, from)| ==> WellFormed(Rest(over, under, from)[i])
    decreases |under| - from
  {
    if from + 1 < |under| {
      RestWellFormed(over, under, from + 2);
    }
  }

  lemma {:induction false} OverlayWellFormed(over: Node, under: Node)
    requires WellFormed(over) && WellFormed(under)
    ensures WellFormed(Overlay(over, under))
    decreases over
  {
    if over.kind == Mapping && under.kind == Mapping {
      RestWellFormed(over.content, under.content, 0);
      var merged := Merged(over, under);
      forall i | 0 <= i < |merged| ensures WellFormed(merged[i]) {
        if i % 2 == 1 && LoadIndex(under.content, over.content[i - 1].value, 0).Some? {
          OverlayWellFormed(over.content[i],
                            under.content[LoadIndex(under.content, over.content[i - 1].value, 0).value]);
        }
      }
    }
  }

  /** The list among the settings: the layer's if it has one, the file's if the layer leaves that open. */
  lemma {:induction false} SettingsList(layer: Option<Node>, file: Node)
    requires LayerOk(layer) && WellFormed(file) && PlainDisabled(file)
    ensures PlainDisabled(Settings(layer, file))
    ensures layer.None? || LeavesOpen(layer.value, DISABLED) ==>
            FileDisabled(Settings(layer, file)) == FileDisabled(file)
    ensures layer.Some? && LoadLookup(layer.value, DISABLED).Some? ==>
              FileDisabled(Settings(layer, file)) == FileDisabled(layer.value)
  {
    if layer.Some? {
      var over := layer.value;
      if LoadLookup(over, DISABLED).Some? {
        OverlayHas(over, file, DISABLED);
      } else if LeavesOpen(over, DISABLED) {
        OverlayOpen(over, file, DISABLED);
      } else {
        OverlayBlocked(over, file, DISABLED);
      }
      if LeavesOpen(over, DISABLED) {
        OpenMisses(over, DISABLED);
      }
    }
  }

  /** The layer keeps the list of the settings that it was made from. */
  lemma {:induction false} LayerKeepsList(app: App, settings: Node, env: Env)
    requires WellFormedApp(app) && WellFormed(settings) && PlainDisabled(settings)
    ensures LayerOk(Some(LayerAfter(settings, env)))
    ensures LoadLookup(LayerAfter(settings, env), DISABLED) == LoadLookup(settings, DISABLED)
  {
    var disabled := DisabledSet(FileDisabled(settings));
    ProcessWellFormed(settings, "", disabled, env);
    ProcessLookup(settings, "", disabled, env, DISABLED);
    match LoadLookup(settings, DISABLED)
    case None =>
    case Some(n) => ProcessPlainItems(n, PathFrom("", Fold(DISABLED)), disabled, env);
  }

  /** A second load on the same manager. If the first one met a list, the second keeps that list: it is in step with
      the file exactly if the file's list has stayed the same. If the first met none, the second takes the file's. */
  lemma RepeatedLoadKeepsFirstList(app: App, first: Node, firstEnv: Env, file: Node, env: Env, c: Config)
    requires WellFormedApp(app) && WellFormed(first) && PlainDisabled(first) && WellFormed(file) && PlainDisabled(file)
    requires Settle(app, Settings(Some(LayerAfter(first, firstEnv)), file), env) == Ok(c)
    ensures LoadLookup(first, DISABLED).Some? ==>
              && Disabled(app, c) == Normalize(FileDisabled(first))
              && (Synced(app, c, file) <==> Normalize(FileDisabled(first)) == Normalize(FileDisabled(file)))
    ensures LeavesOpen(LayerAfter(first, firstEnv), DISABLED) ==> Synced(app, c, file)
  {
    var layer := LayerAfter(first, firstEnv);
    LayerKeepsList(app, first, firstEnv);
    SettingsList(Some(layer), file);
    RebuildSyncs(app, Settings(Some(layer), file), env, c);
  }
}
