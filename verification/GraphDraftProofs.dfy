/** Safety of the draft over every run. */
module GraphDraftProofs {
  import opened JsonValues
  import opened Sorting
  import opened CanonicalForm
  import opened CanonicalProofs
  import opened GraphDraft

  // ---- plain objects ----------------------------------------------------------------------------------

  lemma {:induction false} GetSet(fields: seq<Field>, key: string, value: Js, other: string)
    ensures Get(Set(fields, key, value), other) == if other == key then value else Get(fields, other)
  {
    if fields != [] && fields[0].key != key { GetSet(fields[1..], key, value, other); }
  }

  lemma {:induction false} SetTwice(fields: seq<Field>, key: string, first: Js, second: Js)
    ensures Set(Set(fields, key, first), key, second) == Set(fields, key, second)
  {
    if fields != [] && fields[0].key != key { SetTwice(fields[1..], key, first, second); }
  }

  lemma {:induction false} SetSame(fields: seq<Field>, key: string, value: Js)
    ensures Set(Set(fields, key, value), key, value) == Set(fields, key, value)
  {
    SetTwice(fields, key, value, value);
  }

  lemma {:induction false} GetWithout(fields: seq<Field>, keys: seq<string>, key: string)
    requires key !in keys
    ensures Get(Without(fields, keys), key) == Get(fields, key)
  {
    if fields != [] { GetWithout(fields[1..], keys, key); }
  }

  predicate LacksKeys(fields: seq<Field>, keys: seq<string>) { forall f | f in fields :: f.key !in keys }

  lemma {:induction false} WithoutLacks(fields: seq<Field>, keys: seq<string>)
    ensures LacksKeys(Without(fields, keys), keys)
  {
    if fields != [] { WithoutLacks(fields[1..], keys); }
  }

  lemma {:induction false} WithoutFixed(fields: seq<Field>, keys: seq<string>)
    requires LacksKeys(fields, keys)
    ensures Without(fields, keys) == fields
  {
    if fields != [] {
      WithoutFixed(fields[1..], keys);
      assert [fields[0]] + fields[1..] == fields;
    }
  }

  lemma {:induction false} SetLacks(fields: seq<Field>, keys: seq<string>, key: string, value: Js)
    requires LacksKeys(fields, keys) && key !in keys
    ensures LacksKeys(Set(fields, key, value), keys)
  {
    if fields != [] && fields[0].key != key { SetLacks(fields[1..], keys, key, value); }
  }

  lemma {:induction false} GetWellFormed(fields: seq<Field>, key: string)
    requires WellFormed(JObj(fields))
    ensures WellFormed(Get(fields, key))
  {
    if fields != [] && fields[0].key != key { GetWellFormed(fields[1..], key); }
  }

  // ---- normalizeState is idempotent ---------------------------------------------------------------------

  lemma {:induction false} DataKeys()
    ensures "data" !in UI_KEYS && "id" !in UI_KEYS
    ensures "id" != "data" && "label" != "config"
  {
    assert |"data"| == 4 && forall k | k in UI_KEYS :: |k| > 4;
    assert |"id"| == 2;
  }

  lemma {:induction false} NormalizeDataTwice(data: seq<Field>)
    requires WellFormed(JObj(data))
    ensures NormalizeData(NormalizeData(data)) == NormalizeData(data)
  {
    var config := Get(data, "config");
    GetWellFormed(data, "config");
    CanonicalTwice(config);
    var once := NormalizeData(data);
    assert once[0].key == "label" && once[1].key == "template" && once[2].key == "config";
    assert DistinctKeys(once);
    GetAt(once, 0);
    GetAt(once, 1);
    GetAt(once, 2);
  }

  lemma {:induction false} NormalizeNodeTwice(node: seq<Field>)
    requires WellFormed(JObj(node))
    ensures NormalizeNode(NormalizeNode(node)) == NormalizeNode(node)
    ensures IdOf(NormalizeNode(node)) == IdOf(node)
  {
    DataKeys();
    var core := Without(node, UI_KEYS);
    var data := NormalizeData(FieldsOf(Get(node, "data")));
    GetWellFormed(node, "data");
    NormalizeDataTwice(FieldsOf(Get(node, "data")));
    WithoutLacks(node, UI_KEYS);
    SetLacks(core, UI_KEYS, "data", JObj(data));
    WithoutFixed(Set(core, "data", JObj(data)), UI_KEYS);
    GetSet(core, "data", JObj(data), "data");
    GetSet(core, "data", JObj(data), "id");
    GetWithout(node, UI_KEYS, "id");
    SetSame(core, "data", JObj(data));
  }

  lemma {:induction false} EdgeGets(edge: seq<Field>)
    ensures
      var once := NormalizeEdge(edge);
      forall i | 0 <= i < 6 :: Get(once, once[i].key) == once[i].value
  {
    var once := NormalizeEdge(edge);
    assert once[0].key == "id" && once[1].key == "source" && once[2].key == "target";
    assert once[3].key == "sourceHandle" && once[4].key == "targetHandle" && once[5].key == "label";
    assert "source"[0] != "target"[0] && "sourceHandle"[0] != "targetHandle"[0];
    forall i | 0 <= i < 6 ensures Get(once, once[i].key) == once[i].value {
      GetAt(once, i);
    }
  }

  lemma {:induction false} GetAt(fields: seq<Field>, i: nat)
    requires i < |fields| && DistinctKeys(fields)
    ensures Get(fields, fields[i].key) == fields[i].value
  {
    if i > 0 { GetAt(fields[1..], i - 1); }
  }

  lemma {:induction false} NormalizeEdgeTwice(edge: seq<Field>)
    ensures NormalizeEdge(NormalizeEdge(edge)) == NormalizeEdge(edge)
  {
    EdgeGets(edge);
    var once := NormalizeEdge(edge);
    assert Get(once, once[0].key) == once[0].value && Get(once, once[1].key) == once[1].value;
    assert Get(once, once[2].key) == once[2].value && Get(once, once[3].key) == once[3].value;
    assert Get(once, once[4].key) == once[4].value && Get(once, once[5].key) == once[5].value;
  }

  lemma {:induction false} ByIdTotal(leq: (string, string) -> bool)
    requires TotalPreorder(leq)
    ensures TotalPreorder(ById(leq))
  {
    forall x: seq<Field>, y: seq<Field>, z: seq<Field>
      ensures ById(leq)(x, y) || ById(leq)(y, x)
      ensures ById(leq)(x, y) && ById(leq)(y, z) ==> ById(leq)(x, z)
    {
      assert leq(IdOf(x), IdOf(y)) || leq(IdOf(y), IdOf(x));
      assert leq(IdOf(x), IdOf(y)) && leq(IdOf(y), IdOf(z)) ==> leq(IdOf(x), IdOf(z));
    }
  }

  predicate WellFormedState(s: GraphDraftState) {
    (forall n | n in s.nodes :: WellFormed(JObj(n))) && forall e | e in s.edges :: WellFormed(JObj(e))
  }

  ghost predicate NodesNormal(leq: (string, string) -> bool, nodes: seq<seq<Field>>) {
    Sorted(ById(leq), nodes) && forall n | n in nodes :: NormalizeNode(n) == n
  }

  ghost predicate EdgesNormal(leq: (string, string) -> bool, edges: seq<seq<Field>>) {
    Sorted(ById(leq), edges) && forall e | e in edges :: NormalizeEdge(e) == e
  }

  lemma {:induction false} NodesBecomeNormal(leq: (string, string) -> bool, nodes: seq<seq<Field>>)
    requires TotalPreorder(leq) && forall n | n in nodes :: WellFormed(JObj(n))
    ensures NodesNormal(leq, Sort(ById(leq), NormalizeNodes(nodes)))
  {
    var once := NormalizeNodes(nodes);
    ByIdTotal(leq);
    SortSorted(ById(leq), once);
    SortElements(ById(leq), once);
    NodesNormalTwice(nodes);
  }

  lemma {:induction false} NodesNormalTwice(nodes: seq<seq<Field>>)
    requires forall n | n in nodes :: WellFormed(JObj(n))
    ensures forall n | n in NormalizeNodes(nodes) :: NormalizeNode(n) == n
  {
    forall n | n in NormalizeNodes(nodes) ensures NormalizeNode(n) == n {
      var i :| 0 <= i < |nodes| && n == NormalizeNode(nodes[i]);
      assert nodes[i] in nodes;
      NormalizeNodeTwice(nodes[i]);
    }
  }

  lemma {:induction false} EdgesBecomeNormal(leq: (string, string) -> bool, edges: seq<seq<Field>>)
    requires TotalPreorder(leq)
    ensures EdgesNormal(leq, Sort(ById(leq), NormalizeEdges(edges)))
  {
    var once := NormalizeEdges(edges);
    ByIdTotal(leq);
    SortSorted(ById(leq), once);
    SortElements(ById(leq), once);
    forall e | e in Sort(ById(leq), once) ensures NormalizeEdge(e) == e {
      var i :| 0 <= i < |edges| && e == NormalizeEdge(edges[i]);
      NormalizeEdgeTwice(edges[i]);
    }
  }

  ghost predicate Normal(leq: (string, string) -> bool, s: GraphDraftState) {
    && NodesNormal(leq, s.nodes) && EdgesNormal(leq, s.edges)
    && s.selectedThreadId.Present? && s.graphName.Present? && s.baseVersion.Present?
  }

  lemma {:induction false} NormalIsFixed(leq: (string, string) -> bool, s: GraphDraftState)
    requires Normal(leq, s)
    ensures NormalizeState(leq, s) == s
  {
    var nodes, edges := NormalizeNodes(s.nodes), NormalizeEdges(s.edges);
    assert forall i | 0 <= i < |s.nodes| :: s.nodes[i] in s.nodes;
    assert forall i | 0 <= i < |s.edges| :: s.edges[i] in s.edges;
    assert nodes == s.nodes && edges == s.edges;
    SortFixed(ById(leq), s.nodes);
    SortFixed(ById(leq), s.edges);
  }

  lemma {:induction false} BecomesNormal(leq: (string, string) -> bool, s: GraphDraftState)
    requires TotalPreorder(leq) && WellFormedState(s)
    ensures Normal(leq, NormalizeState(leq, s))
  {
    NodesBecomeNormal(leq, s.nodes);
    EdgesBecomeNormal(leq, s.edges);
  }

  /** Normalizing twice changes nothing, whatever collation orders the ids. */
  lemma {:induction false} NormalizeTwice(leq: (string, string) -> bool, s: GraphDraftState)
    requires TotalPreorder(leq) && WellFormedState(s)
    ensures NormalizeState(leq, NormalizeState(leq, s)) == NormalizeState(leq, s)
  {
    BecomesNormal(leq, s);
    NormalIsFixed(leq, NormalizeState(leq, s));
  }

  // ---- every run -------------------------------------------------------------------------------------------

  datatype Action =
    | EditNodes(nodes: seq<seq<Field>>)
    | EditEdges(edges: seq<seq<Field>>)
    | SelectThread(threadId: Option<string>)
    | Rename(name: string)
    | ConfigureNode(nodeId: string, caption: Option<string>, config: Option<Js>)
    | ResetToServer
    | ClearAll
    | NewBaseline(server: GraphDraftState)

  /** The state an edit applies; None for the two operations that are not edits. */
  function Edited(d: Draft, action: Action): Option<GraphDraftState> {
    match action
    case EditNodes(nodes) => Some(d.state.(nodes := nodes))
    case EditEdges(edges) => Some(d.state.(edges := edges))
    case SelectThread(threadId) => Some(d.state.(selectedThreadId := Present(threadId)))
    case Rename(name) => Some(d.state.(graphName := Present(Some(name))))
    case ConfigureNode(nodeId, name, config) =>
      Some(d.state.(nodes := ConfiguredNodes(d.state.nodes, nodeId, name, config)))
    case ResetToServer => Some(d.baseline)
    case _ => None
  }

  function Apply(leq: (string, string) -> bool, d: Draft, action: Action, latest: Option<Viewport>): Draft {
    match Edited(d, action)
    case Some(next) => AfterApply(leq, d, next, latest)
    case None => if action.NewBaseline? then AfterBaseline(leq, d, action.server) else AfterClear(d)
  }

  function Run(leq: (string, string) -> bool, d: Draft, actions: seq<(Action, Option<Viewport>)>): Draft
    decreases |actions|
  {
    if actions == [] then d else Run(leq, Apply(leq, d, actions[0].0, actions[0].1), actions[1..])
  }

  /** The objects an action brings in hold each key once. */
  predicate WellFormedAction(action: Action) {
    match action
    case NewBaseline(server) => WellFormedState(server)
    case _ => true
  }

  ghost predicate Safe(leq: (string, string) -> bool, d: Draft) {
    && Normal(leq, d.baseline)
    && (HasUnsavedChanges(leq, d) ==> d.stored.Some?)
  }

  /** What an action leaves: after an edit a draft exactly for unsaved changes, after a reset or a clear neither. */
  ghost predicate Settled(leq: (string, string) -> bool, d: Draft, action: Action, next: Draft) {
    && (Edited(d, action).Some? ==> (HasUnsavedChanges(leq, next) <==> next.stored.Some?))
    && (action.ResetToServer? || action.ClearAll? ==> !HasUnsavedChanges(leq, next) && next.stored.None?)
  }

  lemma {:induction false} ApplyKeepsSafe(leq: (string, string) -> bool, d: Draft, action: Action,
                                          latest: Option<Viewport>)
    requires TotalPreorder(leq) && Safe(leq, d) && WellFormedAction(action)
    ensures
      var next := Apply(leq, d, action, latest);
      Safe(leq, next) && Settled(leq, d, action, next)
  {
    NormalIsFixed(leq, d.baseline);
    if action.NewBaseline? { BecomesNormal(leq, action.server); }
  }

  lemma {:induction false} MountIsSafe(leq: (string, string) -> bool, server: GraphDraftState,
                                       stored: Option<GraphDraftState>, savedViewport: Option<Viewport>)
    requires TotalPreorder(leq) && WellFormedState(server)
    ensures Safe(leq, AfterMount(leq, server, stored, savedViewport))
  {
    BecomesNormal(leq, server);
  }

  /**
   From any mount and over any run: unsaved changes are always backed by a stored draft;
   after an edit a draft is stored exactly when there are unsaved changes; after a reset or
   a clear there is neither.
   */
  lemma {:induction false} NoUnsavedChangeIsLost(leq: (string, string) -> bool, d: Draft,
                                                 actions: seq<(Action, Option<Viewport>)>)
    requires TotalPreorder(leq) && Safe(leq, d) && AllWellFormed(actions)
    ensures
      var end := Run(leq, d, actions);
      && Safe(leq, end)
      && (actions != [] ==>
            Settled(leq, Run(leq, d, actions[..|actions| - 1]), actions[|actions| - 1].0, end))
    decreases |actions|
  {
    if actions != [] {
      var before, last := actions[..|actions| - 1], actions[|actions| - 1];
      LastSplits(actions);
      NoUnsavedChangeIsLost(leq, d, before);
      OneMoreAction(leq, d, before, last);
    }
  }

  lemma {:induction false} LastSplits<T>(s: seq<T>)
    requires s != []
    ensures s[..|s| - 1] + [s[|s| - 1]] == s
  {
  }

  lemma {:induction false} OneMoreAction(leq: (string, string) -> bool, d: Draft,
                                         actions: seq<(Action, Option<Viewport>)>,
                                         last: (Action, Option<Viewport>))
    requires TotalPreorder(leq) && Safe(leq, Run(leq, d, actions)) && WellFormedAction(last.0)
    ensures Safe(leq, Run(leq, d, actions + [last]))
    ensures Settled(leq, Run(leq, d, actions), last.0, Run(leq, d, actions + [last]))
  {
    RunAppend(leq, d, actions, last);
    ApplyKeepsSafe(leq, Run(leq, d, actions), last.0, last.1);
  }

  predicate AllWellFormed(actions: seq<(Action, Option<Viewport>)>) { forall a | a in actions :: WellFormedAction(a.0) }

  lemma {:induction false} RunAppend(leq: (string, string) -> bool, d: Draft, actions: seq<(Action, Option<Viewport>)>,
                                     last: (Action, Option<Viewport>))
    ensures Run(leq, d, actions + [last]) == Apply(leq, Run(leq, d, actions), last.0, last.1)
    decreases |actions|
  {
    if actions != [] {
      assert (actions + [last])[1..] == actions[1..] + [last];
      RunAppend(leq, Apply(leq, d, actions[0].0, actions[0].1), actions[1..], last);
    } else {
      assert ([] + [last])[1..] == [];
    }
  }

  // ---- what the editor shows -----------------------------------------------------------------------------

  /** The local property where it is there, else the server's. */
  predicate Backfilled(shown: Slot, local: Slot, server: Slot) {
    match local
    case Present(_) => shown == local
    case Missing => shown == server
  }

  /** The graph of one state, with the properties it lacks filled in from another. */
  predicate ShowsOver(shown: GraphDraftState, local: GraphDraftState, server: GraphDraftState) {
    && shown.nodes == local.nodes && shown.edges == local.edges
    && Backfilled(shown.selectedThreadId, local.selectedThreadId, server.selectedThreadId)
    && Backfilled(shown.graphName, local.graphName, server.graphName)
    && Backfilled(shown.baseVersion, local.baseVersion, server.baseVersion)
  }

  /**
   A new server baseline takes no local edit away: as long as a draft is stored the editor
   shows what it showed, with properties it lacks filled in from the server; otherwise it
   shows the server's state.
   */
  lemma {:induction false} NewBaselineKeepsEdits(leq: (string, string) -> bool, d: Draft, server: GraphDraftState,
                                                 latest: Option<Viewport>)
    ensures
      var next := Apply(leq, d, NewBaseline(server), latest);
      && next.baseline == NormalizeState(leq, server) && next.stored == d.stored
      && (d.stored.None? ==> next.state == server)
      && (d.stored.Some? ==> ShowsOver(next.state, d.state, server) && next.state.viewport == d.state.viewport)
  {
  }

  /**
   Mounting shows the stored draft over the server's state, at the viewport saved last; without a
   draft, the server's.
   */
  lemma {:induction false} MountShows(leq: (string, string) -> bool, server: GraphDraftState,
                                      stored: Option<GraphDraftState>, savedViewport: Option<Viewport>)
    ensures
      var d := AfterMount(leq, server, stored, savedViewport);
      && d.baseline == NormalizeState(leq, server) && d.stored == stored
      && (stored.None? ==> d.state == server)
      && (stored.Some? ==> ShowsOver(d.state, stored.value, server))
      && (stored.Some? && savedViewport.Some? ==> d.state.viewport == savedViewport.value)
      && (stored.Some? && savedViewport.None? ==> d.state.viewport == stored.value.viewport)
  {
  }

  /** What an edit makes of the state shown; every part it does not name stays. */
  predicate Shows(d: Draft, action: Action, shown: GraphDraftState) {
    match action
    case EditNodes(nodes) => shown == d.state.(nodes := nodes)
    case EditEdges(edges) => shown == d.state.(edges := edges)
    case SelectThread(threadId) => shown == d.state.(selectedThreadId := Present(threadId))
    case Rename(name) => shown == d.state.(graphName := Present(Some(name)))
    case ConfigureNode(nodeId, caption, config) =>
      && shown == d.state.(nodes := shown.nodes) && |shown.nodes| == |d.state.nodes|
      && forall i | 0 <= i < |shown.nodes| ::
           if Get(d.state.nodes[i], "id") == JStr(nodeId) then
             IsConfigured(d.state.nodes[i], caption, config, shown.nodes[i])
           else shown.nodes[i] == d.state.nodes[i]
    case ResetToServer => shown == d.baseline
    case ClearAll => shown == d.baseline
    case NewBaseline(_) => true
  }

  /** The node with its label and its configuration replaced, where they are given, and nothing else. */
  predicate IsConfigured(node: seq<Field>, caption: Option<string>, config: Option<Js>, next: seq<Field>) {
    var data := FieldsOf(Get(node, "data"));
    var named := if caption.Some? then Set(data, "label", JStr(caption.value)) else data;
    next == Set(node, "data", JObj(if config.Some? then Set(named, "config", config.value) else named))
  }

  /** Every operation but a new baseline shows exactly its edit, and leaves the baseline alone. */
  lemma {:induction false} EditIsShown(leq: (string, string) -> bool, d: Draft, action: Action,
                                       latest: Option<Viewport>)
    requires !action.NewBaseline?
    ensures
      var next := Apply(leq, d, action, latest);
      && next.baseline == d.baseline && Shows(d, action, next.state)
      && (next.stored.Some? && !action.ClearAll? ==>
            next.stored.value.viewport == if latest.Some? then latest.value else next.state.viewport)
  {
  }

  /** Of a configured node, the label and the configuration given are what its data shows; the rest is as it was. */
  lemma {:induction false} ConfiguredShows(node: seq<Field>, caption: Option<string>, config: Option<Js>, key: string)
    ensures
      var data, next := FieldsOf(Get(node, "data")), Configured(node, caption, config);
      && (key != "data" ==> Get(next, key) == Get(node, key))
      && Get(FieldsOf(Get(next, "data")), key) ==
         if key == "config" && config.Some? then config.value
         else if key == "label" && caption.Some? then JStr(caption.value)
         else Get(data, key)
  {
    var data := FieldsOf(Get(node, "data"));
    var named := if caption.Some? then Set(data, "label", JStr(caption.value)) else data;
    var configured := if config.Some? then Set(named, "config", config.value) else named;
    assert "label"[0] != "config"[0];
    if caption.Some? { GetSet(data, "label", JStr(caption.value), key); }
    if config.Some? { GetSet(named, "config", config.value, key); }
    GetSet(node, "data", JObj(configured), key);
    GetSet(node, "data", JObj(configured), "data");
  }
}
