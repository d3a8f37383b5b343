/** The draft state of the graph editor: local edits, the server baseline, and what localStorage keeps. */
module GraphDraft {
  import opened JsonValues
  import opened Sorting
  import opened CanonicalForm

  // ---- the state ------------------------------------------------------------------------------------

  /** An optional property: missing from the object, or present, possibly as undefined. */
  datatype Slot = Missing | Present(value: Option<string>)

  function SlotValue(slot: Slot): Option<string> { if slot.Missing? then None else slot.value }

  datatype Viewport = Viewport(x: real, y: real, zoom: real)

  /** Nodes and edges are plain objects; their field order shows in the stringified state. */
  datatype GraphDraftState = GraphDraftState(
    nodes: seq<seq<Field>>,
    edges: seq<seq<Field>>,
    viewport: Viewport,
    selectedThreadId: Slot,
    graphName: Slot,
    baseVersion: Slot)

  // ---- plain objects ----------------------------------------------------------------------------------

  function Get(fields: seq<Field>, key: string): Js {
    if fields == [] then Undefined
    else if fields[0].key == key then fields[0].value
    else Get(fields[1..], key)
  }

  /** `{...fields, [key]: value}`: a key already there keeps its place. */
  function Set(fields: seq<Field>, key: string, value: Js): seq<Field> {
    if fields == [] then [Field(key, value)]
    else if fields[0].key == key then [Field(key, value)] + fields[1..]
    else [fields[0]] + Set(fields[1..], key, value)
  }

  function Without(fields: seq<Field>, keys: seq<string>): seq<Field> {
    if fields == [] then []
    else if fields[0].key in keys then Without(fields[1..], keys)
    else [fields[0]] + Without(fields[1..], keys)
  }

  function FieldsOf(v: Js): seq<Field> { if v.JObj? then v.fields else [] }

  predicate TruthyJs(v: Js) {
    match v
    case Undefined => false
    case JNull => false
    case JBool(b) => b
    case JNum(n) => n != 0.0
    case JStr(s) => s != ""
    case _ => true
  }

  /** What JSON.stringify writes: undefined fields vanish, undefined elements become null. */
  function Serialized(v: Js): Js
    decreases v
  {
    match v
    case JArr(items) =>
      JArr(seq(|items|, i requires 0 <= i < |items| => if items[i].Undefined? then JNull else Serialized(items[i])))
    case JObj(fields) => JObj(SerializedFields(fields))
    case _ => v
  }

  function SerializedFields(fields: seq<Field>): seq<Field>
    decreases fields
  {
    if fields == [] then []
    else if fields[0].value.Undefined? then SerializedFields(fields[1..])
    else [Field(fields[0].key, Serialized(fields[0].value))] + SerializedFields(fields[1..])
  }

  function SerializedAll(objects: seq<seq<Field>>): seq<seq<Field>> {
    seq(|objects|, i requires 0 <= i < |objects| => SerializedFields(objects[i]))
  }

  // ---- normalizeState -------------------------------------------------------------------------------

  const UI_KEYS := ["selected", "dragging", "draggable", "selectable", "connectable", "deletable", "width", "height"]

  function NormalizeData(data: seq<Field>): seq<Field> {
    var config := Get(data, "config");
    [ Field("label", Get(data, "label")),
      Field("template", Get(data, "template")),
      Field("config", if TruthyJs(config) then Canonical(config) else config) ]
  }

  function NormalizeNode(node: seq<Field>): seq<Field> {
    Set(Without(node, UI_KEYS), "data", JObj(NormalizeData(FieldsOf(Get(node, "data")))))
  }

  function NormalizeEdge(edge: seq<Field>): seq<Field> {
    var caption := Get(edge, "label");
    [ Field("id", Get(edge, "id")),
      Field("source", Get(edge, "source")),
      Field("target", Get(edge, "target")),
      Field("sourceHandle", Get(edge, "sourceHandle")),
      Field("targetHandle", Get(edge, "targetHandle")),
      Field("label", if caption.JStr? then caption else Undefined) ]
  }

  function NormalizeNodes(nodes: seq<seq<Field>>): seq<seq<Field>> {
    seq(|nodes|, i requires 0 <= i < |nodes| => NormalizeNode(nodes[i]))
  }

  function NormalizeEdges(edges: seq<seq<Field>>): seq<seq<Field>> {
    seq(|edges|, i requires 0 <= i < |edges| => NormalizeEdge(edges[i]))
  }

  function IdOf(item: seq<Field>): string {
    var id := Get(item, "id");
    if id.JStr? then id.s else ""
  }

  /** `(a, b) => a.id.localeCompare(b.id)`, for a collation `leq` of ids. */
  function ById(leq: (string, string) -> bool): (seq<Field>, seq<Field>) -> bool {
    (a: seq<Field>, b: seq<Field>) => leq(IdOf(a), IdOf(b))
  }

  function NormalizeState(leq: (string, string) -> bool, s: GraphDraftState): GraphDraftState {
    GraphDraftState(
      Sort(ById(leq), NormalizeNodes(s.nodes)),
      Sort(ById(leq), NormalizeEdges(s.edges)),
      s.viewport,
      Present(SlotValue(s.selectedThreadId)),
      Present(SlotValue(s.graphName)),
      Present(SlotValue(s.baseVersion)))
  }

  /** The stringified state without viewport and version, as a value: JSON.stringify is injective on these. */
  datatype Snapshot = Snapshot(nodes: seq<seq<Field>>, edges: seq<seq<Field>>, selected: Option<string>,
    name: Option<string>)

  function SnapshotOf(s: GraphDraftState): Snapshot {
    Snapshot(SerializedAll(s.nodes), SerializedAll(s.edges), SlotValue(s.selectedThreadId), SlotValue(s.graphName))
  }

  // ---- the draft as a state machine ------------------------------------------------------------------

  /** `stored` is what loadDraft finds; baselines are kept normalized. */
  datatype Draft = Draft(baseline: GraphDraftState, state: GraphDraftState, stored: Option<GraphDraftState>)

  predicate HasUnsavedChanges(leq: (string, string) -> bool, d: Draft) {
    SnapshotOf(NormalizeState(leq, d.state)) != SnapshotOf(d.baseline)
  }

  function OrSlot(over: Slot, base: Slot): Slot { if over.Missing? then base else over }

  /** `{...base, ...over}`; nodes, edges and viewport are always present in `over`. */
  function Spread(base: GraphDraftState, over: GraphDraftState): GraphDraftState {
    over.(selectedThreadId := OrSlot(over.selectedThreadId, base.selectedThreadId),
          graphName := OrSlot(over.graphName, base.graphName),
          baseVersion := OrSlot(over.baseVersion, base.baseVersion))
  }

  /** A state after JSON.stringify and JSON.parse. */
  function Reloaded(s: GraphDraftState): GraphDraftState {
    s.(nodes := SerializedAll(s.nodes), edges := SerializedAll(s.edges),
       selectedThreadId := ReloadedSlot(s.selectedThreadId),
       graphName := ReloadedSlot(s.graphName),
       baseVersion := ReloadedSlot(s.baseVersion))
  }

  function ReloadedSlot(slot: Slot): Slot { if SlotValue(slot).None? then Missing else slot }

  function AfterMount(leq: (string, string) -> bool, server: GraphDraftState,
                      stored: Option<GraphDraftState>, savedViewport: Option<Viewport>): Draft {
    Draft(NormalizeState(leq, server),
          if stored.None? then server
          else Spread(server, stored.value).(
            viewport := if savedViewport.Some? then savedViewport.value else stored.value.viewport),
          stored)
  }

  function AfterBaseline(leq: (string, string) -> bool, d: Draft, server: GraphDraftState): Draft {
    Draft(NormalizeState(leq, server), if d.stored.None? then server else Spread(server, d.state), d.stored)
  }

  /** applyDraft: `latest` is the viewport in the editor's ref, if there is one. */
  function AfterApply(leq: (string, string) -> bool, d: Draft, next: GraphDraftState, latest: Option<Viewport>): Draft {
    var normalized := NormalizeState(leq, next);
    d.(state := next,
       stored := if SnapshotOf(normalized) == SnapshotOf(d.baseline) then None
                 else Some(Reloaded(normalized.(viewport := LatestViewport(normalized, latest)))))
  }

  function LatestViewport(s: GraphDraftState, latest: Option<Viewport>): Viewport {
    if latest.Some? then latest.value else s.viewport
  }

  function AfterClear(d: Draft): Draft { d.(state := d.baseline, stored := None) }

  /** updateNodeConfig on one node. */
  function Configured(node: seq<Field>, name: Option<string>, config: Option<Js>): seq<Field> {
    var data := FieldsOf(Get(node, "data"));
    var named := if name.Some? then Set(data, "label", JStr(name.value)) else data;
    var configured := if config.Some? then Set(named, "config", config.value) else named;
    Set(node, "data", JObj(configured))
  }

  function ConfiguredNodes(nodes: seq<seq<Field>>, id: string, name: Option<string>,
                           config: Option<Js>): seq<seq<Field>> {
    seq(|nodes|, i requires 0 <= i < |nodes| =>
      if Get(nodes[i], "id") == JStr(id) then Configured(nodes[i], name, config) else nodes[i])
  }

  // ---- localStorage -------------------------------------------------------------------------------------

  /** The texts found in storage, by what they parse to. */
  datatype Text = DraftText(state: GraphDraftState) | ViewportText(viewport: Viewport) | OtherText

  function DraftKey(graphId: string): string { "graph_draft_" + graphId }

  function ViewportKey(graphId: string): string { "graph_viewport_" + graphId }

  class LocalStorage {
    var items: map<string, Text>

    constructor (items: map<string, Text>)
      ensures this.items == items
    {
      this.items := items;
    }
  }

  /** loadDraft: nothing stored, or nothing that parses, is no draft. */
  function StoredDraft(items: map<string, Text>, graphId: string): Option<GraphDraftState> {
    var key := DraftKey(graphId);
    if key in items && items[key].DraftText? then Some(items[key].state) else None
  }

  function StoredViewport(items: map<string, Text>, graphId: string): Option<Viewport> {
    var key := ViewportKey(graphId);
    if key in items && items[key].ViewportText? then Some(items[key].viewport) else None
  }

  lemma {:induction false} KeysDiffer(a: string, b: string)
    ensures DraftKey(a) != ViewportKey(b)
  {
    assert DraftKey(a)[6] == 'd' && ViewportKey(b)[6] == 'v';
  }

  /** Every other key of the storage is as before. */
  predicate OnlyGraphChanged(before: map<string, Text>, after: map<string, Text>, graphId: string) {
    before - {DraftKey(graphId), ViewportKey(graphId)} == after - {DraftKey(graphId), ViewportKey(graphId)}
  }

  class GraphDraftHook {
    const graphId: string
    const storage: LocalStorage
    const leq: (string, string) -> bool
    var serverBaseline: GraphDraftState
    var draftState: GraphDraftState

    ghost function View(): Draft
      reads this, storage
    {
      Draft(serverBaseline, draftState, StoredDraft(storage.items, graphId))
    }

    constructor (graphId: string, server: GraphDraftState, storage: LocalStorage, leq: (string, string) -> bool)
      ensures this.graphId == graphId && this.storage == storage && this.leq == leq
      ensures View() ==
              AfterMount(leq, server, StoredDraft(storage.items, graphId), StoredViewport(storage.items, graphId))
    {
      this.graphId, this.storage, this.leq := graphId, storage, leq;
      serverBaseline := NormalizeState(leq, server);
      var stored := StoredDraft(storage.items, graphId);
      if stored.None? {
        draftState := server;
      } else {
        var freshViewport := StoredViewport(storage.items, graphId);
        draftState := Spread(server, stored.value).(
          viewport := if freshViewport.Some? then freshViewport.value else stored.value.viewport);
      }
    }

    method UpdateServerBaseline(server: GraphDraftState)
      modifies this
      ensures View() == AfterBaseline(leq, old(View()), server)
    {
      serverBaseline := NormalizeState(leq, server);
      var currentDraft := StoredDraft(storage.items, graphId);
      if currentDraft.None? {
        draftState := server;
      } else {
        draftState := Spread(server, draftState);
      }
    }

    method PersistDraft(state: GraphDraftState, latest: Option<Viewport>)
      modifies storage
      ensures StoredDraft(storage.items, graphId) == AfterApply(leq, old(View()), state, latest).stored
      ensures StoredViewport(storage.items, graphId) == Some(LatestViewport(state, latest))
      ensures OnlyGraphChanged(old(storage.items), storage.items, graphId)
    {
      KeysDiffer(graphId, graphId);
      var normalized := NormalizeState(leq, state);
      var latestViewport := if latest.Some? then latest.value else normalized.viewport;
      storage.items := storage.items[ViewportKey(graphId) := ViewportText(latestViewport)];
      if SnapshotOf(normalized) == SnapshotOf(serverBaseline) {
        storage.items := storage.items - {DraftKey(graphId)};
      } else {
        storage.items :=
          storage.items[DraftKey(graphId) := DraftText(Reloaded(normalized.(viewport := latestViewport)))];
      }
    }

    method ApplyDraft(next: GraphDraftState, latest: Option<Viewport>)
      modifies this, storage
      ensures View() == AfterApply(leq, old(View()), next, latest)
      ensures OnlyGraphChanged(old(storage.items), storage.items, graphId)
    {
      PersistDraft(next, latest);
      draftState := next;
    }

    method UpdateNodeConfig(nodeId: string, name: Option<string>, config: Option<Js>, latest: Option<Viewport>)
      modifies this, storage
      ensures
        var next := old(draftState).(nodes := ConfiguredNodes(old(draftState).nodes, nodeId, name, config));
        View() == AfterApply(leq, old(View()), next, latest)
    {
      var updatedNodes := ConfiguredNodes(draftState.nodes, nodeId, name, config);
      ApplyDraft(draftState.(nodes := updatedNodes), latest);
    }

    method ResetToServer(latest: Option<Viewport>)
      modifies this, storage
      ensures View() == AfterApply(leq, old(View()), old(serverBaseline), latest)
    {
      ApplyDraft(serverBaseline, latest);
    }

    method ClearAllChanges()
      modifies this, storage
      ensures View() == AfterClear(old(View()))
      ensures OnlyGraphChanged(old(storage.items), storage.items, graphId)
    {
      storage.items := storage.items - {DraftKey(graphId)};
      draftState := serverBaseline;
    }
  }
}
