/** What the comparison counts as a change, and what survives closing and reopening the editor. */
module GraphDraftReload {
  import opened JsonValues
  import opened Sorting
  import opened CanonicalForm
  import opened CanonicalProofs
  import opened GraphDraft
  import opened GraphDraftProofs

  // ---- what counts as a change ----------------------------------------------------------------------

  lemma {:induction false} ConfiguredNormal(node: seq<Field>, config: Js)
    ensures
      var data := FieldsOf(Get(node, "data"));
      NormalizeNode(Configured(node, None, Some(config))) ==
      Set(Without(node, UI_KEYS), "data", JObj(NormalizeData(Set(data, "config", config))))
  {
    DataKeys();
    var data := FieldsOf(Get(node, "data"));
    GetSet(node, "data", JObj(Set(data, "config", config)), "data");
    WithoutSet(node, "data", JObj(Set(data, "config", config)));
    SetTwice(Without(node, UI_KEYS), "data", JObj(Set(data, "config", config)),
      JObj(NormalizeData(Set(data, "config", config))));
  }

  lemma {:induction false} WithoutSet(fields: seq<Field>, key: string, value: Js)
    requires key !in UI_KEYS
    ensures Without(Set(fields, key, value), UI_KEYS) == Set(Without(fields, UI_KEYS), key, value)
  {
    if fields != [] && fields[0].key != key { WithoutSet(fields[1..], key, value); }
  }

  /** Editing a node's configuration is a change exactly when the values differ beyond key order and absent keys. */
  lemma {:induction false} ConfigChangeIffNotSame(node: seq<Field>, config: Js, config': Js)
    requires WellFormed(config) && WellFormed(config')
    ensures NormalizeNode(Configured(node, None, Some(config))) == NormalizeNode(Configured(node, None, Some(config')))
            <==> Same(config, config')
  {
    var data := FieldsOf(Get(node, "data"));
    var core := Without(node, UI_KEYS);
    var one, two := NormalizeData(Set(data, "config", config)), NormalizeData(Set(data, "config", config'));
    ConfiguredNormal(node, config);
    ConfiguredNormal(node, config');
    GetSet(core, "data", JObj(one), "data");
    GetSet(core, "data", JObj(two), "data");
    DataConfig(data, config);
    DataConfig(data, config');
    CanonicalIffSame(config, config');
  }

  lemma {:induction false} DataConfig(data: seq<Field>, config: Js)
    ensures NormalizeData(Set(data, "config", config)) ==
            [Field("label", Get(data, "label")), Field("template", Get(data, "template")),
              Field("config", Canonical(config))]
  {
    assert "label" != "config" && "template" != "config";
    GetSet(data, "config", config, "config");
    GetSet(data, "config", config, "label");
    GetSet(data, "config", config, "template");
  }

  // ---- stringify and parse against the normal form --------------------------------------------------

  ghost predicate KeysOnly(leq: (Field, Field) -> bool) {
    forall x: Field, y: Field, v: Js, w: Js :: leq(x, y) == leq(Field(x.key, v), Field(y.key, w))
  }

  predicate Defined(fields: seq<Field>) { forall f | f in fields :: !f.value.Undefined? }

  lemma {:induction false} SerializedInsert(leq: (Field, Field) -> bool, f: Field, fields: seq<Field>)
    requires KeysOnly(leq) && Defined(fields) && !f.value.Undefined?
    ensures SerializedFields(Insert(leq, f, fields)) ==
            Insert(leq, Field(f.key, Serialized(f.value)), SerializedFields(fields))
    ensures Defined(Insert(leq, f, fields))
  {
    if fields != [] {
      assert fields[0] in fields;
      var head := Field(fields[0].key, Serialized(fields[0].value));
      assert leq(f, fields[0]) == leq(Field(f.key, Serialized(f.value)), head);
      if leq(f, fields[0]) {
        assert ([f] + fields)[1..] == fields;
      } else {
        SerializedInsert(leq, f, fields[1..]);
        var rest := Insert(leq, f, fields[1..]);
        assert ([fields[0]] + rest)[1..] == rest;
        assert SerializedFields(fields)[1..] == SerializedFields(fields[1..]);
      }
    }
  }

  lemma {:induction false} SerializedSort(leq: (Field, Field) -> bool, fields: seq<Field>)
    requires KeysOnly(leq) && Defined(fields)
    ensures SerializedFields(Sort(leq, fields)) == Sort(leq, SerializedFields(fields))
    ensures Defined(Sort(leq, fields))
  {
    if fields != [] {
      assert fields[0] in fields;
      SerializedSort(leq, fields[1..]);
      SerializedInsert(leq, fields[0], Sort(leq, fields[1..]));
      assert SerializedFields(fields)[1..] == SerializedFields(fields[1..]);
    }
  }

  lemma {:induction false} SerializedParts(fields: seq<Field>)
    requires Defined(fields)
    ensures SerializedFields(Indices(fields)) == Indices(SerializedFields(fields)) && Defined(Indices(fields))
    ensures SerializedFields(Names(fields)) == Names(SerializedFields(fields)) && Defined(Names(fields))
  {
    if fields != [] {
      assert fields[0] in fields;
      SerializedParts(fields[1..]);
      assert SerializedFields(fields)[1..] == SerializedFields(fields[1..]);
    }
  }

  lemma {:induction false} SerializedAppend(a: seq<Field>, b: seq<Field>)
    ensures SerializedFields(a + b) == SerializedFields(a) + SerializedFields(b)
  {
    if a == [] {
      assert a + b == b;
    } else {
      assert (a + b)[1..] == a[1..] + b;
      SerializedAppend(a[1..], b);
    }
  }

  lemma {:induction false} SerializedEnumerated(fields: seq<Field>)
    requires Defined(fields)
    ensures SerializedFields(Enumerated(fields)) == Enumerated(SerializedFields(fields))
  {
    SerializedParts(fields);
    SerializedSort(ByIndex(), Indices(fields));
    SerializedAppend(Sort(ByIndex(), Indices(fields)), Names(fields));
  }

  lemma {:induction false} SerializedShown(fields: seq<Field>)
    requires forall f | f in fields :: Canonical(Serialized(f.value)) == Serialized(Canonical(f.value))
    ensures Shown(SerializedFields(fields)) == SerializedFields(Shown(fields)) && Defined(Shown(fields))
  {
    if fields != [] {
      SerializedShown(fields[1..]);
      assert fields[0] in fields;
      var head := Field(fields[0].key, Canonical(fields[0].value));
      if !Dropped(fields[0]) {
        assert ([head] + Shown(fields[1..]))[1..] == Shown(fields[1..]);
      }
      if !fields[0].value.Undefined? {
        assert SerializedFields(fields)[1..] == SerializedFields(fields[1..]);
      }
    }
  }

  /** Stringifying and sorting keys commute. */
  lemma {:induction false} SerializedCanonical(v: Js)
    ensures Canonical(Serialized(v)) == Serialized(Canonical(v))
    decreases v
  {
    match v
    case JArr(items) =>
      forall i | 0 <= i < |items| ensures Canonical(Serialized(items[i])) == Serialized(Canonical(items[i])) {
        SerializedCanonical(items[i]);
      }
      assert Canonical(Serialized(v)).items == Serialized(Canonical(v)).items;
    case JObj(fields) =>
      forall f | f in fields ensures Canonical(Serialized(f.value)) == Serialized(Canonical(f.value)) {
        SerializedCanonical(f.value);
      }
      SerializedShown(fields);
      SerializedSort(ByKey(), Shown(fields));
      SerializedEnumerated(Sort(ByKey(), Shown(fields)));
    case _ =>
  }

  lemma {:induction false} SerializedTwice(v: Js)
    ensures Serialized(Serialized(v)) == Serialized(v)
    ensures Serialized(v).Undefined? <==> v.Undefined?
    decreases v
  {
    match v
    case JArr(items) =>
      forall i | 0 <= i < |items|
        ensures Serialized(Serialized(items[i])) == Serialized(items[i]) { SerializedTwice(items[i]); }
      assert Serialized(Serialized(v)).items == Serialized(v).items;
    case JObj(fields) => SerializedFieldsTwice(fields);
    case _ =>
  }

  lemma {:induction false} SerializedFieldsTwice(fields: seq<Field>)
    ensures SerializedFields(SerializedFields(fields)) == SerializedFields(fields)
    decreases fields
  {
    if fields != [] {
      SerializedFieldsTwice(fields[1..]);
      if !fields[0].value.Undefined? {
        SerializedTwice(fields[0].value);
        assert SerializedFields(fields)[1..] == SerializedFields(fields[1..]);
      }
    }
  }

  lemma {:induction false} GetSerialized(fields: seq<Field>, key: string)
    requires DistinctKeys(fields)
    ensures Get(SerializedFields(fields), key) == Serialized(Get(fields, key))
  {
    if fields != [] {
      GetSerialized(fields[1..], key);
      if fields[0].value.Undefined? {
        if fields[0].key == key { GetMissing(fields[1..], key); }
      } else {
        assert SerializedFields(fields)[1..] == SerializedFields(fields[1..]);
      }
    }
  }

  lemma {:induction false} GetMissing(fields: seq<Field>, key: string)
    requires forall f | f in fields :: f.key != key
    ensures Get(fields, key) == Undefined
  {
    if fields != [] { GetMissing(fields[1..], key); }
  }

  /** Writing back an unserialized form of a value already there leaves the text as it was. */
  lemma {:induction false} SerializedSetBack(fields: seq<Field>, key: string, value: Js)
    requires SerializedFields(fields) == fields && Defined(fields) && !value.Undefined?
    requires Get(fields, key) == Serialized(value)
    ensures SerializedFields(Set(fields, key, value)) == fields
  {
    SerializedTwice(value);
    if fields != [] {
      assert fields[0] in fields;
      assert SerializedFields(fields)[1..] == SerializedFields(fields[1..]);
      assert [fields[0]] + fields[1..] == fields;
      if fields[0].key != key { SerializedSetBack(fields[1..], key, value); }
    }
  }

  lemma {:induction false} SerializedDefined(fields: seq<Field>)
    ensures Defined(SerializedFields(fields))
    ensures forall keys :: LacksKeys(fields, keys) ==> LacksKeys(SerializedFields(fields), keys)
  {
    if fields != [] {
      SerializedDefined(fields[1..]);
      SerializedTwice(fields[0].value);
      forall keys | LacksKeys(fields, keys) ensures LacksKeys(SerializedFields(fields), keys) {
        assert LacksKeys(fields[1..], keys) && fields[0] in fields;
      }
    }
  }

  /** Fields whose values were already stringified give the same text. */
  lemma {:induction false} SerializedMapped(a: seq<Field>, b: seq<Field>)
    requires |a| == |b| && forall i | 0 <= i < |a| :: b[i] == Field(a[i].key, Serialized(a[i].value))
    ensures SerializedFields(b) == SerializedFields(a)
  {
    if a != [] {
      SerializedTwice(a[0].value);
      SerializedMapped(a[1..], b[1..]);
    }
  }

  // ---- a node or edge through storage ------------------------------------------------------------------

  lemma {:induction false} DataThroughStorage(data: seq<Field>)
    requires NormalizeData(data) == data
    ensures SerializedFields(NormalizeData(SerializedFields(data))) == SerializedFields(data)
  {
    var config := data[2].value;
    assert data[0].key == "label" && data[1].key == "template" && data[2].key == "config";
    assert DistinctKeys(data);
    GetAt(data, 0);
    GetAt(data, 1);
    GetAt(data, 2);
    GetSerialized(data, "label");
    GetSerialized(data, "template");
    GetSerialized(data, "config");
    SerializedCanonical(config);
    SerializedMapped(data, NormalizeData(SerializedFields(data)));
  }

  lemma {:induction false} NodeThroughStorage(node: seq<Field>)
    requires NormalizeNode(node) == node && DistinctKeys(node)
    ensures SerializedFields(NormalizeNode(SerializedFields(node))) == SerializedFields(node)
    ensures IdOf(NormalizeNode(SerializedFields(node))) == IdOf(node)
  {
    DataKeys();
    var text := SerializedFields(node);
    var data := FieldsOf(Get(node, "data"));
    WithoutLacks(node, UI_KEYS);
    SetLacks(Without(node, UI_KEYS), UI_KEYS, "data", JObj(NormalizeData(data)));
    GetSet(Without(node, UI_KEYS), "data", JObj(NormalizeData(data)), "data");
    SerializedDefined(node);
    WithoutFixed(text, UI_KEYS);
    GetSerialized(node, "data");
    GetSerialized(node, "id");
    DataThroughStorage(data);
    SerializedFieldsTwice(node);
    var again := JObj(NormalizeData(SerializedFields(data)));
    SerializedSetBack(text, "data", again);
    GetSet(text, "data", again, "id");
  }

  lemma {:induction false} EdgeThroughStorage(edge: seq<Field>)
    requires NormalizeEdge(edge) == edge
    ensures SerializedFields(NormalizeEdge(SerializedFields(edge))) == SerializedFields(edge)
    ensures IdOf(NormalizeEdge(SerializedFields(edge))) == IdOf(edge)
  {
    EdgeGets(edge);
    assert edge[0].key == "id" && edge[1].key == "source" && edge[2].key == "target";
    assert edge[3].key == "sourceHandle" && edge[4].key == "targetHandle" && edge[5].key == "label";
    assert "source"[0] != "target"[0] && "sourceHandle"[0] != "targetHandle"[0];
    assert DistinctKeys(edge);
    forall i | 0 <= i < 6 ensures Get(SerializedFields(edge), edge[i].key) == Serialized(edge[i].value) {
      GetSerialized(edge, edge[i].key);
    }
    var again := NormalizeEdge(SerializedFields(edge));
    assert again[0] == Field(edge[0].key, Serialized(edge[0].value)) &&
           again[1] == Field(edge[1].key, Serialized(edge[1].value));
    assert again[2] == Field(edge[2].key, Serialized(edge[2].value)) &&
           again[3] == Field(edge[3].key, Serialized(edge[3].value));
    assert again[4] == Field(edge[4].key, Serialized(edge[4].value)) &&
           again[5] == Field(edge[5].key, Serialized(edge[5].value));
    SerializedMapped(edge, again);
  }

  lemma {:induction false} NormalNodeDistinct(node: seq<Field>)
    requires DistinctKeys(node)
    ensures DistinctKeys(NormalizeNode(node))
  {
    WithoutDistinct(node, UI_KEYS);
    SetDistinct(Without(node, UI_KEYS), "data", JObj(NormalizeData(FieldsOf(Get(node, "data")))));
  }

  lemma {:induction false} WithoutDistinct(fields: seq<Field>, keys: seq<string>)
    requires DistinctKeys(fields)
    ensures DistinctKeys(Without(fields, keys)) && forall f | f in Without(fields, keys) :: f in fields
  {
    if fields != [] {
      WithoutDistinct(fields[1..], keys);
      FirstKeyIsOwn(fields);
    }
  }

  lemma {:induction false} FirstKeyIsOwn(fields: seq<Field>)
    requires fields != [] && DistinctKeys(fields)
    ensures DistinctKeys(fields[1..]) && forall f | f in fields[1..] :: f.key != fields[0].key && f in fields
  {
  }

  lemma {:induction false} SetDistinct(fields: seq<Field>, key: string, value: Js)
    requires DistinctKeys(fields)
    ensures DistinctKeys(Set(fields, key, value))
    ensures forall f | f in Set(fields, key, value) :: f.key == key || f in fields
  {
    if fields != [] && fields[0].key != key {
      SetDistinct(fields[1..], key, value);
      assert forall f | f in fields[1..] :: f.key != fields[0].key;
    }
  }

  ghost predicate NodesStorable(leq: (string, string) -> bool, nodes: seq<seq<Field>>) {
    NodesNormal(leq, nodes) && forall n | n in nodes :: DistinctKeys(n)
  }

  lemma {:induction false} NodesBecomeStorable(leq: (string, string) -> bool, nodes: seq<seq<Field>>)
    requires TotalPreorder(leq) && forall n | n in nodes :: WellFormed(JObj(n))
    ensures NodesStorable(leq, Sort(ById(leq), NormalizeNodes(nodes)))
  {
    NodesBecomeNormal(leq, nodes);
    var once := NormalizeNodes(nodes);
    forall i | 0 <= i < |once| ensures DistinctKeys(once[i]) {
      assert WellFormed(JObj(nodes[i]));
      NormalNodeDistinct(nodes[i]);
    }
    AllDistinctSorted(leq, once);
  }

  lemma {:induction false} AllDistinctSorted(leq: (string, string) -> bool, nodes: seq<seq<Field>>)
    requires forall i | 0 <= i < |nodes| :: DistinctKeys(nodes[i])
    ensures forall n | n in Sort(ById(leq), nodes) :: DistinctKeys(n)
  {
    SortElements(ById(leq), nodes);
  }

  lemma {:induction false} NodesThroughStorage(leq: (string, string) -> bool, nodes: seq<seq<Field>>)
    requires NodesStorable(leq, nodes)
    ensures SerializedAll(Sort(ById(leq), NormalizeNodes(SerializedAll(nodes)))) == SerializedAll(nodes)
  {
    var again := NormalizeNodes(SerializedAll(nodes));
    forall i | 0 <= i < |nodes|
      ensures SerializedFields(again[i]) == SerializedFields(nodes[i]) && IdOf(again[i]) == IdOf(nodes[i])
    {
      assert nodes[i] in nodes;
      NodeThroughStorage(nodes[i]);
    }
    forall i, j | 0 <= i < j < |again| ensures ById(leq)(again[i], again[j]) {
      assert ById(leq)(nodes[i], nodes[j]);
    }
    SortFixed(ById(leq), again);
  }

  lemma {:induction false} EdgesThroughStorage(leq: (string, string) -> bool, edges: seq<seq<Field>>)
    requires EdgesNormal(leq, edges)
    ensures SerializedAll(Sort(ById(leq), NormalizeEdges(SerializedAll(edges)))) == SerializedAll(edges)
  {
    var again := NormalizeEdges(SerializedAll(edges));
    forall i | 0 <= i < |edges|
      ensures SerializedFields(again[i]) == SerializedFields(edges[i]) && IdOf(again[i]) == IdOf(edges[i])
    {
      assert edges[i] in edges;
      EdgeThroughStorage(edges[i]);
    }
    forall i, j | 0 <= i < j < |again| ensures ById(leq)(again[i], again[j]) {
      assert ById(leq)(edges[i], edges[j]);
    }
    SortFixed(ById(leq), again);
  }

  /** A value the user cleared is not stored, so the server's own value, if any, comes back. */
  predicate ClearedOnlyIfUnset(edited: Slot, server: Slot) {
    SlotValue(edited).None? ==> SlotValue(server).None?
  }

  /**
   Closing the editor after an edit and mounting it again over the same server state brings
   back exactly the edited graph, except for a selected thread or a name that was cleared
   while the server has one.
   */
  lemma {:induction false} ReloadRestoresEdit(leq: (string, string) -> bool, server: GraphDraftState, d: Draft,
                                              next: GraphDraftState, latest: Option<Viewport>, saved: Option<Viewport>)
    requires TotalPreorder(leq) && WellFormedState(next) && d.baseline == NormalizeState(leq, server)
    requires AfterApply(leq, d, next, latest).stored.Some?
    ensures
      var reopened := AfterMount(leq, server, AfterApply(leq, d, next, latest).stored, saved);
      && reopened.baseline == d.baseline
      && (SnapshotOf(NormalizeState(leq, reopened.state)) == SnapshotOf(NormalizeState(leq, next)) <==>
            ClearedOnlyIfUnset(next.selectedThreadId, server.selectedThreadId) &&
            ClearedOnlyIfUnset(next.graphName, server.graphName))
  {
    var normalized := NormalizeState(leq, next);
    NodesBecomeStorable(leq, next.nodes);
    EdgesBecomeNormal(leq, next.edges);
    NodesThroughStorage(leq, normalized.nodes);
    EdgesThroughStorage(leq, normalized.edges);
  }

  /** For instance: a thread is deselected, the editor closed and opened again, and the server's thread is back. */
  lemma {:induction false} ReloadRevivesClearedThread(leq: (string, string) -> bool, viewport: Viewport)
    requires TotalPreorder(leq)
    ensures
      var server := GraphDraftState([], [], viewport, Present(Some("t1")), Missing, Missing);
      var edited := Apply(leq, AfterMount(leq, server, None, None), SelectThread(None), None);
      var reopened := AfterMount(leq, server, edited.stored, None);
      && SlotValue(edited.state.selectedThreadId) == None && HasUnsavedChanges(leq, edited)
      && SlotValue(reopened.state.selectedThreadId) == Some("t1")
  {
    var server := GraphDraftState([], [], viewport, Present(Some("t1")), Missing, Missing);
    var d := AfterMount(leq, server, None, None);
    var next := server.(selectedThreadId := Present(None));
    assert SnapshotOf(NormalizeState(leq, next)).selected == None;
    assert SnapshotOf(d.baseline).selected == Some("t1");
    ReloadRestoresEdit(leq, server, d, next, None, None);
  }

  // ---- the comparison forgets order and editor state, and nothing else ------------------------------------

  /** What the comparison sees of each node, in the order of the state. */
  function NodeTexts(nodes: seq<seq<Field>>): seq<seq<Field>> { SerializedAll(NormalizeNodes(nodes)) }

  function EdgeTexts(edges: seq<seq<Field>>): seq<seq<Field>> { SerializedAll(NormalizeEdges(edges)) }

  lemma {:induction false} TextInsert(leq: (string, string) -> bool, x: seq<Field>, items: seq<seq<Field>>)
    requires DistinctKeys(x) && forall y | y in items :: DistinctKeys(y)
    ensures SerializedAll(Insert(ById(leq), x, items)) == Insert(ById(leq), SerializedFields(x), SerializedAll(items))
  {
    if items != [] {
      assert items[0] in items;
      GetSerialized(x, "id");
      GetSerialized(items[0], "id");
      assert IdOf(SerializedFields(x)) == IdOf(x) && IdOf(SerializedFields(items[0])) == IdOf(items[0]);
      assert ById(leq)(x, items[0]) == ById(leq)(SerializedFields(x), SerializedFields(items[0]));
      assert SerializedAll(items)[1..] == SerializedAll(items[1..]);
      if !ById(leq)(x, items[0]) {
        TextInsert(leq, x, items[1..]);
        assert SerializedAll([items[0]] + Insert(ById(leq), x, items[1..])) ==
               [SerializedFields(items[0])] + SerializedAll(Insert(ById(leq), x, items[1..]));
      } else {
        assert SerializedAll([x] + items) == [SerializedFields(x)] + SerializedAll(items);
      }
    }
  }

  lemma {:induction false} TextSort(leq: (string, string) -> bool, items: seq<seq<Field>>)
    requires forall x | x in items :: DistinctKeys(x)
    ensures SerializedAll(Sort(ById(leq), items)) == Sort(ById(leq), SerializedAll(items))
  {
    if items != [] {
      TextSort(leq, items[1..]);
      SortElements(ById(leq), items[1..]);
      assert SerializedAll(items)[1..] == SerializedAll(items[1..]);
      TextInsert(leq, items[0], Sort(ById(leq), items[1..]));
    }
  }

  /** Different objects of the list have ids the collation tells apart. */
  predicate DistinctIds(leq: (string, string) -> bool, texts: seq<seq<Field>>) {
    TellsApart(ById(leq), texts)
  }

  lemma {:induction false} SortedTextsAgree(leq: (string, string) -> bool, a: seq<seq<Field>>, b: seq<seq<Field>>)
    requires TotalPreorder(leq) && DistinctIds(leq, a)
    ensures Sort(ById(leq), a) == Sort(ById(leq), b) <==> multiset(a) == multiset(b)
  {
    ByIdTotal(leq);
    SortPermutes(ById(leq), a);
    SortPermutes(ById(leq), b);
    SortElements(ById(leq), a);
    if multiset(a) == multiset(b) {
      SortTellsApart(ById(leq), a);
      SortSorted(ById(leq), a);
      SortSorted(ById(leq), b);
      SortedSame(ById(leq), Sort(ById(leq), a), Sort(ById(leq), b));
    }
  }

  lemma {:induction false} AllNormalDistinct(nodes: seq<seq<Field>>, edges: seq<seq<Field>>)
    requires forall n | n in nodes :: WellFormed(JObj(n))
    ensures forall n | n in NormalizeNodes(nodes) :: DistinctKeys(n)
    ensures forall e | e in NormalizeEdges(edges) :: DistinctKeys(e)
  {
    forall i | 0 <= i < |nodes| ensures DistinctKeys(NormalizeNodes(nodes)[i]) {
      assert WellFormed(JObj(nodes[i]));
      NormalNodeDistinct(nodes[i]);
    }
    forall i | 0 <= i < |edges| ensures DistinctKeys(NormalizeEdges(edges)[i]) {
      var e := NormalizeEdge(edges[i]);
      assert e[0].key == "id" && e[1].key == "source" && e[2].key == "target";
      assert e[3].key == "sourceHandle" && e[4].key == "targetHandle" && e[5].key == "label";
      assert "source"[0] != "target"[0] && "sourceHandle"[0] != "targetHandle"[0];
    }
  }

  /** The objects tied under each id by the collation are the same, in the same order. */
  ghost predicate SameTies(leq: (string, string) -> bool, a: seq<seq<Field>>, b: seq<seq<Field>>) {
    forall x :: Ties(ById(leq), x, a) == Ties(ById(leq), x, b)
  }

  lemma {:induction false} SortedTextsTie(leq: (string, string) -> bool, a: seq<seq<Field>>, b: seq<seq<Field>>)
    requires TotalPreorder(leq)
    ensures Sort(ById(leq), a) == Sort(ById(leq), b) <==> SameTies(leq, a, b)
  {
    ByIdTotal(leq);
    forall x
      ensures Ties(ById(leq), x, Sort(ById(leq), a)) == Ties(ById(leq), x, a)
      ensures Ties(ById(leq), x, Sort(ById(leq), b)) == Ties(ById(leq), x, b)
    {
      SortStable(ById(leq), x, a);
      SortStable(ById(leq), x, b);
    }
    if SameTies(leq, a, b) {
      SortSorted(ById(leq), a);
      SortSorted(ById(leq), b);
      SortUnique(ById(leq), Sort(ById(leq), a), Sort(ById(leq), b));
    }
  }

  /** The comparison is one of sorted texts. */
  lemma {:induction false} SnapshotTexts(leq: (string, string) -> bool, s: GraphDraftState)
    requires WellFormedState(s)
    ensures SnapshotOf(NormalizeState(leq, s)) ==
            Snapshot(Sort(ById(leq), NodeTexts(s.nodes)), Sort(ById(leq), EdgeTexts(s.edges)),
                     SlotValue(s.selectedThreadId), SlotValue(s.graphName))
  {
    AllNormalDistinct(s.nodes, s.edges);
    TextSort(leq, NormalizeNodes(s.nodes));
    TextSort(leq, NormalizeEdges(s.edges));
  }

  /**
   Two states compare equal exactly when they have the same selected thread, the same name and
   the same nodes and edges, in whatever order as long as nodes, or edges, whose ids the
   collation cannot tell apart keep theirs.
   */
  lemma {:induction false} EqualSnapshotsIffSameTies(leq: (string, string) -> bool, a: GraphDraftState,
                                                     b: GraphDraftState)
    requires TotalPreorder(leq) && WellFormedState(a) && WellFormedState(b)
    ensures SnapshotOf(NormalizeState(leq, a)) == SnapshotOf(NormalizeState(leq, b)) <==>
            && SameTies(leq, NodeTexts(a.nodes), NodeTexts(b.nodes))
            && SameTies(leq, EdgeTexts(a.edges), EdgeTexts(b.edges))
            && SlotValue(a.selectedThreadId) == SlotValue(b.selectedThreadId)
            && SlotValue(a.graphName) == SlotValue(b.graphName)
  {
    SnapshotTexts(leq, a);
    SnapshotTexts(leq, b);
    SortedTextsTie(leq, NodeTexts(a.nodes), NodeTexts(b.nodes));
    SortedTextsTie(leq, EdgeTexts(a.edges), EdgeTexts(b.edges));
  }

  /** Where ids differ, order plays no part at all. */
  lemma {:induction false} EqualSnapshotsIffSameContent(leq: (string, string) -> bool, a: GraphDraftState,
                                                        b: GraphDraftState)
    requires TotalPreorder(leq) && WellFormedState(a) && WellFormedState(b)
    requires DistinctIds(leq, NodeTexts(a.nodes)) && DistinctIds(leq, EdgeTexts(a.edges))
    ensures SnapshotOf(NormalizeState(leq, a)) == SnapshotOf(NormalizeState(leq, b)) <==>
            && multiset(NodeTexts(a.nodes)) == multiset(NodeTexts(b.nodes))
            && multiset(EdgeTexts(a.edges)) == multiset(EdgeTexts(b.edges))
            && SlotValue(a.selectedThreadId) == SlotValue(b.selectedThreadId)
            && SlotValue(a.graphName) == SlotValue(b.graphName)
  {
    SnapshotTexts(leq, a);
    SnapshotTexts(leq, b);
    SortedTextsAgree(leq, NodeTexts(a.nodes), NodeTexts(b.nodes));
    SortedTextsAgree(leq, EdgeTexts(a.edges), EdgeTexts(b.edges));
  }

  /** What the editor adds to a node while it is selected, dragged or measured. */
  const EDITOR_KEYS := {
    "selected", "dragging", "draggable", "selectable", "connectable", "deletable", "width", "height"
  }

  /** What a node shows of one of its own properties: everything but the editor's state and the data object. */
  lemma {:induction false} NodeTextShows(node: seq<Field>, key: string)
    requires WellFormed(JObj(node))
    ensures key !in EDITOR_KEYS && key != "data" ==> Get(NodeTexts([node])[0], key) == Serialized(Get(node, key))
    ensures key in EDITOR_KEYS ==> Get(NodeTexts([node])[0], key) == Undefined
  {
    DataKeys();
    var core, data := Without(node, UI_KEYS), JObj(NormalizeData(FieldsOf(Get(node, "data"))));
    NormalNodeDistinct(node);
    GetSerialized(NormalizeNode(node), key);
    GetSet(core, "data", data, key);
    if key in UI_KEYS {
      WithoutLacks(node, UI_KEYS);
      GetMissing(core, key);
    } else {
      GetWithout(node, UI_KEYS, key);
    }
  }

  lemma {:induction false} DataFieldsDiffer()
    ensures "label" != "template" && "label" != "config" && "template" != "config"
  {
    assert "label"[0] != "template"[0] && "label"[0] != "config"[0] && "template"[0] != "config"[0];
  }

  /** What a node shows of its data: label, template and the canonical configuration, and nothing else. */
  lemma {:induction false} NodeDataShows(node: seq<Field>, key: string)
    requires WellFormed(JObj(node))
    ensures
      var data, shown := FieldsOf(Get(node, "data")), Get(NodeTexts([node])[0], "data");
      && shown.JObj?
      && Get(shown.fields, key) ==
         if key == "label" || key == "template" then Serialized(Get(data, key))
         else if key == "config" then
           Serialized(if TruthyJs(Get(data, "config")) then Canonical(Get(data, "config")) else Get(data, "config"))
         else Undefined
  {
    DataKeys();
    DataFieldsDiffer();
    var data := NormalizeData(FieldsOf(Get(node, "data")));
    NormalNodeDistinct(node);
    GetSerialized(NormalizeNode(node), "data");
    GetSet(Without(node, UI_KEYS), "data", JObj(data), "data");
    assert data[0].key == "label" && data[1].key == "template" && data[2].key == "config";
    GetSerialized(data, key);
    DataGets(FieldsOf(Get(node, "data")), key);
  }

  lemma {:induction false} DataGets(data: seq<Field>, key: string)
    ensures
      var config := Get(data, "config");
      Get(NormalizeData(data), key) ==
      if key == "label" || key == "template" then Get(data, key)
      else if key == "config" then (if TruthyJs(config) then Canonical(config) else config)
      else Undefined
  {
    DataFieldsDiffer();
    var normal := NormalizeData(data);
    assert normal[0].key == "label" && normal[1].key == "template" && normal[2].key == "config";
    GetAt(normal, 0);
    GetAt(normal, 1);
    GetAt(normal, 2);
    if key !in ["label", "template", "config"] { GetMissing(normal, key); }
  }

  /** What an edge shows: its id, its ends, its handles, and a label that is a text. */
  lemma {:induction false} EdgeTextShows(edge: seq<Field>, key: string)
    ensures
      Get(EdgeTexts([edge])[0], key) ==
      if key in ["id", "source", "target", "sourceHandle", "targetHandle"] then Serialized(Get(edge, key))
      else if key == "label" && Get(edge, "label").JStr? then Get(edge, "label")
      else Undefined
  {
    var normal := NormalizeEdge(edge);
    EdgeGets(edge);
    assert normal[0].key == "id" && normal[1].key == "source" && normal[2].key == "target";
    assert normal[3].key == "sourceHandle" && normal[4].key == "targetHandle" && normal[5].key == "label";
    assert "source"[0] != "target"[0] && "sourceHandle"[0] != "targetHandle"[0];
    GetSerialized(normal, key);
    if key !in ["id", "source", "target", "sourceHandle", "targetHandle", "label"] { GetMissing(normal, key); }
  }
}
