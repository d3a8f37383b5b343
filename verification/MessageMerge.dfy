/** Merging persisted messages into a thread: streaming and optimistic entries give way. */
module MessageMerge {
  import opened JsonValues
  import opened Sorting
  import opened Messages

  // ---- the merge, step by step ---------------------------------------------------------------------------

  predicate CarriesRouting(key: string, value: Json) {
    match key
    case "__toolCallId" => value.Str? && value.s != ""
    case "__subagentCommunication" => value == Bool(true)
    case "__interAgentCommunication" => value == Bool(true)
    case "__sourceAgentNodeId" => value.Str? && value.s != ""
    case _ => false
  }

  /** extractCommRoutingKwargs */
  function Routing(m: Message): map<string, Json> {
    map k | k in Kwargs(m) && CarriesRouting(k, Kwargs(m)[k]) :: Kwargs(m)[k]
  }

  function ReasoningIds(incoming: seq<Message>): set<string> {
    set m | m in incoming && ReasoningId(m).Some? :: ReasoningId(m).value
  }

  function ReasoningRunIds(incoming: seq<Message>): set<string> {
    set m | m in incoming && IsReasoning(m) && RunId(m).Some? :: RunId(m).value
  }

  /** A streaming entry whose reasoning, or whose run's reasoning, the batch persists. */
  predicate MatchedStreaming(incoming: seq<Message>, m: Message) {
    IsStreaming(m) &&
    ((ReasoningId(m).Some? && ReasoningId(m).value in ReasoningIds(incoming)) ||
     (RunId(m).Some? && RunId(m).value in ReasoningRunIds(incoming)))
  }

  /** An optimistic human message whose content a real message of the batch carries. */
  predicate MatchedOptimistic(incoming: seq<Message>, m: Message) {
    IsOptimistic(m) && HumanContent(m).Some? &&
    exists r | r in incoming :: !IsOptimistic(r) && HumanContent(r) == HumanContent(m)
  }

  predicate Replaced(incoming: seq<Message>, m: Message) {
    MatchedStreaming(incoming, m) || MatchedOptimistic(incoming, m)
  }

  function NotReplaced(incoming: seq<Message>): Message -> bool { (m: Message) => !Replaced(incoming, m) }

  function Kept(prev: seq<Message>, incoming: seq<Message>): seq<Message> { Where(NotReplaced(incoming), prev) }

  /** Routing of the last streaming entry of prev with each key; `keyOf` is its reasoning id or its run id. */
  function RoutingBy(keyOf: Message -> Option<string>, prev: seq<Message>,
                     keys: set<string>): map<string, map<string, Json>> {
    if prev == [] then map[]
    else
      var last := prev[|prev| - 1];
      var before := RoutingBy(keyOf, prev[..|prev| - 1], keys);
      if IsStreaming(last) && Routing(last) != map[] && keyOf(last).Some? && keyOf(last).value in keys
      then before[keyOf(last).value := Routing(last)] else before
  }

  function ReasoningKey(): Message -> Option<string> { (m: Message) => ReasoningId(m) }

  function RunKey(): Message -> Option<string> { (m: Message) => RunId(m) }

  function LookUp(table: map<string, map<string, Json>>, key: Option<string>): map<string, Json> {
    if key.Some? && key.value in table then table[key.value] else map[]
  }

  function Carried(prev: seq<Message>, incoming: seq<Message>, m: Message): map<string, Json> {
    var byId := LookUp(RoutingBy(ReasoningKey(), prev, ReasoningIds(incoming)), ReasoningId(m));
    if byId != map[] then byId else LookUp(RoutingBy(RunKey(), prev, ReasoningRunIds(incoming)), RunId(m))
  }

  predicate Tagged(m: Message) { "__toolCallId" in Routing(m) }

  function WithKwargs(m: Message, more: map<string, Json>): Message
    requires m.body.Some?
  {
    m.(body := Some(m.body.value.(kwargs := Some(Kwargs(m) + more))))
  }

  /** A persisted reasoning message without a tool-call id takes over the routing of the entry it replaces. */
  function Patched(prev: seq<Message>, incoming: seq<Message>, m: Message): Message {
    if !IsReasoning(m) || Tagged(m) || Carried(prev, incoming, m) == map[] then m
    else WithKwargs(m, Carried(prev, incoming, m))
  }

  function PatchedAll(prev: seq<Message>, incoming: seq<Message>): seq<Message> {
    seq(|incoming|, i requires 0 <= i < |incoming| => Patched(prev, incoming, incoming[i]))
  }

  function Merge(prev: seq<Message>, incoming: seq<Message>): seq<Message> {
    if incoming == [] then prev
    else Chronological(PutAll(PutAll([], Kept(prev, incoming)), PatchedAll(prev, incoming)))
  }

  // ---- the code ------------------------------------------------------------------------------------------

  method CollectRouting(prev: seq<Message>, reasoningIds: set<string>, runIds: set<string>)
    returns (byReasoningId: map<string, map<string, Json>>, byRunId: map<string, map<string, Json>>)
    ensures byReasoningId == RoutingBy(ReasoningKey(), prev, reasoningIds)
    ensures byRunId == RoutingBy(RunKey(), prev, runIds)
  {
    byReasoningId, byRunId := map[], map[];
    for i := 0 to |prev|
      invariant byReasoningId == RoutingBy(ReasoningKey(), prev[..i], reasoningIds)
      invariant byRunId == RoutingBy(RunKey(), prev[..i], runIds)
    {
      var m := prev[i];
      assert prev[..i + 1][..i] == prev[..i];
      var routing := Routing(m);
      if IsStreaming(m) && routing != map[] {
        var reasoningId, runId := ReasoningId(m), RunId(m);
        if reasoningId.Some? && reasoningId.value in reasoningIds {
          byReasoningId := byReasoningId[reasoningId.value := routing];
        }
        if runId.Some? && runId.value in runIds {
          byRunId := byRunId[runId.value := routing];
        }
      }
    }
    assert prev[..|prev|] == prev;
  }

  /** The first fill of the map: previous messages, without those the batch replaces. */
  method AddPrevious(prev: seq<Message>, incoming: seq<Message>) returns (table: seq<Message>)
    ensures table == PutAll([], Kept(prev, incoming))
  {
    table := [];
    for i := 0 to |prev|
      invariant table == PutAll([], Kept(prev[..i], incoming))
    {
      var m := prev[i];
      assert prev[..i + 1] == prev[..i] + [m];
      WhereAppend(NotReplaced(incoming), prev[..i], m);
      if !MatchedStreaming(incoming, m) && !MatchedOptimistic(incoming, m) {
        PutAllAppend([], Kept(prev[..i], incoming), m);
        table := Put(table, m);
      }
    }
    assert prev[..|prev|] == prev;
  }

  /** The second fill: the batch, each untagged reasoning message patched with the routing found for it. */
  method AddIncoming(start: seq<Message>, ghost prev: seq<Message>, incoming: seq<Message>,
                     byReasoningId: map<string, map<string, Json>>, byRunId: map<string, map<string, Json>>)
    returns (table: seq<Message>)
    requires byReasoningId == RoutingBy(ReasoningKey(), prev, ReasoningIds(incoming))
    requires byRunId == RoutingBy(RunKey(), prev, ReasoningRunIds(incoming))
    ensures table == PutAll(start, PatchedAll(prev, incoming))
  {
    table := start;
    ghost var all := PatchedAll(prev, incoming);
    for i := 0 to |incoming|
      invariant table == PutAll(start, all[..i])
    {
      var patched := PatchOne(incoming[i], prev, incoming, byReasoningId, byRunId);
      assert all[..i + 1] == all[..i] + [all[i]];
      PutAllAppend(start, all[..i], patched);
      table := Put(table, patched);
    }
    assert all[..|incoming|] == all;
  }

  /** The patch of one message of the batch, from the tables collected before. */
  method PatchOne(m: Message, ghost prev: seq<Message>, ghost incoming: seq<Message>,
                  byReasoningId: map<string, map<string, Json>>, byRunId: map<string, map<string, Json>>)
    returns (patched: Message)
    requires byReasoningId == RoutingBy(ReasoningKey(), prev, ReasoningIds(incoming))
    requires byRunId == RoutingBy(RunKey(), prev, ReasoningRunIds(incoming))
    ensures patched == Patched(prev, incoming, m)
  {
    patched := m;
    if IsReasoning(m) && !Tagged(m) {
      var byId := LookUp(byReasoningId, ReasoningId(m));
      var carried := if byId != map[] then byId else LookUp(byRunId, RunId(m));
      if carried != map[] {
        patched := WithKwargs(m, carried);
      }
    }
  }

  method MergeMessagesReplacingStreaming(prev: seq<Message>, incoming: seq<Message>) returns (merged: seq<Message>)
    ensures merged == Merge(prev, incoming)
  {
    if |incoming| == 0 {
      return prev;
    }
    var byReasoningId, byRunId := CollectRouting(prev, ReasoningIds(incoming), ReasoningRunIds(incoming));
    var table := AddPrevious(prev, incoming);
    table := AddIncoming(table, prev, incoming, byReasoningId, byRunId);
    merged := SortMessagesChronologically(table);
  }

  lemma {:induction false} PutAllAppend(messages: seq<Message>, more: seq<Message>, m: Message)
    ensures PutAll(messages, more + [m]) == Put(PutAll(messages, more), m)
    decreases |more|
  {
    if more == [] {
      assert ([] + [m])[1..] == [];
    } else {
      assert (more + [m])[1..] == more[1..] + [m];
      PutAllAppend(Put(messages, more[0]), more[1..], m);
    }
  }

  // ---- what a merge keeps and replaces ---------------------------------------------------------------------

  lemma {:induction false} LastVersionMember(messages: seq<Message>, id: string)
    ensures (exists m | m in messages :: m.id == id) <==> LastVersion(messages, id).Some?
    ensures LastVersion(messages, id).Some? ==>
              LastVersion(messages, id).value in messages && LastVersion(messages, id).value.id == id
  {
    if messages != [] {
      LastVersionMember(messages[1..], id);
      assert messages == [messages[0]] + messages[1..];
    }
  }

  /**
   The whole result of a merge: one message per id in chronological order; every incoming id
   stands for its last incoming version, patched; every other id for the last message of
   prev under it that no incoming message replaces.
   */
  lemma {:induction false} MergeContents(prev: seq<Message>, incoming: seq<Message>, id: string)
    requires incoming != []
    ensures
      var merged := Merge(prev, incoming);
      && UniqueIds(merged) && InOrder(merged)
      && Find(merged, id) == if LastVersion(PatchedAll(prev, incoming), id).Some?
                             then LastVersion(PatchedAll(prev, incoming), id)
                             else LastVersion(Kept(prev, incoming), id)
  {
    var kept, patched := Kept(prev, incoming), PatchedAll(prev, incoming);
    var table := PutAll(PutAll([], kept), patched);
    PutAllUnique([], kept);
    PutAllUnique(PutAll([], kept), patched);
    PutAllFind([], kept, id);
    PutAllFind(PutAll([], kept), patched, id);
    SortUniqueIds(table);
    SortFind(table, id);
    SortSorted(ByTime(), table);
  }

  /** No message is lost: what the batch does not replace survives under its id, and the batch arrives whole. */
  lemma {:induction false} MergeConserves(prev: seq<Message>, incoming: seq<Message>, m: Message)
    requires incoming != []
    ensures m in prev && !Replaced(incoming, m) ==> Find(Merge(prev, incoming), m.id).Some?
    ensures m in incoming ==> Find(Merge(prev, incoming), m.id).Some?
    ensures m in Merge(prev, incoming) ==> m in Kept(prev, incoming) || m in PatchedAll(prev, incoming)
  {
    var merged := Merge(prev, incoming);
    MergeContents(prev, incoming, m.id);
    WhereMembers(NotReplaced(incoming), prev);
    LastVersionMember(Kept(prev, incoming), m.id);
    LastVersionMember(PatchedAll(prev, incoming), m.id);
    if m in incoming {
      var i :| 0 <= i < |incoming| && incoming[i] == m;
      assert PatchedAll(prev, incoming)[i].id == m.id && PatchedAll(prev, incoming)[i] in PatchedAll(prev, incoming);
    }
    if m in merged { UniqueFind(merged, m); }
  }

  /**
   r replaces m: persisted reasoning a streaming entry with its reasoning id or its run id, and a
   real human message an optimistic one with its content.
   */
  predicate Replaces(r: Message, m: Message) {
    || (&& IsReasoning(m) && Truthy(Kwarg(m, "__streamingReasoning")) && IsReasoning(r)
        && ((ReasoningId(r).Some? && ReasoningId(r) == ReasoningId(m)) || (RunId(r).Some? && RunId(r) == RunId(m))))
    || (&& "optimistic-" <= m.id && !("optimistic-" <= r.id)
        && HumanContent(m).Some? && HumanContent(r) == HumanContent(m))
  }

  lemma {:induction false} ReplacedBySome(incoming: seq<Message>, m: Message)
    ensures Replaced(incoming, m) <==> exists r | r in incoming :: Replaces(r, m)
  {
    if MatchedStreaming(incoming, m) {
      if ReasoningId(m).Some? && ReasoningId(m).value in ReasoningIds(incoming) {
        var r :| r in incoming && ReasoningId(r) == ReasoningId(m);
        assert Replaces(r, m);
      } else {
        var r :| r in incoming && IsReasoning(r) && RunId(r).Some? && RunId(r) == RunId(m);
        assert Replaces(r, m);
      }
    }
    if MatchedOptimistic(incoming, m) {
      var r :| r in incoming && !IsOptimistic(r) && HumanContent(r) == HumanContent(m);
      assert Replaces(r, m);
    }
  }

  /**
   A previous message whose id the batch does not bring is dropped exactly when some message of the
   batch replaces it.
   */
  lemma {:induction false} MergeDropsExactly(prev: seq<Message>, incoming: seq<Message>, m: Message)
    requires incoming != [] && UniqueIds(prev) && m in prev && forall r | r in incoming :: r.id != m.id
    ensures m in Merge(prev, incoming) <==> !exists r | r in incoming :: Replaces(r, m)
  {
    var merged := Merge(prev, incoming);
    ReplacedBySome(incoming, m);
    MergeConserves(prev, incoming, m);
    WhereMembers(NotReplaced(incoming), prev);
    NotPatched(prev, incoming, m.id);
    if !Replaced(incoming, m) {
      FindMember(merged, m.id);
      var found := Find(merged, m.id).value;
      MergeConserves(prev, incoming, found);
      UniqueFind(prev, m);
      UniqueFind(prev, found);
    }
  }

  lemma {:induction false} NotPatched(prev: seq<Message>, incoming: seq<Message>, id: string)
    requires forall r | r in incoming :: r.id != id
    ensures forall p | p in PatchedAll(prev, incoming) :: p.id != id
  {
    forall i | 0 <= i < |incoming| ensures PatchedAll(prev, incoming)[i].id != id { assert incoming[i] in incoming; }
  }

  // ---- the routing a message takes over ----------------------------------------------------------------------

  /** The i-th message of prev is the last streaming entry with routing under the key. */
  predicate LastRouted(keyOf: Message -> Option<string>, prev: seq<Message>, i: nat, key: string) {
    && i < |prev| && IsStreaming(prev[i]) && Routing(prev[i]) != map[] && keyOf(prev[i]) == Some(key)
    && forall j | i < j < |prev| && IsStreaming(prev[j]) && Routing(prev[j]) != map[] :: keyOf(prev[j]) != Some(key)
  }

  predicate HasRouted(keyOf: Message -> Option<string>, prev: seq<Message>, key: Option<string>) {
    key.Some? && exists i | 0 <= i < |prev| :: LastRouted(keyOf, prev, i, key.value)
  }

  /**
   The i-th message of prev is the one whose routing r takes over: r is reasoning without a
   tool-call id, and the entry is the last with its reasoning id, else the last with its run id.
   */
  predicate TakesOver(prev: seq<Message>, r: Message, i: nat) {
    IsReasoning(r) && !Tagged(r) &&
    if HasRouted(ReasoningKey(), prev, ReasoningId(r)) then LastRouted(ReasoningKey(), prev, i, ReasoningId(r).value)
    else RunId(r).Some? && LastRouted(RunKey(), prev, i, RunId(r).value)
  }

  lemma {:induction false} RoutingOfLast(keyOf: Message -> Option<string>, prev: seq<Message>, keys: set<string>,
                                         i: nat, key: string)
    requires LastRouted(keyOf, prev, i, key) && key in keys
    ensures LookUp(RoutingBy(keyOf, prev, keys), Some(key)) == Routing(prev[i])
  {
    if i < |prev| - 1 {
      var before := prev[..|prev| - 1];
      assert before[i] == prev[i];
      RoutingOfLast(keyOf, before, keys, i, key);
      assert keyOf(prev[|prev| - 1]) != Some(key) || !IsStreaming(prev[|prev| - 1]) ||
             Routing(prev[|prev| - 1]) == map[];
    }
  }

  lemma {:induction false} RoutingHasLast(keyOf: Message -> Option<string>, prev: seq<Message>, keys: set<string>,
                                          key: string)
    requires key in RoutingBy(keyOf, prev, keys)
    ensures exists i | 0 <= i < |prev| :: LastRouted(keyOf, prev, i, key)
  {
    var before, last := prev[..|prev| - 1], prev[|prev| - 1];
    if IsStreaming(last) && Routing(last) != map[] && keyOf(last) == Some(key) {
      assert LastRouted(keyOf, prev, |prev| - 1, key);
    } else {
      RoutingHasLast(keyOf, before, keys, key);
      var i :| 0 <= i < |before| && LastRouted(keyOf, before, i, key);
      assert prev == before + [last];
      StaysLast(keyOf, before, last, i, key);
    }
  }

  lemma {:induction false} StaysLast(keyOf: Message -> Option<string>, prev: seq<Message>, next: Message, i: nat,
                                     key: string)
    requires LastRouted(keyOf, prev, i, key)
    requires IsStreaming(next) && Routing(next) != map[] ==> keyOf(next) != Some(key)
    ensures LastRouted(keyOf, prev + [next], i, key)
  {
    assert forall j | 0 <= j < |prev| :: (prev + [next])[j] == prev[j];
  }

  /** Looking up a key finds the routing of the last entry under it, and nothing when there is none. */
  lemma {:induction false} LookUpIsLast(keyOf: Message -> Option<string>, prev: seq<Message>, keys: set<string>,
                                        key: Option<string>)
    requires key.Some? ==> key.value in keys
    ensures LookUp(RoutingBy(keyOf, prev, keys), key) != map[] <==> HasRouted(keyOf, prev, key)
    ensures forall i: nat | key.Some? && LastRouted(keyOf, prev, i, key.value) ::
              LookUp(RoutingBy(keyOf, prev, keys), key) == Routing(prev[i])
  {
    forall i: nat | key.Some? && LastRouted(keyOf, prev, i, key.value)
      ensures LookUp(RoutingBy(keyOf, prev, keys), key) == Routing(prev[i])
    {
      RoutingOfLast(keyOf, prev, keys, i, key.value);
    }
    if LookUp(RoutingBy(keyOf, prev, keys), key) != map[] { RoutingHasLast(keyOf, prev, keys, key.value); }
  }

  /** What a reasoning message of the batch carries over is the routing of the entry it takes over, if any. */
  lemma {:induction false} CarriedIsTakenOver(prev: seq<Message>, incoming: seq<Message>, r: Message)
    requires r in incoming && IsReasoning(r) && !Tagged(r)
    ensures forall i: nat | TakesOver(prev, r, i) :: Carried(prev, incoming, r) == Routing(prev[i])
    ensures Carried(prev, incoming, r) != map[] <==> exists i: nat :: TakesOver(prev, r, i)
  {
    LookUpIsLast(ReasoningKey(), prev, ReasoningIds(incoming), ReasoningId(r));
    LookUpIsLast(RunKey(), prev, ReasoningRunIds(incoming), RunId(r));
    if HasRouted(ReasoningKey(), prev, ReasoningId(r)) {
      var i :| 0 <= i < |prev| && LastRouted(ReasoningKey(), prev, i, ReasoningId(r).value);
      assert TakesOver(prev, r, i);
    } else if HasRouted(RunKey(), prev, RunId(r)) {
      var i :| 0 <= i < |prev| && LastRouted(RunKey(), prev, i, RunId(r).value);
      assert TakesOver(prev, r, i);
    }
  }

  /** r already says everything the entry would give it. */
  predicate SaysAlready(entry: Message, r: Message) {
    forall k | k in Routing(entry) :: Kwarg(r, k) == Some(Routing(entry)[k])
  }

  /** The patch changes nothing exactly when the message already says what it would take over. */
  lemma {:induction false} PatchedIffNew(prev: seq<Message>, incoming: seq<Message>, r: Message)
    requires r in incoming
    ensures Patched(prev, incoming, r) == r <==> forall i: nat | TakesOver(prev, r, i) :: SaysAlready(prev[i], r)
  {
    if IsReasoning(r) && !Tagged(r) {
      CarriedIsTakenOver(prev, incoming, r);
      var carried := Carried(prev, incoming, r);
      if carried != map[] {
        var i: nat :| TakesOver(prev, r, i);
        WithKwargsSame(r, carried);
        assert SaysAlready(prev[i], r) <==> forall k | k in carried :: Kwarg(r, k) == Some(carried[k]);
      }
    }
  }

  lemma {:induction false} WithKwargsSame(m: Message, more: map<string, Json>)
    requires m.body.Some? && more != map[]
    ensures WithKwargs(m, more) == m <==> forall k | k in more :: Kwarg(m, k) == Some(more[k])
  {
    var k :| k in more;
    if forall k | k in more :: Kwarg(m, k) == Some(more[k]) {
      assert Kwargs(m) + more == Kwargs(m);
    } else {
      var k :| k in more && Kwarg(m, k) != Some(more[k]);
      assert (Kwargs(m) + more)[k] == more[k];
    }
  }

  /**
   An untagged reasoning message, in its last version, stands in the merged list with the
   tool-call id and the other routing fields of the entry it takes over, found by its
   reasoning id or else by its run id, and with its own fields otherwise.
   */
  lemma {:induction false} RoutingIsCarriedForward(prev: seq<Message>, incoming: seq<Message>, r: Message, i: nat)
    requires LastVersion(incoming, r.id) == Some(r) && TakesOver(prev, r, i)
    ensures
      var merged := Find(Merge(prev, incoming), r.id);
      && merged.Some?
      && (forall k :: Kwarg(merged.value, k) ==
                      if CarriesField(k, Kwarg(prev[i], k)) then Kwarg(prev[i], k) else Kwarg(r, k))
      && merged.value.body.Some? && merged.value.body.value.content == r.body.value.content
      && merged.value.createdAt == r.createdAt
  {
    LastVersionMember(incoming, r.id);
    CarriedIsTakenOver(prev, incoming, r);
    MergeContents(prev, incoming, r.id);
    LastVersionPatched(prev, incoming, incoming, r.id);
    RoutingFields(prev[i]);
  }

  /** The fields that route a message to the block it belongs to: two texts and two flags, where they are set. */
  predicate CarriesField(key: string, value: Option<Json>) {
    || (key in ["__toolCallId", "__sourceAgentNodeId"] && NonEmpty(StringOf(value)).Some?)
    || (key in ["__subagentCommunication", "__interAgentCommunication"] && value == Some(Bool(true)))
  }

  lemma {:induction false} RoutingFields(m: Message)
    ensures forall k :: k in Routing(m) <==> CarriesField(k, Kwarg(m, k))
    ensures forall k | k in Routing(m) :: Kwarg(m, k) == Some(Routing(m)[k])
  {
    assert |"__toolCallId"| == 12 && |"__sourceAgentNodeId"| == 19;
    assert |"__subagentCommunication"| == 23 && |"__interAgentCommunication"| == 25;
  }

  /** Every other incoming message arrives, in its last version, as it is. */
  lemma {:induction false} OthersArriveAsTheyAre(prev: seq<Message>, incoming: seq<Message>, r: Message)
    requires LastVersion(incoming, r.id) == Some(r) && forall i: nat :: !TakesOver(prev, r, i)
    ensures Find(Merge(prev, incoming), r.id) == Some(r)
  {
    LastVersionMember(incoming, r.id);
    PatchedIffNew(prev, incoming, r);
    MergeContents(prev, incoming, r.id);
    LastVersionPatched(prev, incoming, incoming, r.id);
  }

  // ---- merging the same batch again --------------------------------------------------------------------------

  /** A batch of persisted messages only. */
  predicate Persisted(incoming: seq<Message>) {
    forall r | r in incoming :: !IsStreaming(r) && !IsOptimistic(r)
  }

  lemma {:induction false} PatchKeepsKind(prev: seq<Message>, incoming: seq<Message>, m: Message)
    ensures
      var p := Patched(prev, incoming, m);
      p.id == m.id && p.createdAt == m.createdAt && IsReasoning(p) == IsReasoning(m) && IsStreaming(p) == IsStreaming(m)
  {
    CarriedIsRouting(prev, incoming, m);
  }

  lemma {:induction false} RoutingByIsRouting(keyOf: Message -> Option<string>, prev: seq<Message>, keys: set<string>)
    ensures forall k, f | k in RoutingBy(keyOf, prev, keys) && f in RoutingBy(keyOf, prev, keys)[k] ::
              CarriesRouting(f, RoutingBy(keyOf, prev, keys)[k][f])
    ensures forall k | k in RoutingBy(keyOf, prev, keys) ::
              exists m | m in prev :: IsStreaming(m) && keyOf(m) == Some(k) && k in keys
  {
    if prev != [] {
      var before, last := prev[..|prev| - 1], prev[|prev| - 1];
      RoutingByIsRouting(keyOf, before, keys);
      assert prev == before + [last];
    }
  }

  lemma {:induction false} CarriedIsRouting(prev: seq<Message>, incoming: seq<Message>, m: Message)
    ensures forall f | f in Carried(prev, incoming, m) :: CarriesRouting(f, Carried(prev, incoming, m)[f])
    ensures STREAMING_REASONING_FLAG !in Carried(prev, incoming, m)
  {
    RoutingByIsRouting(ReasoningKey(), prev, ReasoningIds(incoming));
    RoutingByIsRouting(RunKey(), prev, ReasoningRunIds(incoming));
    assert |STREAMING_REASONING_FLAG| == 20 && |"__toolCallId"| == 12 && |"__subagentCommunication"| == 23;
    assert |"__interAgentCommunication"| == 25 && |"__sourceAgentNodeId"| == 19;
    assert forall v :: !CarriesRouting(STREAMING_REASONING_FLAG, v);
  }

  /** Nothing in a merged list is still to be replaced by the same batch. */
  lemma {:induction false} NothingLeftToReplace(prev: seq<Message>, incoming: seq<Message>, m: Message)
    requires incoming != [] && Persisted(incoming) && m in Merge(prev, incoming)
    ensures !Replaced(incoming, m)
  {
    MergeConserves(prev, incoming, m);
    WhereMembers(NotReplaced(incoming), prev);
    if m in PatchedAll(prev, incoming) {
      var i :| 0 <= i < |incoming| && m == Patched(prev, incoming, incoming[i]);
      PatchKeepsKind(prev, incoming, incoming[i]);
      assert incoming[i] in incoming;
    }
  }

  /** With no streaming entry left that the batch matches, there is no routing to carry over. */
  lemma {:induction false} NothingToCarry(prev: seq<Message>, incoming: seq<Message>)
    requires forall m | m in prev :: !MatchedStreaming(incoming, m)
    ensures PatchedAll(prev, incoming) == incoming
  {
    RoutingByIsRouting(ReasoningKey(), prev, ReasoningIds(incoming));
    RoutingByIsRouting(RunKey(), prev, ReasoningRunIds(incoming));
    assert RoutingBy(ReasoningKey(), prev, ReasoningIds(incoming)) == map[];
    assert RoutingBy(RunKey(), prev, ReasoningRunIds(incoming)) == map[];
    forall i | 0 <= i < |incoming| ensures Patched(prev, incoming, incoming[i]) == incoming[i] {}
  }

  lemma {:induction false} PutAllSameIds(messages: seq<Message>, more: seq<Message>)
    requires forall m | m in more :: Find(messages, m.id).Some?
    ensures Ids(PutAll(messages, more)) == Ids(messages)
    decreases |more|
  {
    if more != [] {
      PutIds(messages, more[0]);
      forall m | m in more[1..] ensures Find(Put(messages, more[0]), m.id).Some? {
        PutFind(messages, more[0], m.id);
      }
      PutAllSameIds(Put(messages, more[0]), more[1..]);
    }
  }

  /** Putting messages in that agree in id and time with what is there leaves the order intact. */
  lemma {:induction false} SameIdsSameTimes(a: seq<Message>, b: seq<Message>)
    requires UniqueIds(a) && UniqueIds(b) && Ids(a) == Ids(b) && InOrder(a)
    requires forall id | Find(a, id).Some? && Find(b, id).Some? ::
             Find(a, id).value.createdAt == Find(b, id).value.createdAt
    ensures InOrder(b)
  {
    forall i | 0 <= i < |a| ensures a[i].createdAt == b[i].createdAt {
      assert Ids(a)[i] == Ids(b)[i];
      UniqueFind(a, a[i]);
      UniqueFind(b, b[i]);
    }
    assert |Ids(a)| == |Ids(b)|;
    forall i, j | 0 <= i < j < |b| ensures ByTime()(b[i], b[j]) {
      assert ByTime()(a[i], a[j]);
    }
  }

  lemma {:induction false} LastVersionPatched(prev: seq<Message>, incoming: seq<Message>, batch: seq<Message>,
                                              id: string)
    ensures
      var patched := seq(|batch|, i requires 0 <= i < |batch| => Patched(prev, incoming, batch[i]));
      LastVersion(patched, id) ==
      if LastVersion(batch, id).None? then None else Some(Patched(prev, incoming, LastVersion(batch, id).value))
  {
    if batch != [] {
      var patched := seq(|batch|, i requires 0 <= i < |batch| => Patched(prev, incoming, batch[i]));
      assert patched[1..] ==
             seq(|batch[1..]|, i requires 0 <= i < |batch[1..]| => Patched(prev, incoming, batch[1..][i]));
      LastVersionPatched(prev, incoming, batch[1..], id);
      PatchKeepsKind(prev, incoming, batch[0]);
    }
  }

  /** No last version of a message takes over anything it does not say already. */
  ghost predicate TakesNothingNew(prev: seq<Message>, incoming: seq<Message>) {
    forall r, i: nat | r in incoming && LastVersion(incoming, r.id) == Some(r) && TakesOver(prev, r, i) ::
      SaysAlready(prev[i], r)
  }

  /** The table of the second merge: the first result with the plain batch put over it. */
  lemma {:induction false} SecondMerge(prev: seq<Message>, incoming: seq<Message>)
    requires incoming != [] && Persisted(incoming)
    ensures
      var once := Merge(prev, incoming);
      && Merge(once, incoming) == PutAll(once, incoming)
      && UniqueIds(PutAll(once, incoming)) && Ids(PutAll(once, incoming)) == Ids(once)
  {
    var once := Merge(prev, incoming);
    forall m | m in once ensures !Replaced(incoming, m) {
      NothingLeftToReplace(prev, incoming, m);
    }
    WhereAll(NotReplaced(incoming), once);
    NothingToCarry(once, incoming);
    MergeContents(prev, incoming, "");
    assert [] + once == once;
    PutAllFresh([], once);
    forall m | m in incoming ensures Find(once, m.id).Some? { MergeConserves(prev, incoming, m); }
    PutAllSameIds(once, incoming);
    PutAllUnique(once, incoming);
    forall id | Find(once, id).Some? && Find(PutAll(once, incoming), id).Some?
      ensures Find(once, id).value.createdAt == Find(PutAll(once, incoming), id).value.createdAt
    {
      SecondFind(prev, incoming, id);
    }
    SameIdsSameTimes(once, PutAll(once, incoming));
    SortFixed(ByTime(), PutAll(once, incoming));
  }

  lemma {:induction false} SecondFind(prev: seq<Message>, incoming: seq<Message>, id: string)
    requires incoming != []
    ensures
      var once := Merge(prev, incoming);
      var last := LastVersion(incoming, id);
      && Find(PutAll(once, incoming), id) == (if last.Some? then last else Find(once, id))
      && (last.Some? ==> Find(once, id) == Some(Patched(prev, incoming, last.value)) &&
                         Find(once, id).value.createdAt == last.value.createdAt)
  {
    PutAllFind(Merge(prev, incoming), incoming, id);
    MergeContents(prev, incoming, id);
    LastVersionPatched(prev, incoming, incoming, id);
    if LastVersion(incoming, id).Some? { PatchKeepsKind(prev, incoming, LastVersion(incoming, id).value); }
  }

  /**
   Delivering the same batch of persisted messages twice is a no-op exactly when no untagged
   reasoning message in it, in its last version, takes over routing it does not say itself:
   one that does comes back without the routing it had been given.
   */
  lemma {:induction false} RedeliveryIsNoOpIffNothingTaken(prev: seq<Message>, incoming: seq<Message>)
    requires incoming != [] && Persisted(incoming)
    ensures Merge(Merge(prev, incoming), incoming) == Merge(prev, incoming) <==> TakesNothingNew(prev, incoming)
  {
    SecondMerge(prev, incoming);
    if TakesNothingNew(prev, incoming) {
      RedeliveryKeeps(prev, incoming);
    } else {
      var r, i: nat :| r in incoming && LastVersion(incoming, r.id) == Some(r) && TakesOver(prev, r, i) &&
        !SaysAlready(prev[i], r);
      PatchedIffNew(prev, incoming, r);
      SecondFind(prev, incoming, r.id);
    }
  }

  lemma {:induction false} RedeliveryKeeps(prev: seq<Message>, incoming: seq<Message>)
    requires incoming != [] && Persisted(incoming) && TakesNothingNew(prev, incoming)
    ensures PutAll(Merge(prev, incoming), incoming) == Merge(prev, incoming)
  {
    var once := Merge(prev, incoming);
    forall id ensures Find(PutAll(once, incoming), id) == Find(once, id) {
      SecondFind(prev, incoming, id);
      LastVersionMember(incoming, id);
      if LastVersion(incoming, id).Some? { PatchedIffNew(prev, incoming, LastVersion(incoming, id).value); }
    }
    SecondMerge(prev, incoming);
    MergeContents(prev, incoming, "");
    SameEntries(PutAll(once, incoming), once);
  }

  /** In particular when every reasoning message of the batch carries its tool-call id. */
  lemma {:induction false} TaggedRedeliveryIsNoOp(prev: seq<Message>, incoming: seq<Message>)
    requires Persisted(incoming) && forall r | r in incoming && IsReasoning(r) :: Tagged(r)
    ensures Merge(Merge(prev, incoming), incoming) == Merge(prev, incoming)
  {
    if incoming != [] { RedeliveryIsNoOpIffNothingTaken(prev, incoming); }
  }

  // ---- a batch whose redelivery loses a tool-call id ----------------------------------------------------------

  function SampleReasoning(id: string, kwargs: map<string, Json>): Message {
    Message(id, "", "", "", Instant("", 0), "", Some(Body("reasoning", Some(Str("r1")), None, Some(kwargs))))
  }

  /** While it streamed, the reasoning was tagged; persisted, it is not. */
  lemma {:induction false} RedeliveryCanLoseRouting()
    ensures
      var prev := [SampleReasoning("r1", map[STREAMING_REASONING_FLAG := Bool(true), "__toolCallId" := Str("c")])];
      var incoming := [SampleReasoning("m1", map[])];
      Persisted(incoming) && Merge(Merge(prev, incoming), incoming) != Merge(prev, incoming)
  {
    var entry := SampleReasoning("r1", map[STREAMING_REASONING_FLAG := Bool(true), "__toolCallId" := Str("c")]);
    var r := SampleReasoning("m1", map[]);
    assert |STREAMING_REASONING_FLAG| == 20 && |"__toolCallId"| == 12;
    assert "__toolCallId" in Routing(entry);
    assert ReasoningId(entry) == ReasoningId(r) == Some("r1");
    assert LastRouted(ReasoningKey(), [entry], 0, "r1") && TakesOver([entry], r, 0) && !SaysAlready(entry, r);
    assert r.id[0] != 'o' && LastVersion([r], "m1") == Some(r) && r in [r];
    RedeliveryIsNoOpIffNothingTaken([entry], [r]);
  }
}
