/** The message store's reducer: optimistic messages give way to real ones, duplicates disappear. */
module ThreadMessageStore {
  import opened JsonValues
  import opened Text
  import opened Messages

  // ---- the passes -------------------------------------------------------------------------------------------

  predicate HasOptimistic(messages: seq<Message>) { exists m | m in messages :: IsOptimistic(m) }

  /** Keep the first message under each id. */
  function FirstById(messages: seq<Message>): seq<Message> {
    if messages == [] then []
    else
      var before, last := FirstById(messages[..|messages| - 1]), messages[|messages| - 1];
      if Find(before, last.id).Some? then before else before + [last]
  }

  /** The first optimistic human message per content. */
  function OptimisticByContent(messages: seq<Message>): map<string, Message> {
    if messages == [] then map[]
    else
      var before, last := OptimisticByContent(messages[..|messages| - 1]), messages[|messages| - 1];
      var content := HumanContent(last);
      if IsOptimistic(last) && content.Some? && content.value !in before then before[content.value := last] else before
  }

  /** The real message, at the place and time of the optimistic one it stands in for. */
  function InPlaceOf(m: Message, optimistic: Message): Message {
    m.(createdAt := optimistic.createdAt, updatedAt := if m.updatedAt != "" then m.updatedAt else optimistic.updatedAt)
  }

  datatype Pass = Pass(kept: seq<Message>, added: seq<Message>, optimistic: map<string, Message>, contents: set<string>)

  function Consider(p: Pass, m: Message): Pass {
    var content := HumanContent(m);
    if IsOptimistic(m) || content.None? then p.(kept := p.kept + [m])
    else if content.value in p.contents then p
    else if content.value in p.optimistic then
      Pass(p.kept, p.added + [InPlaceOf(m, p.optimistic[content.value])],
           p.optimistic - {content.value}, p.contents + {content.value})
    else p.(kept := p.kept + [m], contents := p.contents + {content.value})
  }

  function ConsiderAll(messages: seq<Message>, optimistic: map<string, Message>): Pass {
    if messages == [] then Pass([], [], optimistic, {})
    else Consider(ConsiderAll(messages[..|messages| - 1], optimistic), messages[|messages| - 1])
  }

  /** An optimistic message stays unless its content has been replaced. */
  function StillOptimistic(optimistic: map<string, Message>): Message -> bool {
    (m: Message) => !IsOptimistic(m) || HumanContent(m).None? || HumanContent(m).value in optimistic
  }

  /** The final content check: a later duplicate stays only if it is a real message. */
  function FirstByContent(messages: seq<Message>): seq<Message> {
    if messages == [] then []
    else
      var before, last := FirstByContent(messages[..|messages| - 1]), messages[|messages| - 1];
      if HumanContent(last).Some? && HumanContent(last) in Contents(messages[..|messages| - 1]) && IsOptimistic(last)
      then before else before + [last]
  }

  function Contents(messages: seq<Message>): seq<Option<string>> {
    seq(|messages|, i requires 0 <= i < |messages| => HumanContent(messages[i]))
  }

  function Merged(updated: seq<Message>): seq<Message> {
    var pass := ConsiderAll(updated, OptimisticByContent(updated));
    Where(StillOptimistic(pass.optimistic), pass.kept) + pass.added
  }

  function Reduce(updated: seq<Message>): seq<Message> {
    if !HasOptimistic(updated) then FirstById(updated)
    else FirstByContent(FirstById(Chronological(Merged(updated))))
  }

  // ---- the code ------------------------------------------------------------------------------------------------

  method DeduplicateById(messages: seq<Message>) returns (deduped: seq<Message>)
    ensures deduped == FirstById(messages)
  {
    var seenIds: set<string> := {};
    deduped := [];
    for i := 0 to |messages|
      invariant deduped == FirstById(messages[..i])
      invariant forall id :: id in seenIds <==> Find(deduped, id).Some?
    {
      var m := messages[i];
      assert messages[..i + 1][..i] == messages[..i];
      if m.id !in seenIds {
        forall id { FindAppend(deduped, m, id); }
        seenIds := seenIds + {m.id};
        deduped := deduped + [m];
      }
    }
    assert messages[..|messages|] == messages;
  }

  lemma {:induction false} FindAppend(messages: seq<Message>, m: Message, id: string)
    ensures Find(messages + [m], id) ==
            if Find(messages, id).Some? then Find(messages, id) else if m.id == id then Some(m) else None
  {
    if messages != [] {
      assert (messages + [m])[1..] == messages[1..] + [m];
      FindAppend(messages[1..], m, id);
    }
  }

  method DeduplicateByContent(messages: seq<Message>) returns (deduped: seq<Message>)
    ensures deduped == FirstByContent(messages)
  {
    var seenHumanContent: set<string> := {};
    deduped := [];
    for i := 0 to |messages|
      invariant deduped == FirstByContent(messages[..i])
      invariant forall c :: c in seenHumanContent <==> Some(c) in Contents(messages[..i])
    {
      var m := messages[i];
      assert messages[..i + 1][..i] == messages[..i];
      assert Contents(messages[..i + 1]) == Contents(messages[..i]) + [HumanContent(m)];
      var content := HumanContent(m);
      if content.Some? && content.value in seenHumanContent {
        if !IsOptimistic(m) {
          deduped := deduped + [m];
        }
      } else {
        if content.Some? {
          seenHumanContent := seenHumanContent + {content.value};
        }
        deduped := deduped + [m];
      }
    }
    assert messages[..|messages|] == messages;
  }

  method CollectOptimistic(messages: seq<Message>) returns (optimisticByContent: map<string, Message>)
    ensures optimisticByContent == OptimisticByContent(messages)
  {
    optimisticByContent := map[];
    for i := 0 to |messages|
      invariant optimisticByContent == OptimisticByContent(messages[..i])
    {
      assert messages[..i + 1][..i] == messages[..i];
      var content := HumanContent(messages[i]);
      if IsOptimistic(messages[i]) && content.Some? && content.value !in optimisticByContent {
        optimisticByContent := optimisticByContent[content.value := messages[i]];
      }
    }
    assert messages[..|messages|] == messages;
  }

  method ReplaceOptimistic(messages: seq<Message>, optimistic: map<string, Message>) returns (pass: Pass)
    ensures pass == ConsiderAll(messages, optimistic)
  {
    var finalMessages, realMessagesToAdd, optimisticByContent := [], [], optimistic;
    var realMessageContents: set<string> := {};
    for i := 0 to |messages|
      invariant Pass(finalMessages, realMessagesToAdd, optimisticByContent, realMessageContents) ==
                ConsiderAll(messages[..i], optimistic)
    {
      var m := messages[i];
      assert messages[..i + 1][..i] == messages[..i];
      var content := HumanContent(m);
      if IsOptimistic(m) || content.None? {
        finalMessages := finalMessages + [m];
      } else if content.value !in realMessageContents {
        if content.value in optimisticByContent {
          realMessagesToAdd := realMessagesToAdd + [InPlaceOf(m, optimisticByContent[content.value])];
          optimisticByContent := optimisticByContent - {content.value};
        } else {
          finalMessages := finalMessages + [m];
        }
        realMessageContents := realMessageContents + {content.value};
      }
    }
    assert messages[..|messages|] == messages;
    pass := Pass(finalMessages, realMessagesToAdd, optimisticByContent, realMessageContents);
  }

  method ReduceMessages(updated: seq<Message>) returns (reduced: seq<Message>)
    ensures reduced == Reduce(updated)
  {
    var hasOptimistic := exists m | m in updated :: IsOptimistic(m);
    if !hasOptimistic {
      reduced := DeduplicateById(updated);
      return;
    }
    var optimisticByContent := CollectOptimistic(updated);
    var pass := ReplaceOptimistic(updated, optimisticByContent);
    var merged := Where(StillOptimistic(pass.optimistic), pass.kept) + pass.added;
    var sorted := SortMessagesChronologically(merged);
    var deduplicated := DeduplicateById(sorted);
    reduced := DeduplicateByContent(deduplicated);
  }

  // ---- the store ----------------------------------------------------------------------------------------------

  const DEFAULT_SCOPE_KEY := "all"

  function Scope(nodeId: Option<string>): string { if nodeId.Some? then nodeId.value else DEFAULT_SCOPE_KEY }

  function Current<T>(state: map<string, map<string, seq<T>>>, threadId: string, key: string): seq<T> {
    if threadId in state && key in state[threadId] then state[threadId][key] else []
  }

  function With<T>(state: map<string, map<string, seq<T>>>, threadId: string, key: string, list: seq<T>):
    map<string, map<string, seq<T>>>
  {
    state[threadId := (if threadId in state then state[threadId] else map[])[key := list]]
  }

  method DeduplicatePending(next: seq<PendingMessage>) returns (deduped: seq<PendingMessage>)
    ensures deduped == FirstPending(next)
  {
    var seen: set<string> := {};
    deduped := [];
    for i := 0 to |next|
      invariant deduped == FirstPending(next[..i])
      invariant forall s :: s in seen <==> s in PendingKeys(next[..i])
    {
      FirstPendingAppend(next[..i], next[i]);
      assert next[..i + 1] == next[..i] + [next[i]];
      if PendingKey(next[i]) !in seen {
        seen := seen + {PendingKey(next[i])};
        deduped := deduped + [next[i]];
      }
    }
    assert next[..|next|] == next;
  }

  lemma {:induction false} FirstPendingAppend(list: seq<PendingMessage>, p: PendingMessage)
    ensures PendingKeys(list + [p]) == PendingKeys(list) + [PendingKey(p)]
    ensures FirstPending(list + [p]) == FirstPending(list) + if PendingKey(p) in PendingKeys(list) then [] else [p]
  {
    assert (list + [p])[..|list|] == list;
  }

  class ThreadMessageStore {
    var messages: map<string, map<string, seq<Message>>>
    var pendingMessages: map<string, map<string, seq<PendingMessage>>>

    constructor ()
      ensures messages == map[] && pendingMessages == map[]
    {
      messages, pendingMessages := map[], map[];
    }

    method UpdateMessages(threadId: string, updater: seq<Message> -> seq<Message>, nodeId: Option<string>)
      modifies `messages
      ensures
        var key := Scope(nodeId);
        && Current(messages, threadId, key) == Reduce(updater(Current(old(messages), threadId, key)))
        && forall t, k | t != threadId || k != key :: Current(messages, t, k) == Current(old(messages), t, k)
    {
      var key := Scope(nodeId);
      var updated := updater(Current(messages, threadId, key));
      var reduced := ReduceMessages(updated);
      messages := With(messages, threadId, key, reduced);
    }

    method UpdatePendingMessages(threadId: string, updater: seq<PendingMessage> -> seq<PendingMessage>,
      nodeId: Option<string>)
      modifies `pendingMessages
      ensures
        var key := Scope(nodeId);
        && Current(pendingMessages, threadId, key) ==
           FirstPending(updater(Current(old(pendingMessages), threadId, key)))
        && forall t, k | t != threadId || k != key ::
           Current(pendingMessages, t, k) == Current(old(pendingMessages), t, k)
    {
      var key := Scope(nodeId);
      var next := updater(Current(pendingMessages, threadId, key));
      var deduped := DeduplicatePending(next);
      pendingMessages := With(pendingMessages, threadId, key, deduped);
    }
  }

  // ---- pending messages ----------------------------------------------------------------------------------------

  datatype Role = Human | Ai

  /** Text, or a list of content blocks, which are plain objects. */
  datatype Content = Words(text: string) | Blocks(blocks: seq<map<string, Json>>)

  datatype PendingMessage = PendingMessage(role: Role, content: Content)

  /** `${block}` */
  function BlockName(block: map<string, Json>): string { "[object Object]" }

  /** `${content}`: a list prints as its elements, joined by commas. */
  function Printed(content: Content): string {
    match content
    case Words(text) => text
    case Blocks(blocks) => Join(seq(|blocks|, i requires 0 <= i < |blocks| => BlockName(blocks[i])), ",")
  }

  function PendingKey(p: PendingMessage): string {
    (if p.role.Human? then "human" else "ai") + "-" + Printed(p.content)
  }

  function PendingKeys(list: seq<PendingMessage>): seq<string> {
    seq(|list|, i requires 0 <= i < |list| => PendingKey(list[i]))
  }

  function FirstPending(list: seq<PendingMessage>): seq<PendingMessage> {
    if list == [] then []
    else
      var before, last := list[..|list| - 1], list[|list| - 1];
      FirstPending(before) + if PendingKey(last) in PendingKeys(before) then [] else [last]
  }

  /** Each key that came in is shown exactly once, by the first message with it. */
  lemma {:induction false} FirstPendingIsFirst(list: seq<PendingMessage>, i: nat)
    requires i < |list|
    ensures (list[i] in FirstPending(list) && forall j | 0 <= j < i :: PendingKey(list[j]) != PendingKey(list[i])) ||
            exists j | 0 <= j < i :: PendingKey(list[j]) == PendingKey(list[i])
    ensures forall p, q | 0 <= p < q < |FirstPending(list)| ::
              PendingKey(FirstPending(list)[p]) != PendingKey(FirstPending(list)[q])
    ensures forall p | p in FirstPending(list) :: PendingKey(p) in PendingKeys(list)
  {
    var before, last := list[..|list| - 1], list[|list| - 1];
    assert list == before + [last];
    FirstPendingAppend(before, last);
    if before != [] { FirstPendingIsFirst(before, if i < |before| then i else 0); }
    if i == |before| && PendingKey(last) in PendingKeys(before) {
      var j :| 0 <= j < |before| && PendingKeys(before)[j] == PendingKey(last);
      assert PendingKey(list[j]) == PendingKey(list[i]);
    } else if i == |before| {
      assert forall j | 0 <= j < i :: PendingKeys(before)[j] == PendingKey(list[j]);
    }
  }

  const BLOCK := "[object Object],"

  predicate Repeats(text: string, period: string)
    requires |period| == 16
  {
    forall i | 0 <= i < |text| :: text[i] == period[i % 16]
  }

  /** The text is n times `[object Object]`, with commas in between. */
  predicate SpellsBlocks(text: string, n: nat) {
    |text| == (if n == 0 then 0 else 16 * n - 1) && |BLOCK| == 16 && Repeats(text, BLOCK)
  }

  lemma {:induction false} RepeatsOnceMore(text: string, period: string)
    requires |period| == 16 && Repeats(text, period)
    ensures Repeats(period + text, period)
  {
    forall i | 0 <= i < |period + text| ensures (period + text)[i] == period[i % 16] {
      if i >= 16 { assert i % 16 == (i - 16) % 16; }
    }
  }

  lemma {:induction false} BlocksSpelled(blocks: seq<map<string, Json>>)
    ensures SpellsBlocks(Printed(Blocks(blocks)), |blocks|)
  {
    assert |BLOCK| == 16;
    if |blocks| > 1 {
      BlocksSpelled(blocks[1..]);
      PrintedFirst(blocks);
      RepeatsOnceMore(Printed(Blocks(blocks[1..])), BLOCK);
    } else if |blocks| == 1 {
      assert Printed(Blocks(blocks)) == "[object Object]" == BLOCK[..15];
    }
  }

  lemma {:induction false} PrintedFirst(blocks: seq<map<string, Json>>)
    requires |blocks| > 1
    ensures Printed(Blocks(blocks)) == BLOCK + Printed(Blocks(blocks[1..]))
  {
    var names := seq(|blocks|, i requires 0 <= i < |blocks| => BlockName(blocks[i]));
    assert names[1..] == seq(|blocks[1..]|, i requires 0 <= i < |blocks[1..]| => BlockName(blocks[1..][i]));
    assert "[object Object]" + "," == BLOCK;
  }

  lemma {:induction false} SpelledOnce(a: string, b: string, n: nat, m: nat)
    requires SpellsBlocks(a, n) && SpellsBlocks(b, m)
    ensures a == b <==> n == m
  {
  }

  /**
   Two pending messages count as one exactly when role and printed content agree: texts must
   be equal, lists of blocks only need to be equally long, and a text also counts as a list
   when it spells out that many objects.
   */
  lemma {:induction false} PendingConflatedExactly(p: PendingMessage, q: PendingMessage)
    ensures PendingKey(p) == PendingKey(q) <==>
              p.role == q.role &&
              match (p.content, q.content)
              case (Words(a), Words(b)) => a == b
              case (Blocks(a), Blocks(b)) => |a| == |b|
              case (Words(a), Blocks(b)) => SpellsBlocks(a, |b|)
              case (Blocks(a), Words(b)) => SpellsBlocks(b, |a|)
  {
    KeysAgree(p, q);
    if p.content.Blocks? { BlocksSpelled(p.content.blocks); }
    if q.content.Blocks? { BlocksSpelled(q.content.blocks); }
    match (p.content, q.content)
    case (Words(a), Words(b)) =>
    case (Blocks(a), Blocks(b)) => SpelledOnce(Printed(p.content), Printed(q.content), |a|, |b|);
    case (Words(a), Blocks(b)) => if SpellsBlocks(a, |b|) { SpelledOnce(a, Printed(q.content), |b|, |b|); }
    case (Blocks(a), Words(b)) => if SpellsBlocks(b, |a|) { SpelledOnce(b, Printed(p.content), |a|, |a|); }
  }

  lemma {:induction false} KeysAgree(p: PendingMessage, q: PendingMessage)
    ensures PendingKey(p) == PendingKey(q) <==> p.role == q.role && Printed(p.content) == Printed(q.content)
  {
    var a, b := PendingKey(p), PendingKey(q);
    assert a[0] == (if p.role.Human? then 'h' else 'a') && b[0] == (if q.role.Human? then 'h' else 'a');
    var n := if p.role.Human? then 6 else 3;
    assert p.role == q.role ==> a[n..] == Printed(p.content) && b[n..] == Printed(q.content);
  }

  /** Two different attachments sent one after the other are kept as one. */
  lemma {:induction false} DifferentBlocksAreDropped()
    ensures
      var first, second := map["url" := Str("a")], map["url" := Str("b")];
      FirstPending([PendingMessage(Human, Blocks([first])), PendingMessage(Human, Blocks([second]))]) ==
        [PendingMessage(Human, Blocks([first]))]
  {
    var p := PendingMessage(Human, Blocks([map["url" := Str("a")]]));
    var q := PendingMessage(Human, Blocks([map["url" := Str("b")]]));
    PendingConflatedExactly(p, q);
    assert [p, q][..1] == [p] && [p][..0] == [] && PendingKeys([]) == [];
    assert FirstPending([p]) == [p];
    assert PendingKeys([p])[0] == PendingKey(q);
    assert FirstPending([p, q]) == FirstPending([p]) + [];
  }
}
