/** What the reducer promises about the list it leaves behind. */
module StoreProofs {
  import opened JsonValues
  import opened Sorting
  import opened Messages
  import opened ThreadMessageStore

  // ---- counting -----------------------------------------------------------------------------------------

  function Count(which: Message -> bool, messages: seq<Message>): nat { |Where(which, messages)| }

  function RealWith(content: string): Message -> bool {
    (m: Message) => !IsOptimistic(m) && HumanContent(m) == Some(content)
  }

  function OptimisticWith(content: string): Message -> bool {
    (m: Message) => IsOptimistic(m) && HumanContent(m) == Some(content)
  }

  function HumanWith(content: string): Message -> bool { (m: Message) => HumanContent(m) == Some(content) }

  lemma {:induction false} CountAppend(which: Message -> bool, a: seq<Message>, b: seq<Message>)
    ensures Count(which, a + b) == Count(which, a) + Count(which, b)
  {
    if b == [] {
      assert a + b == a;
    } else {
      var before, last := b[..|b| - 1], b[|b| - 1];
      CountAppend(which, a, before);
      assert a + b == a + before + [last] && b == before + [last];
      WhereAppend(which, a + before, last);
      WhereAppend(which, before, last);
    }
  }

  lemma {:induction false} CountInsert(which: Message -> bool, m: Message, messages: seq<Message>)
    ensures Count(which, Insert(ByTime(), m, messages)) == Count(which, messages) + if which(m) then 1 else 0
  {
    if messages == [] || ByTime()(m, messages[0]) {
      assert ([m] + messages)[1..] == messages;
    } else {
      CountInsert(which, m, messages[1..]);
      var rest := Insert(ByTime(), m, messages[1..]);
      assert ([messages[0]] + rest)[1..] == rest;
    }
  }

  lemma {:induction false} CountSorted(which: Message -> bool, messages: seq<Message>)
    ensures Count(which, Chronological(messages)) == Count(which, messages)
  {
    if messages != [] {
      CountSorted(which, messages[1..]);
      CountInsert(which, messages[0], Chronological(messages[1..]));
    }
  }

  lemma {:induction false} CountZero(which: Message -> bool, messages: seq<Message>)
    ensures Count(which, messages) == 0 <==> forall m | m in messages :: !which(m)
  {
    WhereMembers(which, messages);
    if Count(which, messages) > 0 { assert Where(which, messages)[0] in Where(which, messages); }
  }

  lemma {:induction false} CountHuman(content: string, messages: seq<Message>)
    ensures Count(HumanWith(content), messages) ==
            Count(RealWith(content), messages) + Count(OptimisticWith(content), messages)
  {
    if messages != [] { CountHuman(content, messages[1..]); }
  }

  /** Counting at most one per content says that no two messages share one. */
  lemma {:induction false} AtMostOneIsDistinct(messages: seq<Message>)
    requires forall c :: Count(HumanWith(c), messages) <= 1
    ensures forall i, j | 0 <= i < j < |messages| && HumanContent(messages[i]).Some? ::
              HumanContent(messages[i]) != HumanContent(messages[j])
  {
    forall i, j | 0 <= i < j < |messages| && HumanContent(messages[i]).Some?
      ensures HumanContent(messages[i]) != HumanContent(messages[j])
    {
      var c := HumanContent(messages[i]).value;
      var front, back := messages[..j], messages[j..];
      assert messages == front + back && front[i] in front && back[0] in back;
      assert front[i] == messages[i] && back[0] == messages[j];
      CountAppend(HumanWith(c), front, back);
      CountZero(HumanWith(c), front);
      CountZero(HumanWith(c), back);
      assert Count(HumanWith(c), messages) <= 1;
    }
  }

  // ---- keeping the first per id ------------------------------------------------------------------------------

  lemma {:induction false} FirstByIdUnique(messages: seq<Message>)
    ensures UniqueIds(FirstById(messages))
    ensures forall m | m in FirstById(messages) :: m in messages
    ensures forall id :: Find(FirstById(messages), id) == Find(messages, id)
  {
    if messages != [] {
      var before, last := messages[..|messages| - 1], messages[|messages| - 1];
      FirstByIdUnique(before);
      assert messages == before + [last];
      forall id ensures Find(FirstById(messages), id) == Find(messages, id) {
        FindAppend(before, last, id);
        FindAppend(FirstById(before), last, id);
      }
      FindMember(FirstById(before), last.id);
    }
  }

  lemma {:induction false} FirstByIdFixed(messages: seq<Message>)
    requires UniqueIds(messages)
    ensures FirstById(messages) == messages
  {
    if messages != [] {
      var before, last := messages[..|messages| - 1], messages[|messages| - 1];
      FirstByIdFixed(before);
      assert messages == before + [last];
      FindMember(before, last.id);
    }
  }

  lemma {:induction false} FirstByIdCount(which: Message -> bool, messages: seq<Message>)
    ensures Count(which, FirstById(messages)) <= Count(which, messages)
  {
    if messages != [] {
      var before, last := messages[..|messages| - 1], messages[|messages| - 1];
      FirstByIdCount(which, before);
      assert messages == before + [last];
      WhereAppend(which, before, last);
      WhereAppend(which, FirstById(before), last);
    }
  }

  lemma {:induction false} FirstByIdInOrder(messages: seq<Message>)
    requires InOrder(messages)
    ensures InOrder(FirstById(messages))
  {
    if messages != [] {
      var before, last := messages[..|messages| - 1], messages[|messages| - 1];
      FirstByIdInOrder(before);
      FirstByIdUnique(before);
      forall m | m in before ensures ByTime()(m, last) {
        var i :| 0 <= i < |before| && before[i] == m;
        assert ByTime()(messages[i], messages[|messages| - 1]);
      }
    }
  }

  // ---- keeping the first per content ---------------------------------------------------------------------------

  lemma {:induction false} FirstByContentMembers(messages: seq<Message>)
    ensures forall m | m in FirstByContent(messages) :: m in messages
    ensures UniqueIds(messages) ==> UniqueIds(FirstByContent(messages))
  {
    if messages != [] {
      var before, last := messages[..|messages| - 1], messages[|messages| - 1];
      FirstByContentMembers(before);
      assert messages == before + [last];
      assert UniqueIds(messages) ==> forall m | m in before :: m.id != last.id;
    }
  }

  lemma {:induction false} FirstByContentInOrder(messages: seq<Message>)
    requires InOrder(messages)
    ensures InOrder(FirstByContent(messages))
  {
    if messages != [] {
      var before, last := messages[..|messages| - 1], messages[|messages| - 1];
      FirstByContentInOrder(before);
      FirstByContentMembers(before);
      forall m | m in before ensures ByTime()(m, last) {
        var i :| 0 <= i < |before| && before[i] == m;
        assert ByTime()(messages[i], messages[|messages| - 1]);
      }
    }
  }

  lemma {:induction false} ContentSeen(messages: seq<Message>, content: string)
    ensures Some(content) in Contents(messages) <==> Count(HumanWith(content), messages) > 0
  {
    CountZero(HumanWith(content), messages);
    if Some(content) in Contents(messages) {
      var i :| 0 <= i < |messages| && Contents(messages)[i] == Some(content);
      assert messages[i] in messages;
    }
    if Count(HumanWith(content), messages) > 0 {
      var m :| m in messages && HumanWith(content)(m);
      var i :| 0 <= i < |messages| && messages[i] == m;
      assert Contents(messages)[i] == Some(content);
    }
  }

  /** The content check drops no real message. */
  lemma {:induction false} FirstByContentKeepsReal(messages: seq<Message>, content: string)
    ensures Count(RealWith(content), FirstByContent(messages)) == Count(RealWith(content), messages)
  {
    if messages != [] {
      var before, last := messages[..|messages| - 1], messages[|messages| - 1];
      FirstByContentKeepsReal(before, content);
      assert messages == before + [last];
      WhereAppend(RealWith(content), before, last);
      WhereAppend(RealWith(content), FirstByContent(before), last);
    }
  }

  /** Of the optimistic messages with a content, at most one stays. */
  lemma {:induction false} FirstByContentOneOptimistic(messages: seq<Message>, content: string)
    ensures Count(OptimisticWith(content), FirstByContent(messages)) <=
            (if Count(OptimisticWith(content), messages) > 0 then 1 else 0)
  {
    if messages != [] {
      var before, last := messages[..|messages| - 1], messages[|messages| - 1];
      FirstByContentOneOptimistic(before, content);
      assert messages == before + [last];
      WhereAppend(OptimisticWith(content), before, last);
      WhereAppend(OptimisticWith(content), FirstByContent(before), last);
      ContentSeen(before, content);
      CountHuman(content, before);
    }
  }

  lemma {:induction false} FirstByContentFixed(messages: seq<Message>)
    requires forall c :: Count(HumanWith(c), messages) <= 1
    ensures FirstByContent(messages) == messages
  {
    if messages != [] {
      var before, last := messages[..|messages| - 1], messages[|messages| - 1];
      assert messages == before + [last];
      forall c
        ensures Count(HumanWith(c), before) <= 1 && (HumanContent(last) == Some(c) ==> Count(HumanWith(c), before) == 0)
      {
        WhereAppend(HumanWith(c), before, last);
        assert Count(HumanWith(c), messages) <= 1;
      }
      FirstByContentFixed(before);
      if HumanContent(last).Some? { ContentSeen(before, HumanContent(last).value); }
    }
  }

  // ---- the replacement pass ----------------------------------------------------------------------------------------

  lemma {:induction false} OptimisticKeys(messages: seq<Message>, content: string)
    ensures content in OptimisticByContent(messages) <==> Count(OptimisticWith(content), messages) > 0
    ensures content in OptimisticByContent(messages) ==>
              OptimisticByContent(messages)[content] in messages &&
              OptimisticWith(content)(OptimisticByContent(messages)[content])
  {
    if messages != [] {
      var before, last := messages[..|messages| - 1], messages[|messages| - 1];
      OptimisticKeys(before, content);
      assert messages == before + [last];
      WhereAppend(OptimisticWith(content), before, last);
    }
  }

  /** What the pass has done for one content by the time it has seen `messages`. */
  ghost predicate PassCounts(p: Pass, messages: seq<Message>, optimistic: map<string, Message>, content: string) {
    var reals := Count(RealWith(content), messages);
    && (content in p.contents <==> reals > 0)
    && (content in p.optimistic <==> content in optimistic && reals == 0)
    && (content in p.optimistic ==> p.optimistic[content] == optimistic[content])
    && Count(RealWith(content), p.kept) + Count(RealWith(content), p.added) == (if reals > 0 then 1 else 0)
    && Count(OptimisticWith(content), p.kept) == Count(OptimisticWith(content), messages)
    && Count(OptimisticWith(content), p.added) == 0
  }

  lemma {:induction false} ConsiderCounts(p: Pass, messages: seq<Message>, optimistic: map<string, Message>,
                                          m: Message, content: string)
    requires PassCounts(p, messages, optimistic, content)
    requires HumanContent(m).Some? ==> PassCounts(p, messages, optimistic, HumanContent(m).value)
    ensures PassCounts(Consider(p, m), messages + [m], optimistic, content)
  {
    WhereAppend(RealWith(content), messages, m);
    WhereAppend(OptimisticWith(content), messages, m);
    WhereAppend(RealWith(content), p.kept, m);
    WhereAppend(OptimisticWith(content), p.kept, m);
    if !IsOptimistic(m) && HumanContent(m).Some? && HumanContent(m).value in p.optimistic {
      var stand := InPlaceOf(m, p.optimistic[HumanContent(m).value]);
      assert HumanContent(stand) == HumanContent(m) && !IsOptimistic(stand);
      WhereAppend(RealWith(content), p.added, stand);
      WhereAppend(OptimisticWith(content), p.added, stand);
    }
  }

  lemma {:induction false} ConsiderAllCounts(messages: seq<Message>, optimistic: map<string, Message>, content: string)
    ensures PassCounts(ConsiderAll(messages, optimistic), messages, optimistic, content)
  {
    if messages != [] {
      var before, last := messages[..|messages| - 1], messages[|messages| - 1];
      ConsiderAllCounts(before, optimistic, content);
      if HumanContent(last).Some? { ConsiderAllCounts(before, optimistic, HumanContent(last).value); }
      assert messages == before + [last];
      ConsiderCounts(ConsiderAll(before, optimistic), before, optimistic, last, content);
    }
  }

  lemma {:induction false} StillCounts(optimistic: map<string, Message>, messages: seq<Message>, content: string)
    ensures
      var left := Where(StillOptimistic(optimistic), messages);
      && Count(RealWith(content), left) == Count(RealWith(content), messages)
      && Count(OptimisticWith(content), left) ==
         if content in optimistic then Count(OptimisticWith(content), messages) else 0
  {
    if messages != [] {
      var rest := Where(StillOptimistic(optimistic), messages[1..]);
      StillCounts(optimistic, messages[1..], content);
      assert ([messages[0]] + rest)[1..] == rest;
    }
  }

  /** After the replacement, a content has one real message, or only its optimistic ones. */
  lemma {:induction false} MergedCounts(updated: seq<Message>, content: string)
    ensures
      var reals := Count(RealWith(content), updated);
      && Count(RealWith(content), Merged(updated)) == (if reals > 0 then 1 else 0)
      && Count(OptimisticWith(content), Merged(updated)) ==
         (if reals > 0 then 0 else Count(OptimisticWith(content), updated))
  {
    var optimistic := OptimisticByContent(updated);
    var pass := ConsiderAll(updated, optimistic);
    ConsiderAllCounts(updated, optimistic, content);
    OptimisticKeys(updated, content);
    StillCounts(pass.optimistic, pass.kept, content);
    CountAppend(RealWith(content), Where(StillOptimistic(pass.optimistic), pass.kept), pass.added);
    CountAppend(OptimisticWith(content), Where(StillOptimistic(pass.optimistic), pass.kept), pass.added);
  }

  // ---- the reducer's promises -------------------------------------------------------------------------------

  lemma {:induction false} SlowCounts(updated: seq<Message>, content: string)
    requires HasOptimistic(updated)
    ensures Count(RealWith(content), Reduce(updated)) <= (if Count(RealWith(content), updated) > 0 then 1 else 0)
    ensures Count(OptimisticWith(content), Reduce(updated)) <= 1
    ensures Count(RealWith(content), updated) > 0 ==> Count(OptimisticWith(content), Reduce(updated)) == 0
  {
    var sorted := Chronological(Merged(updated));
    MergedCounts(updated, content);
    CountSorted(RealWith(content), Merged(updated));
    CountSorted(OptimisticWith(content), Merged(updated));
    FirstByIdCount(RealWith(content), sorted);
    FirstByIdCount(OptimisticWith(content), sorted);
    FirstByContentKeepsReal(FirstById(sorted), content);
    FirstByContentOneOptimistic(FirstById(sorted), content);
  }

  lemma {:induction false} ReducedCounts(updated: seq<Message>)
    requires HasOptimistic(updated)
    ensures forall c :: Count(HumanWith(c), Reduce(updated)) <= 1
  {
    forall c ensures Count(HumanWith(c), Reduce(updated)) <= 1 {
      SlowCounts(updated, c);
      CountHuman(c, Reduce(updated));
    }
  }

  /**
   With an optimistic message present, the reduced list shows each id once, in order of
   time, no two human messages with one content, and no optimistic message whose content a
   real one carries.
   */
  lemma {:induction false} ReducedIsClean(updated: seq<Message>)
    requires HasOptimistic(updated)
    ensures UniqueIds(Reduce(updated)) && InOrder(Reduce(updated))
    ensures forall i, j | 0 <= i < j < |Reduce(updated)| && HumanContent(Reduce(updated)[i]).Some? ::
              HumanContent(Reduce(updated)[i]) != HumanContent(Reduce(updated)[j])
    ensures forall m, r | m in Reduce(updated) && r in updated && IsOptimistic(m) && !IsOptimistic(r) &&
            HumanContent(m).Some? ::
              HumanContent(m) != HumanContent(r)
  {
    var sorted := Chronological(Merged(updated));
    SortSorted(ByTime(), Merged(updated));
    FirstByIdUnique(sorted);
    FirstByIdInOrder(sorted);
    FirstByContentMembers(FirstById(sorted));
    FirstByContentInOrder(FirstById(sorted));
    ReducedCounts(updated);
    AtMostOneIsDistinct(Reduce(updated));
    forall m, r | m in Reduce(updated) && r in updated && IsOptimistic(m) && !IsOptimistic(r) && HumanContent(m).Some?
      ensures HumanContent(m) != HumanContent(r)
    {
      var c := HumanContent(m).value;
      SlowCounts(updated, c);
      CountZero(RealWith(c), updated);
      CountZero(OptimisticWith(c), Reduce(updated));
      assert OptimisticWith(c)(m);
      assert HumanContent(r) == Some(c) ==> RealWith(c)(r);
    }
  }

  // ---- nothing real is lost ---------------------------------------------------------------------------------

  predicate IdIn(messages: seq<Message>, id: string) { exists m | m in messages :: m.id == id }

  lemma {:induction false} UniqueConcat(a: seq<Message>, b: seq<Message>)
    ensures UniqueIds(a + b) <==> UniqueIds(a) && UniqueIds(b) && forall m | m in a :: !IdIn(b, m.id)
  {
    var c := a + b;
    if UniqueIds(c) {
      assert forall i | 0 <= i < |a| :: c[i] == a[i];
      assert forall j | 0 <= j < |b| :: c[|a| + j] == b[j];
    }
  }

  /** The pass keeps ids apart, and invents none. */
  lemma {:induction false} PassIds(messages: seq<Message>, optimistic: map<string, Message>)
    requires UniqueIds(messages)
    ensures
      var p := ConsiderAll(messages, optimistic);
      UniqueIds(p.kept + p.added) && forall m | m in p.kept + p.added :: IdIn(messages, m.id)
  {
    if messages != [] {
      var before, last := messages[..|messages| - 1], messages[|messages| - 1];
      PassIds(before, optimistic);
      var p := ConsiderAll(before, optimistic);
      assert messages == before + [last];
      assert forall m | m in before :: m in messages && m.id != last.id;
      assert forall id | IdIn(before, id) :: IdIn(messages, id) && id != last.id;
      assert IdIn(messages, last.id);
      var all := p.kept + p.added;
      assert forall m | m in all :: m.id != last.id;
      UniqueConcat(p.kept, p.added);
      PassIdsStep(p, last);
    }
  }

  lemma {:induction false} PassIdsStep(p: Pass, m: Message)
    requires UniqueIds(p.kept + p.added) && forall x | x in p.kept + p.added :: x.id != m.id
    ensures UniqueIds(Consider(p, m).kept + Consider(p, m).added)
    ensures forall x | x in Consider(p, m).kept + Consider(p, m).added :: x in p.kept + p.added || x.id == m.id
  {
    var q := Consider(p, m);
    if |q.kept| > |p.kept| {
      UniqueInsert(p.kept, p.added, m);
    } else if |q.added| > |p.added| {
      var added := q.added[|p.added|];
      UniqueInsert(p.kept + p.added, [], added);
      assert q.kept + q.added == p.kept + p.added + [added] + [];
    }
  }

  lemma {:induction false} UniqueInsert(a: seq<Message>, b: seq<Message>, m: Message)
    requires UniqueIds(a + b) && forall x | x in a + b :: x.id != m.id
    ensures UniqueIds(a + [m] + b)
    ensures forall x | x in a + [m] + b :: x in a + b || x == m
  {
    assert forall x | x in a :: x in a + b;
    assert forall x | x in b :: x in a + b;
    UniqueConcat(a, b);
    UniqueConcat(a, [m]);
    UniqueConcat(a + [m], b);
  }

  lemma {:induction false} MergedUnique(updated: seq<Message>)
    requires UniqueIds(updated)
    ensures UniqueIds(Merged(updated))
  {
    var pass := ConsiderAll(updated, OptimisticByContent(updated));
    var left := Where(StillOptimistic(pass.optimistic), pass.kept);
    PassIds(updated, OptimisticByContent(updated));
    UniqueConcat(pass.kept, pass.added);
    WhereUnique(StillOptimistic(pass.optimistic), pass.kept);
    WhereMembers(StillOptimistic(pass.optimistic), pass.kept);
    UniqueConcat(left, pass.added);
  }

  /** With distinct ids coming in, every content some real message carries is shown by exactly one real message. */
  lemma {:induction false} RealContentSurvivesOnce(updated: seq<Message>, content: string)
    requires HasOptimistic(updated) && UniqueIds(updated)
    ensures Count(RealWith(content), Reduce(updated)) == if Count(RealWith(content), updated) > 0 then 1 else 0
  {
    var sorted := Chronological(Merged(updated));
    MergedUnique(updated);
    SortUniqueIds(Merged(updated));
    FirstByIdFixed(sorted);
    MergedCounts(updated, content);
    CountSorted(RealWith(content), Merged(updated));
    FirstByContentKeepsReal(sorted, content);
  }

  /** The first message of a kind. */
  function First(which: Message -> bool, messages: seq<Message>): Option<Message> {
    var those := Where(which, messages);
    if those == [] then None else Some(those[0])
  }

  lemma {:induction false} FirstAppend(which: Message -> bool, messages: seq<Message>, m: Message)
    ensures First(which, messages + [m]) ==
            if First(which, messages).Some? then First(which, messages) else if which(m) then Some(m) else None
  {
    WhereAppend(which, messages, m);
  }

  lemma {:induction false} OptimisticIsFirst(messages: seq<Message>, content: string)
    ensures First(OptimisticWith(content), messages) ==
            if content in OptimisticByContent(messages) then Some(OptimisticByContent(messages)[content]) else None
  {
    if messages != [] {
      var before, last := messages[..|messages| - 1], messages[|messages| - 1];
      OptimisticIsFirst(before, content);
      assert messages == before + [last];
      FirstAppend(OptimisticWith(content), before, last);
    }
  }

  /** The message standing in for r and o: r in everything but its times, at the time of o. */
  predicate StandsFor(m: Message, r: Message, o: Message) {
    && m.id == r.id && m.threadId == r.threadId && m.nodeId == r.nodeId
    && m.externalThreadId == r.externalThreadId && m.body == r.body
    && m.createdAt == o.createdAt
    && m.updatedAt == (if r.updatedAt == "" then o.updatedAt else r.updatedAt)
  }

  lemma {:induction false} PassShows(messages: seq<Message>, optimistic: map<string, Message>, content: string)
    requires First(RealWith(content), messages).Some?
    ensures
      var p, r := ConsiderAll(messages, optimistic), First(RealWith(content), messages).value;
      if content in optimistic then InPlaceOf(r, optimistic[content]) in p.added else r in p.kept
  {
    var before, last := messages[..|messages| - 1], messages[|messages| - 1];
    assert messages == before + [last];
    FirstAppend(RealWith(content), before, last);
    if First(RealWith(content), before).Some? {
      PassShows(before, optimistic, content);
    } else {
      ConsiderAllCounts(before, optimistic, content);
      assert HumanContent(last) == Some(content);
    }
  }

  lemma {:induction false} RealStays(messages: seq<Message>, m: Message)
    requires m in messages && !IsOptimistic(m)
    ensures m in FirstByContent(messages)
  {
    var before, last := messages[..|messages| - 1], messages[|messages| - 1];
    assert messages == before + [last];
    if m in before { RealStays(before, m); }
  }

  /** What the pass leaves for the sort is, with distinct ids, what the reduced list is made from. */
  lemma {:induction false} RealStaysReduced(updated: seq<Message>, m: Message)
    requires HasOptimistic(updated) && UniqueIds(updated) && m in Merged(updated) && !IsOptimistic(m)
    ensures m in Reduce(updated)
  {
    SortedMerged(updated);
    RealStays(Chronological(Merged(updated)), m);
  }

  lemma {:induction false} SortedMerged(updated: seq<Message>)
    requires HasOptimistic(updated) && UniqueIds(updated)
    ensures Reduce(updated) == FirstByContent(Chronological(Merged(updated)))
    ensures forall m :: m in Chronological(Merged(updated)) <==> m in Merged(updated)
  {
    MergedUnique(updated);
    SortUniqueIds(Merged(updated));
    SortElements(ByTime(), Merged(updated));
    FirstByIdFixed(Chronological(Merged(updated)));
  }

  /**
   The first real message with a content stays as it is when no optimistic one carries the
   content, and otherwise stands at the time of the first that does.
   */
  lemma {:induction false} RealTakesItsPlace(updated: seq<Message>, content: string)
    requires HasOptimistic(updated) && UniqueIds(updated) && First(RealWith(content), updated).Some?
    ensures
      var r := First(RealWith(content), updated).value;
      match First(OptimisticWith(content), updated)
      case None => r in Reduce(updated)
      case Some(o) => exists m | m in Reduce(updated) :: StandsFor(m, r, o)
  {
    var optimistic := OptimisticByContent(updated);
    var pass, r := ConsiderAll(updated, optimistic), First(RealWith(content), updated).value;
    WhereMembers(RealWith(content), updated);
    assert r in Where(RealWith(content), updated);
    OptimisticIsFirst(updated, content);
    PassShows(updated, optimistic, content);
    WhereMembers(StillOptimistic(pass.optimistic), pass.kept);
    match First(OptimisticWith(content), updated)
    case None => RealStaysReduced(updated, r);
    case Some(o) =>
      assert StandsFor(InPlaceOf(r, o), r, o);
      RealStaysReduced(updated, InPlaceOf(r, o));
  }

  // ---- what else stays, and nothing else ---------------------------------------------------------------------

  lemma {:induction false} PassKeeps(messages: seq<Message>, optimistic: map<string, Message>, m: Message)
    requires m in messages && (IsOptimistic(m) || HumanContent(m).None?)
    ensures m in ConsiderAll(messages, optimistic).kept
  {
    var before, last := messages[..|messages| - 1], messages[|messages| - 1];
    assert messages == before + [last];
    if m in before { PassKeeps(before, optimistic, m); }
  }

  lemma {:induction false} WordlessStays(messages: seq<Message>, m: Message)
    requires m in messages && HumanContent(m).None?
    ensures m in FirstByContent(messages)
  {
    var before, last := messages[..|messages| - 1], messages[|messages| - 1];
    assert messages == before + [last];
    if m in before { WordlessStays(before, m); }
  }

  /** Messages that are not human, or say nothing, stay as they are. */
  lemma {:induction false} OthersStay(updated: seq<Message>, m: Message)
    requires HasOptimistic(updated) && UniqueIds(updated) && m in updated && HumanContent(m).None?
    ensures m in Reduce(updated)
  {
    var pass := ConsiderAll(updated, OptimisticByContent(updated));
    PassKeeps(updated, OptimisticByContent(updated), m);
    WhereMembers(StillOptimistic(pass.optimistic), pass.kept);
    SortedMerged(updated);
    WordlessStays(Chronological(Merged(updated)), m);
  }

  lemma {:induction false} FirstStays(messages: seq<Message>, content: string)
    requires First(HumanWith(content), messages).Some?
    ensures First(HumanWith(content), messages).value in FirstByContent(messages)
  {
    var before, last := messages[..|messages| - 1], messages[|messages| - 1];
    assert messages == before + [last];
    FirstAppend(HumanWith(content), before, last);
    if First(HumanWith(content), before).Some? {
      FirstStays(before, content);
    } else {
      ContentSeen(before, content);
    }
  }

  lemma {:induction false} FirstIsEarliest(messages: seq<Message>, content: string)
    requires InOrder(messages) && Count(HumanWith(content), messages) > 0
    ensures First(HumanWith(content), messages).Some?
    ensures
      var first := First(HumanWith(content), messages).value;
      && first in messages && HumanWith(content)(first)
      && forall m | m in messages && HumanWith(content)(m) :: first.createdAt.ms <= m.createdAt.ms
  {
    WhereMembers(HumanWith(content), messages);
    WhereInOrder(HumanWith(content), messages);
    var those := Where(HumanWith(content), messages);
    assert those[0] in those;
    forall m | m in messages && HumanWith(content)(m) ensures those[0].createdAt.ms <= m.createdAt.ms {
      assert m in those;
      var i :| 0 <= i < |those| && those[i] == m;
      assert i > 0 ==> ByTime()(those[0], those[i]);
    }
  }

  /** A content that no real message carries yet is shown by the earliest optimistic message that does. */
  lemma {:induction false} OptimisticWaits(updated: seq<Message>, content: string)
    requires HasOptimistic(updated) && UniqueIds(updated)
    requires Count(RealWith(content), updated) == 0 && Count(OptimisticWith(content), updated) > 0
    ensures exists o | o in Reduce(updated) ::
              && o in updated && OptimisticWith(content)(o)
              && forall p | p in updated && OptimisticWith(content)(p) :: o.createdAt.ms <= p.createdAt.ms
  {
    var merged := Merged(updated);
    var sorted := Chronological(merged);
    SortedMerged(updated);
    MergedCounts(updated, content);
    CountHuman(content, merged);
    CountSorted(HumanWith(content), merged);
    SortSorted(ByTime(), merged);
    FirstIsEarliest(sorted, content);
    FirstStays(sorted, content);
    var o := First(HumanWith(content), sorted).value;
    CountZero(RealWith(content), merged);
    assert !RealWith(content)(o);
    OptimisticIsMerged(updated, content);
  }

  /** Before the sort, the optimistic messages with such a content are those that came in. */
  lemma {:induction false} OptimisticIsMerged(updated: seq<Message>, content: string)
    requires Count(RealWith(content), updated) == 0
    ensures forall p | OptimisticWith(content)(p) :: p in Merged(updated) <==> p in updated
  {
    var optimistic := OptimisticByContent(updated);
    var pass := ConsiderAll(updated, optimistic);
    ConsiderAllCounts(updated, optimistic, content);
    OptimisticKeys(updated, content);
    WhereMembers(StillOptimistic(pass.optimistic), pass.kept);
    CountZero(OptimisticWith(content), pass.added);
    forall p | OptimisticWith(content)(p) ensures p in Merged(updated) <==> p in updated {
      CountZero(OptimisticWith(content), updated);
      if p in updated { PassKeeps(updated, optimistic, p); }
      if p in Merged(updated) { PassTakes(updated, optimistic, p); }
    }
  }

  /** The pass keeps what came in, and adds real messages in the place of optimistic ones with their content. */
  lemma {:induction false} PassTakes(messages: seq<Message>, optimistic: map<string, Message>, m: Message)
    ensures m in ConsiderAll(messages, optimistic).kept ==> m in messages
    ensures m in ConsiderAll(messages, optimistic).added ==>
              exists r | r in messages :: HumanContent(r).Some? && HumanContent(r).value in optimistic &&
                                          !IsOptimistic(r) && StandsFor(m, r, optimistic[HumanContent(r).value])
    ensures forall c | c in ConsiderAll(messages, optimistic).optimistic ::
              c in optimistic && ConsiderAll(messages, optimistic).optimistic[c] == optimistic[c]
  {
    if messages != [] {
      var before, last := messages[..|messages| - 1], messages[|messages| - 1];
      PassTakes(before, optimistic, m);
      assert messages == before + [last];
    }
  }

  /** Nothing is made up: whatever is shown came in, or stands for a real and an optimistic message of one content. */
  lemma {:induction false} NothingIsMadeUp(updated: seq<Message>, m: Message)
    requires m in Reduce(updated)
    ensures m in updated ||
            exists r, o | r in updated && o in updated ::
              !IsOptimistic(r) && IsOptimistic(o) && HumanContent(r).Some? && HumanContent(r) == HumanContent(o) &&
              StandsFor(m, r, o)
  {
    if !HasOptimistic(updated) {
      FirstByIdUnique(updated);
    } else {
      var optimistic := OptimisticByContent(updated);
      var pass, sorted := ConsiderAll(updated, optimistic), Chronological(Merged(updated));
      FirstByContentMembers(FirstById(sorted));
      FirstByIdUnique(sorted);
      SortElements(ByTime(), Merged(updated));
      WhereMembers(StillOptimistic(pass.optimistic), pass.kept);
      PassTakes(updated, optimistic, m);
      if m !in updated {
        var r :| r in updated && HumanContent(r).Some? && HumanContent(r).value in optimistic &&
          !IsOptimistic(r) && StandsFor(m, r, optimistic[HumanContent(r).value]);
        OptimisticKeys(updated, HumanContent(r).value);
      }
    }
  }

  // ---- idempotence ------------------------------------------------------------------------------------------

  /** A list the reducer has nothing to do on. */
  ghost predicate Clean(messages: seq<Message>) {
    UniqueIds(messages) && InOrder(messages) && forall c :: Count(HumanWith(c), messages) <= 1
  }

  lemma {:induction false} CleanPass(messages: seq<Message>, optimistic: map<string, Message>)
    requires forall c :: Count(HumanWith(c), messages) <= 1
    requires forall c | c in optimistic :: Count(RealWith(c), messages) == 0
    ensures ConsiderAll(messages, optimistic).kept == messages
    ensures ConsiderAll(messages, optimistic).added == [] && ConsiderAll(messages, optimistic).optimistic == optimistic
  {
    if messages != [] {
      var before, last := messages[..|messages| - 1], messages[|messages| - 1];
      assert messages == before + [last];
      forall c
        ensures Count(HumanWith(c), before) + (if HumanWith(c)(last) then 1 else 0) == Count(HumanWith(c), messages)
        ensures Count(RealWith(c), before) + (if RealWith(c)(last) then 1 else 0) == Count(RealWith(c), messages)
      {
        WhereAppend(HumanWith(c), before, last);
        WhereAppend(RealWith(c), before, last);
      }
      CleanPass(before, optimistic);
      if HumanContent(last).Some? {
        var c := HumanContent(last).value;
        ConsiderAllCounts(before, optimistic, c);
        CountHuman(c, before);
        assert HumanWith(c)(last) && (!IsOptimistic(last) ==> RealWith(c)(last));
      }
    }
  }

  lemma {:induction false} CleanIsFixed(messages: seq<Message>)
    requires Clean(messages)
    ensures Reduce(messages) == messages
  {
    FirstByIdFixed(messages);
    if HasOptimistic(messages) {
      var optimistic := OptimisticByContent(messages);
      forall c | c in optimistic ensures Count(RealWith(c), messages) == 0 {
        OptimisticKeys(messages, c);
        CountHuman(c, messages);
      }
      CleanPass(messages, optimistic);
      forall m | m in messages ensures StillOptimistic(optimistic)(m) {
        if IsOptimistic(m) && HumanContent(m).Some? {
          OptimisticKeys(messages, HumanContent(m).value);
          CountZero(OptimisticWith(HumanContent(m).value), messages);
          assert OptimisticWith(HumanContent(m).value)(m);
        }
      }
      WhereAll(StillOptimistic(optimistic), messages);
      assert Merged(messages) == messages + [] == messages;
      SortFixed(ByTime(), messages);
      FirstByContentFixed(messages);
    }
  }

  /** Reducing twice is reducing once, on either path. */
  lemma {:induction false} ReduceTwice(updated: seq<Message>)
    ensures Reduce(Reduce(updated)) == Reduce(updated)
  {
    if HasOptimistic(updated) {
      ReducedIsClean(updated);
      ReducedCounts(updated);
      CleanIsFixed(Reduce(updated));
    } else {
      FirstByIdUnique(updated);
      FirstByIdFixed(Reduce(updated));
    }
  }
}
