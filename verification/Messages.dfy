/**
 Thread messages, what identifies them, their order in time, and the insertion-ordered map from
 ids to messages with which the merge and the upsert work.
 */
module Messages {
  import opened JsonValues
  import opened Text
  import opened Sorting

  /** An ISO timestamp and the number Date parses it to. */
  datatype Instant = Instant(text: string, ms: int)

  datatype Body = Body(role: string, id: Option<Json>, content: Option<Json>, kwargs: Option<map<string, Json>>)

  datatype Message = Message(
    id: string,
    threadId: string,
    nodeId: string,
    externalThreadId: string,
    createdAt: Instant,
    updatedAt: string,
    body: Option<Body>)

  const STREAMING_REASONING_FLAG := "__streamingReasoning"

  // ---- identifiers -----------------------------------------------------------------------------------

  predicate IsOptimistic(m: Message) { "optimistic-" <= m.id }

  predicate IsReasoning(m: Message) { m.body.Some? && m.body.value.role == "reasoning" }

  function Kwargs(m: Message): map<string, Json> {
    if m.body.Some? && m.body.value.kwargs.Some? then m.body.value.kwargs.value else map[]
  }

  function Kwarg(m: Message, key: string): Option<Json> {
    if key in Kwargs(m) then Some(Kwargs(m)[key]) else None
  }

  function NonEmpty(s: Option<string>): Option<string> {
    if s.Some? && s.value != "" then s else None
  }

  function ReasoningId(m: Message): Option<string> {
    if !IsReasoning(m) then None
    else
      var own := NonEmpty(StringOf(m.body.value.id));
      if own.Some? then own
      else NonEmpty(StringOf(Coalesce(Kwarg(m, "__reasoningId"), Kwarg(m, "reasoningId"))))
  }

  /** The run id callers act on: they all skip the empty string. */
  function RunId(m: Message): Option<string> {
    NonEmpty(StringOf(Coalesce(Kwarg(m, "__runId"), Coalesce(Kwarg(m, "run_id"), Kwarg(m, "runId")))))
  }

  predicate IsStreaming(m: Message) { IsReasoning(m) && Truthy(Kwarg(m, STREAMING_REASONING_FLAG)) }

  function NonBlank(s: string): Option<string> { NonEmpty(Some(Trim(s))) }

  function NormalizeContent(raw: Option<Json>): Option<string> {
    match raw
    case Some(Str(s)) => NonBlank(s)
    case Some(Arr(items)) => if |items| == 1 && items[0].Str? then NonBlank(items[0].s) else None
    case Some(Obj(fields)) =>
      if "content" in fields && fields["content"].Str? then NonBlank(fields["content"].s) else None
    case _ => None
  }

  /** The normalized content of a human message; None for other messages and for blank ones. */
  function HumanContent(m: Message): Option<string> {
    if m.body.Some? && m.body.value.role == "human" then NormalizeContent(m.body.value.content) else None
  }

  lemma {:induction false} TrimStartIs(s: string) returns (blank: string)
    ensures s == blank + TrimStart(s) && forall c | c in blank :: IsSpace(c)
    ensures TrimStart(s) != "" ==> !IsSpace(TrimStart(s)[0])
  {
    blank := "";
    if s != "" && IsSpace(s[0]) {
      var rest := TrimStartIs(s[1..]);
      blank := [s[0]] + rest;
    }
  }

  lemma {:induction false} TrimEndIs(s: string) returns (blank: string)
    ensures s == TrimEnd(s) + blank && forall c | c in blank :: IsSpace(c)
    ensures TrimEnd(s) != "" ==> !IsSpace(TrimEnd(s)[|TrimEnd(s)| - 1])
  {
    blank := "";
    if s != "" && IsSpace(s[|s| - 1]) {
      var rest := TrimEndIs(s[..|s| - 1]);
      blank := rest + [s[|s| - 1]];
    }
  }

  /** t is s without the blanks around it. */
  ghost predicate IsTrimmed(s: string, t: string) {
    && (exists before, after :: s == before + t + after && forall c | c in before + after :: IsSpace(c))
    && (t != "" ==> !IsSpace(t[0]) && !IsSpace(t[|t| - 1]))
  }

  lemma {:induction false} TrimIs(s: string)
    ensures IsTrimmed(s, Trim(s))
  {
    var before := TrimStartIs(s);
    var after := TrimEndIs(TrimStart(s));
    assert s == before + Trim(s) + after;
    if Trim(s) != "" { assert Trim(s)[0] == TrimStart(s)[0]; }
  }

  /**
   A text counts the same plain, as the only block of a list, and as the content of an object:
   as its trimmed self, or as nothing when it is blank.
   */
  lemma {:induction false} ContentForms(s: string)
    ensures NormalizeContent(Some(Str(s))) == NormalizeContent(Some(Arr([Str(s)])))
    ensures NormalizeContent(Some(Str(s))) == NormalizeContent(Some(Obj(map["content" := Str(s)])))
    ensures match NormalizeContent(Some(Str(s)))
            case Some(t) => t != "" && IsTrimmed(s, t)
            case None => forall c | c in s :: IsSpace(c)
  {
    TrimIs(s);
  }

  /** A run id is the first of three kwargs that is set, if that is a text; an empty one is none. */
  lemma {:induction false} RunIdIs(m: Message, key: string)
    requires key in ["__runId", "run_id", "runId"]
    requires Kwarg(m, key).Some? && !Kwarg(m, key).value.Null?
    requires key != "__runId" ==> Kwarg(m, "__runId") in [None, Some(Null)]
    requires key == "runId" ==> Kwarg(m, "run_id") in [None, Some(Null)]
    ensures RunId(m) == match Kwarg(m, key).value
                        case Str(s) => if s == "" then None else Some(s)
                        case _ => None
  {
    assert |"__runId"| == 7 && |"run_id"| == 6 && |"runId"| == 5;
  }

  /** A reasoning message is known by its own id, else by the first of two kwargs that is set; an empty text is none. */
  lemma {:induction false} ReasoningIdIs(m: Message)
    ensures ReasoningId(m).Some? ==> IsReasoning(m) && ReasoningId(m).value != ""
    ensures IsReasoning(m) && m.body.value.id.Some? && m.body.value.id.value.Str? && m.body.value.id.value.s != "" ==>
              ReasoningId(m) == Some(m.body.value.id.value.s)
    ensures IsReasoning(m) && m.body.value.id.None? ==>
              forall key | key in ["__reasoningId", "reasoningId"] &&
                           Kwarg(m, key).Some? && !Kwarg(m, key).value.Null? &&
                           (key == "reasoningId" ==> Kwarg(m, "__reasoningId") in [None, Some(Null)]) ::
                ReasoningId(m) == match Kwarg(m, key).value
                                  case Str(s) => if s == "" then None else Some(s)
                                  case _ => None
  {
    assert |"__reasoningId"| == 13 && |"reasoningId"| == 11;
  }

  // ---- chronological order -------------------------------------------------------------------------------

  function ByTime(): (Message, Message) -> bool {
    (a: Message, b: Message) => a.createdAt.ms <= b.createdAt.ms
  }

  function Chronological(messages: seq<Message>): seq<Message> { Sort(ByTime(), messages) }

  predicate InOrder(messages: seq<Message>) { Sorted(ByTime(), messages) }

  datatype Decorated = Decorated(msg: Message, ts: int, idx: nat)

  function ByTimeThenIndex(): (Decorated, Decorated) -> bool {
    (a: Decorated, b: Decorated) => a.ts < b.ts || (a.ts == b.ts && a.idx <= b.idx)
  }

  function Decorate(messages: seq<Message>, from: nat): seq<Decorated> {
    seq(|messages|, i requires 0 <= i < |messages| => Decorated(messages[i], messages[i].createdAt.ms, from + i))
  }

  function Undecorate(decorated: seq<Decorated>): seq<Message> {
    seq(|decorated|, i requires 0 <= i < |decorated| => decorated[i].msg)
  }

  /** The Schwartzian transform: decorate, sort by time and index, undecorate. */
  method SortMessagesChronologically(messages: seq<Message>) returns (sorted: seq<Message>)
    ensures sorted == Chronological(messages)
  {
    if |messages| <= 1 {
      SortFixed(ByTime(), messages);
      return messages;
    }
    var decorated := [];
    for i := 0 to |messages|
      invariant decorated == Decorate(messages, 0)[..i]
    {
      decorated := decorated + [Decorated(messages[i], messages[i].createdAt.ms, i)];
    }
    assert decorated == Decorate(messages, 0);
    decorated := Sort(ByTimeThenIndex(), decorated);
    sorted := [];
    for i := 0 to |decorated|
      invariant sorted == Undecorate(decorated[..i])
    {
      sorted := sorted + [decorated[i].msg];
    }
    assert decorated[..|decorated|] == decorated;
    DecorationSortsStably(messages, 0);
  }

  lemma {:induction false} DecoratedInsert(d: Decorated, s: seq<Decorated>)
    requires d.ts == d.msg.createdAt.ms
    requires forall e | e in s :: d.idx < e.idx && e.ts == e.msg.createdAt.ms
    ensures Undecorate(Insert(ByTimeThenIndex(), d, s)) == Insert(ByTime(), d.msg, Undecorate(s))
  {
    if s != [] {
      assert s[0] in s;
      assert ByTimeThenIndex()(d, s[0]) == ByTime()(d.msg, s[0].msg);
      assert Undecorate(s)[1..] == Undecorate(s[1..]);
      if !ByTimeThenIndex()(d, s[0]) {
        DecoratedInsert(d, s[1..]);
        assert Undecorate([s[0]] + Insert(ByTimeThenIndex(), d, s[1..])) ==
               [s[0].msg] + Undecorate(Insert(ByTimeThenIndex(), d, s[1..]));
      }
    }
  }

  /** Breaking ties by index is what makes the sort stable. */
  lemma {:induction false} DecorationSortsStably(messages: seq<Message>, from: nat)
    ensures Undecorate(Sort(ByTimeThenIndex(), Decorate(messages, from))) == Chronological(messages)
    ensures forall d | d in Sort(ByTimeThenIndex(), Decorate(messages, from)) ::
              from <= d.idx && d.ts == d.msg.createdAt.ms
  {
    if messages != [] {
      var d := Decorate(messages, from);
      assert d[1..] == Decorate(messages[1..], from + 1);
      DecorationSortsStably(messages[1..], from + 1);
      DecoratedInsert(d[0], Sort(ByTimeThenIndex(), d[1..]));
    }
    SortElements(ByTimeThenIndex(), Decorate(messages, from));
  }

  // ---- filters ----------------------------------------------------------------------------------------

  /** `messages.filter(keep)` */
  function Where(keep: Message -> bool, messages: seq<Message>): seq<Message> {
    if messages == [] then []
    else if keep(messages[0]) then [messages[0]] + Where(keep, messages[1..])
    else Where(keep, messages[1..])
  }

  lemma {:induction false} WhereMembers(keep: Message -> bool, messages: seq<Message>)
    ensures forall m :: m in Where(keep, messages) <==> m in messages && keep(m)
  {
    if messages != [] {
      WhereMembers(keep, messages[1..]);
      assert messages == [messages[0]] + messages[1..];
    }
  }

  lemma {:induction false} WhereUnique(keep: Message -> bool, messages: seq<Message>)
    requires UniqueIds(messages)
    ensures UniqueIds(Where(keep, messages))
  {
    if messages != [] {
      WhereUnique(keep, messages[1..]);
      WhereMembers(keep, messages[1..]);
      assert forall m | m in messages[1..] :: m.id != messages[0].id;
    }
  }

  lemma {:induction false} WhereInOrder(keep: Message -> bool, messages: seq<Message>)
    requires InOrder(messages)
    ensures InOrder(Where(keep, messages))
  {
    if messages != [] {
      WhereInOrder(keep, messages[1..]);
      WhereMembers(keep, messages[1..]);
      assert forall m | m in messages[1..] :: ByTime()(messages[0], m);
    }
  }

  lemma {:induction false} WhereAll(keep: Message -> bool, messages: seq<Message>)
    requires forall m | m in messages :: keep(m)
    ensures Where(keep, messages) == messages
  {
    if messages != [] {
      WhereAll(keep, messages[1..]);
      assert [messages[0]] + messages[1..] == messages;
    }
  }

  lemma {:induction false} WhereAppend(keep: Message -> bool, messages: seq<Message>, m: Message)
    ensures Where(keep, messages + [m]) == if keep(m) then Where(keep, messages) + [m] else Where(keep, messages)
  {
    if messages == [] {
      assert ([] + [m])[1..] == [];
    } else {
      assert (messages + [m])[1..] == messages[1..] + [m];
      WhereAppend(keep, messages[1..], m);
    }
  }

  // ---- Map<string, Message>, keyed by message id ---------------------------------------------------------

  predicate UniqueIds(messages: seq<Message>) {
    forall i, j | 0 <= i < j < |messages| :: messages[i].id != messages[j].id
  }

  /** `map.get(id)` */
  function Find(messages: seq<Message>, id: string): Option<Message> {
    if messages == [] then None
    else if messages[0].id == id then Some(messages[0])
    else Find(messages[1..], id)
  }

  /** `map.set(m.id, m)`: a new id goes last, an old one keeps its place. */
  function Put(messages: seq<Message>, m: Message): seq<Message> {
    if messages == [] then [m]
    else if messages[0].id == m.id then [m] + messages[1..]
    else [messages[0]] + Put(messages[1..], m)
  }

  function PutAll(messages: seq<Message>, more: seq<Message>): seq<Message>
    decreases |more|
  {
    if more == [] then messages else PutAll(Put(messages, more[0]), more[1..])
  }

  /** The latest message of the list with the id. */
  function LastVersion(messages: seq<Message>, id: string): Option<Message> {
    if messages == [] then None
    else
      var later := LastVersion(messages[1..], id);
      if later.Some? then later else if messages[0].id == id then Some(messages[0]) else None
  }

  function Ids(messages: seq<Message>): seq<string> {
    seq(|messages|, i requires 0 <= i < |messages| => messages[i].id)
  }

  lemma {:induction false} PutFind(messages: seq<Message>, m: Message, id: string)
    ensures Find(Put(messages, m), id) == if id == m.id then Some(m) else Find(messages, id)
  {
    if messages != [] && messages[0].id != m.id { PutFind(messages[1..], m, id); }
  }

  lemma {:induction false} PutMembers(messages: seq<Message>, m: Message)
    ensures forall x | x in Put(messages, m) :: x == m || x in messages
    ensures Find(messages, m.id).None? ==> Put(messages, m) == messages + [m]
  {
    if messages != [] && messages[0].id != m.id {
      PutMembers(messages[1..], m);
      assert [messages[0]] + (messages[1..] + [m]) == messages + [m];
    }
  }

  lemma {:induction false} PutUnique(messages: seq<Message>, m: Message)
    requires UniqueIds(messages)
    ensures UniqueIds(Put(messages, m))
  {
    if messages != [] && messages[0].id != m.id {
      PutUnique(messages[1..], m);
      PutMembers(messages[1..], m);
      assert forall x | x in messages[1..] :: x.id != messages[0].id;
    }
  }

  lemma {:induction false} PutIds(messages: seq<Message>, m: Message)
    requires Find(messages, m.id).Some?
    ensures Ids(Put(messages, m)) == Ids(messages)
  {
    if messages[0].id != m.id {
      PutIds(messages[1..], m);
      assert Ids(messages) == [messages[0].id] + Ids(messages[1..]);
      assert Ids(Put(messages, m)) == [messages[0].id] + Ids(Put(messages[1..], m));
    }
  }

  lemma {:induction false} PutAllFind(messages: seq<Message>, more: seq<Message>, id: string)
    ensures Find(PutAll(messages, more), id) ==
            if LastVersion(more, id).Some? then LastVersion(more, id) else Find(messages, id)
    decreases |more|
  {
    if more != [] {
      PutFind(messages, more[0], id);
      PutAllFind(Put(messages, more[0]), more[1..], id);
    }
  }

  lemma {:induction false} PutAllUnique(messages: seq<Message>, more: seq<Message>)
    requires UniqueIds(messages)
    ensures UniqueIds(PutAll(messages, more))
    ensures forall x | x in PutAll(messages, more) :: x in messages || x in more
    decreases |more|
  {
    if more != [] {
      PutUnique(messages, more[0]);
      PutMembers(messages, more[0]);
      PutAllUnique(Put(messages, more[0]), more[1..]);
    }
  }

  lemma {:induction false} FindMember(messages: seq<Message>, id: string)
    ensures Find(messages, id).Some? ==> Find(messages, id).value in messages && Find(messages, id).value.id == id
    ensures (exists m | m in messages :: m.id == id) ==> Find(messages, id).Some?
  {
    if messages != [] {
      FindMember(messages[1..], id);
      assert forall m | m in messages :: m == messages[0] || m in messages[1..];
    }
  }

  lemma {:induction false} UniqueFind(messages: seq<Message>, m: Message)
    requires UniqueIds(messages) && m in messages
    ensures Find(messages, m.id) == Some(m)
  {
    if messages[0] != m { UniqueFind(messages[1..], m); }
  }

  /** Putting a list into an empty map gives the list back when its ids are unique. */
  lemma {:induction false} PutAllFresh(done: seq<Message>, more: seq<Message>)
    requires UniqueIds(done + more)
    ensures PutAll(done, more) == done + more
    decreases |more|
  {
    if more != [] {
      forall i | 0 <= i < |done| ensures done[i].id != more[0].id {
        assert (done + more)[i] == done[i] && (done + more)[|done|] == more[0];
      }
      PutNew(done, more[0]);
      assert done + more == done + [more[0]] + more[1..];
      PutAllFresh(done + [more[0]], more[1..]);
    } else {
      assert done + more == done;
    }
  }

  lemma {:induction false} PutNew(messages: seq<Message>, m: Message)
    requires forall x | x in messages :: x.id != m.id
    ensures Put(messages, m) == messages + [m]
  {
    if messages != [] {
      PutNew(messages[1..], m);
      assert [messages[0]] + (messages[1..] + [m]) == messages + [m];
    }
  }

  /** Lists with the same ids in the same order and the same entries are the same. */
  lemma {:induction false} SameEntries(a: seq<Message>, b: seq<Message>)
    requires UniqueIds(a) && UniqueIds(b) && Ids(a) == Ids(b)
    requires forall id :: Find(a, id) == Find(b, id)
    ensures a == b
  {
    forall i | 0 <= i < |a| ensures a[i] == b[i] {
      assert Ids(a)[i] == Ids(b)[i];
      UniqueFind(a, a[i]);
      UniqueFind(b, b[i]);
    }
    assert |Ids(a)| == |Ids(b)|;
  }

  lemma {:induction false} InsertUnique(m: Message, messages: seq<Message>)
    requires UniqueIds(messages) && forall x | x in messages :: x.id != m.id
    ensures UniqueIds(Insert(ByTime(), m, messages))
  {
    if messages != [] && !ByTime()(m, messages[0]) {
      InsertUnique(m, messages[1..]);
      InsertPermutes(ByTime(), m, messages[1..]);
      var rest := Insert(ByTime(), m, messages[1..]);
      forall x | x in rest ensures x.id != messages[0].id {
        assert x in multiset(rest);
        if x != m { assert x in messages[1..]; }
      }
    }
  }

  lemma {:induction false} SortUniqueIds(messages: seq<Message>)
    requires UniqueIds(messages)
    ensures UniqueIds(Chronological(messages))
  {
    if messages != [] {
      SortUniqueIds(messages[1..]);
      SortElements(ByTime(), messages[1..]);
      InsertUnique(messages[0], Chronological(messages[1..]));
    }
  }

  /** Sorting keeps what every id stands for. */
  lemma {:induction false} SortFind(messages: seq<Message>, id: string)
    requires UniqueIds(messages)
    ensures Find(Chronological(messages), id) == Find(messages, id)
  {
    SortUniqueIds(messages);
    SortElements(ByTime(), messages);
    FindMember(messages, id);
    FindMember(Chronological(messages), id);
    if Find(messages, id).Some? { UniqueFind(Chronological(messages), Find(messages, id).value); }
    if Find(Chronological(messages), id).Some? { UniqueFind(messages, Find(Chronological(messages), id).value); }
  }
}
