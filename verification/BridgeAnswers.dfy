/** What becomes of a request to the host, over any run. */
module BridgeAnswers {
  import opened JsonValues
  import opened JsonLines
  import opened HostRequests
  import opened Questions
  import opened Bridge
  import opened BridgeProofs
  import opened BridgeStream
  import opened BridgeReports

  // ---- the verdict of the frames --------------------------------------------------------------------

  /** The value a frame answers the request `id` with. */
  type Answering<T> = (Json, string) -> Option<T>

  function ToolAnswer(): Answering<ToolResolution> {
    (frame: Json, id: string) =>
      if Classify(frame) == ToolCallResponse(Some(id)) then Some(DecodeToolResponse(frame)) else None
  }

  function QuestionAnswer(): Answering<QuestionResolution> {
    (frame: Json, id: string) =>
      if Classify(frame) == QuestionResponse(Some(id)) then Some(DecodeResponse(frame)) else None
  }

  /** What one frame settles a waiting request with: a stop fails it, its own response resolves it. */
  function Verdict<T>(answer: Answering<T>, frame: Json, id: string): Option<Settlement<T>> {
    if Classify(frame).Stop? then Some(Failed("session aborted"))
    else match answer(frame, id)
         case Some(value) => Some(Resolved(value))
         case None => None
  }

  /** The first stop or response among the frames decides. */
  function FirstVerdict<T>(answer: Answering<T>, frames: seq<Json>, id: string): Option<Settlement<T>> {
    if frames == [] then None
    else
      var first := Verdict(answer, frames[0], id);
      if first.Some? then first else FirstVerdict(answer, frames[1..], id)
  }

  function OrLater<T>(first: Option<T>, later: Option<T>): Option<T> { if first.Some? then first else later }

  lemma {:induction false} FirstVerdictConcat<T>(answer: Answering<T>, a: seq<Json>, b: seq<Json>, id: string)
    ensures FirstVerdict(answer, a + b, id) == OrLater(FirstVerdict(answer, a, id), FirstVerdict(answer, b, id))
  {
    if a == [] {
      assert a + b == b;
    } else {
      assert (a + b)[1..] == a[1..] + b;
      FirstVerdictConcat(answer, a[1..], b, id);
    }
  }

  lemma {:induction false} FirstVerdictAt<T>(answer: Answering<T>, frames: seq<Json>, id: string, n: nat)
    requires n < |frames| && Verdict(answer, frames[n], id).Some?
    requires forall j | 0 <= j < n :: Verdict(answer, frames[j], id).None?
    ensures FirstVerdict(answer, frames, id) == Verdict(answer, frames[n], id)
  {
    if n > 0 {
      assert forall j | 0 <= j < n - 1 :: frames[1..][j] == frames[j + 1];
      FirstVerdictAt(answer, frames[1..], id, n - 1);
    }
  }

  lemma {:induction false} FirstVerdictSince<T>(answer: Answering<T>, frames: seq<Json>, start: nat, id: string, n: nat)
    requires start <= n < |frames| && Verdict(answer, frames[n], id).Some?
    requires forall j | start <= j < n :: Verdict(answer, frames[j], id).None?
    ensures FirstVerdict(answer, frames[start..], id) == Verdict(answer, frames[n], id)
  {
    var since := frames[start..];
    assert forall j | 0 <= j < n - start :: since[j] == frames[start + j];
    FirstVerdictAt(answer, since, id, n - start);
  }

  // ---- the request, step by step ------------------------------------------------------------------------

  /** The request has the given outcome, or waits for one. */
  predicate Stands<T(==)>(t: Table<T>, id: string, outcome: Option<Settlement<T>>) {
    if outcome.Some? then (id, outcome.value) in t.settled else id in t.pending
  }

  lemma {:induction false} WithoutKeeps(ids: seq<string>, id: string, other: string)
    requires other in ids && other != id
    ensures other in Without(ids, id)
  {
    if ids[0] != id && ids[0] != other { WithoutKeeps(ids[1..], id, other); }
  }

  lemma {:induction false} ResolveStands<T>(t: Table<T>, answered: string, value: T, id: string,
                                            outcome: Option<Settlement<T>>)
    requires Stands(t, id, outcome)
    ensures Stands(AfterResolve(t, answered, value), id,
                   if answered == id then OrLater(outcome, Some(Resolved(value))) else outcome)
  {
    var settled := AfterResolve(t, answered, value).settled;
    if outcome.None? && answered != id { WithoutKeeps(t.pending, answered, id); }
    if outcome.None? && answered == id { assert settled[|t.settled|] == (id, Resolved(value)); }
  }

  lemma {:induction false} FailAllStands<T>(t: Table<T>, reason: string, id: string, outcome: Option<Settlement<T>>)
    requires Stands(t, id, outcome)
    ensures Stands(AfterFailAll(t, reason), id, OrLater(outcome, Some(Failed(reason))))
  {
    if outcome.None? {
      var i :| 0 <= i < |t.pending| && t.pending[i] == id;
      assert AllFailed<T>(t.pending, reason)[i] == (id, Failed(reason));
      assert AfterFailAll(t, reason).settled[|t.settled| + i] == (id, Failed(reason));
    }
  }

  /** Requests still waiting when main settles fail with the session. */
  function Ended<T>(st: State, outcome: Option<Settlement<T>>): Option<Settlement<T>> {
    if st.phase.Exited? && st.phase.exit.Settled? then OrLater(outcome, Some(Failed("session ended"))) else outcome
  }

  lemma {:induction false} HandleCallStands(s: Session, frame: Json, id: string,
                                            outcome: Option<Settlement<ToolResolution>>)
    requires Stands(s.tools, id, outcome)
    ensures Stands(Handle(s, frame).0.tools, id, OrLater(outcome, Verdict(ToolAnswer(), frame, id)))
  {
    match Classify(frame)
    case Stop(_) => FailAllStands(s.tools, "session aborted", id, outcome);
    case ToolCallResponse(Some(answered)) => ResolveStands(s.tools, answered, DecodeToolResponse(frame), id, outcome);
    case _ =>
  }

  lemma {:induction false} HandleAllCallStands(s: Session, frames: seq<Json>, id: string,
                                               outcome: Option<Settlement<ToolResolution>>)
    requires Stands(s.tools, id, outcome)
    ensures
      var batch := HandleAll(s, frames);
      Stands(batch.session.tools, id, OrLater(outcome, FirstVerdict(ToolAnswer(), batch.frames, id)))
    decreases |frames|
  {
    if frames != [] {
      var (next, threw) := Handle(s, frames[0]);
      var batch := HandleAll(s, frames);
      HandleCallStands(s, frames[0], id, outcome);
      assert batch.frames[0] == frames[0];
      if threw {
        assert batch.frames[1..] == [];
      } else {
        assert batch.frames[1..] == HandleAll(next, frames[1..]).frames;
        HandleAllCallStands(next, frames[1..], id, OrLater(outcome, Verdict(ToolAnswer(), frames[0], id)));
      }
    }
  }

  lemma {:induction false} StepCallStands(parse: string -> Option<Json>, st: State, action: Action, id: string,
                                       outcome: Option<Settlement<ToolResolution>>)
    requires st.phase.Running? && Stands(st.phase.session.tools, id, outcome)
    ensures
      var next := SessionStep(parse, st, action);
      && st.handled <= next.handled && SessionOf(next).Some?
      && Stands(SessionOf(next).value.tools, id,
                Ended(next, OrLater(outcome, FirstVerdict(ToolAnswer(), next.handled[|st.handled|..], id))))
  {
    var s, next := st.phase.session, SessionStep(parse, st, action);
    match action
    case Chunk(text) =>
      var frames := Finished(parse, st.phase.buffer, text);
      HandleAllCallStands(s, frames, id, outcome);
      assert next.handled[|st.handled|..] == HandleAll(s, frames).frames;
    case SdkEnd => FailAllStands(s.tools, "session ended", id, outcome);
    case SdkThrow(_) => FailAllStands(s.tools, "session ended", id, outcome);
    case _ =>
  }

  lemma {:induction false} HandleQuestionStands(s: Session, frame: Json, id: string,
                                                outcome: Option<Settlement<QuestionResolution>>)
    requires Stands(s.questions, id, outcome)
    ensures Stands(Handle(s, frame).0.questions, id, OrLater(outcome, Verdict(QuestionAnswer(), frame, id)))
  {
    match Classify(frame)
    case Stop(_) => FailAllStands(s.questions, "session aborted", id, outcome);
    case QuestionResponse(Some(answered)) => ResolveStands(s.questions, answered, DecodeResponse(frame), id, outcome);
    case _ =>
  }

  lemma {:induction false} HandleAllQuestionStands(s: Session, frames: seq<Json>, id: string,
                                                   outcome: Option<Settlement<QuestionResolution>>)
    requires Stands(s.questions, id, outcome)
    ensures
      var batch := HandleAll(s, frames);
      Stands(batch.session.questions, id, OrLater(outcome, FirstVerdict(QuestionAnswer(), batch.frames, id)))
    decreases |frames|
  {
    if frames != [] {
      var (next, threw) := Handle(s, frames[0]);
      var batch := HandleAll(s, frames);
      HandleQuestionStands(s, frames[0], id, outcome);
      assert batch.frames[0] == frames[0];
      if threw {
        assert batch.frames[1..] == [];
      } else {
        assert batch.frames[1..] == HandleAll(next, frames[1..]).frames;
        HandleAllQuestionStands(next, frames[1..], id, OrLater(outcome, Verdict(QuestionAnswer(), frames[0], id)));
      }
    }
  }

  lemma {:induction false} StepQuestionStands(parse: string -> Option<Json>, st: State, action: Action, id: string,
                                       outcome: Option<Settlement<QuestionResolution>>)
    requires st.phase.Running? && Stands(st.phase.session.questions, id, outcome)
    ensures
      var next := SessionStep(parse, st, action);
      && st.handled <= next.handled && SessionOf(next).Some?
      && Stands(SessionOf(next).value.questions, id,
                Ended(next, OrLater(outcome, FirstVerdict(QuestionAnswer(), next.handled[|st.handled|..], id))))
  {
    var s, next := st.phase.session, SessionStep(parse, st, action);
    match action
    case Chunk(text) =>
      var frames := Finished(parse, st.phase.buffer, text);
      HandleAllQuestionStands(s, frames, id, outcome);
      assert next.handled[|st.handled|..] == HandleAll(s, frames).frames;
    case SdkEnd => FailAllStands(s.questions, "session ended", id, outcome);
    case SdkThrow(_) => FailAllStands(s.questions, "session ended", id, outcome);
    case _ =>
  }

  // ---- over every run -------------------------------------------------------------------------------------

  lemma {:induction false} LastStep(parse: string -> Option<Json>, asked: seq<Action>, later: seq<Action>)
    requires later != []
    ensures Bridge.Run(parse, asked + later) ==
            Bridge.Step(parse, Bridge.Run(parse, asked + later[..|later| - 1]), later[|later| - 1])
  {
    var all := asked + later;
    assert all[..|all| - 1] == asked + later[..|later| - 1] && all[|all| - 1] == later[|later| - 1];
  }

  lemma {:induction false} SinceSplits(a: seq<Json>, b: seq<Json>, c: seq<Json>)
    requires a <= b <= c
    ensures c[|a|..] == b[|a|..] + c[|b|..]
  {
    assert c == b + c[|b|..];
  }

  lemma {:induction false} RunCallStands(parse: string -> Option<Json>, asked: seq<Action>, later: seq<Action>,
                                         id: string)
    requires Bridge.Run(parse, asked).phase.Running? && id in Bridge.Run(parse, asked).phase.session.tools.pending
    ensures
      var st, final := Bridge.Run(parse, asked), Bridge.Run(parse, asked + later);
      && st.handled <= final.handled && !final.phase.Booting? && SessionOf(final).Some?
      && Stands(SessionOf(final).value.tools, id,
                Ended(final, FirstVerdict(ToolAnswer(), final.handled[|st.handled|..], id)))
  {
    var st := Bridge.Run(parse, asked);
    if later == [] {
      assert asked + later == asked && st.handled[|st.handled|..] == [];
    } else {
      var before, last := later[..|later| - 1], later[|later| - 1];
      LastStep(parse, asked, later);
      RunCallStands(parse, asked, before, id);
      NextCallStands(parse, st.handled, Bridge.Run(parse, asked + before), last, id);
    }
  }

  lemma {:induction false} NextCallStands(parse: string -> Option<Json>, start: seq<Json>, st: State, action: Action,
                                          id: string)
    requires start <= st.handled && !st.phase.Booting? && SessionOf(st).Some?
    requires Stands(SessionOf(st).value.tools, id, Ended(st, FirstVerdict(ToolAnswer(), st.handled[|start|..], id)))
    ensures
      var next := Bridge.Step(parse, st, action);
      && start <= next.handled && !next.phase.Booting? && SessionOf(next).Some?
      && Stands(SessionOf(next).value.tools, id, Ended(next, FirstVerdict(ToolAnswer(), next.handled[|start|..], id)))
  {
    if st.phase.Running? {
      var next := SessionStep(parse, st, action);
      StepCallStands(parse, st, action, id, FirstVerdict(ToolAnswer(), st.handled[|start|..], id));
      SinceSplits(start, st.handled, next.handled);
      FirstVerdictConcat(ToolAnswer(), st.handled[|start|..], next.handled[|st.handled|..], id);
    }
  }

  lemma {:induction false} RunQuestionStands(parse: string -> Option<Json>, asked: seq<Action>, later: seq<Action>,
                                             id: string)
    requires Bridge.Run(parse, asked).phase.Running? && id in Bridge.Run(parse, asked).phase.session.questions.pending
    ensures
      var st, final := Bridge.Run(parse, asked), Bridge.Run(parse, asked + later);
      && st.handled <= final.handled && !final.phase.Booting? && SessionOf(final).Some?
      && Stands(SessionOf(final).value.questions, id,
                Ended(final, FirstVerdict(QuestionAnswer(), final.handled[|st.handled|..], id)))
  {
    var st := Bridge.Run(parse, asked);
    if later == [] {
      assert asked + later == asked && st.handled[|st.handled|..] == [];
    } else {
      var before, last := later[..|later| - 1], later[|later| - 1];
      LastStep(parse, asked, later);
      RunQuestionStands(parse, asked, before, id);
      NextQuestionStands(parse, st.handled, Bridge.Run(parse, asked + before), last, id);
    }
  }

  lemma {:induction false} NextQuestionStands(parse: string -> Option<Json>, start: seq<Json>, st: State,
                                              action: Action, id: string)
    requires start <= st.handled && !st.phase.Booting? && SessionOf(st).Some?
    requires Stands(SessionOf(st).value.questions, id,
             Ended(st, FirstVerdict(QuestionAnswer(), st.handled[|start|..], id)))
    ensures
      var next := Bridge.Step(parse, st, action);
      && start <= next.handled && !next.phase.Booting? && SessionOf(next).Some?
      && Stands(SessionOf(next).value.questions, id,
         Ended(next, FirstVerdict(QuestionAnswer(), next.handled[|start|..], id)))
  {
    if st.phase.Running? {
      var next := SessionStep(parse, st, action);
      StepQuestionStands(parse, st, action, id, FirstVerdict(QuestionAnswer(), st.handled[|start|..], id));
      SinceSplits(start, st.handled, next.handled);
      FirstVerdictConcat(QuestionAnswer(), st.handled[|start|..], next.handled[|st.handled|..], id);
    }
  }

  /** The n-th step asks the question that the event announces. */
  predicate AskedAt(parse: string -> Option<Json>, actions: seq<Action>, n: nat, event: Event) {
    && n < |actions| && Bridge.Run(parse, actions[..n]).phase.Running?
    && actions[n].CanUseTool? && actions[n].toolName == ASK_USER_QUESTION_TOOL
    && event == QuestionRequest(NextId(Bridge.Run(parse, actions[..n]).phase.session.questions, actions[n].uuid),
                                Sanitize(OrNull(Field(actions[n].input, "questions"))))
  }

  /** The n-th step makes the tool call that the event announces. */
  predicate CalledAt(parse: string -> Option<Json>, actions: seq<Action>, n: nat, event: Event) {
    && n < |actions| && Bridge.Run(parse, actions[..n]).phase.Running? && actions[n].ToolCall?
    && event == ToolCallRequest(NextId(Bridge.Run(parse, actions[..n]).phase.session.tools, actions[n].uuid),
                                actions[n].toolName, actions[n].args)
  }

  /** Every request the host sees was made by one step. */
  lemma {:induction false} EveryRequestWasMade(parse: string -> Option<Json>, actions: seq<Action>,
                                               event: Event) returns (n: nat)
    requires event in Bridge.Run(parse, actions).events && (event.QuestionRequest? || event.ToolCallRequest?)
    ensures AskedAt(parse, actions, n, event) || CalledAt(parse, actions, n, event)
  {
    var before, last := actions[..|actions| - 1], actions[|actions| - 1];
    var st := Bridge.Run(parse, before);
    if event in st.events {
      n := EveryRequestWasMade(parse, before, event);
      assert before[..n] == actions[..n] && before[n] == actions[n];
    } else {
      n := |actions| - 1;
      assert actions[..n] == before;
      OneNewEvent(parse, st, last, event);
    }
  }

  /** Every question request ever emitted carries a list the host's own sanitizer leaves alone. */
  lemma {:induction false} EmittedQuestionsAreSanitized(parse: string -> Option<Json>, actions: seq<Action>,
                                                        event: Event)
    requires event in Bridge.Run(parse, actions).events && event.QuestionRequest?
    ensures Sanitize(Arr(event.questions)) == event.questions
  {
    var n := EveryRequestWasMade(parse, actions, event);
    SanitizeTwice(OrNull(Field(actions[n].input, "questions")));
  }

  lemma {:induction false} OneNewEvent(parse: string -> Option<Json>, st: State, action: Action, event: Event)
    requires event in Bridge.Step(parse, st, action).events && event !in st.events
    requires event.QuestionRequest? || event.ToolCallRequest?
    ensures st.phase.Running?
    ensures event.QuestionRequest? ==>
              action.CanUseTool? && action.toolName == ASK_USER_QUESTION_TOOL &&
              event == QuestionRequest(NextId(st.phase.session.questions, action.uuid),
                                       Sanitize(OrNull(Field(action.input, "questions"))))
    ensures event.ToolCallRequest? ==>
              action.ToolCall? &&
                event == ToolCallRequest(NextId(st.phase.session.tools, action.uuid), action.toolName, action.args)
  {
  }

  /** The request has this outcome and no other. */
  ghost predicate HasOutcome<T(!new)>(t: Table<T>, id: string, outcome: Option<Settlement<T>>) {
    && id in t.created
    && forall o :: (id, o) in t.settled <==> outcome == Some(o)
  }

  lemma {:induction false} StandsOnce<T(!new)>(t: Table<T>, id: string, outcome: Option<Settlement<T>>)
    requires Consistent(t) && Stands(t, id, outcome)
    ensures HasOutcome(t, id, outcome)
  {
    forall k | 0 <= k < |t.settled| && t.settled[k].0 == id ensures outcome == Some(t.settled[k].1) {
      assert SettledIds(t)[k] == id;
      if outcome.Some? {
        var j :| 0 <= j < |t.settled| && t.settled[j] == (id, outcome.value);
        assert SettledIds(t)[j] == id;
      }
    }
    if outcome.Some? {
      var j :| 0 <= j < |t.settled| && t.settled[j] == (id, outcome.value);
      assert SettledIds(t)[j] == id;
    }
  }

  lemma {:induction false} EventsStay(parse: string -> Option<Json>, asked: seq<Action>, later: seq<Action>,
                                      event: Event)
    requires event in Bridge.Run(parse, asked).events
    ensures event in Bridge.Run(parse, asked + later).events
  {
    if later == [] {
      assert asked + later == asked;
    } else {
      LastStep(parse, asked, later);
      EventsStay(parse, asked, later[..|later| - 1], event);
      EventsOnlyGrow(parse, Bridge.Run(parse, asked + later[..|later| - 1]), later[|later| - 1]);
    }
  }

  lemma {:induction false} NoDuplicatesFront(ids: seq<string>, id: string)
    requires NoDuplicates(ids + [id])
    ensures NoDuplicates(ids)
  {
    forall i, j | 0 <= i < j < |ids| ensures ids[i] != ids[j] {
      assert (ids + [id])[i] == ids[i] && (ids + [id])[j] == ids[j];
    }
  }

  lemma {:induction false} NoDuplicatesLast(ids: seq<string>, id: string)
    requires NoDuplicates(ids + [id])
    ensures id !in ids
  {
    forall i | 0 <= i < |ids| ensures ids[i] != id {
      assert (ids + [id])[i] == ids[i] && (ids + [id])[|ids|] == id;
    }
  }

  lemma {:induction false} OneCallPerId(events: seq<Event>, a: Event, b: Event)
    requires NoDuplicates(ToolIds(events)) && a in events && b in events
    requires a.ToolCallRequest? && b.ToolCallRequest? && a.id == b.id
    ensures a == b
  {
    var before, last := events[..|events| - 1], events[|events| - 1];
    assert events == before + [last];
    if a in before && b in before {
      if last.ToolCallRequest? {
        NoDuplicatesFront(ToolIds(before), last.id);
      } else {
        assert ToolIds(events) == ToolIds(before);
      }
      OneCallPerId(before, a, b);
    } else if a != b {
      OneCallPerIdHas(before, if a in before then a else b);
      NoDuplicatesLast(ToolIds(before), last.id);
    }
  }

  lemma {:induction false} OneCallPerIdHas(events: seq<Event>, event: Event)
    requires event in events && event.ToolCallRequest?
    ensures event.id in ToolIds(events)
  {
    var before, last := events[..|events| - 1], events[|events| - 1];
    assert events == before + [last];
    if event in before { OneCallPerIdHas(before, event); }
  }

  lemma {:induction false} OneQuestionPerId(events: seq<Event>, a: Event, b: Event)
    requires NoDuplicates(QuestionIds(events)) && a in events && b in events
    requires a.QuestionRequest? && b.QuestionRequest? && a.id == b.id
    ensures a == b
  {
    var before, last := events[..|events| - 1], events[|events| - 1];
    assert events == before + [last];
    if a in before && b in before {
      if last.QuestionRequest? {
        NoDuplicatesFront(QuestionIds(before), last.id);
      } else {
        assert QuestionIds(events) == QuestionIds(before);
      }
      OneQuestionPerId(before, a, b);
    } else if a != b {
      OneQuestionPerIdHas(before, if a in before then a else b);
      NoDuplicatesLast(QuestionIds(before), last.id);
    }
  }

  lemma {:induction false} OneQuestionPerIdHas(events: seq<Event>, event: Event)
    requires event in events && event.QuestionRequest?
    ensures event.id in QuestionIds(events)
  {
    var before, last := events[..|events| - 1], events[|events| - 1];
    assert events == before + [last];
    if event in before { OneQuestionPerIdHas(before, event); }
  }

  /** A tool call's only outcome, whatever else the run does: what the first stop or response frame
   for its id behind the call says, else failure with the end of the session, else none yet. */
  lemma {:induction false} CallOutcome(parse: string -> Option<Json>, actions: seq<Action>, n: nat, event: Event)
    requires CalledAt(parse, actions, n, event)
    ensures
      var asked, final := Bridge.Run(parse, actions[..n + 1]), Bridge.Run(parse, actions);
      && asked.handled <= final.handled && SessionOf(final).Some?
      && HasOutcome(SessionOf(final).value.tools, event.id,
                    Ended(final, FirstVerdict(ToolAnswer(), final.handled[|asked.handled|..], event.id)))
      && event in final.events && forall e | e in final.events && e.ToolCallRequest? && e.id == event.id :: e == event
  {
    var asked := actions[..n + 1];
    var final := Bridge.Run(parse, actions);
    assert asked[..n] == actions[..n] && asked + actions[n + 1..] == actions;
    assert event in Bridge.Run(parse, asked).events;
    RunCallStands(parse, asked, actions[n + 1..], event.id);
    EventsStay(parse, asked, actions[n + 1..], event);
    EveryState(parse, actions);
    StandsOnce(SessionOf(final).value.tools, event.id,
               Ended(final, FirstVerdict(ToolAnswer(), final.handled[|Bridge.Run(parse, asked).handled|..], event.id)));
    forall e | e in final.events && e.ToolCallRequest? && e.id == event.id ensures e == event {
      OneCallPerId(final.events, e, event);
    }
  }

  /** The same for a question. */
  lemma {:induction false} QuestionOutcome(parse: string -> Option<Json>, actions: seq<Action>, n: nat, event: Event)
    requires AskedAt(parse, actions, n, event)
    ensures
      var asked, final := Bridge.Run(parse, actions[..n + 1]), Bridge.Run(parse, actions);
      && asked.handled <= final.handled && SessionOf(final).Some?
      && HasOutcome(SessionOf(final).value.questions, event.id,
                    Ended(final, FirstVerdict(QuestionAnswer(), final.handled[|asked.handled|..], event.id)))
      && event in final.events && forall e | e in final.events && e.QuestionRequest? && e.id == event.id :: e == event
  {
    var asked := actions[..n + 1];
    var final := Bridge.Run(parse, actions);
    assert asked[..n] == actions[..n] && asked + actions[n + 1..] == actions;
    assert event in Bridge.Run(parse, asked).events;
    RunQuestionStands(parse, asked, actions[n + 1..], event.id);
    EventsStay(parse, asked, actions[n + 1..], event);
    EveryState(parse, actions);
    StandsOnce(SessionOf(final).value.questions, event.id,
               Ended(final, FirstVerdict(QuestionAnswer(), final.handled[|Bridge.Run(parse, asked).handled|..],
                 event.id)));
    forall e | e in final.events && e.QuestionRequest? && e.id == event.id ensures e == event {
      OneQuestionPerId(final.events, e, event);
    }
  }

  /** Every request the host ever saw is settled once the session has ended, and none is settled twice. */
  lemma {:induction false} EveryRequestSettles(parse: string -> Option<Json>, actions: seq<Action>)
    ensures
      var st := Bridge.Run(parse, actions);
      var s := SessionOf(st);
      && (st.launched ==> s.Some?)
      && (s.Some? ==> NoDuplicates(ToolIds(st.events)) && NoDuplicates(SettledIds(s.value.tools)))
      && (s.Some? ==> NoDuplicates(QuestionIds(st.events)) && NoDuplicates(SettledIds(s.value.questions)))
      && (s.Some? && st.phase.Exited? && st.phase.exit.Settled? ==>
            && (forall id :: id in ToolIds(st.events) <==> id in SettledIds(s.value.tools))
            && (forall id :: id in QuestionIds(st.events) <==> id in SettledIds(s.value.questions)))
  {
    EveryState(parse, actions);
    EveryTrace(parse, actions);
  }

  /**
   From response frame to tool result: the model sees the frame's error text as an error when
   it has one, its result text otherwise, and never anything but text.
   */
  lemma {:induction false} ToolResultFromFrame(frame: Json)
    ensures
      var shown := ToolOutcome(Resolved(DecodeToolResponse(frame)));
      match (Field(frame, "error"), Field(frame, "result"))
      case (Some(Str(error)), _) => shown == ToolResult(error, true)
      case (_, Some(Str(text))) => shown == ToolResult(text, false)
      case _ => shown == ToolResult("", false)
  {
  }

  /** The k-th handled frame is the first behind the n-th step that settles the request. */
  predicate Settles<T>(answer: Answering<T>, parse: string -> Option<Json>, actions: seq<Action>, n: nat, id: string,
                       k: nat) {
    && n < |actions|
    && |Bridge.Run(parse, actions[..n + 1]).handled| <= k < |Bridge.Run(parse, actions).handled|
    && Verdict(answer, Bridge.Run(parse, actions).handled[k], id).Some?
    && forall j | |Bridge.Run(parse, actions[..n + 1]).handled| <= j < k ::
         Verdict(answer, Bridge.Run(parse, actions).handled[j], id).None?
  }

  /** The k-th handled frame is the first, behind the n-th step, that settles the question, and it is a response. */
  predicate FirstResponse(parse: string -> Option<Json>, actions: seq<Action>, n: nat, id: string, k: nat) {
    && Settles(QuestionAnswer(), parse, actions, n, id, k)
    && Classify(Bridge.Run(parse, actions).handled[k]) == QuestionResponse(Some(id))
  }

  lemma {:induction false} FirstResponseDecides(parse: string -> Option<Json>, actions: seq<Action>, n: nat,
                                                event: Event, k: nat)
    requires AskedAt(parse, actions, n, event) && FirstResponse(parse, actions, n, event.id, k)
    ensures
      var final := Bridge.Run(parse, actions);
      && SessionOf(final).Some?
      && HasOutcome(SessionOf(final).value.questions, event.id, Some(Resolved(DecodeResponse(final.handled[k]))))
  {
    var handled := Bridge.Run(parse, actions).handled;
    FirstVerdictSince(QuestionAnswer(), handled, |Bridge.Run(parse, actions[..n + 1]).handled|, event.id, k);
    QuestionOutcome(parse, actions, n, event);
  }

  /** What the hook tells the SDK of question i: `entries[i]` if that is a string, and nothing if it is not. */
  predicate RecordsEntry(questions: seq<Json>, decision: Decision, entries: seq<Json>, i: nat)
    requires i < |questions| && QuestionText(questions, i).Some?
  {
    var text := QuestionText(questions, i).value;
    && decision.Allow?
    && (text in decision.answers <==> text != "__proto__" && i < |entries| && entries[i].Str?)
    && (text in decision.answers ==> decision.answers[text] == entries[i].s)
  }

  /**
   Over any run: when the first frame behind a question that settles it allows, with a list of
   answers, the hook's only outcome records for the i-th emitted question the i-th entry of
   that list if it is a string, and no answer if it is not.
   */
  lemma {:induction false} AnswersStayAligned(parse: string -> Option<Json>, actions: seq<Action>, n: nat, event: Event,
                                              k: nat, entries: seq<Json>, i: nat)
    requires AskedAt(parse, actions, n, event) && FirstResponse(parse, actions, n, event.id, k)
    requires Field(Bridge.Run(parse, actions).handled[k], "answers") == Some(Arr(entries)) && entries != []
    requires Field(Bridge.Run(parse, actions).handled[k], "deny") != Some(Bool(true))
    requires i < |event.questions| && DistinctTexts(event.questions) && QuestionText(event.questions, i).Some?
    ensures
      && SessionOf(Bridge.Run(parse, actions)).Some?
      && exists outcome ::
           HasOutcome(SessionOf(Bridge.Run(parse, actions)).value.questions, event.id, Some(outcome)) &&
           RecordsEntry(event.questions, Decide(event.questions, outcome), entries, i)
  {
    FirstResponseDecides(parse, actions, n, event, k);
    AnswersByIndex(OrNull(Field(actions[n].input, "questions")), Bridge.Run(parse, actions).handled[k], i);
    var outcome := Resolved(DecodeResponse(Bridge.Run(parse, actions).handled[k]));
    assert RecordsEntry(event.questions, Decide(event.questions, outcome), entries, i);
  }

  // ---- what the SDK is told ------------------------------------------------------------------------------

  const UNDELIVERED := "The question could not be delivered. Continue with your best judgment."

  const UNANSWERED := "The question was not answered. Continue with your best judgment."

  /** A response frame allows exactly when it does not deny and brings a list of answers that is not empty. */
  lemma {:induction false} ResponseAllowsExactly(questions: seq<Json>, frame: Json)
    ensures
      var decision := Decide(questions, Resolved(DecodeResponse(frame)));
      && (decision.Allow? <==>
            && Field(frame, "deny") != Some(Bool(true))
            && Field(frame, "answers").Some? && Field(frame, "answers").value.Arr?
            && Field(frame, "answers").value.items != [])
      && (decision.Deny? ==> decision == Deny(UNANSWERED))
  {
  }

  /** Nothing behind the n-th step has settled the request, and the session is over. */
  predicate NeverSettled<T>(answer: Answering<T>, parse: string -> Option<Json>, actions: seq<Action>, n: nat,
                            id: string) {
    var st := Bridge.Run(parse, actions);
    && n < |actions| && st.phase.Exited? && st.phase.exit.Settled?
    && forall j | |Bridge.Run(parse, actions[..n + 1]).handled| <= j < |st.handled| ::
         Verdict(answer, st.handled[j], id).None?
  }

  lemma {:induction false} NoVerdict<T>(answer: Answering<T>, frames: seq<Json>, id: string)
    requires forall j | 0 <= j < |frames| :: Verdict(answer, frames[j], id).None?
    ensures FirstVerdict(answer, frames, id).None?
  {
    if frames != [] {
      assert forall j | 0 <= j < |frames| - 1 :: frames[1..][j] == frames[j + 1];
      NoVerdict(answer, frames[1..], id);
    }
  }

  lemma {:induction false} NoVerdictSince<T>(answer: Answering<T>, frames: seq<Json>, start: nat, id: string)
    requires start <= |frames| && forall j | start <= j < |frames| :: Verdict(answer, frames[j], id).None?
    ensures FirstVerdict(answer, frames[start..], id).None?
  {
    var since := frames[start..];
    assert forall j | 0 <= j < |since| :: since[j] == frames[start + j];
    NoVerdict(answer, since, id);
  }

  /** What the model must see of a tool call, by the frame that settled it. */
  predicate ShowsFrame(shown: ToolResult, frame: Json) {
    if StopsTurn(frame) then shown == ToolResult("Tool call failed: session aborted", true)
    else match (Field(frame, "error"), Field(frame, "result"))
         case (Some(Str(error)), _) => shown == ToolResult(error, true)
         case (_, Some(Str(text))) => shown == ToolResult(text, false)
         case _ => shown == ToolResult("", false)
  }

  lemma {:induction false} VerdictShows(frame: Json, id: string)
    requires Verdict(ToolAnswer(), frame, id).Some?
    ensures ShowsFrame(ToolOutcome(Verdict(ToolAnswer(), frame, id).value), frame)
  {
    CommandsByType(frame);
  }

  /** Over any run the model sees of a tool call what the first frame that settles it says. */
  lemma {:induction false} CallShowsFirstFrame(parse: string -> Option<Json>, actions: seq<Action>, n: nat,
                                               event: Event, k: nat)
    requires CalledAt(parse, actions, n, event) && Settles(ToolAnswer(), parse, actions, n, event.id, k)
    ensures
      var final := Bridge.Run(parse, actions);
      && SessionOf(final).Some?
      && exists outcome :: HasOutcome(SessionOf(final).value.tools, event.id, Some(outcome)) &&
                           ShowsFrame(ToolOutcome(outcome), final.handled[k])
  {
    var final := Bridge.Run(parse, actions);
    FirstVerdictSince(ToolAnswer(), final.handled, |Bridge.Run(parse, actions[..n + 1]).handled|, event.id, k);
    CallOutcome(parse, actions, n, event);
    VerdictShows(final.handled[k], event.id);
    assert HasOutcome(SessionOf(final).value.tools, event.id, Verdict(ToolAnswer(), final.handled[k], event.id));
  }

  /** And, when none did before the session was over, that it failed with the session. */
  lemma {:induction false} CallFailsWithSession(parse: string -> Option<Json>, actions: seq<Action>, n: nat,
                                                event: Event)
    requires CalledAt(parse, actions, n, event) && NeverSettled(ToolAnswer(), parse, actions, n, event.id)
    ensures
      var final := Bridge.Run(parse, actions);
      && SessionOf(final).Some?
      && exists outcome :: HasOutcome(SessionOf(final).value.tools, event.id, Some(outcome)) &&
                           ToolOutcome(outcome) == ToolResult("Tool call failed: session ended", true)
  {
    var final := Bridge.Run(parse, actions);
    CallLeftOver(parse, actions, n, event);
    FailureShown();
    assert HasOutcome(SessionOf(final).value.tools, event.id, Some(Failed("session ended")));
  }

  lemma {:induction false} FailureShown()
    ensures ToolOutcome(Failed("session ended")) == ToolResult("Tool call failed: session ended", true)
  {
    assert "Tool call failed: " + "session ended" == "Tool call failed: session ended";
  }

  lemma {:induction false} CallLeftOver(parse: string -> Option<Json>, actions: seq<Action>, n: nat, event: Event)
    requires CalledAt(parse, actions, n, event) && NeverSettled(ToolAnswer(), parse, actions, n, event.id)
    ensures
      var final := Bridge.Run(parse, actions);
      SessionOf(final).Some? && HasOutcome(SessionOf(final).value.tools, event.id, Some(Failed("session ended")))
  {
    CallOutcome(parse, actions, n, event);
    var start := |Bridge.Run(parse, actions[..n + 1]).handled|;
    NoVerdictSince(ToolAnswer(), Bridge.Run(parse, actions).handled, start, event.id);
  }

  /**
   A question stopped by an interrupt or a shutdown, or left over at the end of the session, is denied
   as undelivered.
   */
  lemma {:induction false} LostQuestionIsDenied(parse: string -> Option<Json>, actions: seq<Action>, n: nat,
                                                event: Event, k: nat)
    requires AskedAt(parse, actions, n, event)
    requires
      || (Settles(QuestionAnswer(), parse, actions, n, event.id, k) && StopsTurn(Bridge.Run(parse, actions).handled[k]))
      || NeverSettled(QuestionAnswer(), parse, actions, n, event.id)
    ensures
      var final := Bridge.Run(parse, actions);
      && SessionOf(final).Some?
      && exists outcome :: HasOutcome(SessionOf(final).value.questions, event.id, Some(outcome)) &&
                           Decide(event.questions, outcome) == Deny(UNDELIVERED)
  {
    var final, start := Bridge.Run(parse, actions), |Bridge.Run(parse, actions[..n + 1]).handled|;
    QuestionOutcome(parse, actions, n, event);
    if NeverSettled(QuestionAnswer(), parse, actions, n, event.id) {
      NoVerdictSince(QuestionAnswer(), final.handled, start, event.id);
      assert HasOutcome(SessionOf(final).value.questions, event.id, Some(Failed("session ended")));
    } else {
      FirstVerdictSince(QuestionAnswer(), final.handled, start, event.id, k);
      CommandsByType(final.handled[k]);
      assert HasOutcome(SessionOf(final).value.questions, event.id, Some(Failed("session aborted")));
    }
  }

  // ---- such a run -------------------------------------------------------------------------------------

  const SAMPLE_QUESTION := Obj(map["question" := Str("ok?")])

  const SAMPLE_ASK := CanUseTool("", ASK_USER_QUESTION_TOOL, Obj(map["questions" := Arr([SAMPLE_QUESTION])]))

  const SAMPLE_RUN := [Chunk("s\n"), SAMPLE_ASK, Chunk("a\n")]

  lemma {:induction false} SampleLaunched()
    ensures Bridge.Run(SampleParse, SAMPLE_RUN[..1]) == Bridge.Step(SampleParse, BOOTED, Chunk("s\n"))
  {
    assert SAMPLE_RUN[..1] == [Chunk("s\n")] && SAMPLE_RUN[..1][..0] == [];
  }

  lemma {:induction false} SampleId()
    ensures NextId(EmptyTable<QuestionResolution>("question"), "") == "question-1-"
  {
    assert Decimal(1) == "1";
  }

  lemma {:induction false} SampleSanitized()
    ensures Sanitize(OrNull(Field(SAMPLE_ASK.input, "questions"))) == [SAMPLE_QUESTION]
  {
    SanitizeFixesExactlyWellTyped([SAMPLE_QUESTION], Null);
  }

  lemma {:induction false} SampleAsked()
    ensures
      var st := Bridge.Run(SampleParse, SAMPLE_RUN[..2]);
      && st.phase == Running(NewSession(Obj(map[])).(questions := AfterCreate(EmptyTable("question"), "")), "")
      && st.handled == []
    ensures AskedAt(SampleParse, SAMPLE_RUN, 1, QuestionRequest("question-1-", [SAMPLE_QUESTION]))
  {
    SampleLaunched();
    SampleStarts();
    SampleId();
    SampleSanitized();
    assert SAMPLE_RUN[..2][..1] == SAMPLE_RUN[..1] && SAMPLE_RUN[..2][1] == SAMPLE_ASK;
  }

  lemma {:induction false} OneFrameHandled(s: Session, frame: Json)
    requires Classify(frame).QuestionResponse?
    ensures HandleAll(s, [frame]).frames == [frame]
  {
    assert [frame][1..] == [] && [frame] + [] == [frame];
  }

  lemma {:induction false} SampleFrame()
    ensures Finished(SampleParse, "", "a\n") == [SampleParse("a").value]
    ensures Classify(SampleParse("a").value) == QuestionResponse(Some("question-1-"))
    ensures Field(SampleParse("a").value, "answers") == Some(Arr([Str("yes")]))
  {
    LineArrives(SampleParse, 'a');
    assert "a" != "s" && "a" != "u" && "a" != "o";
  }

  /** A question is asked and answered: the run satisfies what `AnswersStayAligned` asks for. */
  lemma {:induction false} SampleAnswered()
    ensures
      var event := QuestionRequest("question-1-", [SAMPLE_QUESTION]);
      && AskedAt(SampleParse, SAMPLE_RUN, 1, event)
      && FirstResponse(SampleParse, SAMPLE_RUN, 1, event.id, 0)
      && Field(Bridge.Run(SampleParse, SAMPLE_RUN).handled[0], "answers") == Some(Arr([Str("yes")]))
  {
    SampleAsked();
    SampleFrame();
    var st := Bridge.Run(SampleParse, SAMPLE_RUN[..2]);
    assert SAMPLE_RUN[..|SAMPLE_RUN| - 1] == SAMPLE_RUN[..2];
    OneFrameHandled(st.phase.session, SampleParse("a").value);
    assert Bridge.Run(SampleParse, SAMPLE_RUN) == SessionChunk(SampleParse, st, "a\n");
    assert Bridge.Run(SampleParse, SAMPLE_RUN).handled == [SampleParse("a").value];
  }
}
