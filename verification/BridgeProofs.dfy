/**
 What every run of the bridge keeps, whatever the host, the SDK and the cuts of the stream do:
 the shape of the event trace, the session's input queue and request tables, and what the
 terminal event says about the frames that were handled.
 */
module BridgeProofs {
  import opened JsonValues
  import opened JsonLines
  import opened MessageQueue
  import opened HostRequests
  import opened Questions
  import opened Bridge

  // ---- the event trace ----------------------------------------------------------------------------

  predicate Terminal(event: Event) { event.Done? || event.Aborted? || event.Fatal? }

  /** `ready`, then other events, then at most one terminal event, present exactly when main has settled. */
  predicate TraceShape(st: State) {
    && |st.events| > 0 && st.events[0] == ReadyEvent
    && (forall i | 1 <= i < |st.events| :: st.events[i] != ReadyEvent)
    && (forall i | 0 <= i < |st.events| - 1 :: !Terminal(st.events[i]))
    && (Terminal(st.events[|st.events| - 1]) <==> st.phase.Exited? && st.phase.exit.Settled?)
    && (st.phase.Booting? ==> st.events == [ReadyEvent] && st.handled == [] && !st.launched)
    && (!st.launched ==> forall i | 1 <= i < |st.events| :: st.events[i].Fatal?)
    && (st.phase.Running? ==> st.launched)
    && (st.launched ==> SessionOf(st).Some?)
    && (var last := st.events[|st.events| - 1];
        last.Done? || last.Aborted? ==> last.sessionId == LastSessionId(st.events[..|st.events| - 1]))
  }

  lemma {:induction false} BootKeepsTrace(parse: string -> Option<Json>, st: State, text: string)
    requires TraceShape(st) && st.phase.Booting?
    ensures TraceShape(BootChunk(parse, st, text))
  {
    match ScanStart(Finished(parse, st.phase.buffer, text))
    case Begin(options, rest) => LaunchKeepsTrace(parse, st, options, rest, Kept(st.phase.buffer, text));
    case Refused(name) => FailKeepsTrace(st, name + " before start", None);
    case _ =>
  }

  lemma {:induction false} FailKeepsTrace(st: State, error: string, last: Option<Session>)
    requires st.events == [ReadyEvent] && !st.launched
    ensures TraceShape(Fail(st, error, last))
  {
  }

  lemma {:induction false} LaunchKeepsTrace(parse: string -> Option<Json>, st: State, options: Option<Json>,
                                            carried: seq<Json>, partial: string)
    requires st.events == [ReadyEvent] && !st.launched
    ensures TraceShape(Launch(parse, st, options, carried, partial))
  {
  }

  lemma {:induction false} SessionKeepsTrace(parse: string -> Option<Json>, st: State, action: Action)
    requires TraceShape(st) && st.phase.Running?
    ensures TraceShape(SessionStep(parse, st, action))
  {
  }

  lemma {:induction false} EveryTrace(parse: string -> Option<Json>, actions: seq<Action>)
    ensures TraceShape(Bridge.Run(parse, actions))
  {
    if actions != [] {
      var before, last := actions[..|actions| - 1], actions[|actions| - 1];
      EveryTrace(parse, before);
      var st := Bridge.Run(parse, before);
      if st.phase.Booting? && last.Chunk? {
        BootKeepsTrace(parse, st, last.text);
      } else if st.phase.Running? {
        SessionKeepsTrace(parse, st, last);
      }
    }
  }

  // ---- the session ------------------------------------------------------------------------------------

  predicate HasStop(frames: seq<Json>) { exists i | 0 <= i < |frames| :: Classify(frames[i]).Stop? }

  predicate HasResult(events: seq<Event>) {
    exists i | 0 <= i < |events| :: events[i].SdkMessageEvent? && IsResult(events[i].message)
  }

  /** The texts of the user messages among the frames, in order. */
  function UserTexts(frames: seq<Json>): seq<Option<Json>> {
    if frames == [] then []
    else
      var last := Classify(frames[|frames| - 1]);
      UserTexts(frames[..|frames| - 1]) + if last.UserMessage? then [last.text] else []
  }

  function ToolIds(events: seq<Event>): seq<string> {
    if events == [] then []
    else
      var last := events[|events| - 1];
      ToolIds(events[..|events| - 1]) + if last.ToolCallRequest? then [last.id] else []
  }

  function QuestionIds(events: seq<Event>): seq<string> {
    if events == [] then []
    else
      var last := events[|events| - 1];
      QuestionIds(events[..|events| - 1]) + if last.QuestionRequest? then [last.id] else []
  }

  /** Everything that may reach the SDK as user input, in order. */
  function Inputs(s: Session, handled: seq<Json>): seq<Option<Json>> {
    [Field(s.options, "prompt")] + UserTexts(handled)
  }

  /** The part of the invariant that frames change. */
  ghost predicate FrameInvariant(s: Session, handled: seq<Json>, resultSeen: bool) {
    && (s.aborted <==> HasStop(handled))
    && (s.queue.closed <==> HasStop(handled) || resultSeen)
    && s.queue.yielded + s.queue.pending <= Inputs(s, handled)
    && (!s.queue.closed ==> s.queue.yielded + s.queue.pending == Inputs(s, handled))
    && NoLostWakeUp(s.queue)
    && Consistent(s.tools) && Consistent(s.questions)
  }

  ghost predicate SessionInvariant(s: Session, handled: seq<Json>, events: seq<Event>) {
    && FrameInvariant(s, handled, HasResult(events))
    && s.tools.created == ToolIds(events)
    && s.questions.created == QuestionIds(events)
  }

  /** What a frame adds to the SDK's input while that is open. */
  function NewInput(frame: Json): seq<Option<Json>> {
    match Classify(frame)
    case UserMessage(text) => [text]
    case _ => []
  }

  /** One more frame adds its stop, or its text, to what was handled. */
  lemma {:induction false} OneMoreFrame(s: Session, handled: seq<Json>, frame: Json)
    ensures HasStop(handled + [frame]) <==> HasStop(handled) || Classify(frame).Stop?
    ensures Inputs(s, handled + [frame]) ==
            Inputs(s, handled) + NewInput(frame)
  {
    var next := handled + [frame];
    assert next[..|next| - 1] == handled;
    if HasStop(handled) {
      var i :| 0 <= i < |handled| && Classify(handled[i]).Stop?;
      assert Classify(next[i]).Stop?;
    }
    assert Classify(next[|handled|]) == Classify(frame);
    assert UserTexts(next) == UserTexts(handled) + NewInput(frame);
  }

  lemma {:induction false} UserMessageKeeps(s: Session, handled: seq<Json>, resultSeen: bool, frame: Json)
    requires FrameInvariant(s, handled, resultSeen) && Classify(frame).UserMessage?
    ensures FrameInvariant(Handle(s, frame).0, handled + [frame], resultSeen)
  {
    var text := Classify(frame).text;
    OneMoreFrame(s, handled, frame);
    assert s.queue.yielded + (s.queue.pending + [text]) == s.queue.yielded + s.queue.pending + [text];
  }

  lemma {:induction false} StopKeeps(s: Session, handled: seq<Json>, resultSeen: bool, frame: Json)
    requires FrameInvariant(s, handled, resultSeen) && Classify(frame).Stop?
    ensures FrameInvariant(Handle(s, frame).0, handled + [frame], resultSeen)
  {
    OneMoreFrame(s, handled, frame);
    FailAllKeeps(s.tools, "session aborted");
    FailAllKeeps(s.questions, "session aborted");
  }

  lemma {:induction false} HandleKeeps(s: Session, handled: seq<Json>, resultSeen: bool, frame: Json)
    requires FrameInvariant(s, handled, resultSeen)
    ensures FrameInvariant(Handle(s, frame).0, handled + [frame], resultSeen)
    ensures Handle(s, frame).0.tools.created == s.tools.created
    ensures Handle(s, frame).0.questions.created == s.questions.created
  {
    OneMoreFrame(s, handled, frame);
    match Classify(frame)
    case UserMessage(_) => UserMessageKeeps(s, handled, resultSeen, frame);
    case Stop(_) => StopKeeps(s, handled, resultSeen, frame);
    case ToolCallResponse(id) =>
      if id.Some? { ResolveKeeps(s.tools, id.value, DecodeToolResponse(frame)); }
    case QuestionResponse(id) =>
      if id.Some? { ResolveKeeps(s.questions, id.value, DecodeResponse(frame)); }
    case _ =>
  }

  lemma {:induction false} HandleAllKeeps(s: Session, handled: seq<Json>, resultSeen: bool, frames: seq<Json>)
    requires FrameInvariant(s, handled, resultSeen)
    ensures
      var batch := HandleAll(s, frames);
      && FrameInvariant(batch.session, handled + batch.frames, resultSeen)
      && batch.session.tools.created == s.tools.created
      && batch.session.questions.created == s.questions.created
    decreases |frames|
  {
    if frames == [] {
      assert handled + [] == handled;
    } else {
      var (next, threw) := Handle(s, frames[0]);
      HandleKeeps(s, handled, resultSeen, frames[0]);
      if !threw {
        HandleAllKeeps(next, handled + [frames[0]], resultSeen, frames[1..]);
        var rest := HandleAll(next, frames[1..]);
        assert handled + ([frames[0]] + rest.frames) == handled + [frames[0]] + rest.frames;
      }
    }
  }

  /** The session of a state, if one was begun. */
  function SessionOf(st: State): Option<Session> {
    match st.phase
    case Booting(_) => None
    case Running(s, _) => Some(s)
    case Exited(_, last) => last
  }

  ghost predicate StateInvariant(st: State) {
    && (SessionOf(st).Some? ==> SessionInvariant(SessionOf(st).value, st.handled, st.events))
    && (st.phase.Exited? && st.phase.exit.Settled? && st.phase.last.Some? ==>
          AllSettled(st.phase.last.value.tools) && AllSettled(st.phase.last.value.questions))
    && (forall e | e in st.events ::
          && (e.Done? ==> !HasStop(st.handled))
          && (e.Aborted? ==> HasStop(st.handled))
          && (e.Fatal? && st.launched ==> !HasStop(st.handled)))
  }

  predicate AllSettled<T>(t: Table<T>) { forall id | id in t.created :: id in SettledIds(t) }

  lemma {:induction false} EventsGrow(events: seq<Event>, event: Event)
    ensures ToolIds(events + [event]) == ToolIds(events) + if event.ToolCallRequest? then [event.id] else []
    ensures QuestionIds(events + [event]) == QuestionIds(events) + if event.QuestionRequest? then [event.id] else []
    ensures HasResult(events + [event]) <==> HasResult(events) || (event.SdkMessageEvent? && IsResult(event.message))
  {
    var next := events + [event];
    assert next[..|next| - 1] == events;
    if HasResult(events) {
      var i :| 0 <= i < |events| && events[i].SdkMessageEvent? && IsResult(events[i].message);
      assert next[i] == events[i];
    }
    assert next[|events|] == event;
  }

  lemma {:induction false} FailRequestsKeeps(s: Session, handled: seq<Json>, events: seq<Event>, reason: string)
    requires SessionInvariant(s, handled, events)
    ensures
      var next := FailRequests(s, reason);
      SessionInvariant(next, handled, events) && AllSettled(next.tools) && AllSettled(next.questions)
  {
    FailAllKeeps(s.tools, reason);
    FailAllKeeps(s.questions, reason);
  }

  lemma {:induction false} FatalKeeps(st: State, handled: seq<Json>, error: string, last: Option<Session>)
    requires st.events == [ReadyEvent] && !st.launched
    requires last.Some? ==>
               FrameInvariant(last.value, handled, false) && last.value.tools.created == [] &&
                 last.value.questions.created == []
    ensures StateInvariant(Fail(st.(handled := handled), error, last))
  {
    EventsGrow([], ReadyEvent);
    EventsGrow([ReadyEvent], Fatal(error));
    assert [] + [ReadyEvent] == [ReadyEvent];
  }

  lemma {:induction false} FreshSession(s: Session, handled: seq<Json>)
    requires FrameInvariant(s, handled, false) && s.tools.created == [] && s.questions.created == []
    ensures SessionInvariant(s, handled, [ReadyEvent])
  {
    EventsGrow([], ReadyEvent);
    assert [] + [ReadyEvent] == [ReadyEvent];
  }

  lemma {:induction false} SeedKeeps(parse: string -> Option<Json>, st: State, s: Session, partial: string)
    requires st.events == [ReadyEvent] && !st.launched
    requires FrameInvariant(s, st.handled, false) && s.tools.created == [] && s.questions.created == []
    ensures StateInvariant(Seed(parse, st, s, partial))
  {
    if partial == "" {
      FreshSession(s, st.handled);
    } else {
      var seeded := HandleAll(s, Finished(parse, "", partial));
      HandleAllKeeps(s, st.handled, false, Finished(parse, "", partial));
      if seeded.threw {
        FatalKeeps(st, st.handled + seeded.frames, "replay failed", Some(seeded.session));
      } else {
        FreshSession(seeded.session, st.handled + seeded.frames);
      }
    }
  }

  lemma {:induction false} LaunchKeeps(parse: string -> Option<Json>, st: State, options: Option<Json>,
                                       carried: seq<Json>, partial: string)
    requires st.phase.Booting? && st.events == [ReadyEvent] && st.handled == [] && !st.launched
    ensures StateInvariant(Launch(parse, st, options, carried, partial))
  {
    if Usable(options) {
      var s0 := NewSession(options.value);
      var replay := HandleAll(s0, carried);
      HandleAllKeeps(s0, [], false, carried);
      assert [] + replay.frames == replay.frames;
      if replay.threw {
        FatalKeeps(st, replay.frames, "replay failed", Some(replay.session));
      } else {
        SeedKeeps(parse, st.(handled := replay.frames), replay.session, partial);
      }
    } else {
      FatalKeeps(st, [], "options have no prompt", None);
    }
  }

  lemma {:induction false} FinishKeeps(st: State, event: Event)
    requires StateInvariant(st) && st.phase.Running? && TraceShape(st)
    requires event.Done? || event.Aborted? || event.Fatal?
    requires event.Aborted? <==> st.phase.session.aborted
    ensures StateInvariant(Finish(st, event))
  {
    EventsGrow(st.events, event);
    FailRequestsKeeps(st.phase.session, st.handled, st.events, "session ended");
  }

  lemma {:induction false} EndKeeps(st: State, error: string)
    requires StateInvariant(st) && TraceShape(st) && st.phase.Running?
    ensures StateInvariant(SessionStep(_ => None, st, SdkEnd))
    ensures StateInvariant(SessionStep(_ => None, st, SdkThrow(error)))
  {
    if st.phase.session.aborted {
      FinishKeeps(st, Aborted(LastSessionId(st.events)));
    } else {
      FinishKeeps(st, Done(LastSessionId(st.events)));
      FinishKeeps(st, Fatal(error));
    }
  }

  /** A step of the running session that emits a plain event, or none, and changes no frame log. */
  lemma {:induction false} EmitKeeps(st: State, event: Event, next: Session)
    requires StateInvariant(st) && TraceShape(st) && st.phase.Running? && !Terminal(event)
    requires SessionInvariant(next, st.handled, st.events + [event])
    ensures StateInvariant(Emit(st, event).(phase := st.phase.(session := next)))
  {
  }

  lemma {:induction false} SdkMessageKeeps(st: State, message: Json)
    requires StateInvariant(st) && TraceShape(st) && st.phase.Running?
    ensures StateInvariant(SessionStep(_ => None, st, SdkMessage(message)))
  {
    var s := st.phase.session;
    EventsGrow(st.events, SdkMessageEvent(message));
    EmitKeeps(st, SdkMessageEvent(message), if IsResult(message) then s.(queue := AfterClose(s.queue)) else s);
  }

  lemma {:induction false} ToolCallKeeps(st: State, uuid: string, name: string, args: Json)
    requires StateInvariant(st) && TraceShape(st) && st.phase.Running?
    ensures StateInvariant(SessionStep(_ => None, st, ToolCall(uuid, name, args)))
  {
    var s := st.phase.session;
    var event := ToolCallRequest(NextId(s.tools, uuid), name, args);
    EventsGrow(st.events, event);
    CreateKeeps(s.tools, uuid);
    EmitKeeps(st, event, s.(tools := AfterCreate(s.tools, uuid)));
  }

  lemma {:induction false} QuestionKeeps(st: State, uuid: string, name: string, input: Json)
    requires StateInvariant(st) && TraceShape(st) && st.phase.Running?
    ensures StateInvariant(SessionStep(_ => None, st, CanUseTool(uuid, name, input)))
  {
    var s := st.phase.session;
    var event := QuestionRequest(NextId(s.questions, uuid), Sanitize(OrNull(Field(input, "questions"))));
    EventsGrow(st.events, event);
    CreateKeeps(s.questions, uuid);
    EmitKeeps(st, event, s.(questions := AfterCreate(s.questions, uuid)));
  }

  /** Frames change the session and the frame log, never the events. */
  lemma {:induction false} FramesKeep(st: State, batch: Handled, phase: Phase)
    requires StateInvariant(st) && TraceShape(st) && st.phase.Running?
    requires SessionInvariant(batch.session, st.handled + batch.frames, st.events)
    requires phase == Exited(Uncaught, Some(batch.session)) || (phase.Running? && phase.session == batch.session)
    ensures StateInvariant(st.(handled := st.handled + batch.frames, phase := phase))
  {
  }

  lemma {:induction false} ChunkKeeps(parse: string -> Option<Json>, st: State, text: string)
    requires StateInvariant(st) && TraceShape(st) && st.phase.Running?
    ensures StateInvariant(SessionChunk(parse, st, text))
  {
    var batch := HandleAll(st.phase.session, Finished(parse, st.phase.buffer, text));
    HandleAllKeeps(st.phase.session, st.handled, HasResult(st.events), Finished(parse, st.phase.buffer, text));
    FramesKeep(st, batch, SessionChunk(parse, st, text).phase);
  }

  lemma {:induction false} ResumeKeeps<T>(q: Queue<T>)
    requires NoLostWakeUp(q)
    ensures NoLostWakeUp(AfterResume(q)) && AfterResume(q).closed == q.closed
    ensures AfterResume(q).yielded + AfterResume(q).pending == q.yielded + q.pending
  {
    if CanResume(q.consumer) && q.pending != [] { assert q.pending == [q.pending[0]] + q.pending[1..]; }
  }

  lemma {:induction false} PullKeeps(st: State)
    requires StateInvariant(st) && TraceShape(st) && st.phase.Running?
    ensures StateInvariant(SessionStep(_ => None, st, SdkPull))
  {
    ResumeKeeps(st.phase.session.queue);
  }

  lemma {:induction false} HeartbeatKeeps(st: State)
    requires StateInvariant(st) && TraceShape(st) && st.phase.Running?
    ensures StateInvariant(SessionStep(_ => None, st, HeartbeatTick))
  {
    EventsGrow(st.events, Heartbeat);
    EmitKeeps(st, Heartbeat, st.phase.session);
  }

  lemma {:induction false} SessionKeeps(parse: string -> Option<Json>, st: State, action: Action)
    requires StateInvariant(st) && TraceShape(st) && st.phase.Running?
    ensures StateInvariant(SessionStep(parse, st, action))
  {
    match action
    case Chunk(text) => ChunkKeeps(parse, st, text);
    case SdkMessage(message) => SdkMessageKeeps(st, message);
    case SdkPull => PullKeeps(st);
    case SdkEnd => EndKeeps(st, "");
    case SdkThrow(error) => EndKeeps(st, error);
    case ToolCall(uuid, toolName, args) => ToolCallKeeps(st, uuid, toolName, args);
    case CanUseTool(uuid, toolName, input) => QuestionKeeps(st, uuid, toolName, input);
    case HeartbeatTick => HeartbeatKeeps(st);
    case StdinEnd =>
  }

  lemma {:induction false} BootKeeps(parse: string -> Option<Json>, st: State, text: string)
    requires StateInvariant(st) && TraceShape(st) && st.phase.Booting?
    ensures StateInvariant(BootChunk(parse, st, text))
  {
    match ScanStart(Finished(parse, st.phase.buffer, text))
    case Begin(options, rest) => LaunchKeeps(parse, st, options, rest, Kept(st.phase.buffer, text));
    case Refused(name) => FatalKeeps(st, [], name + " before start", None);
    case _ =>
  }

  /** The invariant of every reachable state, whatever the host, the SDK and the cuts of the stream do. */
  lemma {:induction false} EveryState(parse: string -> Option<Json>, actions: seq<Action>)
    ensures StateInvariant(Bridge.Run(parse, actions))
  {
    if actions != [] {
      var before, last := actions[..|actions| - 1], actions[|actions| - 1];
      EveryState(parse, before);
      EveryTrace(parse, before);
      var st := Bridge.Run(parse, before);
      if st.phase.Booting? && last.Chunk? {
        BootKeeps(parse, st, last.text);
      } else if st.phase.Running? {
        SessionKeeps(parse, st, last);
      }
    }
  }

  /** A step takes no event back. */
  lemma {:induction false} EventsOnlyGrow(parse: string -> Option<Json>, st: State, action: Action)
    ensures st.events <= Bridge.Step(parse, st, action).events
  {
  }
}
