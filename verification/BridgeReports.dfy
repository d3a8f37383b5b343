/** What the host is told, and when. */
module BridgeReports {
  import opened JsonValues
  import opened JsonLines
  import opened HostRequests
  import opened Questions
  import opened Bridge
  import opened BridgeProofs
  import opened BridgeFraming
  import opened BridgeStream
  import opened BridgeInputs

  // ---- commands, by their type ------------------------------------------------------------------------

  predicate HasType(frame: Json, name: string) { Field(frame, "type") == Some(Str(name)) }

  predicate StopsTurn(frame: Json) { HasType(frame, "interrupt") || HasType(frame, "shutdown") }

  lemma {:induction false} TypesDiffer()
    ensures forall i, j | 0 <= i < j < |TYPES| :: TYPES[i] != TYPES[j]
  {
    assert |"start"| == 5 && |"interrupt"| == 9 && |"shutdown"| == 8 && |"user_message"| == 12;
    assert |"tool_call_response"| == 18 && |"question_response"| == 17;
  }

  const TYPES := ["start", "interrupt", "shutdown", "user_message", "tool_call_response", "question_response"]

  lemma {:induction false} CommandsByType(frame: Json)
    ensures Classify(frame).Stop? <==> StopsTurn(frame)
    ensures Classify(frame).Start? <==> HasType(frame, "start")
    ensures Classify(frame).UserMessage? <==> HasType(frame, "user_message")
    ensures Classify(frame).ToolCallResponse? <==> HasType(frame, "tool_call_response")
    ensures Classify(frame).QuestionResponse? <==> HasType(frame, "question_response")
    ensures Classify(frame).NotAnObject? <==> !frame.Obj? && !frame.Arr?
    ensures Classify(frame).Start? ==> Classify(frame).options == Field(frame, "options")
    ensures Classify(frame).UserMessage? ==> Classify(frame).text == Field(frame, "text")
    ensures Classify(frame).Stop? ==> HasType(frame, Classify(frame).name)
  {
    TypesDiffer();
  }

  lemma {:induction false} StopsByType(frames: seq<Json>)
    ensures HasStop(frames) <==> exists f | f in frames :: StopsTurn(f)
  {
    if HasStop(frames) {
      var i :| 0 <= i < |frames| && Classify(frames[i]).Stop?;
      CommandsByType(frames[i]);
      assert frames[i] in frames;
    }
    forall f | f in frames && StopsTurn(f) ensures HasStop(frames) {
      CommandsByType(f);
      var i :| 0 <= i < |frames| && frames[i] == f;
    }
  }

  // ---- how a session ends ----------------------------------------------------------------------------

  predicate Names(event: Event, id: Option<Json>) {
    event.SdkMessageEvent? && Truthy(id) && Field(event.message, "session_id") == id
  }

  predicate NamesSome(event: Event) { event.SdkMessageEvent? && Truthy(Field(event.message, "session_id")) }

  /** The session id the SDK last named, if it named one. */
  predicate LastNamed(events: seq<Event>, id: Option<Json>) {
    if id.None? then forall i | 0 <= i < |events| :: !NamesSome(events[i])
    else exists i | 0 <= i < |events| :: Names(events[i], id) && forall j | i < j < |events| :: !NamesSome(events[j])
  }

  lemma {:induction false} LastSessionIdIsLastNamed(events: seq<Event>)
    ensures LastNamed(events, LastSessionId(events))
  {
    if events != [] {
      var before, last := events[..|events| - 1], events[|events| - 1];
      var id := LastSessionId(before);
      LastSessionIdIsLastNamed(before);
      if NamesSome(last) {
        assert Names(events[|events| - 1], LastSessionId(events));
      } else if id.Some? {
        var i :| 0 <= i < |before| && Names(before[i], id) && forall j | i < j < |before| :: !NamesSome(before[j]);
        assert Names(events[i], id);
        assert forall j | i < j < |before| :: events[j] == before[j];
      } else {
        assert forall j | 0 <= j < |before| :: events[j] == before[j];
      }
    }
  }

  lemma {:induction false} RunOneMore(parse: string -> Option<Json>, actions: seq<Action>, action: Action)
    ensures Bridge.Run(parse, actions + [action]) == Bridge.Step(parse, Bridge.Run(parse, actions), action)
  {
    assert (actions + [action])[..|actions|] == actions;
  }

  /**
   From any reachable running state: the end of the SDK stream adds exactly `done`, and a throw
   of the SDK exactly `fatal` with that error, unless an interrupt or a shutdown was handled;
   then either adds exactly `aborted`. `done` and `aborted` name the session the SDK last named.
   */
  lemma {:induction false} EndIsReported(parse: string -> Option<Json>, actions: seq<Action>, error: string)
    requires Bridge.Run(parse, actions).phase.Running?
    ensures
      var st := Bridge.Run(parse, actions);
      var ended, threw := Bridge.Run(parse, actions + [SdkEnd]), Bridge.Run(parse, actions + [SdkThrow(error)]);
      var stopped := exists f | f in st.handled :: StopsTurn(f);
      exists id :: LastNamed(st.events, id)
        && ended.events == st.events + [if stopped then Aborted(id) else Done(id)]
        && threw.events == st.events + [if stopped then Aborted(id) else Fatal(error)]
  {
    var st := Bridge.Run(parse, actions);
    EveryState(parse, actions);
    StopsByType(st.handled);
    LastSessionIdIsLastNamed(st.events);
    RunOneMore(parse, actions, SdkEnd);
    RunOneMore(parse, actions, SdkThrow(error));
  }

  // ---- what a running session tells ----------------------------------------------------------------------

  /** The event a step of the running session other than its end must add, given the id of a new request. */
  predicate Told(action: Action, id: string, events: seq<Event>) {
    match action
    case SdkMessage(message) => events == [SdkMessageEvent(message)]
    case ToolCall(_, name, args) => events == [ToolCallRequest(id, name, args)]
    case CanUseTool(_, name, input) =>
      if name == "AskUserQuestion" then events == [QuestionRequest(id, Sanitize(OrNull(Field(input, "questions"))))]
      else events == []
    case HeartbeatTick => events == [Heartbeat]
    case _ => events == []
  }

  /** Every other step tells the host exactly what it brought, and nothing else; a new request waits under its id. */
  lemma {:induction false} StepsAreReported(parse: string -> Option<Json>, actions: seq<Action>, action: Action)
    requires Bridge.Run(parse, actions).phase.Running? && !action.SdkEnd? && !action.SdkThrow?
    ensures
      var st, next := Bridge.Run(parse, actions), Bridge.Run(parse, actions + [action]);
      && st.events <= next.events && SessionOf(next).Some?
      && exists id :: Told(action, id, next.events[|st.events|..])
           && (action.ToolCall? ==> id in SessionOf(next).value.tools.pending)
           && (action.CanUseTool? && action.toolName == "AskUserQuestion" ==>
                 id in SessionOf(next).value.questions.pending)
  {
    var st := Bridge.Run(parse, actions);
    var s := st.phase.session;
    RunOneMore(parse, actions, action);
    var next := SessionStep(parse, st, action);
    var id :=
      if action.ToolCall? then NextId(s.tools, action.uuid)
      else if action.CanUseTool? then NextId(s.questions, action.uuid)
      else "";
    assert Told(action, id, next.events[|st.events|..]);
  }

  /** The turn's result closes the input, and no other message does. */
  lemma {:induction false} ResultClosesInput(parse: string -> Option<Json>, actions: seq<Action>, message: Json)
    requires Bridge.Run(parse, actions).phase.Running?
    ensures
      var st, next := Bridge.Run(parse, actions), Bridge.Run(parse, actions + [SdkMessage(message)]);
      && next.phase.Running?
      && (next.phase.session.queue.closed <==> st.phase.session.queue.closed || HasType(message, "result"))
  {
    RunOneMore(parse, actions, SdkMessage(message));
  }

  /** The messages of the SDK that arrive while the session runs. */
  function Received(parse: string -> Option<Json>, actions: seq<Action>): seq<Json> {
    if actions == [] then []
    else
      var before, last := actions[..|actions| - 1], actions[|actions| - 1];
      Received(parse, before) +
      if last.SdkMessage? && Bridge.Run(parse, before).phase.Running? then [last.message] else []
  }

  function Forwarded(events: seq<Event>): seq<Json> {
    if events == [] then []
    else
      var last := events[|events| - 1];
      Forwarded(events[..|events| - 1]) + if last.SdkMessageEvent? then [last.message] else []
  }

  lemma {:induction false} ForwardedOneMore(events: seq<Event>, event: Event)
    ensures Forwarded(events + [event]) == Forwarded(events) + if event.SdkMessageEvent? then [event.message] else []
  {
    assert (events + [event])[..|events|] == events;
  }

  /** Over every run the host gets exactly the SDK messages that arrive while the session runs, in order. */
  lemma {:induction false} MessagesAreForwarded(parse: string -> Option<Json>, actions: seq<Action>)
    ensures Forwarded(Bridge.Run(parse, actions).events) == Received(parse, actions)
  {
    if actions == [] {
      assert Forwarded([]) == [] && [ReadyEvent][..0] == [];
    } else {
      var before, last := actions[..|actions| - 1], actions[|actions| - 1];
      MessagesAreForwarded(parse, before);
      StepForwards(parse, Bridge.Run(parse, before), last);
    }
  }

  lemma {:induction false} StepForwards(parse: string -> Option<Json>, st: State, action: Action)
    ensures Forwarded(Bridge.Step(parse, st, action).events) ==
            Forwarded(st.events) + if action.SdkMessage? && st.phase.Running? then [action.message] else []
  {
    var next := Bridge.Step(parse, st, action).events;
    if next != st.events {
      OneEventMore(parse, st, action);
      ForwardedOneMore(st.events, next[|st.events|]);
    }
  }

  lemma {:induction false} OneEventMore(parse: string -> Option<Json>, st: State, action: Action)
    requires Bridge.Step(parse, st, action).events != st.events
    ensures
      var next := Bridge.Step(parse, st, action).events;
      && |next| == |st.events| + 1 && next == st.events + [next[|st.events|]]
      && (next[|st.events|].SdkMessageEvent? <==> action.SdkMessage?)
      && (action.SdkMessage? ==> st.phase.Running? && next[|st.events|].message == action.message)
  {
  }

  // ---- how a session begins ---------------------------------------------------------------------------

  lemma {:induction false} HandleAllKeepsOptions(s: Session, frames: seq<Json>)
    ensures HandleAll(s, frames).session.options == s.options
    decreases |frames|
  {
    if frames != [] && !Handle(s, frames[0]).1 { HandleAllKeepsOptions(Handle(s, frames[0]).0, frames[1..]); }
  }

  predicate OptionsFrom(st: State, frames: seq<Json>) {
    st.launched ==>
      && SessionOf(st).Some? && Verdict(frames).Some?
      && Classify(Verdict(frames).value) == Start(Some(SessionOf(st).value.options))
  }

  lemma {:induction false} LaunchKeepsOptions(parse: string -> Option<Json>, st: State, options: Option<Json>,
                                              carried: seq<Json>, partial: string)
    requires !st.launched
    ensures
      var next := Launch(parse, st, options, carried, partial);
      next.launched ==> SessionOf(next).Some? && options == Some(SessionOf(next).value.options)
  {
    if Usable(options) {
      var replay := HandleAll(NewSession(options.value), carried).session;
      HandleAllKeepsOptions(NewSession(options.value), carried);
      HandleAllKeepsOptions(replay, Finished(parse, "", partial));
    }
  }

  lemma {:induction false} StepKeepsOptions(parse: string -> Option<Json>, st: State, action: Action)
    requires st.phase.Running? || st.phase.Exited?
    ensures
      var next := Bridge.Step(parse, st, action);
      && next.launched == st.launched
      && (SessionOf(st).Some? ==> SessionOf(next).Some? && SessionOf(next).value.options == SessionOf(st).value.options)
  {
    if st.phase.Running? && action.Chunk? {
      HandleAllKeepsOptions(st.phase.session, Finished(parse, st.phase.buffer, action.text));
    }
  }

  lemma {:induction false} BootKeepsOptions(parse: string -> Option<Json>, st: State, frames: seq<Json>, text: string)
    requires st.phase.Booting? && !st.launched && Verdict(frames).None?
    ensures OptionsFrom(BootChunk(parse, st, text), frames + Finished(parse, st.phase.buffer, text))
  {
    var more := Finished(parse, st.phase.buffer, text);
    VerdictStands(frames, more);
    ScanFindsVerdict(more);
    match ScanStart(more)
    case Begin(options, rest) => LaunchKeepsOptions(parse, st, options, rest, Kept(st.phase.buffer, text));
    case _ =>
  }

  lemma {:induction false} OptionsInStream(parse: string -> Option<Json>, actions: seq<Action>)
    requires StreamWithinCap(actions)
    ensures OptionsFrom(Bridge.Run(parse, actions), StreamFrames(parse, actions))
  {
    if actions != [] {
      var before, last := actions[..|actions| - 1], actions[|actions| - 1];
      var st := Bridge.Run(parse, before);
      assert before + [last] == actions;
      forall n | 0 <= n <= |before| ensures |Unfinished(before[..n])| <= MAX_PARTIAL_LINE_CHARS {
        assert before[..n] == actions[..n];
      }
      OptionsInStream(parse, before);
      StateInStream(parse, before);
      if last.Chunk? { ChunkExtendsStream(parse, before, last.text); }
      if st.phase.Booting? {
        if last.Chunk? { BootKeepsOptions(parse, st, StreamFrames(parse, before), last.text); }
      } else {
        StepKeepsOptions(parse, st, last);
        if last.Chunk? {
          VerdictStands(StreamFrames(parse, before), Finished(parse, Unfinished(before), last.text));
        } else {
          assert Chunks(actions) == Chunks(before);
        }
      }
    }
  }

  /** A launched session runs with the options of the first `start` frame, and its prompt is the SDK's first input. */
  lemma {:induction false} SessionComesFromStart(parse: string -> Option<Json>, actions: seq<Action>)
    requires StreamWithinCap(actions) && Bridge.Run(parse, actions).launched
    ensures
      var st, frames := Bridge.Run(parse, actions), StreamFrames(parse, actions);
      && SessionOf(st).Some? && Verdict(frames).Some?
      && HasType(Verdict(frames).value, "start")
      && Field(Verdict(frames).value, "options") == Some(SessionOf(st).value.options)
      && Fed(SessionOf(st).value) != []
      && Fed(SessionOf(st).value)[0] == Field(SessionOf(st).value.options, "prompt")
  {
    OptionsInStream(parse, actions);
    CommandsByType(Verdict(StreamFrames(parse, actions)).value);
    InputsArriveInOrder(parse, actions);
  }

  /** An interrupt or shutdown ahead of any start is answered by `fatal` naming it, and launches nothing. */
  lemma {:induction false} StopRefusesStart(parse: string -> Option<Json>, st: State, text: string)
    requires st.phase.Booting?
    requires
      var more := Finished(parse, st.phase.buffer, text);
      TagsPrint(BeforeVerdict(more)) && Verdict(more).Some? && StopsTurn(Verdict(more).value)
    ensures
      var more := Finished(parse, st.phase.buffer, text);
      var next := BootChunk(parse, st, text);
      && next.events == st.events + [Fatal(Field(Verdict(more).value, "type").value.s + " before start")]
      && next.launched == st.launched && next.phase == Exited(Settled, None)
  {
    var more := Finished(parse, st.phase.buffer, text);
    CommandsByType(Verdict(more).value);
    ScanFindsVerdict(more);
    ScanThrowsExactly(more);
  }

  /** A frame behind the start that throws while it is replayed is answered by `fatal`, and launches nothing. */
  lemma {:induction false} ReplayFailureIsReported(parse: string -> Option<Json>, st: State, text: string)
    requires st.phase.Booting? && !st.launched
    requires
      var more := Finished(parse, st.phase.buffer, text);
      && TagsPrint(BeforeVerdict(more)) && StartsFirst(more)
      && exists i :: 0 <= i < |AfterStart(more)| && ThrowsAt(false, AfterStart(more), i)
    ensures
      var next := BootChunk(parse, st, text);
      && next.phase.Exited? && next.phase.exit.Settled? && !next.launched
      && |next.events| == |st.events| + 1 && st.events <= next.events && next.events[|st.events|].Fatal?
  {
    var more := Finished(parse, st.phase.buffer, text);
    ChunkLaunchesExactly(parse, st, text);
    ScanFindsVerdict(more);
    ScanThrowsExactly(more);
  }
}
