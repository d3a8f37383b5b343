/**
 The sandbox bridge as a step system: one process, one turn. Every step is one macrotask of
 the event loop: a chunk on stdin, a message from the SDK, the SDK pulling its input, a tool
 or question call, a heartbeat, the end of the SDK stream or of stdin.
 */
module Bridge {
  import opened JsonValues
  import opened JsonLines
  import opened MessageQueue
  import opened HostRequests
  import opened Questions

  // ---- commands ---------------------------------------------------------------------------------

  datatype Command =
    | NotAnObject
    | Start(options: Option<Json>)
    | Stop(name: string)
    | UserMessage(text: Option<Json>)
    | ToolCallResponse(id: Option<string>)
    | QuestionResponse(id: Option<string>)
    | Unexpected(tag: Option<Json>)

  /** How a parsed frame is dispatched. An array is an object without a `type`. */
  function Classify(frame: Json): Command {
    if !frame.Obj? && !frame.Arr? then NotAnObject
    else match Field(frame, "type")
         case Some(Str("start")) => Start(Field(frame, "options"))
         case Some(Str("interrupt")) => Stop("interrupt")
         case Some(Str("shutdown")) => Stop("shutdown")
         case Some(Str("user_message")) => UserMessage(Field(frame, "text"))
         case Some(Str("tool_call_response")) => ToolCallResponse(StringOf(Field(frame, "id")))
         case Some(Str("question_response")) => QuestionResponse(StringOf(Field(frame, "id")))
         case t => Unexpected(t)
  }

  /** Whether `${value}` yields a text: an object with its own `toString` entry has none. */
  predicate Printable(value: Json) {
    match value
    case Obj(fields) => "toString" !in fields
    case Arr(items) => forall x | x in items :: Printable(x)
    case _ => true
  }

  /** Whether `${value.slice(0, 200)}` yields a text: strings and arrays have `slice`. */
  predicate Sliceable(value: Option<Json>) {
    value.Some? && (value.value.Str? || (value.value.Arr? &&
      var items := value.value.items;
      forall i | 0 <= i < |items| && i < 200 :: Printable(items[i])))
  }

  predicate TagPrintable(tag: Option<Json>) { tag.Some? ==> Printable(tag.value) }

  // ---- the session ----------------------------------------------------------------------------------

  datatype ToolResolution = ToolResolution(result: Option<string>, error: Option<string>)

  function DecodeToolResponse(frame: Json): ToolResolution {
    ToolResolution(StringOf(Field(frame, "result")), StringOf(Field(frame, "error")))
  }

  datatype ToolResult = ToolResult(text: string, isError: bool)

  /** What the tool handler returns to the SDK once its request settles. */
  function ToolOutcome(outcome: Settlement<ToolResolution>): ToolResult {
    match outcome
    case Failed(reason) => ToolResult("Tool call failed: " + reason, true)
    case Resolved(r) =>
      if r.error.Some? then ToolResult(r.error.value, true)
      else ToolResult(if r.result.Some? then r.result.value else "", false)
  }

  datatype Session = Session(
    options: Json,
    queue: Queue<Option<Json>>,
    tools: Table<ToolResolution>,
    questions: Table<QuestionResolution>,
    aborted: bool)

  function NewSession(options: Json): Session {
    Session(options, AfterPush(EmptyQueue(), Field(options, "prompt")), EmptyTable("tool"), EmptyTable("question"),
      false)
  }

  function FailRequests(s: Session, reason: string): Session {
    s.(tools := AfterFailAll(s.tools, reason), questions := AfterFailAll(s.questions, reason))
  }

  /** handleCommand: the new session, and whether the call threw. */
  function Handle(s: Session, frame: Json): (Session, bool) {
    match Classify(frame)
    case NotAnObject => (s, false)
    case Stop(_) => (FailRequests(s.(aborted := true, queue := AfterClose(s.queue)), "session aborted"), false)
    case UserMessage(text) =>
      // Reporting a dropped message reads its first 200 characters.
      if s.queue.closed then (s, !Sliceable(text)) else (s.(queue := AfterPush(s.queue, text)), false)
    case ToolCallResponse(id) =>
      (if id.Some? then s.(tools := AfterResolve(s.tools, id.value, DecodeToolResponse(frame))) else s, false)
    case QuestionResponse(id) =>
      (if id.Some? then s.(questions := AfterResolve(s.questions, id.value, DecodeResponse(frame))) else s, false)
    case Start(_) => (s, false)
    case Unexpected(tag) => (s, !TagPrintable(tag))
  }

  datatype Handled = Handled(session: Session, frames: seq<Json>, threw: bool)

  /** The loop over a batch of frames; a throw ends it, with the throwing frame as the last one handled. */
  function HandleAll(s: Session, frames: seq<Json>): Handled
    decreases |frames|
  {
    if frames == [] then Handled(s, [], false)
    else
      var (next, threw) := Handle(s, frames[0]);
      if threw then Handled(next, [frames[0]], true)
      else
        var rest := HandleAll(next, frames[1..]);
        rest.(frames := [frames[0]] + rest.frames)
  }

  // ---- the process -----------------------------------------------------------------------------------

  datatype Event =
    | ReadyEvent
    | SdkMessageEvent(message: Json)
    | ToolCallRequest(id: string, toolName: string, args: Json)
    | QuestionRequest(id: string, questions: seq<Json>)
    | Heartbeat
    | Done(sessionId: Option<Json>)
    | Aborted(sessionId: Option<Json>)
    | Fatal(error: string)

  /** How the process ended: after main settled, by an uncaught exception, or with its stdin. */
  datatype Exit = Settled | Uncaught | StdinEnded

  datatype Phase =
    | Booting(buffer: string)
    | Running(session: Session, buffer: string)
    | Exited(exit: Exit, last: Option<Session>)

  /** `handled` and `launched` record the calls of handleCommand and of the SDK query. */
  datatype State = State(phase: Phase, events: seq<Event>, handled: seq<Json>, launched: bool)

  datatype Action =
    | Chunk(text: string)
    | StdinEnd
    | SdkMessage(message: Json)
    | SdkPull
    | SdkEnd
    | SdkThrow(error: string)
    | ToolCall(uuid: string, toolName: string, args: Json)
    | CanUseTool(uuid: string, toolName: string, input: Json)
    | HeartbeatTick

  const BOOTED := State(Booting(""), [ReadyEvent], [], false)

  /** What one chunk means before the session: the loop over its frames. */
  datatype Scan = Waiting | Begin(options: Option<Json>, rest: seq<Json>) | Refused(name: string) | Threw

  function ScanStart(frames: seq<Json>): Scan
    decreases |frames|
  {
    if frames == [] then Waiting
    else match Classify(frames[0])
         case Start(options) => Begin(options, frames[1..])
         case Stop(name) => Refused(name)
         case Unexpected(tag) => if TagPrintable(tag) then ScanStart(frames[1..]) else Threw
         case _ => ScanStart(frames[1..])
  }

  /** Reading `options.prompt` needs options that are neither missing nor null. */
  predicate Usable(options: Option<Json>) { options.Some? && !options.value.Null? }

  function Emit(st: State, event: Event): State { st.(events := st.events + [event]) }

  /** main's catch handler. */
  function Fail(st: State, error: string, last: Option<Session>): State {
    Emit(st, Fatal(error)).(phase := Exited(Settled, last))
  }

  /** runSession up to the query: the frames carried over from the handshake are replayed first. */
  function Launch(parse: string -> Option<Json>, st: State, options: Option<Json>, carried: seq<Json>,
                  partial: string): State {
    if !Usable(options) then Fail(st, "options have no prompt", None)
    else
      var replay := HandleAll(NewSession(options.value), carried);
      var replayed := st.(handled := replay.frames);
      if replay.threw then Fail(replayed, "replay failed", Some(replay.session))
      else Seed(parse, replayed, replay.session, partial)
  }

  /** Then the handshake parser's unfinished line is pushed into the session's own parser. */
  function Seed(parse: string -> Option<Json>, st: State, s: Session, partial: string): State {
    if partial == "" then st.(phase := Running(s, ""), launched := true)
    else
      var seeded := HandleAll(s, Finished(parse, "", partial));
      var handled := st.handled + seeded.frames;
      if seeded.threw then Fail(st.(handled := handled), "replay failed", Some(seeded.session))
      else st.(phase := Running(seeded.session, Kept("", partial)), handled := handled, launched := true)
  }

  function BootChunk(parse: string -> Option<Json>, st: State, text: string): State
    requires st.phase.Booting?
  {
    var kept := Kept(st.phase.buffer, text);
    match ScanStart(Finished(parse, st.phase.buffer, text))
    case Waiting => st.(phase := Booting(kept))
    case Begin(options, rest) => Launch(parse, st, options, rest, kept)
    case Refused(name) => Fail(st, name + " before start", None)
    case Threw => st.(phase := Exited(Uncaught, None))
  }

  function SessionChunk(parse: string -> Option<Json>, st: State, text: string): State
    requires st.phase.Running?
  {
    var batch := HandleAll(st.phase.session, Finished(parse, st.phase.buffer, text));
    st.(handled := st.handled + batch.frames,
        phase := if batch.threw then Exited(Uncaught, Some(batch.session))
                 else Running(batch.session, Kept(st.phase.buffer, text)))
  }

  predicate IsResult(message: Json) { Field(message, "type") == Some(Str("result")) }

  /** The id a terminal event reports: that of the last SDK message carrying a truthy one. */
  function LastSessionId(events: seq<Event>): Option<Json> {
    if events == [] then None
    else
      var last := events[|events| - 1];
      if last.SdkMessageEvent? && Truthy(Field(last.message, "session_id")) then Field(last.message, "session_id")
      else LastSessionId(events[..|events| - 1])
  }

  /** The end of runSession: the terminal event, then its finally block. */
  function Finish(st: State, event: Event): State
    requires st.phase.Running?
  {
    Emit(st, event).(phase := Exited(Settled, Some(FailRequests(st.phase.session, "session ended"))))
  }

  const ASK_USER_QUESTION_TOOL := "AskUserQuestion"

  function SessionStep(parse: string -> Option<Json>, st: State, action: Action): State
    requires st.phase.Running?
  {
    var s := st.phase.session;
    match action
    case Chunk(text) => SessionChunk(parse, st, text)
    case StdinEnd => st.(phase := Exited(StdinEnded, Some(s)))
    case SdkMessage(message) =>
      Emit(st, SdkMessageEvent(message)).(phase := st.phase.(session :=
        if IsResult(message) then s.(queue := AfterClose(s.queue)) else s))
    case SdkPull => st.(phase := st.phase.(session := s.(queue := AfterResume(s.queue))))
    case SdkEnd =>
      Finish(st, if s.aborted then Aborted(LastSessionId(st.events)) else Done(LastSessionId(st.events)))
    case SdkThrow(error) =>
      Finish(st, if s.aborted then Aborted(LastSessionId(st.events)) else Fatal(error))
    case ToolCall(uuid, toolName, args) =>
      Emit(st, ToolCallRequest(NextId(s.tools, uuid), toolName, args))
        .(phase := st.phase.(session := s.(tools := AfterCreate(s.tools, uuid))))
    case CanUseTool(uuid, toolName, input) =>
      if toolName != ASK_USER_QUESTION_TOOL then st
      else
        Emit(st, QuestionRequest(NextId(s.questions, uuid), Sanitize(OrNull(Field(input, "questions")))))
          .(phase := st.phase.(session := s.(questions := AfterCreate(s.questions, uuid))))
    case HeartbeatTick => Emit(st, Heartbeat)
  }

  function OrNull(value: Option<Json>): Json { if value.Some? then value.value else Null }

  function Step(parse: string -> Option<Json>, st: State, action: Action): State {
    match st.phase
    case Exited(_, _) => st
    case Booting(_) =>
      if action.Chunk? then BootChunk(parse, st, action.text)
      else if action.StdinEnd? then st.(phase := Exited(StdinEnded, None))
      else st
    case Running(_, _) => SessionStep(parse, st, action)
  }

  function Run(parse: string -> Option<Json>, actions: seq<Action>): State {
    if actions == [] then BOOTED
    else Step(parse, Run(parse, actions[..|actions| - 1]), actions[|actions| - 1])
  }
}
