/** The bridge process itself: the objects and callbacks behind the step system. */
module BridgeProcess {
  import opened JsonValues
  import opened JsonLines
  import opened MessageQueue
  import opened HostRequests
  import opened Questions
  import opened Bridge

  /** The state runSession closes over. `events` is what it has written to stdout. */
  class SessionProcess {
    const options: Json
    const inputQueue: AsyncMessageQueue<Option<Json>>
    const toolRequests: PendingHostRequests<ToolResolution>
    const questionRequests: PendingHostRequests<QuestionResolution>
    const stdinParser: JsonLineParser<Json>
    var aborted: bool
    var lastSessionId: Option<Json>
    var events: seq<Event>
    ghost var handled: seq<Json>

    ghost predicate Valid()
      reads this, inputQueue
    {
      && inputQueue.Valid()
      && (toolRequests as object) != (questionRequests as object)
      && lastSessionId == LastSessionId(events)
    }

    ghost function View(): Session
      reads this, inputQueue, toolRequests, questionRequests
    {
      Session(options, inputQueue.View(), toolRequests.View(), questionRequests.View(), aborted)
    }

    /** The state of the step system this process is in while its session runs. */
    ghost function AsState(): State
      reads this, inputQueue, toolRequests, questionRequests, stdinParser
    {
      State(Running(View(), stdinParser.buffer), events, handled, true)
    }

    constructor (parse: string -> Option<Json>, options: Json, events: seq<Event>)
      ensures Valid() && View() == NewSession(options) && aborted == false
      ensures stdinParser.buffer == "" && stdinParser.parse == parse
      ensures this.events == events && handled == []
      ensures fresh(inputQueue) && fresh(toolRequests) && fresh(questionRequests) && fresh(stdinParser)
    {
      this.options := options;
      inputQueue := new AsyncMessageQueue();
      toolRequests := new PendingHostRequests("tool");
      questionRequests := new PendingHostRequests("question");
      stdinParser := new JsonLineParser(parse);
      aborted, this.events, handled := false, events, [];
      lastSessionId := LastSessionId(events);
      new;
      var accepted := inputQueue.Push(Field(options, "prompt"));
    }

    method HandleCommand(frame: Json) returns (threw: bool)
      requires Valid()
      modifies this, inputQueue, toolRequests, questionRequests
      ensures Valid() && (View(), threw) == Handle(old(View()), frame)
      ensures handled == old(handled) + [frame] && events == old(events)
    {
      handled := handled + [frame];
      threw := false;
      match Classify(frame)
      case NotAnObject =>
      case Stop(_) =>
        aborted := true;
        inputQueue.Close();
        toolRequests.FailAll("session aborted");
        questionRequests.FailAll("session aborted");
      case UserMessage(text) =>
        var delivered := inputQueue.Push(text);
        if !delivered {
          threw := !Sliceable(text);
        }
      case ToolCallResponse(id) =>
        if id.Some? {
          var matched := toolRequests.Resolve(id.value, DecodeToolResponse(frame));
        }
      case QuestionResponse(id) =>
        if id.Some? {
          var matched := questionRequests.Resolve(id.value, DecodeResponse(frame));
        }
      case Start(_) =>
      case Unexpected(tag) => threw := !TagPrintable(tag);
    }

    /** `for (const command of commands) handleCommand(command)`; a throw leaves the loop. */
    method HandleEach(frames: seq<Json>) returns (threw: bool)
      requires Valid()
      modifies this, inputQueue, toolRequests, questionRequests
      ensures Valid() && events == old(events)
      ensures
        var batch := HandleAll(old(View()), frames);
        View() == batch.session && threw == batch.threw && handled == old(handled) + batch.frames
    {
      threw := false;
      var i := 0;
      ghost var all := HandleAll(View(), frames);
      while i < |frames| && !threw
        invariant i <= |frames| && Valid() && events == old(events)
        invariant
          var rest := if threw then Handled(View(), [], true) else HandleAll(View(), frames[i..]);
          rest.session == all.session && rest.threw == all.threw && handled + rest.frames == old(handled) + all.frames
      {
        ghost var before, todo := handled, frames[i..];
        assert todo[0] == frames[i] && todo[1..] == frames[i + 1..];
        threw := HandleCommand(frames[i]);
        i := i + 1;
        HandledOneMore(before, frames[i - 1], if threw then [] else HandleAll(View(), frames[i..]).frames);
      }
    }

    /** The stdin listener of the running session. */
    method OnStdin(chunk: string) returns (threw: bool)
      requires Valid()
      modifies this, inputQueue, toolRequests, questionRequests, stdinParser
      ensures Valid()
      ensures
        var next := SessionChunk(stdinParser.parse, old(AsState()), chunk);
        && threw == next.phase.Exited?
        && (if threw then next == AsState().(phase := Exited(Uncaught, Some(View()))) else next == AsState())
    {
      var commands, reports := stdinParser.Push(chunk);
      threw := HandleEach(commands);
    }

    /** The second half of the replay: the handshake parser's unfinished line seeds this session's parser. */
    method SeedParser(pendingBuffer: string) returns (threw: bool)
      requires Valid() && stdinParser.buffer == ""
      modifies this, inputQueue, toolRequests, questionRequests, stdinParser
      ensures Valid() && events == old(events)
      ensures
        var next := Seed(stdinParser.parse, State(Booting(""), old(events), old(handled), false), old(View()),
          pendingBuffer);
        && threw == next.phase.Exited?
        && (if threw then next == ReplayFailure() else next == AsState())
    {
      threw := false;
      if pendingBuffer != "" {
        var carried, reports := stdinParser.Push(pendingBuffer);
        threw := HandleEach(carried);
      }
    }

    /** main's state when a replayed frame throws: the query was never made. */
    ghost function ReplayFailure(): State
      reads this, inputQueue, toolRequests, questionRequests
    {
      Fail(State(Booting(""), events, handled, false), "replay failed", Some(View()))
    }

    /** What the handshake could not consume, replayed before the SDK query starts. */
    method Replay(pendingCommands: seq<Json>, pendingBuffer: string) returns (threw: bool)
      requires Valid() && handled == [] && View() == NewSession(options) && Usable(Some(options))
      requires stdinParser.buffer == ""
      modifies this, inputQueue, toolRequests, questionRequests, stdinParser
      ensures Valid()
      ensures
        var booting := State(Booting(""), old(events), [], false);
        var next := Launch(stdinParser.parse, booting, Some(options), pendingCommands, pendingBuffer);
        && threw == next.phase.Exited?
        && (if threw then next == ReplayFailure() else next == AsState())
    {
      LaunchReplays(stdinParser.parse, events, options, pendingCommands, pendingBuffer);
      threw := HandleEach(pendingCommands);
      assert handled == HandleAll(NewSession(options), pendingCommands).frames;
      if !threw {
        threw := SeedParser(pendingBuffer);
      }
    }

    method OnSdkMessage(message: Json)
      requires Valid()
      modifies this, inputQueue
      ensures Valid() && AsState() == SessionStep(stdinParser.parse, old(AsState()), SdkMessage(message))
    {
      var sessionId := Field(message, "session_id");
      if Truthy(sessionId) {
        lastSessionId := sessionId;
      }
      SessionIdStep(events, message);
      SdkMessageIs(stdinParser.parse, AsState(), message);
      events := events + [SdkMessageEvent(message)];
      if IsResult(message) {
        inputQueue.Close();
      }
      assert toolRequests.View() == old(toolRequests.View()) && questionRequests.View() == old(questionRequests.View());
    }

    method OnSdkPull() returns (item: Option<Option<Json>>)
      requires Valid()
      modifies inputQueue
      ensures Valid() && AsState() == SessionStep(stdinParser.parse, old(AsState()), SdkPull)
    {
      item := None;
      if !inputQueue.returned && (!inputQueue.resolveNext || inputQueue.resolved) {
        item := inputQueue.Resume();
      }
    }

    method OnToolCall(uuid: string, toolName: string, args: Json)
      requires Valid()
      modifies this, toolRequests
      ensures Valid() && AsState() == SessionStep(stdinParser.parse, old(AsState()), ToolCall(uuid, toolName, args))
    {
      var id := toolRequests.Create(uuid);
      events := events + [ToolCallRequest(id, toolName, args)];
    }

    method OnCanUseTool(uuid: string, toolName: string, input: Json)
      requires Valid()
      modifies this, questionRequests
      ensures Valid() && AsState() == SessionStep(stdinParser.parse, old(AsState()), CanUseTool(uuid, toolName, input))
    {
      if toolName == ASK_USER_QUESTION_TOOL {
        var questions := Sanitize(OrNull(Field(input, "questions")));
        var id := questionRequests.Create(uuid);
        events := events + [QuestionRequest(id, questions)];
      }
    }

    /** The end of the `for await` loop, by exhaustion (None) or by a throw, and the finally block. */
    method OnSdkEnd(error: Option<string>)
      requires Valid()
      modifies this, toolRequests, questionRequests
      ensures
        var action := if error.Some? then SdkThrow(error.value) else SdkEnd;
        AsState().(phase := Exited(Settled, Some(View()))) == SessionStep(stdinParser.parse, old(AsState()), action)
    {
      if aborted {
        events := events + [Aborted(lastSessionId)];
      } else if error.None? {
        events := events + [Done(lastSessionId)];
      } else {
        events := events + [Fatal(error.value)];
      }
      toolRequests.FailAll("session ended");
      questionRequests.FailAll("session ended");
    }
  }

  lemma {:induction false} SessionIdStep(events: seq<Event>, message: Json)
    ensures
      var sessionId := Field(message, "session_id");
      LastSessionId(events + [SdkMessageEvent(message)]) == if Truthy(sessionId) then sessionId
        else LastSessionId(events)
  {
    var next := events + [SdkMessageEvent(message)];
    assert next[..|next| - 1] == events;
  }

  lemma {:induction false} LaunchReplays(parse: string -> Option<Json>, events: seq<Event>, options: Json,
                                         carried: seq<Json>, partial: string)
    requires Usable(Some(options))
    ensures
      var replay := HandleAll(NewSession(options), carried);
      var replayed := State(Booting(""), events, replay.frames, false);
      Launch(parse, State(Booting(""), events, [], false), Some(options), carried, partial) ==
      if replay.threw then Fail(replayed, "replay failed", Some(replay.session))
      else Seed(parse, replayed, replay.session, partial)
  {
  }

  lemma {:induction false} SdkMessageIs(parse: string -> Option<Json>, st: State, message: Json)
    requires st.phase.Running?
    ensures
      var s := st.phase.session;
      var queue := if IsResult(message) then AfterClose(s.queue) else s.queue;
      SessionStep(parse, st, SdkMessage(message)) ==
      State(Running(Session(s.options, queue, s.tools, s.questions, s.aborted), st.phase.buffer),
            st.events + [SdkMessageEvent(message)], st.handled, st.launched)
  {
  }

  lemma {:induction false} HandledOneMore(before: seq<Json>, frame: Json, rest: seq<Json>)
    ensures before + ([frame] + rest) == before + [frame] + rest
  {
  }

  /** The handshake listener: the loop over the frames of one chunk, up to the first decisive one. */
  method OnBootData(startParser: JsonLineParser<Json>, chunk: string) returns (scan: Scan)
    modifies startParser
    ensures scan == ScanStart(Finished(startParser.parse, old(startParser.buffer), chunk))
    ensures startParser.buffer == Kept(old(startParser.buffer), chunk)
  {
    var commands, reports := startParser.Push(chunk);
    for index := 0 to |commands|
      invariant ScanStart(commands[index..]) == ScanStart(commands)
    {
      ghost var todo := commands[index..];
      assert todo[0] == commands[index] && todo[1..] == commands[index + 1..];
      match Classify(commands[index])
      case Start(options) => return Begin(options, commands[index + 1..]);
      case Stop(name) => return Refused(name);
      case Unexpected(tag) =>
        if !TagPrintable(tag) {
          return Threw;
        }
      case _ =>
    }
    return Waiting;
  }
}
