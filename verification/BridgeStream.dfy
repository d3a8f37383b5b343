/** What the stream invariant says about a run, and where its conditions are exact. */
module BridgeStream {
  import opened JsonValues
  import opened Text
  import opened JsonLines
  import opened Bridge
  import opened BridgeProofs
  import opened BridgeFraming

  // ---- what it says about a run --------------------------------------------------------------------------

  /**
   However the stream is cut and whatever happens between the cuts: a running session has
   handled exactly the frames behind the first start, in stream order, none lost or doubled
   over the handoff from parser to parser; an ended one has handled an initial part of them.
   */
  lemma {:induction false} HandlesTheStream(parse: string -> Option<Json>, actions: seq<Action>)
    requires StreamWithinCap(actions)
    ensures
      var st, frames := Bridge.Run(parse, actions), StreamFrames(parse, actions);
      && (st.phase.Running? ==> st.handled == AfterStart(frames) && st.phase.buffer == Unfinished(actions))
      && (st.phase.Booting? ==> st.handled == [] && Verdict(frames).None?)
      && st.handled <= AfterStart(frames)
  {
    StateInStream(parse, actions);
    VerdictStands(StreamFrames(parse, actions), []);
  }

  /**
   A session is launched only behind a start that no interrupt or shutdown precedes; and,
   when no frame is malformed and stdin stays open, always behind such a start.
   */
  lemma {:induction false} LaunchesIffStartFirst(parse: string -> Option<Json>, actions: seq<Action>)
    requires StreamWithinCap(actions)
    ensures
      var st, frames := Bridge.Run(parse, actions), StreamFrames(parse, actions);
      && (st.launched ==> StartsFirst(frames))
      && ((forall f | f in frames :: WellFormed(f)) && !(st.phase.Exited? && st.phase.exit.StdinEnded?) ==>
            (st.launched <==> StartsFirst(frames)))
  {
    StateInStream(parse, actions);
  }

  /** In particular no run over well-formed frames ends without its terminal event while stdin is open. */
  lemma {:induction false} WellFormedStreamEndsWell(parse: string -> Option<Json>, actions: seq<Action>)
    requires StreamWithinCap(actions)
    ensures
      var st := Bridge.Run(parse, actions);
      st.phase.Exited? && !st.phase.exit.StdinEnded? &&
        (forall f | f in StreamFrames(parse, actions) :: WellFormed(f)) ==>
        OneTerminalAtEnd(st.events)
  {
    StateInStream(parse, actions);
    EveryTrace(parse, actions);
  }

  /** One terminal event, and nothing behind it. */
  predicate OneTerminalAtEnd(events: seq<Event>) {
    && events != [] && Terminal(events[|events| - 1])
    && forall i | 0 <= i < |events| - 1 :: !Terminal(events[i])
  }

  predicate Truthful(st: State) {
    st.events != [] &&
    var last := st.events[|st.events| - 1];
    && (last.Done? ==> st.launched && !HasStop(st.handled))
    && (last.Aborted? ==> st.launched && HasStop(st.handled))
    && (last.Fatal? && st.launched ==> !HasStop(st.handled))
    && (last.Done? || last.Aborted? ==> last.sessionId == LastSessionId(st.events[..|st.events| - 1]))
  }

  /** `done` and `aborted` tell the host the truth, and name the session the SDK last named. */
  lemma {:induction false} OutcomeIsTruthful(parse: string -> Option<Json>, actions: seq<Action>)
    ensures Truthful(Bridge.Run(parse, actions))
  {
    EveryTrace(parse, actions);
    EveryState(parse, actions);
  }

  // ---- where those conditions are exact ------------------------------------------------------------------

  /** The frames in front of the first start, interrupt or shutdown. */
  function BeforeVerdict(frames: seq<Json>): seq<Json> {
    if frames == [] || Decisive(frames[0]) then [] else [frames[0]] + BeforeVerdict(frames[1..])
  }

  predicate TagsPrint(frames: seq<Json>) {
    forall f | f in frames && Classify(f).Unexpected? :: TagPrintable(Classify(f).tag)
  }

  lemma {:induction false} ScanThrowsExactly(frames: seq<Json>)
    ensures ScanStart(frames).Threw? <==> !TagsPrint(BeforeVerdict(frames))
  {
    if frames != [] && !Decisive(frames[0]) {
      ScanThrowsExactly(frames[1..]);
      var before := BeforeVerdict(frames);
      assert before[0] == frames[0] && before[1..] == BeforeVerdict(frames[1..]);
      assert forall f :: f in before <==> f == frames[0] || f in before[1..];
    }
  }

  /** A chunk launches the session exactly when a usable start comes first in it and no handler throws on the way. */
  lemma {:induction false} ChunkLaunchesExactly(parse: string -> Option<Json>, st: State, text: string)
    requires st.phase.Booting? && !st.launched
    ensures
      var more := Finished(parse, st.phase.buffer, text);
      BootChunk(parse, st, text).launched <==>
        && StartsFirst(more)
        && TagsPrint(BeforeVerdict(more))
        && !exists i :: 0 <= i < |AfterStart(more)| && ThrowsAt(false, AfterStart(more), i)
  {
    var more, kept := Finished(parse, st.phase.buffer, text), Kept(st.phase.buffer, text);
    ScanFindsVerdict(more);
    ScanThrowsExactly(more);
    KeptIsOneLine(st.phase.buffer, text);
    CarriedLine(parse, kept);
    match ScanStart(more)
    case Begin(options, rest) =>
      if Usable(options) { ThrowsExactly(NewSession(options.value), rest); }
    case _ =>
  }

  /** A chunk takes a running session down without a terminal event exactly when one of its frames throws. */
  lemma {:induction false} ChunkLosesSessionExactly(parse: string -> Option<Json>, st: State, text: string)
    requires st.phase.Running?
    ensures
      var next, frames := SessionChunk(parse, st, text), Finished(parse, st.phase.buffer, text);
      && next.events == st.events
      && (next.phase.Exited? <==> exists i :: 0 <= i < |frames| && ThrowsAt(st.phase.session.queue.closed, frames, i))
  {
    ThrowsExactly(st.phase.session, Finished(parse, st.phase.buffer, text));
  }

  /** A chunk takes the handshake down without any event exactly when an unprintable type comes before the verdict. */
  lemma {:induction false} ChunkLosesBootExactly(parse: string -> Option<Json>, st: State, text: string)
    requires st.phase.Booting?
    ensures
      var next, more := BootChunk(parse, st, text), Finished(parse, st.phase.buffer, text);
      && (next.phase.Exited? && next.phase.exit.Uncaught? <==> !TagsPrint(BeforeVerdict(more)))
      && (next.phase.Exited? && next.phase.exit.Uncaught? ==> next.events == st.events)
  {
    ScanThrowsExactly(Finished(parse, st.phase.buffer, text));
  }

  /** The step is a chunk with a frame on which the bridge throws outside main's catch handler. */
  predicate Crashes(parse: string -> Option<Json>, st: State, action: Action) {
    action.Chunk? &&
    match st.phase
    case Booting(buffer) => !TagsPrint(BeforeVerdict(Finished(parse, buffer, action.text)))
    case Running(s, buffer) =>
      var frames := Finished(parse, buffer, action.text);
      exists i :: 0 <= i < |frames| && ThrowsAt(s.queue.closed, frames, i)
    case Exited(_, _) => false
  }

  predicate EndsStdin(st: State, action: Action) { !st.phase.Exited? && action.StdinEnd? }

  /** The n-th step ends the process without a word to the host. */
  predicate EndsSilently(parse: string -> Option<Json>, actions: seq<Action>, n: nat) {
    n < |actions| &&
    (Crashes(parse, Bridge.Run(parse, actions[..n]), actions[n]) ||
      EndsStdin(Bridge.Run(parse, actions[..n]), actions[n]))
  }

  predicate Silent(st: State) { st.phase.Exited? && !st.phase.exit.Settled? }

  lemma {:induction false} SilentStep(parse: string -> Option<Json>, st: State, action: Action)
    ensures Silent(Bridge.Step(parse, st, action)) <==>
            Silent(st) || Crashes(parse, st, action) || EndsStdin(st, action)
  {
    match st.phase
    case Booting(buffer) => if action.Chunk? { ChunkLosesBootExactly(parse, st, action.text); }
    case Running(_, _) => if action.Chunk? { ChunkLosesSessionExactly(parse, st, action.text); }
    case Exited(_, _) =>
  }

  lemma {:induction false} SilentExactly(parse: string -> Option<Json>, actions: seq<Action>)
    ensures Silent(Bridge.Run(parse, actions)) <==> exists n: nat :: EndsSilently(parse, actions, n)
  {
    if actions != [] {
      var before, last := actions[..|actions| - 1], actions[|actions| - 1];
      SilentExactly(parse, before);
      SilentStep(parse, Bridge.Run(parse, before), last);
      if Silent(Bridge.Run(parse, before)) {
        var n: nat :| EndsSilently(parse, before, n);
        assert before[..n] == actions[..n];
        assert EndsSilently(parse, actions, n);
      } else if Silent(Bridge.Run(parse, actions)) {
        assert EndsSilently(parse, actions, |actions| - 1);
      }
      forall n: nat | EndsSilently(parse, actions, n) ensures Silent(Bridge.Run(parse, actions)) {
        if n < |actions| - 1 {
          assert before[..n] == actions[..n];
          assert EndsSilently(parse, before, n);
        } else {
          assert actions[..n] == before;
        }
      }
    }
  }

  /**
   By the time the process is gone the host has got exactly one terminal event, as the last
   one, exactly when no chunk crashed the bridge and stdin did not end first.
   */
  lemma {:induction false} OneTerminalEvent(parse: string -> Option<Json>, actions: seq<Action>)
    requires Bridge.Run(parse, actions).phase.Exited?
    ensures OneTerminalAtEnd(Bridge.Run(parse, actions).events) <==> forall n: nat :: !EndsSilently(parse, actions, n)
  {
    EveryTrace(parse, actions);
    TerminalIffSettled(Bridge.Run(parse, actions));
    SilentExactly(parse, actions);
  }

  lemma {:induction false} TerminalIffSettled(st: State)
    requires TraceShape(st)
    ensures OneTerminalAtEnd(st.events) <==> st.phase.Exited? && st.phase.exit.Settled?
  {
  }

  function Typed(name: string): Json { Obj(map["type" := Str(name)]) }

  /** Reads the lines of the run below. */
  function SampleParse(line: string): Option<Json> {
    if line == "s" then Some(Obj(map["type" := Str("start"), "options" := Obj(map[])]))
    else if line == "u" then Some(Typed("user_message"))
    else if line == "o" then Some(Typed("start"))
    else if line == "a" then
      Some(Obj(map["type" := Str("question_response"), "id" := Str("question-1-"), "answers" := Arr([Str("yes")])]))
    else None
  }

  lemma {:induction false} LineArrives(parse: string -> Option<Json>, c: char)
    requires !IsSpace(c) && parse([c]).Some?
    ensures Finished(parse, "", [c, '\n']) == [parse([c]).value] && Kept("", [c, '\n']) == ""
  {
    LineSplits([c]);
    assert [c] + "\n" == [c, '\n'] == "" + [c, '\n'];
    assert Complete([c, '\n']) == [[c]];
    assert TrimStart([c]) == [c];
    assert TrimEnd([c]) == [c];
    OneMoreLine(parse, [], [c]);
    assert [] + [[c]] == [[c]];
  }

  lemma {:induction false} SampleStarts()
    ensures
      var st := Step(SampleParse, BOOTED, Chunk("s\n"));
      st.phase == Running(NewSession(Obj(map[])), "") && st.events == [ReadyEvent] && st.handled == []
  {
    LineArrives(SampleParse, 's');
    var frame := SampleParse("s").value;
    assert [frame][1..] == [];
    assert ScanStart([frame]) == Begin(Some(Obj(map[])), []);
  }

  lemma {:induction false} SampleEnds(st: State)
    requires st.phase.Running? && st.phase.session.queue.closed && st.phase.buffer == ""
    ensures
      var next := Step(SampleParse, st, Chunk("u\n"));
      next.phase.Exited? && next.phase.exit.Uncaught? && next.events == st.events
  {
    LineArrives(SampleParse, 'u');
    assert "u" != "s";
    assert Classify(Typed("user_message")) == UserMessage(None);
  }

  /** A user_message without text, arriving after the turn's result, ends the process with no terminal event. */
  lemma {:induction false} TerminalEventCanBeMissing()
    ensures
      var st := Bridge.Run(SampleParse, [Chunk("s\n"), SdkMessage(Typed("result")), Chunk("u\n")]);
      st.phase.Exited? && st.phase.exit.Uncaught? && forall e | e in st.events :: !Terminal(e)
  {
    var run := [Chunk("s\n"), SdkMessage(Typed("result")), Chunk("u\n")];
    assert run[..2] == [Chunk("s\n"), SdkMessage(Typed("result"))] && run[..2][..1] == [Chunk("s\n")];
    assert [Chunk("s\n")][..0] == [];
    SampleStarts();
    var st2 := Step(SampleParse, Step(SampleParse, BOOTED, Chunk("s\n")), run[1]);
    assert st2 == Bridge.Run(SampleParse, run[..2]);
    assert st2.phase.session.queue.closed && st2.phase.buffer == "";
    SampleEnds(st2);
  }

  /** A `start` without usable options, coming first, is answered by `fatal` and launches nothing. */
  lemma {:induction false} StartNeedsOptions(parse: string -> Option<Json>, st: State, text: string)
    requires st.phase.Booting?
    requires
      var more := Finished(parse, st.phase.buffer, text);
      && TagsPrint(BeforeVerdict(more))
      && Verdict(more).Some? && Classify(Verdict(more).value).Start? && !StartsFirst(more)
    ensures
      var next := BootChunk(parse, st, text);
      && next.events == st.events + [Fatal("options have no prompt")] && next.launched == st.launched
      && next.phase == Exited(Settled, None)
  {
    var more := Finished(parse, st.phase.buffer, text);
    ScanFindsVerdict(more);
    ScanThrowsExactly(more);
  }

  /** For instance a `start` frame with no options at all. */
  lemma {:induction false} StartWithoutOptions()
    ensures
      var st := Bridge.Run(SampleParse, [Chunk("o\n")]);
      st.events == [ReadyEvent, Fatal("options have no prompt")] && !st.launched
  {
    LineArrives(SampleParse, 'o');
    assert "o" != "s" && "o" != "u";
    var frame := Typed("start");
    assert Classify(frame) == Start(None) && Verdict([frame]) == Some(frame) && BeforeVerdict([frame]) == [];
    assert [Chunk("o\n")][..0] == [];
    assert [ReadyEvent] + [Fatal("options have no prompt")] == [ReadyEvent, Fatal("options have no prompt")];
    StartNeedsOptions(SampleParse, BOOTED, "o\n");
  }
}
