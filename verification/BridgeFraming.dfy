/**
 The stdin side of the bridge against the stream it reads: two parsers, one handoff, any cut
 of the text into chunks, any interleaving with what the SDK does. The invariant of the
 stream; what it says about a run is in BridgeStream.
 */
module BridgeFraming {
  import opened JsonValues
  import opened JsonLines
  import opened Bridge
  import opened BridgeProofs

  // ---- the stream a run was fed -------------------------------------------------------------------

  function Chunks(actions: seq<Action>): seq<string> {
    if actions == [] then []
    else
      var last := actions[|actions| - 1];
      Chunks(actions[..|actions| - 1]) + if last.Chunk? then [last.text] else []
  }

  /** Every frame of the text received so far. */
  function StreamFrames(parse: string -> Option<Json>, actions: seq<Action>): seq<Json> {
    Frames(parse, Complete(Concat(Chunks(actions))))
  }

  function Unfinished(actions: seq<Action>): string { Rest(Concat(Chunks(actions))) }

  predicate Decisive(frame: Json) { Classify(frame).Start? || Classify(frame).Stop? }

  /** The first start, interrupt or shutdown among the frames. */
  function Verdict(frames: seq<Json>): Option<Json> {
    if frames == [] then None
    else if Decisive(frames[0]) then Some(frames[0])
    else Verdict(frames[1..])
  }

  /** The frames behind the first start, provided no interrupt or shutdown came before it. */
  function AfterStart(frames: seq<Json>): seq<Json> {
    if frames == [] || Classify(frames[0]).Stop? then []
    else if Classify(frames[0]).Start? then frames[1..]
    else AfterStart(frames[1..])
  }

  predicate StartsFirst(frames: seq<Json>) {
    Verdict(frames).Some? && Classify(Verdict(frames).value).Start? &&
    Usable(Classify(Verdict(frames).value).options)
  }

  lemma {:induction false} VerdictStands(a: seq<Json>, b: seq<Json>)
    ensures Verdict(a + b) == if Verdict(a).Some? then Verdict(a) else Verdict(b)
    ensures Verdict(a).None? ==> AfterStart(a) == [] && AfterStart(a + b) == AfterStart(b)
    ensures Verdict(a).Some? && Classify(Verdict(a).value).Start? ==> AfterStart(a + b) == AfterStart(a) + b
    ensures AfterStart(a) <= AfterStart(a + b)
  {
    if a == [] {
      assert a + b == b;
    } else {
      assert (a + b)[1..] == a[1..] + b;
      VerdictStands(a[1..], b);
    }
  }

  lemma {:induction false} ScanFindsVerdict(frames: seq<Json>)
    ensures match ScanStart(frames)
            case Waiting => Verdict(frames).None?
            case Begin(options, rest) =>
              Verdict(frames).Some? && Classify(Verdict(frames).value) == Start(options) && AfterStart(frames) == rest
            case Refused(name) => Verdict(frames).Some? && Classify(Verdict(frames).value) == Stop(name)
            case Threw => exists f | f in frames :: !WellFormed(f)
  {
    if frames != [] {
      ScanFindsVerdict(frames[1..]);
      if ScanStart(frames).Threw? {
        if Classify(frames[0]).Unexpected? && !TagPrintable(Classify(frames[0]).tag) {
          assert !WellFormed(frames[0]);
        } else {
          var f :| f in frames[1..] && !WellFormed(f);
          assert f in frames;
        }
      }
    }
  }

  // ---- which frames make a handler throw --------------------------------------------------------------

  /** A frame no state of the bridge can choke on: its type prints, its text slices. */
  predicate WellFormed(frame: Json) {
    match Classify(frame)
    case Unexpected(tag) => TagPrintable(tag)
    case UserMessage(text) => Sliceable(text)
    case _ => true
  }

  /** The i-th frame of a batch throws: an unprintable type, or an unsliceable text once the queue is closed. */
  predicate ThrowsAt(closed: bool, frames: seq<Json>, i: nat)
    requires i < |frames|
  {
    match Classify(frames[i])
    case Unexpected(tag) => !TagPrintable(tag)
    case UserMessage(text) => !Sliceable(text) && (closed || HasStop(frames[..i]))
    case _ => false
  }

  lemma {:induction false} ThrowsLater(closed: bool, frames: seq<Json>, i: nat)
    requires 0 < i < |frames|
    ensures ThrowsAt(closed, frames, i) <==> ThrowsAt(closed || Classify(frames[0]).Stop?, frames[1..], i - 1)
  {
    var front, rest := frames[..i], frames[1..][..i - 1];
    assert front == [frames[0]] + rest;
    if HasStop(rest) {
      var j :| 0 <= j < |rest| && Classify(rest[j]).Stop?;
      assert Classify(front[j + 1]).Stop?;
    }
    if HasStop(front) {
      var j :| 0 <= j < |front| && Classify(front[j]).Stop?;
      assert j > 0 ==> Classify(rest[j - 1]).Stop?;
    }
    if Classify(frames[0]).Stop? { assert Classify(front[0]).Stop?; }
  }

  /** A batch throws exactly when it holds such a frame; otherwise every frame of it is handled. */
  lemma {:induction false} ThrowsExactly(s: Session, frames: seq<Json>)
    ensures HandleAll(s, frames).threw <==> exists i :: 0 <= i < |frames| && ThrowsAt(s.queue.closed, frames, i)
    ensures HandleAll(s, frames).frames <= frames
    ensures !HandleAll(s, frames).threw ==> HandleAll(s, frames).frames == frames
    decreases |frames|
  {
    if frames != [] {
      var (next, threw) := Handle(s, frames[0]);
      assert frames[..0] == [];
      assert threw <==> ThrowsAt(s.queue.closed, frames, 0);
      assert [frames[0]] + frames[1..] == frames;
      if !threw {
        ThrowsExactly(next, frames[1..]);
        assert next.queue.closed == (s.queue.closed || Classify(frames[0]).Stop?);
        forall i | 0 < i < |frames|
          ensures ThrowsAt(s.queue.closed, frames, i) <==> ThrowsAt(next.queue.closed, frames[1..], i - 1)
        {
          ThrowsLater(s.queue.closed, frames, i);
        }
        if HandleAll(next, frames[1..]).threw {
          var i :| 0 <= i < |frames[1..]| && ThrowsAt(next.queue.closed, frames[1..], i);
          assert ThrowsAt(s.queue.closed, frames, i + 1);
        }
      }
    }
  }

  lemma {:induction false} WellFormedNeverThrows(s: Session, frames: seq<Json>)
    requires forall f | f in frames :: WellFormed(f)
    ensures !HandleAll(s, frames).threw
  {
    ThrowsExactly(s, frames);
    forall i | 0 <= i < |frames| ensures !ThrowsAt(s.queue.closed, frames, i) { assert frames[i] in frames; }
  }

  // ---- the invariant of the stream --------------------------------------------------------------------

  /** Where a state stands in a stream whose frames are `frames` and whose unfinished line is `rest`. */
  predicate InStream(st: State, frames: seq<Json>, rest: string) {
    match st.phase
    case Booting(buffer) => buffer == rest && st.handled == [] && !st.launched && Verdict(frames).None?
    case Running(_, buffer) => buffer == rest && st.handled == AfterStart(frames) && st.launched && StartsFirst(frames)
    case Exited(exit, _) =>
      && st.handled <= AfterStart(frames)
      && (st.launched ==> StartsFirst(frames))
      && (!st.launched && !exit.StdinEnded? && (forall f | f in frames :: WellFormed(f)) ==>
            Verdict(frames).Some? && !StartsFirst(frames))
      && (exit.Uncaught? ==> exists f | f in frames :: !WellFormed(f))
  }

  /** Nothing is left to parse in the carried line: it is unfinished, and the second parser keeps it. */
  lemma {:induction false} CarriedLine(parse: string -> Option<Json>, partial: string)
    requires '\n' !in partial && |partial| <= MAX_PARTIAL_LINE_CHARS
    ensures Finished(parse, "", partial) == [] && Kept("", partial) == partial
  {
    assert "" + partial == partial;
    NoNewline(partial);
  }

  lemma {:induction false} LaunchInStream(parse: string -> Option<Json>, st: State, frames: seq<Json>, more: seq<Json>,
                                          rest: string)
    requires st.phase.Booting? && st.handled == [] && !st.launched && Verdict(frames).None?
    requires '\n' !in rest && |rest| <= MAX_PARTIAL_LINE_CHARS
    requires Verdict(more).Some? && Classify(Verdict(more).value).Start?
    ensures InStream(Launch(parse, st, Classify(Verdict(more).value).options, AfterStart(more), rest), frames + more,
            rest)
  {
    var options := Classify(Verdict(more).value).options;
    VerdictStands(frames, more);
    CarriedLine(parse, rest);
    if Usable(options) {
      var replay := HandleAll(NewSession(options.value), AfterStart(more));
      ThrowsExactly(NewSession(options.value), AfterStart(more));
      assert HandleAll(replay.session, []) == Handled(replay.session, [], false);
      assert replay.frames + [] == replay.frames;
      if forall f | f in frames + more :: WellFormed(f) {
        forall f | f in AfterStart(more) ensures WellFormed(f) {
          AfterStartWithin(more, f);
        }
        WellFormedNeverThrows(NewSession(options.value), AfterStart(more));
      }
    }
  }

  lemma {:induction false} AfterStartWithin(frames: seq<Json>, f: Json)
    requires f in AfterStart(frames)
    ensures f in frames
  {
    if !Classify(frames[0]).Start? { AfterStartWithin(frames[1..], f); }
  }

  lemma {:induction false} BootInStream(parse: string -> Option<Json>, st: State, frames: seq<Json>, rest: string,
                                        text: string)
    requires st.phase.Booting? && InStream(st, frames, rest)
    requires |Rest(rest + text)| <= MAX_PARTIAL_LINE_CHARS
    ensures InStream(BootChunk(parse, st, text), frames + Finished(parse, rest, text), Rest(rest + text))
  {
    var more := Finished(parse, rest, text);
    VerdictStands(frames, more);
    ScanFindsVerdict(more);
    KeptIsOneLine(rest, text);
    match ScanStart(more)
    case Begin(options, carried) => LaunchInStream(parse, st, frames, more, Rest(rest + text));
    case Threw =>
      var f :| f in more && !WellFormed(f);
      assert f in frames + more;
    case _ =>
  }

  lemma {:induction false} SessionInStream(parse: string -> Option<Json>, st: State, frames: seq<Json>, rest: string,
                                           text: string)
    requires st.phase.Running? && InStream(st, frames, rest)
    requires |Rest(rest + text)| <= MAX_PARTIAL_LINE_CHARS
    ensures InStream(SessionChunk(parse, st, text), frames + Finished(parse, rest, text), Rest(rest + text))
  {
    var more := Finished(parse, rest, text);
    VerdictStands(frames, more);
    ThrowsExactly(st.phase.session, more);
    if forall f | f in more :: WellFormed(f) {
      WellFormedNeverThrows(st.phase.session, more);
    } else {
      var f :| f in more && !WellFormed(f);
      assert f in frames + more;
    }
  }

  lemma {:induction false} ExitedInStream(st: State, frames: seq<Json>, rest: string, more: seq<Json>, rest': string)
    requires st.phase.Exited? && InStream(st, frames, rest)
    ensures InStream(st, frames + more, rest')
  {
    VerdictStands(frames, more);
    if forall f | f in frames + more :: WellFormed(f) {
      assert forall f | f in frames :: f in frames + more;
    }
    if exists f | f in frames :: !WellFormed(f) {
      var f :| f in frames && !WellFormed(f);
      assert f in frames + more;
    }
  }

  lemma {:induction false} ChunkExtendsStream(parse: string -> Option<Json>, actions: seq<Action>, text: string)
    ensures StreamFrames(parse, actions + [Chunk(text)]) ==
            StreamFrames(parse, actions) + Finished(parse, Unfinished(actions), text)
    ensures Unfinished(actions + [Chunk(text)]) == Rest(Unfinished(actions) + text)
  {
    var next := actions + [Chunk(text)];
    assert next[..|next| - 1] == actions;
    var chunks := Chunks(actions);
    assert (chunks + [text])[..|chunks|] == chunks;
    LinesAcross(Concat(chunks), text);
    FramesAppend(parse, Complete(Concat(chunks)), Complete(Rest(Concat(chunks)) + text));
  }

  /** The unfinished line of the stream never exceeds the parser's cap. */
  predicate StreamWithinCap(actions: seq<Action>) {
    forall n | 0 <= n <= |actions| :: |Unfinished(actions[..n])| <= MAX_PARTIAL_LINE_CHARS
  }

  lemma {:induction false} StateInStream(parse: string -> Option<Json>, actions: seq<Action>)
    requires StreamWithinCap(actions)
    ensures InStream(Bridge.Run(parse, actions), StreamFrames(parse, actions), Unfinished(actions))
  {
    if actions == [] {
      assert Concat([]) == "" && Complete("") == [] && Rest("") == "";
    } else {
      var before, last := actions[..|actions| - 1], actions[|actions| - 1];
      forall n | 0 <= n <= |before| ensures |Unfinished(before[..n])| <= MAX_PARTIAL_LINE_CHARS {
        assert before[..n] == actions[..n];
      }
      StateInStream(parse, before);
      var st := Bridge.Run(parse, before);
      assert actions == before + [last] && actions[..|actions|] == actions;
      if last.Chunk? {
        var frames, rest := StreamFrames(parse, before), Unfinished(before);
        ChunkExtendsStream(parse, before, last.text);
        match st.phase
        case Booting(_) => BootInStream(parse, st, frames, rest, last.text);
        case Running(_, _) => SessionInStream(parse, st, frames, rest, last.text);
        case Exited(_, _) => ExitedInStream(st, frames, rest, Finished(parse, rest, last.text), Rest(rest + last.text));
      } else {
        QuietStep(parse, st, last, StreamFrames(parse, before), Unfinished(before));
        assert Chunks(actions) == Chunks(before);
      }
    }
  }

  lemma {:induction false} QuietStep(parse: string -> Option<Json>, st: State, action: Action, frames: seq<Json>,
                                     rest: string)
    requires InStream(st, frames, rest) && !action.Chunk?
    ensures InStream(Step(parse, st, action), frames, rest)
  {
  }
}
