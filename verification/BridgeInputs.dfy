/** What the SDK is fed: the prompt, and then exactly the user messages handled before the input closed. */
module BridgeInputs {
  import opened JsonValues
  import opened JsonLines
  import opened MessageQueue
  import opened Bridge
  import opened BridgeProofs

  /** The frames in front of the first stop. */
  function UpToStop(frames: seq<Json>): seq<Json> {
    if !HasStop(frames) then frames else UpToStop(frames[..|frames| - 1])
  }

  /** What the iterator has yielded and what it still holds. */
  function Fed(s: Session): seq<Option<Json>> { s.queue.yielded + s.queue.pending }

  predicate Closed(st: State) { SessionOf(st).Some? && SessionOf(st).value.queue.closed }

  /** As long as no result was seen, only a stop closes the input. */
  predicate CutAtStop(s: Session, handled: seq<Json>) {
    && (s.queue.closed <==> HasStop(handled))
    && Fed(s) == Inputs(s, UpToStop(handled))
  }

  lemma {:induction false} OneMoreHandled(s: Session, handled: seq<Json>, frame: Json)
    ensures UpToStop(handled + [frame]) ==
            if HasStop(handled) then UpToStop(handled)
            else if Classify(frame).Stop? then handled
            else handled + [frame]
  {
    OneMoreFrame(s, handled, frame);
    assert (handled + [frame])[..|handled|] == handled;
  }

  lemma {:induction false} HandleFeeds(s: Session, frame: Json)
    ensures
      var next := Handle(s, frame).0;
      && next.options == s.options
      && (next.queue.closed <==> s.queue.closed || Classify(frame).Stop?)
      && Fed(next) == if s.queue.closed then Fed(s) else Fed(s) + NewInput(frame)
  {
    if Classify(frame).UserMessage? && !s.queue.closed {
      assert Fed(Handle(s, frame).0) == Fed(s) + [Classify(frame).text];
    } else {
      assert Fed(s) + [] == Fed(s);
    }
  }

  lemma {:induction false} HandleCut(s: Session, handled: seq<Json>, frame: Json)
    requires CutAtStop(s, handled)
    ensures CutAtStop(Handle(s, frame).0, handled + [frame])
  {
    OneMoreHandled(s, handled, frame);
    OneMoreFrame(s, handled, frame);
    HandleFeeds(s, frame);
    assert Classify(frame).Stop? ==> Fed(s) + NewInput(frame) == Fed(s);
  }

  lemma {:induction false} HandleAllCut(s: Session, handled: seq<Json>, frames: seq<Json>)
    requires CutAtStop(s, handled)
    ensures CutAtStop(HandleAll(s, frames).session, handled + HandleAll(s, frames).frames)
    decreases |frames|
  {
    if frames == [] {
      assert handled + [] == handled;
    } else {
      var (next, threw) := Handle(s, frames[0]);
      HandleCut(s, handled, frames[0]);
      if !threw {
        HandleAllCut(next, handled + [frames[0]], frames[1..]);
        var rest := HandleAll(next, frames[1..]).frames;
        assert handled + ([frames[0]] + rest) == handled + [frames[0]] + rest;
      }
    }
  }

  /** Nothing enters a closed queue, and it stays closed. */
  lemma {:induction false} HandleAllClosed(s: Session, frames: seq<Json>)
    requires s.queue.closed
    ensures
      var after := HandleAll(s, frames).session;
      after.queue.closed && after.options == s.options && Fed(after) == Fed(s)
    decreases |frames|
  {
    if frames != [] && !Handle(s, frames[0]).1 { HandleAllClosed(Handle(s, frames[0]).0, frames[1..]); }
  }

  lemma {:induction false} ResumeFeeds<T>(q: Queue<T>)
    ensures AfterResume(q).yielded + AfterResume(q).pending == q.yielded + q.pending
  {
    if CanResume(q.consumer) && q.pending != [] {
      assert q.pending == [q.pending[0]] + q.pending[1..];
    }
  }

  lemma {:induction false} StepClosed(parse: string -> Option<Json>, st: State, action: Action)
    requires Closed(st)
    ensures
      var next := Bridge.Step(parse, st, action);
      && Closed(next) && SessionOf(next).value.options == SessionOf(st).value.options
      && Fed(SessionOf(next).value) == Fed(SessionOf(st).value)
  {
    if st.phase.Running? {
      if action.Chunk? { HandleAllClosed(st.phase.session, Finished(parse, st.phase.buffer, action.text)); }
      if action.SdkPull? { ResumeFeeds(st.phase.session.queue); }
    }
  }

  predicate StateCut(st: State) { SessionOf(st).Some? ==> CutAtStop(SessionOf(st).value, st.handled) }

  lemma {:induction false} NewSessionCut(options: Json)
    ensures CutAtStop(NewSession(options), [])
  {
    assert Fed(NewSession(options)) == [Field(options, "prompt")] == Inputs(NewSession(options), []);
  }

  lemma {:induction false} SeedCut(parse: string -> Option<Json>, st: State, s: Session, partial: string)
    requires CutAtStop(s, st.handled)
    ensures StateCut(Seed(parse, st, s, partial))
  {
    if partial != "" { HandleAllCut(s, st.handled, Finished(parse, "", partial)); }
  }

  lemma {:induction false} ReplayCut(options: Json, carried: seq<Json>)
    ensures CutAtStop(HandleAll(NewSession(options), carried).session, HandleAll(NewSession(options), carried).frames)
  {
    NewSessionCut(options);
    HandleAllCut(NewSession(options), [], carried);
    assert [] + HandleAll(NewSession(options), carried).frames == HandleAll(NewSession(options), carried).frames;
  }

  lemma {:induction false} LaunchCut(parse: string -> Option<Json>, st: State, options: Option<Json>,
                                     carried: seq<Json>, partial: string)
    ensures StateCut(Launch(parse, st, options, carried, partial))
  {
    if Usable(options) {
      var replay := HandleAll(NewSession(options.value), carried);
      ReplayCut(options.value, carried);
      SeedCut(parse, st.(handled := replay.frames), replay.session, partial);
    }
  }

  lemma {:induction false} StepCut(parse: string -> Option<Json>, st: State, action: Action)
    requires StateCut(st) && TraceShape(st)
    requires !(action.SdkMessage? && IsResult(action.message))
    ensures StateCut(Bridge.Step(parse, st, action))
  {
    match st.phase
    case Booting(buffer) =>
      if action.Chunk? {
        match ScanStart(Finished(parse, buffer, action.text))
        case Begin(options, rest) => LaunchCut(parse, st, options, rest, Kept(buffer, action.text));
        case _ =>
      }
    case Running(s, buffer) =>
      if action.Chunk? { HandleAllCut(s, st.handled, Finished(parse, buffer, action.text)); }
      if action.SdkPull? { ResumeFeeds(s.queue); }
    case Exited(_, _) =>
  }

  /** Open input has been fed everything handled; and until then nothing but a stop can have closed it. */
  lemma {:induction false} OpenIsCut(parse: string -> Option<Json>, actions: seq<Action>)
    requires !Closed(Bridge.Run(parse, actions))
    ensures StateCut(Bridge.Run(parse, actions))
  {
    EveryState(parse, actions);
  }

  /** The step at which the input closed, if it has, decides what the SDK is ever fed. */
  lemma {:induction false} FedAtFirstClose(parse: string -> Option<Json>, actions: seq<Action>) returns (n: nat)
    requires Closed(Bridge.Run(parse, actions))
    ensures n < |actions| && !Closed(Bridge.Run(parse, actions[..n])) && Closed(Bridge.Run(parse, actions[..n + 1]))
    ensures
      var s := SessionOf(Bridge.Run(parse, actions)).value;
      Fed(s) == Inputs(s, UpToStop(Bridge.Run(parse, actions[..n + 1]).handled))
  {
    var before, last := actions[..|actions| - 1], actions[|actions| - 1];
    var st := Bridge.Run(parse, before);
    if Closed(st) {
      n := FedAtFirstClose(parse, before);
      assert before[..n] == actions[..n] && before[..n + 1] == actions[..n + 1];
      StepClosed(parse, st, last);
    } else {
      n := |actions| - 1;
      assert actions[..n] == before && actions[..n + 1] == actions;
      OpenIsCut(parse, before);
      EveryTrace(parse, before);
      if !(last.SdkMessage? && IsResult(last.message)) { StepCut(parse, st, last); }
    }
  }

  /**
   The SDK's input is the prompt and then the handled user messages, in order, none reordered,
   doubled or missing: all of them while the input is open, and exactly those handled before
   the first interrupt, shutdown or result once it is closed. A consumer left waiting has
   nothing to take.
   */
  lemma {:induction false} InputsArriveInOrder(parse: string -> Option<Json>, actions: seq<Action>)
    requires SessionOf(Bridge.Run(parse, actions)).Some?
    ensures
      var st := Bridge.Run(parse, actions);
      var s := SessionOf(st).value;
      && (Closed(st) <==> HasStop(st.handled) || HasResult(st.events))
      && (!Closed(st) ==> Fed(s) == Inputs(s, st.handled))
      && (Closed(st) ==> exists n: nat ::
            && n < |actions| && !Closed(Bridge.Run(parse, actions[..n])) && Closed(Bridge.Run(parse, actions[..n + 1]))
            && Fed(s) == Inputs(s, UpToStop(Bridge.Run(parse, actions[..n + 1]).handled)))
      && (s.queue.consumer == Parked(false) ==> s.queue.pending == [])
  {
    EveryState(parse, actions);
    if Closed(Bridge.Run(parse, actions)) {
      var n := FedAtFirstClose(parse, actions);
    }
  }
}
