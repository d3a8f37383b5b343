/** The single-consumer async queue that feeds user messages into the SDK session. */
module MessageQueue {
  import opened JsonValues

  /**
   Where the consumer of the async iterator stands: about to run (it has not started, or sits
   at a yield), parked on the promise it awaits (signalled once that promise is resolved), or
   returned.
   */
  datatype Consumer = Ready | Parked(signalled: bool) | Returned

  datatype Queue<T> = Queue(pending: seq<T>, closed: bool, consumer: Consumer, yielded: seq<T>)

  function EmptyQueue<T>(): Queue<T> { Queue([], false, Ready, []) }

  /** `this.resolveNext?.()` */
  function Signal(c: Consumer): Consumer {
    if c.Parked? then Parked(true) else c
  }

  function AfterPush<T>(q: Queue<T>, x: T): Queue<T> {
    if q.closed then q else q.(pending := q.pending + [x], consumer := Signal(q.consumer))
  }

  function AfterClose<T>(q: Queue<T>): Queue<T> {
    q.(closed := true, consumer := Signal(q.consumer))
  }

  predicate CanResume(c: Consumer) { c == Ready || c == Parked(true) }

  /** The iterator body from one suspension to the next. */
  function AfterResume<T>(q: Queue<T>): Queue<T> {
    if !CanResume(q.consumer) then q
    else if q.pending != [] then
      q.(pending := q.pending[1..], consumer := Ready, yielded := q.yielded + [q.pending[0]])
    else if q.closed then q.(consumer := Returned)
    else q.(consumer := Parked(false))
  }

  class AsyncMessageQueue<T> {
    var pending: seq<T>
    var closed: bool
    /** Whether a resolver is installed, and whether the promise behind it has been resolved. */
    var resolveNext: bool
    var resolved: bool
    var returned: bool
    ghost var yielded: seq<T>

    ghost predicate Valid()
      reads this
    {
      returned ==> !resolveNext
    }

    ghost function View(): Queue<T>
      reads this
    {
      Queue(pending, closed, if returned then Returned else if resolveNext then Parked(resolved) else Ready, yielded)
    }

    constructor ()
      ensures Valid() && View() == EmptyQueue()
    {
      pending, closed, resolveNext, resolved, returned, yielded := [], false, false, false, false, [];
    }

    method Push(x: T) returns (accepted: bool)
      requires Valid()
      modifies this
      ensures Valid() && View() == AfterPush(old(View()), x) && accepted == !old(closed)
    {
      if closed {
        return false;
      }
      pending := pending + [x];
      if resolveNext {
        resolved := true;
      }
      return true;
    }

    method Close()
      requires Valid()
      modifies this
      ensures Valid() && View() == AfterClose(old(View()))
    {
      closed := true;
      if resolveNext {
        resolved := true;
      }
    }

    /** Runs the iterator until it yields, returns or parks. */
    method Resume() returns (item: Option<T>)
      requires Valid() && CanResume(View().consumer)
      modifies this
      ensures Valid() && View() == AfterResume(old(View()))
      ensures yielded == old(yielded) + if item.Some? then [item.value] else []
    {
      resolveNext := false;
      item := None;
      if |pending| > 0 {
        item := Some(pending[0]);
        yielded := yielded + [pending[0]];
        pending := pending[1..];
      } else if closed {
        returned := true;
      } else {
        resolveNext, resolved := true, false;
      }
    }
  }

  // ---- every interleaving -------------------------------------------------------------------

  datatype Step<T> = DoPush(x: T) | DoClose | DoResume

  function Apply<T>(q: Queue<T>, step: Step<T>): Queue<T> {
    match step
    case DoPush(x) => AfterPush(q, x)
    case DoClose => AfterClose(q)
    case DoResume => AfterResume(q)
  }

  function Run<T>(steps: seq<Step<T>>): Queue<T> {
    if steps == [] then EmptyQueue() else Apply(Run(steps[..|steps| - 1]), steps[|steps| - 1])
  }

  /** The messages pushed before the first close. */
  function Accepted<T>(steps: seq<Step<T>>): seq<T> {
    if steps == [] || steps[0].DoClose? then []
    else (if steps[0].DoPush? then [steps[0].x] else []) + Accepted(steps[1..])
  }

  predicate HasClose<T>(steps: seq<Step<T>>) { exists i | 0 <= i < |steps| :: steps[i].DoClose? }

  /** A parked consumer nobody has woken has nothing to do. */
  predicate NoLostWakeUp<T>(q: Queue<T>) {
    && (q.consumer == Parked(false) ==> q.pending == [] && !q.closed)
    && (q.consumer == Returned ==> q.pending == [] && q.closed)
  }

  lemma {:induction false} WakeUpsKept<T>(q: Queue<T>, step: Step<T>)
    requires NoLostWakeUp(q)
    ensures NoLostWakeUp(Apply(q, step))
  {
  }

  lemma {:induction false} NeverLosesWakeUp<T>(steps: seq<Step<T>>)
    ensures NoLostWakeUp(Run(steps))
  {
    if steps != [] {
      NeverLosesWakeUp(steps[..|steps| - 1]);
      WakeUpsKept(Run(steps[..|steps| - 1]), steps[|steps| - 1]);
    }
  }

  lemma {:induction false} HasCloseSplits<T>(a: seq<Step<T>>, b: seq<Step<T>>)
    ensures HasClose(a + b) <==> HasClose(a) || HasClose(b)
  {
    if HasClose(a) {
      var i :| 0 <= i < |a| && a[i].DoClose?;
      assert (a + b)[i].DoClose?;
    }
    if HasClose(b) {
      var i :| 0 <= i < |b| && b[i].DoClose?;
      assert (a + b)[|a| + i].DoClose?;
    }
  }

  lemma {:induction false} AcceptedAppend<T>(steps: seq<Step<T>>, step: Step<T>)
    ensures Accepted(steps + [step]) ==
            Accepted(steps) + if step.DoPush? && !HasClose(steps) then [step.x] else []
  {
    if steps == [] {
      assert (steps + [step])[1..] == [];
    } else {
      HasCloseSplits([steps[0]], steps[1..]);
      assert [steps[0]] + steps[1..] == steps;
      assert (steps + [step])[1..] == steps[1..] + [step];
      AcceptedAppend(steps[1..], step);
    }
  }

  /** First in, first out: what came out and what still waits are the accepted pushes in order. */
  lemma {:induction false} DeliversInOrder<T>(steps: seq<Step<T>>)
    ensures Run(steps).yielded + Run(steps).pending == Accepted(steps)
    ensures Run(steps).closed == HasClose(steps)
  {
    if steps != [] {
      var before, last := steps[..|steps| - 1], steps[|steps| - 1];
      DeliversInOrder(before);
      assert before + [last] == steps;
      AcceptedAppend(before, last);
      HasCloseSplits(before, [last]);
    }
  }

  function Resumes<T>(n: nat): seq<Step<T>> { seq(n, _ => DoResume) }

  /** Closing loses nothing: a consumer that keeps going gets the rest and then returns. */
  lemma {:induction false} DrainsAfterClose<T>(steps: seq<Step<T>>)
    requires HasClose(steps)
    ensures
      var drained := Run(steps + Resumes(|Run(steps).pending| + 1));
      drained.consumer == Returned && drained.yielded == Accepted(steps)
    decreases |Run(steps).pending|
  {
    var q := Run(steps);
    var next := steps + [DoResume];
    DeliversInOrder(steps);
    NeverLosesWakeUp(steps);
    assert next[..|next| - 1] == steps;
    if q.pending == [] {
      assert steps + Resumes(1) == next;
    } else {
      assert Run(next).pending == q.pending[1..];
      HasCloseSplits(steps, [DoResume]);
      DrainsAfterClose(next);
      AcceptedAppend(steps, DoResume);
      assert next + Resumes(|q.pending|) == steps + Resumes(|q.pending| + 1);
    }
  }
}
