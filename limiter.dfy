/** The bounded concurrency limiter `pLimit` of the indexer. It keeps a count of active
    runs and a FIFO queue of runs waiting to start. A submission starts at once when fewer
    than `concurrency` runs are active, and is queued otherwise; when a run settles, the
    count goes down and the head of the queue, if any, starts (and the count goes back up).

    Promises become two events: submitting a task and a running task settling. A task is
    named by an identifier, which stands for the `run` closure and the promise it settles. */
module Limiter {
  import opened Common

  type TaskId = nat

  /** The limiter's closure state: the `active` counter and the `queue` of pending runs. */
  datatype Sched = Sched(active: nat, queue: seq<TaskId>)

  /** What holds between events: at most `concurrency` runs are active, and work waits in
      the queue only while the limiter is saturated. */
  predicate Inv(concurrency: nat, s: Sched) {
    s.active <= concurrency && (s.queue != [] ==> s.active == concurrency)
  }

  /** `limit(fn)`: the new state, and whether the run started straight away. */
  function SubmitStep(concurrency: nat, s: Sched, t: TaskId): (Sched, bool) {
    if s.active < concurrency then (Sched(s.active + 1, s.queue), true)
    else (Sched(s.active, s.queue + [t]), false)
  }

  /** `next()`, called when a run settles: `active--`, then `queue.shift()()` starts the
      head, whose `run` does `active++`. Gives the new state and the task started, if any. */
  function CompleteStep(s: Sched): (Sched, Option<TaskId>)
    requires s.active > 0
  {
    var lowered := s.active - 1;
    if s.queue == [] then (Sched(lowered, []), None)
    else (Sched(lowered + 1, s.queue[1..]), Some(s.queue[0]))
  }

  /** A submission starts immediately exactly when the limiter is below its bound, and is
      otherwise appended to the queue; the invariant is kept either way. */
  lemma SubmitKeepsInv(concurrency: nat, s: Sched, t: TaskId)
    requires Inv(concurrency, s)
    ensures var (s', runNow) := SubmitStep(concurrency, s, t);
      && Inv(concurrency, s')
      && (runNow <==> s.active < concurrency)
      && (runNow ==> s'.queue == s.queue && s'.active == s.active + 1)
      && (!runNow ==> s'.queue == s.queue + [t] && s'.active == s.active)
  {
  }

  /** A completion starts the head of the queue when there is one (the active count is
      then unchanged) and otherwise lowers the count by one; the invariant is kept. */
  lemma CompleteKeepsInv(concurrency: nat, s: Sched)
    requires Inv(concurrency, s) && s.active > 0
    ensures var (s', started) := CompleteStep(s);
      && Inv(concurrency, s')
      && (s.queue == [] ==> started == None && s'.active == s.active - 1 && s'.queue == [])
      && (s.queue != [] ==> started == Some(s.queue[0]) && s'.active == s.active
                            && s'.queue == s.queue[1..])
  {
  }

  // ---------------------------------------------------------------------------
  // Event traces

  datatype Event = Submit(t: TaskId) | Settle

  /** The state after a trace, and the tasks in the order they started. */
  datatype Trace = Trace(state: Sched, started: seq<TaskId>)

  /** Replays events from a fresh limiter. `None` when a run settles while none is active,
      which no execution produces (only a started run settles). */
  function Replay(concurrency: nat, evs: seq<Event>): Option<Trace>
  {
    if evs == [] then Some(Trace(Sched(0, []), []))
    else
      match Replay(concurrency, evs[..|evs| - 1])
      case None => None
      case Some(tr) =>
        match evs[|evs| - 1]
        case Submit(t) =>
          var (s', runNow) := SubmitStep(concurrency, tr.state, t);
          Some(Trace(s', if runNow then tr.started + [t] else tr.started))
        case Settle =>
          if tr.state.active == 0 then None
          else
            var (s', next) := CompleteStep(tr.state);
            Some(Trace(s', if next.Some? then tr.started + [next.value] else tr.started))
  }

  /** The tasks submitted in a trace, in submission order. */
  function Submissions(evs: seq<Event>): seq<TaskId> {
    if evs == [] then []
    else
      Submissions(evs[..|evs| - 1])
      + (match evs[|evs| - 1] case Submit(t) => [t] case Settle => [])
  }

  /** The number of settle events in a trace. */
  function Settlements(evs: seq<Event>): nat {
    if evs == [] then 0
    else Settlements(evs[..|evs| - 1]) + (if evs[|evs| - 1].Settle? then 1 else 0)
  }

  /** Over every possible trace: the bound holds, the queue is non-empty only at the bound,
      the tasks started so far followed by the queue are exactly the tasks submitted (so
      work starts in FIFO submission order, and none is lost), and the active count is the
      number of starts minus the number of settlements. */
  lemma {:induction false} ReplayInvariant(concurrency: nat, evs: seq<Event>)
    requires Replay(concurrency, evs).Some?
    ensures var tr := Replay(concurrency, evs).value;
      && Inv(concurrency, tr.state)
      && tr.started + tr.state.queue == Submissions(evs)
      && tr.state.active + Settlements(evs) == |tr.started|
  {
    if evs != [] {
      var prefix := evs[..|evs| - 1];
      ReplayInvariant(concurrency, prefix);
      var tr := Replay(concurrency, prefix).value;
      match evs[|evs| - 1]
      case Submit(t) =>
        SubmitKeepsInv(concurrency, tr.state, t);
        assert tr.started + (tr.state.queue + [t]) == (tr.started + tr.state.queue) + [t];
      case Settle =>
        CompleteKeepsInv(concurrency, tr.state);
        if tr.state.queue != [] {
          var q := tr.state.queue;
          assert (tr.started + [q[0]]) + q[1..] == tr.started + q;
        }
    }
  }

  /** Tasks start in the order they were submitted: the started tasks are a prefix of
      the submissions. */
  lemma StartOrderIsSubmissionOrder(concurrency: nat, evs: seq<Event>)
    requires Replay(concurrency, evs).Some?
    ensures var tr := Replay(concurrency, evs).value;
      |tr.started| <= |Submissions(evs)| && tr.started == Submissions(evs)[..|tr.started|]
  {
    ReplayInvariant(concurrency, evs);
  }

  /** A settlement can always follow a trace in which a run is active, and only then. */
  lemma SettleEnabledIff(concurrency: nat, evs: seq<Event>)
    requires Replay(concurrency, evs).Some?
    ensures Replay(concurrency, evs + [Settle]).Some? <==>
            Replay(concurrency, evs).value.state.active > 0
  {
    assert (evs + [Settle])[..|evs + [Settle]| - 1] == evs;
  }

  // ---------------------------------------------------------------------------
  // The closure state as an object

  /** The limiter returned by `pLimit(concurrency)`. The ghost fields record what was
      submitted, what started, and how many runs settled. */
  class Limit {
    const concurrency: nat
    var active: nat
    var queue: seq<TaskId>
    ghost var submitted: seq<TaskId>
    ghost var started: seq<TaskId>
    ghost var settled: nat

    ghost predicate Valid()
      reads this
    {
      && Inv(concurrency, Sched(active, queue))
      && started + queue == submitted
      && active + settled == |started|
    }

    constructor (concurrency: nat)
      ensures Valid()
      ensures this.concurrency == concurrency && active == 0 && queue == []
      ensures submitted == [] && started == [] && settled == 0
    {
      this.concurrency := concurrency;
      active, queue := 0, [];
      submitted, started, settled := [], [], 0;
    }

    /** `limit(fn)`: starts the run when below the bound, queues it otherwise. */
    method Submit(t: TaskId) returns (runNow: bool)
      requires Valid()
      modifies this
      ensures Valid()
      ensures (Sched(active, queue), runNow) == SubmitStep(concurrency, old(Sched(active, queue)), t)
      ensures submitted == old(submitted) + [t] && settled == old(settled)
      ensures started == if runNow then old(started) + [t] else old(started)
    {
      runNow := active < concurrency;
      if runNow {
        active := active + 1;
        started := started + [t];
      } else {
        queue := queue + [t];
      }
      submitted := submitted + [t];
    }

    /** `next()`: a running task settled. Starts the head of the queue, if any. */
    method Complete() returns (next: Option<TaskId>)
      requires Valid() && active > 0
      modifies this
      ensures Valid()
      ensures (Sched(active, queue), next) == CompleteStep(old(Sched(active, queue)))
      ensures submitted == old(submitted) && settled == old(settled) + 1
      ensures started == if next.Some? then old(started) + [next.value] else old(started)
    {
      active := active - 1;
      settled := settled + 1;
      next := None;
      if queue != [] {
        var head := queue[0];
        assert (started + [head]) + queue[1..] == started + queue;
        queue := queue[1..];
        active := active + 1;
        started := started + [head];
        next := Some(head);
      }
    }
  }
}
