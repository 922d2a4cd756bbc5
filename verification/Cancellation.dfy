/** The registry of an instance's running background tasks, and what a cancel
    request, a cancel broadcast and shutdown do with it. */
module Cancellation {
  import opened Keyspace
  import opened OperationStore
  import S = StatusProtocol
  import R = StatusRuns
  import W = ShieldedWaits

  const GRACE: int := 30 * SECOND
  const FINAL_STEPS_MARGIN: int := 3 * SECOND
  const DRAIN_BUDGET: int := 20 * SECOND

  /** An asyncio task, as its registry sees it. */
  class Task {
    var done: bool
    var cancelRequests: nat

    constructor ()
      ensures !done && cancelRequests == 0
    {
      done, cancelRequests := false, 0;
    }

    method Cancel()
      modifies this`cancelRequests
      ensures cancelRequests == old(cancelRequests) + 1
    {
      cancelRequests := cancelRequests + 1;
    }

    method Finish()
      modifies this`done
      ensures done
    {
      done := true;
    }
  }

  /** A bounded look at the stored status: it answers, or it times out or fails, or
      its caller is cancelled meanwhile. `NotAsked` is the caller that passed no
      lookup. */
  datatype Lookup = NotAsked | Unavailable | Interrupted | Absent | Found(status: Status)

  datatype Reply = Answer(cancelled: bool) | Propagates

  /** What a local cancel reports once its task has returned: success unless the
      status read afterwards is unavailable or something else than cancelled. */
  predicate Confirms(after: Lookup) {
    match after
    case Unavailable => false
    case Interrupted => false
    case Found(st) => st.Cancelled?
    case _ => true
  }

  predicate Refuses(before: Lookup) { before.Found? && !Active(before.status) }

  /** The answer for a local task, from the lookups before its cancel and after its
      end. */
  predicate LocalAnswer(before: Lookup, after: Lookup) { !Refuses(before) && Confirms(after) }

  class CancellationManager {
    var activeTasks: map<OpId, Task>
    var hasRedis: bool
    var broadcasts: seq<OpId>

    constructor (hasRedis: bool)
      ensures activeTasks == map[] && broadcasts == [] && this.hasRedis == hasRedis
    {
      activeTasks, broadcasts := map[], [];
      this.hasRedis := hasRedis;
    }

    /** A task that no other operation has may be registered; whom shutdown cancels
        and counts by operation it then cancels and counts by task. */
    method RegisterTask(op: OpId, task: Task)
      modifies this`activeTasks
      ensures activeTasks == old(activeTasks)[op := task]
      ensures old(Distinct()) && (forall o :: o in old(activeTasks) && o != op ==> old(activeTasks)[o] != task) ==> Distinct()
    {
      activeTasks := activeTasks[op := task];
    }

    method UnregisterTask(op: OpId)
      modifies this`activeTasks
      ensures activeTasks == old(activeTasks) - {op}
      ensures old(Distinct()) ==> Distinct()
    {
      activeTasks := activeTasks - {op};
    }

    predicate Local(op: OpId)
      reads this, set o | o in activeTasks :: activeTasks[o]
    {
      op in activeTasks && !activeTasks[op].done
    }

    /** A cancel broadcast by another instance: it reaches a running local task and
        nothing else. */
    method HearBroadcast(op: OpId)
      modifies if op in activeTasks then {activeTasks[op]} else {}
      ensures op in activeTasks ==>
                && activeTasks[op].done == old(activeTasks[op].done)
                && activeTasks[op].cancelRequests
                   == old(activeTasks[op].cancelRequests) + if old(Local(op)) then 1 else 0
    {
      if op in activeTasks && !activeTasks[op].done {
        activeTasks[op].Cancel();
      }
    }

    /** `raised` says that the awaited task ended in an error of its own, which
        the await passes on; such a task has run, and unregistered itself. A cancel
        of the caller that lands on the await goes to the task; one that lands on a
        lookup ends the call. */
    method CancelTask(op: OpId, before: Lookup, after: Lookup, raised: bool) returns (r: Reply)
      modifies this`activeTasks, this`broadcasts, if op in activeTasks then {activeTasks[op]} else {}
      ensures old(Local(op)) ==>
                var task, cancels := old(activeTasks)[op], !Refuses(before) && !before.Interrupted?;
                && r == (if before.Interrupted? || (cancels && (raised || after.Interrupted?)) then Propagates
                         else Answer(LocalAnswer(before, after)))
                && task.done == cancels
                && task.cancelRequests == old(activeTasks[op].cancelRequests) + (if cancels then 1 else 0)
                && activeTasks == (if cancels then old(activeTasks) - {op} else old(activeTasks))
      ensures !old(Local(op)) ==>
                && activeTasks == old(activeTasks)
                && (op in activeTasks ==> activeTasks[op].cancelRequests == old(activeTasks[op].cancelRequests))
                && r == if hasRedis && before.Interrupted? then Propagates
                        else Answer(hasRedis && !Refuses(before) && before != Absent)
      ensures broadcasts == old(broadcasts) +
                if !old(Local(op)) && r == Answer(true) then [op] else []
    {
      if op in activeTasks && !activeTasks[op].done {
        var task := activeTasks[op];
        if before.Interrupted? {
          return Propagates;
        }
        if before.Found? && !Active(before.status) {
          return Answer(false);
        }
        task.Cancel();
        task.Finish();
        UnregisterTask(op);
        if raised || after.Interrupted? {
          return Propagates;
        }
        if after.Unavailable? {
          return Answer(false);
        }
        if after.Found? && after.status != Cancelled {
          return Answer(false);
        }
        return Answer(true);
      }
      if hasRedis {
        if before.Interrupted? {
          return Propagates;
        }
        if before.Absent? {
          return Answer(false);
        }
        if before.Found? && !Active(before.status) {
          return Answer(false);
        }
        broadcasts := broadcasts + [op];
        return Answer(true);
      }
      return Answer(false);
    }

    /** Each registered task appears under one operation. */
    ghost predicate Distinct()
      reads this
    {
      forall o, p :: o in activeTasks && p in activeTasks && o != p ==> activeTasks[o] != activeTasks[p]
    }

    function Running(): set<OpId>
      reads this, set o | o in activeTasks :: activeTasks[o]
    {
      set o | o in activeTasks && !activeTasks[o].done
    }

    /** Cancel every task still running, once each. */
    method CancelRunning() returns (pending: set<OpId>)
      requires Distinct()
      modifies set o | o in activeTasks :: activeTasks[o]
      ensures pending == old(Running()) == Running()
      ensures forall o :: o in activeTasks ==>
                && activeTasks[o].done == old(activeTasks[o].done)
                && activeTasks[o].cancelRequests == old(activeTasks[o].cancelRequests) + if o in pending then 1 else 0
    {
      pending := Running();
      var todo := pending;
      while todo != {}
        invariant todo <= pending
        invariant forall o :: o in activeTasks ==>
                    && activeTasks[o].done == old(activeTasks[o].done)
                    && activeTasks[o].cancelRequests
                       == old(activeTasks[o].cancelRequests) + if o in pending && o !in todo then 1 else 0
        decreases todo
      {
        var o :| o in todo;
        activeTasks[o].Cancel();
        todo := todo - {o};
      }
    }

    /** Time passes up to `now`: the running tasks that end by then are done. */
    method Elapse(now: int, ends: map<OpId, int>)
      requires Distinct()
      modifies set o | o in activeTasks :: activeTasks[o]`done
      ensures forall o :: o in activeTasks ==> activeTasks[o].done == (old(activeTasks[o].done) || EndsBy(ends, o, now))
    {
      var todo := activeTasks.Keys;
      while todo != {}
        invariant todo <= activeTasks.Keys
        invariant forall o :: o in activeTasks ==>
                    activeTasks[o].done == (old(activeTasks[o].done) || (o !in todo && EndsBy(ends, o, now)))
        decreases todo
      {
        var o :| o in todo;
        if EndsBy(ends, o, now) {
          activeTasks[o].Finish();
        }
        todo := todo - {o};
      }
    }

    /** Cancel every running task once and wait until they have all ended, or the
        time is over. `ends` says when each ends; one that is missing does not. */
    method QuiesceTasks(start: int, timeout: int, ends: map<OpId, int>) returns (end: int, pending: set<OpId>)
      requires Distinct() && 0 <= timeout
      modifies set o | o in activeTasks :: activeTasks[o]
      ensures pending == old(Running())
      ensures start <= end <= start + timeout
      ensures end < start + timeout ==> AllEndBy(pending, ends, end)
      ensures forall t :: start <= t && AllEndBy(pending, ends, t) ==> end <= t
      ensures forall o :: o in activeTasks ==>
                && activeTasks[o].done == (old(activeTasks[o].done) || EndsBy(ends, o, end))
                && activeTasks[o].cancelRequests
                   == old(activeTasks[o].cancelRequests) + if o in pending then 1 else 0
    {
      pending := CancelRunning();
      end := LastEnd(pending, start, start + timeout, ends);
      Elapse(end, ends);
    }

    /** Shutdown's drain, beginning at `start`. The first attempt is a quiesce and
        then a flush of the pending ingests, which need `flush`; it has `overhead`
        besides its waits, and its timeout is noticed `late`. Every wait is cut
        against one deadline, so the end does not depend on how long tasks take.
        A task is cancelled a second time exactly when the first attempt overran
        its budget and the task has not ended by then; and the waits alone never
        overrun it: that takes four seconds of overhead. */
    method Drain(start: int, ends: map<OpId, int>, flush: int, overhead: int, late: int)
      returns (end: int, pending: set<OpId>, again: bool)
      requires Distinct() && 0 <= flush && 0 <= overhead && 0 <= late
      modifies set o | o in activeTasks :: activeTasks[o]
      ensures start <= end <= start + Max(GRACE - FINAL_STEPS_MARGIN, DRAIN_BUDGET + late)
      ensures pending == old(Running())
      ensures again ==> DRAIN_BUDGET - W.QUIESCE_WAIT - W.INGEST_WAIT < overhead
      ensures !again ==> end <= start + DRAIN_BUDGET && end <= start + W.QUIESCE_WAIT + Min(flush, W.INGEST_WAIT) + overhead
      ensures forall o :: o in activeTasks ==>
                activeTasks[o].cancelRequests == old(activeTasks[o].cancelRequests)
                  + if o !in pending then 0
                    else if again && !EndsBy(ends, o, start + DRAIN_BUDGET + late) then 2 else 1
      ensures forall o :: o in activeTasks && activeTasks[o].done ==> old(activeTasks[o].done) || EndsBy(ends, o, end)
    {
      var deadline := start + GRACE - FINAL_STEPS_MARGIN;
      end, pending := QuiesceTasks(start, W.QUIESCE_WAIT, ends);
      end := end + Min(flush, W.INGEST_WAIT) + overhead;
      if end <= start + DRAIN_BUDGET {
        return end, pending, false;
      }
      again, end := true, start + DRAIN_BUDGET + late;
      Elapse(end, ends);
      var remaining := deadline - end;
      if remaining > 0 {
        var left;
        end, left := QuiesceTasks(end, remaining, ends);
      } else {
        var left := CancelRunning();
      }
    }
  }

  predicate EndsBy(ends: map<OpId, int>, o: OpId, now: int) { o in ends && ends[o] <= now }

  predicate AllEndBy(ops: set<OpId>, ends: map<OpId, int>, now: int) {
    forall o :: o in ops ==> EndsBy(ends, o, now)
  }

  lemma OneMoreEnds(ops: set<OpId>, o: OpId, ends: map<OpId, int>)
    ensures forall t :: AllEndBy(ops + {o}, ends, t) <==> AllEndBy(ops, ends, t) && EndsBy(ends, o, t)
    ensures forall t, u :: t <= u && AllEndBy(ops, ends, t) ==> AllEndBy(ops, ends, u)
  {
    forall t | AllEndBy(ops + {o}, ends, t) ensures AllEndBy(ops, ends, t) && EndsBy(ends, o, t) {
      assert o in ops + {o};
      forall x | x in ops ensures EndsBy(ends, x, t) { assert x in ops + {o}; }
    }
  }

  /** When the last of these tasks ends, no earlier than `start`, no later than
      `limit`. */
  method LastEnd(ops: set<OpId>, start: int, limit: int, ends: map<OpId, int>) returns (end: int)
    requires start <= limit
    ensures start <= end <= limit
    ensures end < limit ==> AllEndBy(ops, ends, end)
    ensures forall t :: start <= t && AllEndBy(ops, ends, t) ==> end <= t
  {
    end := start;
    var todo := ops;
    while todo != {}
      invariant todo <= ops && start <= end <= limit
      invariant end < limit ==> AllEndBy(ops - todo, ends, end)
      invariant forall t :: start <= t && AllEndBy(ops - todo, ends, t) ==> end <= t
      decreases todo
    {
      var o :| o in todo;
      OneMoreEnds(ops - todo, o, ends);
      assert ops - (todo - {o}) == ops - todo + {o};
      todo := todo - {o};
      end := if o in ends then Min(limit, Max(end, ends[o])) else limit;
    }
    assert ops - todo == ops;
  }

  // ----- The cancel path among all other steps -----

  /** Where a local cancel is: before its first lookup, waiting for the cancelled
      task, before its second lookup, answered, or ended without an answer, by the
      task's own error or a cancel of the caller. */
  datatype Stage = PreCheck | Sent | Joined | Answered(answer: bool) | Passed

  datatype Cancel = Cancel(op: OpId, stage: Stage, before: Lookup, after: Lookup)

  datatype Joint = Joint(sys: S.System, cancel: Cancel)

  /** A step of the system, or of the cancel: a lookup that answers or not, the
      await, over only once the task has returned, and the end by a cancel. */
  datatype Step = Env(action: S.Action) | LookBefore(answers: bool) | Join(raised: bool) | LookAfter(answers: bool) | Interrupt

  predicate Enabled(c: S.Setup, j: Joint, e: Step) {
    match e
    case Env(a) => S.Enabled(c, j.sys, a)
    case LookBefore(_) => j.cancel.stage.PreCheck?
    case Join(_) => j.cancel.stage.Sent? && j.cancel.op in j.sys.workers && j.sys.workers[j.cancel.op].phase.Returned?
    case LookAfter(_) => j.cancel.stage.Joined?
    case Interrupt => j.cancel.stage.PreCheck? || j.cancel.stage.Joined?
  }

  /** A lookup reads the record there is at that moment. */
  function Look(s: S.System, op: OpId, answers: bool): Lookup {
    if !answers then Unavailable
    else if op in s.table.records then Found(s.table.records[op].status)
    else Absent
  }

  function Next(c: S.Setup, j: Joint, e: Step): Joint
    requires Enabled(c, j, e)
  {
    var k := j.cancel;
    match e
    case Env(a) => j.(sys := S.Step(c, j.sys, a))
    case LookBefore(answers) =>
      var found := Look(j.sys, k.op, answers);
      j.(cancel := k.(before := found, stage := if Refuses(found) then Answered(false) else Sent))
    case Join(raised) => j.(cancel := k.(stage := if raised then Passed else Joined))
    case LookAfter(answers) =>
      var found := Look(j.sys, k.op, answers);
      j.(cancel := k.(after := found, stage := Answered(Confirms(found))))
    case Interrupt => j.(cancel := k.(stage := Passed))
  }

  ghost predicate Possible(c: S.Setup, j: Joint, run: seq<Step>)
    decreases |run|
  {
    run != [] ==> Enabled(c, j, run[0]) && Possible(c, Next(c, j, run[0]), run[1..])
  }

  function After(c: S.Setup, j: Joint, run: seq<Step>): Joint
    requires Possible(c, j, run)
    decreases |run|
  {
    if run == [] then j else After(c, Next(c, j, run[0]), run[1..])
  }

  /** A cancel request for a task of this instance, in any state of the system. */
  ghost predicate Requested(c: S.Setup, j: Joint) {
    && S.Inv(c, j.sys) && S.Followed(c, j.cancel.op) && j.cancel.op in j.sys.workers
    && j.cancel.stage.PreCheck? && j.cancel.before.NotAsked? && j.cancel.after.NotAsked?
  }

  /** Whether a cancel is sent: unless its first lookup finds a completed, partial,
      failed or cancelled operation, which refuses it and leaves everything alone. */
  lemma RefusedIffFoundTerminal(c: S.Setup, j: Joint, answers: bool)
    requires Enabled(c, j, LookBefore(answers))
    ensures var k := Next(c, j, LookBefore(answers));
            var st := if j.cancel.op in j.sys.table.records then Some(j.sys.table.records[j.cancel.op].status) else None;
            && k.sys == j.sys
            && (k.cancel.stage == Answered(false) <==> answers && st in {Some(Completed), Some(Partial), Some(Failed), Some(Status.Cancelled)})
            && (k.cancel.stage != Answered(false) <==> k.cancel.stage == Sent)
  {
  }

  /** What a cancel under way may rely on: past the await the worker has returned;
      and an answer is what its lookups say. */
  predicate Underway(c: S.Setup, j: Joint) {
    var k, s := j.cancel, j.sys;
    && S.Followed(c, k.op) && k.op in s.workers && k.op in s.table.records
    && (k.stage.Joined? || k.after != NotAsked ==> s.workers[k.op].phase.Returned?)
    && (k.stage.Answered? ==> k.stage.answer == LocalAnswer(k.before, if Refuses(k.before) then Unavailable else k.after))
    && (k.stage.Sent? || k.stage.Joined? ==> !Refuses(k.before))
    && (k.after == NotAsked || k.after.Found? || k.after.Unavailable?)
    && (!k.stage.Answered? ==> k.after.NotAsked?)
  }

  lemma StepKeepsUnderway(c: S.Setup, j: Joint, e: Step)
    requires S.Inv(c, j.sys) && Underway(c, j) && Enabled(c, j, e)
    ensures S.Inv(c, Next(c, j, e).sys) && Underway(c, Next(c, j, e))
  {
    if e.Env? {
      S.StepKeepsInv(c, j.sys, e.action);
      S.StepSpendsRuns(c, j.sys, e.action, j.cancel.op);
      if j.sys.workers[j.cancel.op].phase.Returned? { R.ReturnedStep(c, j.sys, e.action, j.cancel.op); }
    }
  }

  lemma {:induction false} UnderwayHolds(c: S.Setup, j: Joint, run: seq<Step>)
    requires S.Inv(c, j.sys) && Underway(c, j) && Possible(c, j, run)
    ensures S.Inv(c, After(c, j, run).sys) && Underway(c, After(c, j, run))
    ensures After(c, j, run).cancel.op == j.cancel.op
    decreases |run|
  {
    if run != [] {
      StepKeepsUnderway(c, j, run[0]);
      UnderwayHolds(c, Next(c, j, run[0]), run[1..]);
    }
  }

  // An answered cancel takes no more steps: what follows is a run of the system.

  function Envs(run: seq<Step>): seq<S.Action> {
    if run == [] then [] else (if run[0].Env? then [run[0].action] else []) + Envs(run[1..])
  }

  lemma {:induction false} AnsweredRun(c: S.Setup, j: Joint, run: seq<Step>)
    requires j.cancel.stage.Answered? && Possible(c, j, run)
    ensures R.Possible(c, j.sys, Envs(run))
    ensures After(c, j, run) == j.(sys := R.After(c, j.sys, Envs(run)))
    decreases |run|
  {
    if run != [] {
      AnsweredRun(c, Next(c, j, run[0]), run[1..]);
      R.Prepend(c, j.sys, run[0].action, Envs(run[1..]));
    }
  }

  function Lifted(run: seq<S.Action>): seq<Step> {
    if run == [] then [] else [Env(run[0])] + Lifted(run[1..])
  }

  lemma {:induction false} SystemRun(c: S.Setup, j: Joint, run: seq<S.Action>)
    requires R.Possible(c, j.sys, run)
    ensures Possible(c, j, Lifted(run))
    ensures After(c, j, Lifted(run)) == j.(sys := R.After(c, j.sys, run))
    decreases |run|
  {
    if run != [] {
      var k := Next(c, j, Env(run[0]));
      SystemRun(c, k, run[1..]);
      assert Lifted(run)[1..] == Lifted(run[1..]);
    }
  }

  /** Whatever happens next, the answer stays and the stored status agrees with it. */
  ghost predicate StaysSaid(c: S.Setup, j: Joint, said: bool) {
    forall run :: Possible(c, j, run) ==>
      var k := After(c, j, run);
      k.cancel == j.cancel && j.cancel.op in k.sys.table.records && k.sys.table.records[j.cancel.op].status.Cancelled? == said
  }

  lemma SaidIsStored(c: S.Setup, j: Joint, said: bool)
    requires j.cancel.stage.Answered?
    ensures StaysSaid(c, j, said) <==> R.StaysCancelled(c, j.sys, j.cancel.op, said)
  {
    if StaysSaid(c, j, said) {
      forall run | R.Possible(c, j.sys, run)
        ensures j.cancel.op in R.After(c, j.sys, run).table.records
        ensures R.After(c, j.sys, run).table.records[j.cancel.op].status.Cancelled? == said
      {
        SystemRun(c, j, run);
      }
    }
    if R.StaysCancelled(c, j.sys, j.cancel.op, said) {
      forall run | Possible(c, j, run)
        ensures var k := After(c, j, run);
                k.cancel == j.cancel && j.cancel.op in k.sys.table.records && k.sys.table.records[j.cancel.op].status.Cancelled? == said
      {
        AnsweredRun(c, j, run);
      }
    }
  }

  /** What a local cancel answers, in every race of its lookups, its await and its
      own task's completion or lost lease with every other step. It answers what
      the method answers for the two lookups it made. It says true if and only if
      its second lookup finds the operation cancelled, its task having returned.
      And whatever that lookup found stays so, cancelled or not, through every later
      step of any request, worker or reconciler, if and only if no save of the task
      that says otherwise is still in flight. */
  lemma ConfirmedCancelIsFinal(c: S.Setup, j: Joint, past: seq<Step>, answers: bool)
    requires Requested(c, j) && Possible(c, j, past) && After(c, j, past).cancel.stage.Joined?
    ensures var k := After(c, j, past);
            var a, op := Next(c, k, LookAfter(answers)), j.cancel.op;
            && op in k.sys.workers && k.sys.workers[op].phase.Returned? && op in k.sys.table.records
            && a.cancel.stage == Answered(LocalAnswer(a.cancel.before, a.cancel.after))
            && (a.cancel.stage.answer <==> answers && k.sys.table.records[op].status == Cancelled)
            && (answers ==> (StaysSaid(c, a, a.cancel.stage.answer) <==> R.FlightSays(a.sys, op, a.cancel.stage.answer)))
  {
    S.InvOwns(c, j.sys, j.cancel.op);
    UnderwayHolds(c, j, past);
    var k := After(c, j, past);
    var a := Next(c, k, LookAfter(answers));
    StepKeepsUnderway(c, k, LookAfter(answers));
    R.ReturnedCancelIsFinal(c, a.sys, j.cancel.op);
    SaidIsStored(c, a, a.cancel.stage.answer);
  }
}
