/** What holds over whole runs of the status protocol: how often a status can move
    back, when it is final, how often a key starts a worker, and where reconcilers
    find what is left behind. */
module StatusRuns {
  import opened Keyspace
  import opened OperationStore
  import opened StatusProtocol
  import I = Idempotency
  import L = Leases

  ghost predicate Possible(c: Setup, s: System, run: seq<Action>)
    decreases |run|
  {
    run != [] ==> Enabled(c, s, run[0]) && Possible(c, Step(c, s, run[0]), run[1..])
  }

  function After(c: Setup, s: System, run: seq<Action>): System
    requires Possible(c, s, run)
    decreases |run|
  {
    if run == [] then s else After(c, Step(c, s, run[0]), run[1..])
  }

  lemma {:induction false} InvHolds(c: Setup, s: System, run: seq<Action>)
    requires Inv(c, s) && Possible(c, s, run)
    ensures Inv(c, After(c, s, run))
    decreases |run|
  {
    if run != [] {
      StepKeepsInv(c, s, run[0]);
      InvHolds(c, Step(c, s, run[0]), run[1..]);
    }
  }

  /** How often the run moves the operation's status back. */
  function Falls(c: Setup, s: System, run: seq<Action>, op: OpId): nat
    requires Possible(c, s, run)
    decreases |run|
  {
    if run == [] then 0
    else
      var t := Step(c, s, run[0]);
      (if op in s.table.records && op in t.table.records && Rank(t.table.records[op].status) < Rank(s.table.records[op].status) then 1 else 0)
      + Falls(c, t, run[1..], op)
  }

  /** How often it stores an active state over a terminal one. */
  function Reopenings(c: Setup, s: System, run: seq<Action>, op: OpId): nat
    requires Possible(c, s, run)
    decreases |run|
  {
    if run == [] then 0
    else (if Reopening(s, run[0], op) then 1 else 0) + Reopenings(c, Step(c, s, run[0]), run[1..], op)
  }

  function RunsToCome(c: Setup, s: System, op: OpId): nat
    requires op in c.home
  {
    if op in s.workers then RunsLeft(c, s, op) else 1
  }

  /** The statuses of the code as it is, with saves that look at no lease, saves
      executed late, and reconcilers that write from old snapshots, in any
      interleaving. An operation is never forgotten, nor its key. Its status falls
      back in no other step than one that reopens it, and that happens at most once
      in its life; in a run without that it only moves forward. */
  lemma {:induction false} StatusFallsAtMostOnce(c: Setup, s: System, run: seq<Action>, op: OpId)
    requires Inv(c, s) && Possible(c, s, run) && Followed(c, op)
    ensures var t := After(c, s, run);
            && Falls(c, s, run, op) == Reopenings(c, s, run, op) <= RunsToCome(c, s, op) <= 1
            && (op in s.table.records ==>
                  && op in t.table.records && t.table.records[op].key == s.table.records[op].key
                  && (Falls(c, s, run, op) == 0 ==> Rank(s.table.records[op].status) <= Rank(t.table.records[op].status)))
    decreases |run|
  {
    if op in s.workers { InvOwns(c, s, op); }
    if run != [] {
      var t := Step(c, s, run[0]);
      StepKeepsInv(c, s, run[0]);
      if op in s.workers {
        StepMovesStatus(c, s, run[0], op);
        StepSpendsRuns(c, s, run[0], op);
      } else {
        assert !Reopening(s, run[0], op) by { assert op !in s.table.records; }
        if op in t.workers { InvOwns(c, t, op); }
      }
      StatusFallsAtMostOnce(c, t, run[1..], op);
    }
  }

  /** A run in which the operation's worker saves only while it holds its lease, and
      gives up on no save. */
  ghost predicate Orderly(c: Setup, s: System, run: seq<Action>, op: OpId)
    requires Possible(c, s, run)
    decreases |run|
  {
    run != [] ==>
      && (run[0].WorkerWrite? && run[0].op == op ==> !s.workers[op].lost)
      && (run[0].WorkerAbandon? ==> run[0].op != op)
      && Orderly(c, Step(c, s, run[0]), run[1..], op)
  }

  ghost predicate NoneInFlight(s: System, op: OpId) { forall r :: (op, r) !in s.flight }

  /** Active operations that a reconciler's scan of the index finds. */
  predicate Findable(t: Table, op: OpId) {
    op in t.records && (Active(t.records[op].status) ==> op in t.active)
  }

  lemma StepKeepsNoneInFlight(c: Setup, s: System, a: Action, op: OpId)
    requires Enabled(c, s, a) && NoneInFlight(s, op) && (a.WorkerAbandon? ==> a.op != op)
    ensures NoneInFlight(Step(c, s, a), op)
  {
  }

  lemma StepKeepsUnopened(c: Setup, s: System, a: Action, op: OpId)
    requires Inv(c, s) && Enabled(c, s, a) && Followed(c, op) && op in s.workers && !s.workers[op].reopened && !Reopening(s, a, op)
    ensures op in Step(c, s, a).workers && !Step(c, s, a).workers[op].reopened
  {
    if !(OnOne(a) && a.op == op) { ElsewhereSame(c, s, a, op); }
  }

  /** So in orderly runs statuses only move queued, running, terminal, and never
      leave the terminal ones; and every queued or running operation stays where
      reconciliation will find it. */
  lemma {:induction false} StatusNeverMovesBack(c: Setup, s: System, run: seq<Action>, op: OpId)
    requires Inv(c, s) && Possible(c, s, run) && Followed(c, op) && op in s.table.records
    requires NoneInFlight(s, op) && !s.workers[op].reopened && Orderly(c, s, run, op)
    ensures var t := After(c, s, run);
            && Findable(t.table, op) && Rank(s.table.records[op].status) <= Rank(t.table.records[op].status)
            && Falls(c, s, run, op) == 0
    decreases |run|
  {
    InvOwns(c, s, op);
    if run != [] {
      StepKeepsInv(c, s, run[0]);
      StepMovesStatus(c, s, run[0], op);
      StepKeepsNoneInFlight(c, s, run[0], op);
      StepKeepsUnopened(c, s, run[0], op);
      StatusNeverMovesBack(c, Step(c, s, run[0]), run[1..], op);
    }
  }

  // ----- After the task has returned -----

  /** Then its status changes only by a save still in flight, or by a reconciler
      that fails it while active; and no save joins those in flight. */
  lemma ReturnedStep(c: Setup, s: System, a: Action, op: OpId)
    requires Inv(c, s) && Enabled(c, s, a) && Followed(c, op) && op in s.workers && s.workers[op].phase.Returned?
    ensures var t := Step(c, s, a);
            && op in t.workers && t.workers[op].phase.Returned? && op in t.table.records && op in s.table.records
            && (forall r :: (op, r) in t.flight ==> (op, r) in s.flight)
            && var now, next := s.table.records[op].status, t.table.records[op].status;
            (next == now || (Active(now) && next.Failed?) || exists r :: (op, r) in s.flight && next == r.status)
  {
    if OnOne(a) && a.op == op { ReturnedOwnStep(c, s, a, op); } else { ElsewhereSame(c, s, a, op); }
  }

  lemma ReturnedOwnStep(c: Setup, s: System, a: Action, op: OpId)
    requires Enabled(c, s, a) && OnOne(a) && a.op == op && op in s.workers && s.workers[op].phase.Returned? && op in s.table.records
    ensures var t := Act(c, s, a);
            && op in t.workers && t.workers[op].phase.Returned? && op in t.table.records
            && (forall r :: (op, r) in t.flight ==> (op, r) in s.flight)
            && var now, next := s.table.records[op].status, t.table.records[op].status;
            (next == now || (Active(now) && next.Failed?) || exists r :: (op, r) in s.flight && next == r.status)
  {
    if a.LateWrite? { assert (op, a.record) in s.flight; }
  }

  /** Every save in flight has this status. */
  ghost predicate FlightHas(s: System, op: OpId, st: Status) {
    forall r :: (op, r) in s.flight ==> r.status == st
  }

  ghost predicate StaysAt(c: Setup, s: System, op: OpId, st: Status) {
    forall run :: Possible(c, s, run) ==> op in After(c, s, run).table.records && After(c, s, run).table.records[op].status == st
  }

  lemma {:induction false} TerminalStays(c: Setup, s: System, run: seq<Action>, op: OpId)
    requires Inv(c, s) && Possible(c, s, run) && Followed(c, op) && op in s.workers && s.workers[op].phase.Returned?
    requires op in s.table.records && !Active(s.table.records[op].status) && FlightHas(s, op, s.table.records[op].status)
    ensures op in After(c, s, run).table.records
    ensures After(c, s, run).table.records[op].status == s.table.records[op].status
    decreases |run|
  {
    if run != [] {
      StepKeepsInv(c, s, run[0]);
      ReturnedStep(c, s, run[0], op);
      TerminalStays(c, Step(c, s, run[0]), run[1..], op);
    }
  }

  lemma OneStepRun(c: Setup, s: System, a: Action)
    requires Enabled(c, s, a)
    ensures Possible(c, s, [a]) && After(c, s, [a]) == Step(c, s, a)
  {
    assert [a][1..] == [];
    assert Possible(c, Step(c, s, a), []) && After(c, Step(c, s, a), []) == Step(c, s, a);
  }

  lemma LateWriteShows(c: Setup, s: System, op: OpId, r: Record)
    requires (op, r) in s.flight && op in s.workers
    ensures Possible(c, s, [LateWrite(op, r)])
    ensures var t := After(c, s, [LateWrite(op, r)]); op in t.table.records && t.table.records[op] == r
  {
    OneStepRun(c, s, LateWrite(op, r));
  }

  /** Once its task has returned, nothing changes a terminal status any more, if and
      only if no save of the task with another status is still in flight. */
  lemma ReturnedTerminalIsFinal(c: Setup, s: System, op: OpId)
    requires Inv(c, s) && Followed(c, op) && op in s.workers && s.workers[op].phase.Returned?
    requires op in s.table.records && !Active(s.table.records[op].status)
    ensures var st := s.table.records[op].status; StaysAt(c, s, op, st) <==> FlightHas(s, op, st)
  {
    var st := s.table.records[op].status;
    if FlightHas(s, op, st) {
      forall run | Possible(c, s, run)
        ensures op in After(c, s, run).table.records && After(c, s, run).table.records[op].status == st
      {
        TerminalStays(c, s, run, op);
      }
    } else {
      var r :| (op, r) in s.flight && r.status != st;
      LateWriteShows(c, s, op, r);
    }
  }

  /** Every save in flight agrees on whether the operation is cancelled. */
  ghost predicate FlightSays(s: System, op: OpId, cancelled: bool) {
    forall r :: (op, r) in s.flight ==> r.status.Cancelled? == cancelled
  }

  ghost predicate StaysCancelled(c: Setup, s: System, op: OpId, cancelled: bool) {
    forall run :: Possible(c, s, run) ==>
      op in After(c, s, run).table.records && After(c, s, run).table.records[op].status.Cancelled? == cancelled
  }

  lemma {:induction false} CancelledStays(c: Setup, s: System, run: seq<Action>, op: OpId)
    requires Inv(c, s) && Possible(c, s, run) && Followed(c, op) && op in s.workers && s.workers[op].phase.Returned?
    requires op in s.table.records && FlightSays(s, op, s.table.records[op].status.Cancelled?)
    ensures op in After(c, s, run).table.records
    ensures After(c, s, run).table.records[op].status.Cancelled? == s.table.records[op].status.Cancelled?
    decreases |run|
  {
    if run != [] {
      StepKeepsInv(c, s, run[0]);
      ReturnedStep(c, s, run[0], op);
      CancelledStays(c, Step(c, s, run[0]), run[1..], op);
    }
  }

  /** Nor does anything turn the operation into a cancelled one, or a cancelled one
      into another, again if and only if no save in flight would. */
  lemma ReturnedCancelIsFinal(c: Setup, s: System, op: OpId)
    requires Inv(c, s) && Followed(c, op) && op in s.workers && s.workers[op].phase.Returned? && op in s.table.records
    ensures var cancelled := s.table.records[op].status.Cancelled?;
            StaysCancelled(c, s, op, cancelled) <==> FlightSays(s, op, cancelled)
  {
    var cancelled := s.table.records[op].status.Cancelled?;
    if FlightSays(s, op, cancelled) {
      forall run | Possible(c, s, run)
        ensures op in After(c, s, run).table.records && After(c, s, run).table.records[op].status.Cancelled? == cancelled
      {
        CancelledStays(c, s, run, op);
      }
    } else {
      var r :| (op, r) in s.flight && r.status.Cancelled? != cancelled;
      LateWriteShows(c, s, op, r);
    }
  }

  // ----- One start for a key -----

  /** 1 when the step starts a worker under this key. */
  function Starts(s: System, a: Action, key: IdemKey): nat {
    if a.SaveAdmitted? && a.key == key && I.SaveAdmitted(s.idem, s.now, key, a.op, a.token).1 then 1 else 0
  }

  /** A step starts a worker exactly when the save is accepted from the request that
      holds the admission lease; then there is a worker that has saved nothing yet,
      and a queued record in the index. */
  lemma StartIsSeen(c: Setup, s: System, a: Action, key: IdemKey)
    requires Enabled(c, s, a) && a.SaveAdmitted? && a.key == key
    ensures Starts(s, a, key) == 1 <==>
              && Get(s.idem.keys, key, s.now) == Some(a.op) && Get(s.idem.pending, key, s.now) == Some(a.token)
    ensures Starts(s, a, key) == 1 ==>
              var t := Act(c, s, a);
              && a.op in t.workers && t.workers[a.op] == Worker(a.inst, Admitted, false, false, None)
              && a.op in t.table.records && t.table.records[a.op] == Record(Queued, key) && a.op in t.table.active
    ensures Starts(s, a, key) != 1 ==> Act(c, s, a) == s
  {
  }

  function TotalStarts(c: Setup, s: System, run: seq<Action>, key: IdemKey): nat
    requires Possible(c, s, run)
    decreases |run|
  {
    if run == [] then 0
    else Starts(s, run[0], key) + TotalStarts(c, Step(c, s, run[0]), run[1..], key)
  }

  /** A key without an admission lease belongs to a stored operation, and lives. */
  predicate KeyOk(s: System, key: IdemKey) { KeyLives(s.idem, s.now, key) }

  predicate KeyLives(i: I.Idem, now: int, key: IdemKey) {
    key in i.keys && key !in i.pending ==> i.keys[key].value in i.saved && now < i.keys[key].expiresAt
  }

  lemma CallKeepsKey(i: I.Idem, e: I.Event, key: IdemKey)
    requires KeyLives(i, e.at, key)
    ensures var (t, reply) := I.Step(i, e);
            && KeyLives(t, e.at, key)
            && (Kept(i, key) ==> Kept(t, key) && t.keys[key] == i.keys[key])
            && (Kept(i, key) && e.action.DoSave? && e.action.key == key ==> reply == I.Saved(false))
            && (e.action.DoSave? && e.action.key == key && reply == I.Saved(true) ==> Kept(t, key))
  {
  }

  lemma StepKeepsKey(c: Setup, s: System, a: Action, key: IdemKey)
    requires Enabled(c, s, a) && key in c.keys && KeyOk(s, key)
    ensures var t := Step(c, s, a);
            && KeyOk(t, key)
            && (Kept(s.idem, key) ==> Kept(t.idem, key) && t.idem.keys[key] == s.idem.keys[key] && Starts(s, a, key) == 0)
            && (Starts(s, a, key) == 1 ==> Kept(t.idem, key))
  {
    match a
    case Claim(op, k, token) => CallKeepsKey(s.idem, I.Event(s.now, I.DoClaim(k, op, token)), key);
    case ReleaseKey(op, k, token) => CallKeepsKey(s.idem, I.Event(s.now, I.DoRelease(k, op, token)), key);
    case SaveAdmitted(op, k, token, _) => CallKeepsKey(s.idem, I.Event(s.now, I.DoSave(k, op, token)), key);
    case _ =>
  }

  /** At most one worker is ever started under one live idempotency key, however
      many requests, operation ids, retries and lapsed admissions use it. */
  lemma {:induction false} AtMostOneStartPerKey(c: Setup, s: System, run: seq<Action>, key: IdemKey)
    requires Possible(c, s, run) && key in c.keys && KeyOk(s, key)
    ensures TotalStarts(c, s, run, key) <= if Kept(s.idem, key) then 0 else 1
    decreases |run|
  {
    if run != [] {
      StepKeepsKey(c, s, run[0], key);
      AtMostOneStartPerKey(c, Step(c, s, run[0]), run[1..], key);
    }
  }

  // ----- Where a reopened operation is found -----

  /** A reconciler fails an operation and unindexes it in two commands. A step keeps
      an indexed operation findable as long as none of those is pending and the
      running state cannot be stored again. */
  lemma StepKeepsIndexed(c: Setup, s: System, a: Action, op: OpId)
    requires Inv(c, s) && Enabled(c, s, a) && Followed(c, op) && op in s.workers && RunsLeft(c, s, op) == 0
    requires Settled(s, op)
    ensures op in Step(c, s, a).workers && Settled(Step(c, s, a), op)
  {
    if OnOne(a) && a.op == op {
      InvOwns(c, s, op);
      OwnKeepsIndexed(c, s, a, op);
    } else {
      ElsewhereSame(c, s, a, op);
    }
  }

  predicate Settled(s: System, op: OpId) {
    op in s.table.records && (Active(s.table.records[op].status) ==> op in s.table.active && op !in s.unindexing)
  }

  lemma OwnKeepsIndexed(c: Setup, s: System, a: Action, op: OpId)
    requires Own(c, s, op) && Enabled(c, s, a) && OnOne(a) && a.op == op && RunsLeft(c, s, op) == 0 && Settled(s, op)
    ensures Settled(Act(c, s, a), op)
  {
    if a.LateWrite? { assert Flying(c, s, op, a.record); }
  }

  lemma {:induction false} IndexedStays(c: Setup, s: System, run: seq<Action>, op: OpId)
    requires Inv(c, s) && Possible(c, s, run) && Followed(c, op) && op in s.workers && RunsLeft(c, s, op) == 0
    requires Settled(s, op)
    ensures Findable(After(c, s, run).table, op)
    decreases |run|
  {
    if run != [] {
      StepKeepsInv(c, s, run[0]);
      StepKeepsIndexed(c, s, run[0], op);
      StepSpendsRuns(c, s, run[0], op);
      IndexedStays(c, Step(c, s, run[0]), run[1..], op);
    }
  }

  ghost predicate StaysFindable(c: Setup, s: System, op: OpId) {
    forall run :: Possible(c, s, run) ==> Findable(After(c, s, run).table, op)
  }

  /** An operation that was reopened, and is in the index then, stays where scans
      find it if and only if no reconciler that failed it before has still to
      unindex it. */
  lemma ReopenedStaysFindable(c: Setup, s: System, op: OpId)
    requires Inv(c, s) && Followed(c, op) && op in s.workers && RunsLeft(c, s, op) == 0
    requires op in s.table.records && Active(s.table.records[op].status) && op in s.table.active
    ensures StaysFindable(c, s, op) <==> op !in s.unindexing
  {
    if op !in s.unindexing {
      forall run | Possible(c, s, run) ensures Findable(After(c, s, run).table, op) {
        IndexedStays(c, s, run, op);
      }
    } else {
      OneStepRun(c, s, ReconcilerUnindex(op));
      assert !Findable(After(c, s, [ReconcilerUnindex(op)]).table, op);
    }
  }

  // ----- It happens -----

  lemma Prepend(c: Setup, s: System, a: Action, run: seq<Action>)
    requires Enabled(c, s, a) && Possible(c, Step(c, s, a), run)
    ensures Possible(c, s, [a] + run) && After(c, s, [a] + run) == After(c, Step(c, s, a), run)
  {
    assert ([a] + run)[1..] == run;
  }

  lemma PrependFalls(c: Setup, s: System, a: Action, run: seq<Action>, op: OpId)
    requires Enabled(c, s, a) && Possible(c, Step(c, s, a), run) && Possible(c, s, [a] + run)
    ensures var t := Step(c, s, a);
            var falls := op in s.table.records && op in t.table.records && Rank(t.table.records[op].status) < Rank(s.table.records[op].status);
            Falls(c, s, [a] + run, op) == (if falls then 1 else 0) + Falls(c, t, run, op)
  {
    assert ([a] + run)[1..] == run;
  }

  const OP := OpId("op")
  const KEY := IdemKey("key")
  const INST := InstanceId("inst")
  const TOKEN := Token("token")

  const PAUSED_SETUP := Setup(map[OP := KEY], {KEY}, L.Config(30 * SECOND, 3))

  /** A worker was admitted at instant 0 and has fetched its record to save it; a
      reconciler has fetched that record too. */
  const PAUSED := System(
    0,
    I.Idem(map[KEY := Entry(OP, I.KEY_TTL)], map[], {OP}),
    Table(map[OP := Record(Queued, KEY)], {OP}),
    L.Leases(map[OP := Entry(INST, 30 * SECOND)], map[]),
    map[OP := Worker(INST, Admitted, false, false, Some(Record(Queued, KEY)))],
    multiset{},
    {(OP, Record(Queued, KEY))},
    multiset{})

  const BEGIN := LeaseCall(L.DoBegin(L.Member(INST, OP)))

  /** The same worker before anyone fetched its record. */
  const SPAWNED := PAUSED.(workers := map[OP := Worker(INST, Admitted, false, false, None)], snapshots := {})

  lemma SpawnedIsReachable()
    ensures Enabled(PAUSED_SETUP, Initial(0), Claim(OP, KEY, TOKEN))
    ensures var s1 := Step(PAUSED_SETUP, Initial(0), Claim(OP, KEY, TOKEN));
            Enabled(PAUSED_SETUP, s1, BEGIN)
            && Step(PAUSED_SETUP, Step(PAUSED_SETUP, s1, BEGIN), SaveAdmitted(OP, KEY, TOKEN, INST)) == SPAWNED
  {
  }

  lemma PausedIsReachable() returns (run: seq<Action>)
    ensures Possible(PAUSED_SETUP, Initial(0), run) && After(PAUSED_SETUP, Initial(0), run) == PAUSED
  {
    var c := PAUSED_SETUP;
    var s1 := Step(c, Initial(0), Claim(OP, KEY, TOKEN));
    SpawnedIsReachable();
    PausedFollows();
    var s2 := Step(c, s1, BEGIN);
    run := [WorkerRead(OP), ReconcilerRead(OP)];
    Prepend(c, s2, SaveAdmitted(OP, KEY, TOKEN, INST), run);
    run := [SaveAdmitted(OP, KEY, TOKEN, INST)] + run;
    Prepend(c, s1, BEGIN, run);
    run := [BEGIN] + run;
    Prepend(c, Initial(0), Claim(OP, KEY, TOKEN), run);
    run := [Claim(OP, KEY, TOKEN)] + run;
  }

  lemma PausedFollows()
    ensures Possible(PAUSED_SETUP, SPAWNED, [WorkerRead(OP), ReconcilerRead(OP)])
    ensures After(PAUSED_SETUP, SPAWNED, [WorkerRead(OP), ReconcilerRead(OP)]) == PAUSED
  {
    var c := PAUSED_SETUP;
    var s4 := Step(c, SPAWNED, WorkerRead(OP));
    assert s4.workers == PAUSED.workers;
    assert Step(c, s4, ReconcilerRead(OP)) == PAUSED;
    OneStepRun(c, s4, ReconcilerRead(OP));
    Prepend(c, SPAWNED, WorkerRead(OP), [ReconcilerRead(OP)]);
    assert [WorkerRead(OP)] + [ReconcilerRead(OP)] == [WorkerRead(OP), ReconcilerRead(OP)];
  }

  lemma PausedHolds()
    ensures Inv(PAUSED_SETUP, PAUSED) && Followed(PAUSED_SETUP, OP)
  {
    InitialHolds(PAUSED_SETUP, 0);
    var past := PausedIsReachable();
    InvHolds(PAUSED_SETUP, Initial(0), past);
  }

  /** The worker after a reconciler failed its operation, a whole lease later. */
  const FAILED_FIRST := PAUSED.(
    now := 30 * SECOND,
    table := Table(map[OP := Record(Failed, KEY)], {OP}),
    workers := map[OP := Worker(INST, Admitted, true, false, Some(Record(Queued, KEY)))],
    unindexing := multiset{OP})

  lemma PausedFails()
    ensures Enabled(PAUSED_SETUP, PAUSED, Tick(30 * SECOND))
    ensures var s1 := Step(PAUSED_SETUP, PAUSED, Tick(30 * SECOND));
            && Enabled(PAUSED_SETUP, s1, ReconcilerFail(OP, Record(Queued, KEY)))
            && Step(PAUSED_SETUP, s1, ReconcilerFail(OP, Record(Queued, KEY))) == FAILED_FIRST
  {
    var s1 := Step(PAUSED_SETUP, PAUSED, Tick(30 * SECOND));
    assert s1.workers == FAILED_FIRST.workers;
    assert Step(PAUSED_SETUP, s1, ReconcilerFail(OP, Record(Queued, KEY))).workers == FAILED_FIRST.workers;
  }

  /** It happens to a worker that is paused for a lease before its first save: the
      save lands between the reconciler's failure of the operation and its removal
      from the index. The operation is left running, owned by nobody, and in no
      index: no scan of the index finds it, whoever owns what. */
  lemma LateFirstSaveIsLost() returns (run: seq<Action>)
    ensures Possible(PAUSED_SETUP, PAUSED, run) && Falls(PAUSED_SETUP, PAUSED, run, OP) == 1
    ensures var v := After(PAUSED_SETUP, PAUSED, run); v.table == LOST && Get(v.leases.owners, OP, v.now).None?
    ensures forall owners, now {:trigger Stale(LOST, owners, now, OP)} :: !Stale(LOST, owners, now, OP)
  {
    var c, fail := PAUSED_SETUP, ReconcilerFail(OP, Record(Queued, KEY));
    var s1 := Step(c, PAUSED, Tick(30 * SECOND));
    PausedFails();
    run := SaveIsUnindexed();
    Prepend(c, s1, fail, run);
    PrependFalls(c, s1, fail, run, OP);
    run := [fail] + run;
    Prepend(c, PAUSED, Tick(30 * SECOND), run);
    PrependFalls(c, PAUSED, Tick(30 * SECOND), run, OP);
    run := [Tick(30 * SECOND)] + run;
  }

  /** Running, and not in the index. */
  const LOST := Table(map[OP := Record(Running, KEY)], {})

  lemma SaveIsUnindexed() returns (run: seq<Action>)
    ensures Possible(PAUSED_SETUP, FAILED_FIRST, run) && Falls(PAUSED_SETUP, FAILED_FIRST, run, OP) == 1
    ensures var v := After(PAUSED_SETUP, FAILED_FIRST, run); v.table == LOST && Get(v.leases.owners, OP, v.now).None?
  {
    var c := PAUSED_SETUP;
    var s3 := Step(c, FAILED_FIRST, WorkerWrite(OP, Running));
    assert s3.table == LOST.(active := {OP}) && s3.unindexing == multiset{OP};
    assert s3.leases == PAUSED.leases && s3.now == 30 * SECOND;
    OneStepRun(c, s3, ReconcilerUnindex(OP));
    run := [ReconcilerUnindex(OP)];
    assert [ReconcilerUnindex(OP)][1..] == [] && Falls(c, s3, run, OP) == 0;
    Prepend(c, FAILED_FIRST, WorkerWrite(OP, Running), run);
    PrependFalls(c, FAILED_FIRST, WorkerWrite(OP, Running), run, OP);
    run := [WorkerWrite(OP, Running)] + run;
  }

  const RUNNING_SENT := Record(Running, KEY)

  /** The worker after a cancel landed on its first save: it stored cancelled and
      returned, and the save was sent. */
  const CANCELLED := PAUSED.(
    table := Table(map[OP := Record(Cancelled, KEY)], {}),
    workers := map[OP := Worker(INST, Returned, false, false, None)],
    flight := multiset{(OP, RUNNING_SENT)})

  /** It happens to a cancel that took effect: the first save was sent when the
      cancel landed on it, cancelled was stored, the task returned, and then the
      save is executed. */
  lemma LateSaveUndoesCancel() returns (run: seq<Action>)
    ensures Possible(PAUSED_SETUP, PAUSED, run) && After(PAUSED_SETUP, PAUSED, run) == CANCELLED
    ensures Possible(PAUSED_SETUP, CANCELLED, [LateWrite(OP, RUNNING_SENT)])
    ensures After(PAUSED_SETUP, CANCELLED, [LateWrite(OP, RUNNING_SENT)]).table == LOST.(active := {OP})
  {
    var c := PAUSED_SETUP;
    OneStepRun(c, CANCELLED, LateWrite(OP, RUNNING_SENT));
    var s1 := GiveUp();
    run := CancelAndReturn(s1);
    Prepend(c, PAUSED, WorkerAbandon(OP, Running), run);
    run := [WorkerAbandon(OP, Running)] + run;
  }

  lemma GiveUp() returns (s1: System)
    ensures Enabled(PAUSED_SETUP, PAUSED, WorkerAbandon(OP, Running)) && s1 == Step(PAUSED_SETUP, PAUSED, WorkerAbandon(OP, Running))
    ensures s1 == PAUSED.(workers := map[OP := Worker(INST, Handling, false, false, None)], flight := multiset{(OP, RUNNING_SENT)})
  {
    s1 := Step(PAUSED_SETUP, PAUSED, WorkerAbandon(OP, Running));
    assert s1.workers == map[OP := Worker(INST, Handling, false, false, None)];
  }

  lemma CancelAndReturn(s1: System) returns (run: seq<Action>)
    requires s1 == PAUSED.(workers := map[OP := Worker(INST, Handling, false, false, None)], flight := multiset{(OP, RUNNING_SENT)})
    ensures Possible(PAUSED_SETUP, s1, run) && After(PAUSED_SETUP, s1, run) == CANCELLED
  {
    var c := PAUSED_SETUP;
    var s2 := Step(c, s1, WorkerRead(OP));
    assert s2.workers == map[OP := Worker(INST, Handling, false, false, Some(Record(Queued, KEY)))];
    var s3 := Step(c, s2, WorkerWrite(OP, Cancelled));
    assert s3.workers == map[OP := Worker(INST, Finished, false, false, None)];
    assert Step(c, s3, WorkerReturn(OP)).workers == CANCELLED.workers;
    assert Step(c, s3, WorkerReturn(OP)) == CANCELLED;
    OneStepRun(c, s3, WorkerReturn(OP));
    run := [WorkerReturn(OP)];
    Prepend(c, s2, WorkerWrite(OP, Cancelled), run);
    run := [WorkerWrite(OP, Cancelled)] + run;
    Prepend(c, s1, WorkerRead(OP), run);
    run := [WorkerRead(OP)] + run;
  }

  /** The ordinary life: admitted, stored running, then stored with its result, which
      takes it out of the index. */
  lemma OrdinaryLife(result: Status) returns (run: seq<Action>)
    requires !Active(result)
    ensures Possible(PAUSED_SETUP, SPAWNED, run)
    ensures After(PAUSED_SETUP, SPAWNED, run).table == Table(map[OP := Record(result, KEY)], {})
  {
    run := LifeFrom(result, SPAWNED);
  }

  lemma LifeFrom(result: Status, s: System) returns (run: seq<Action>)
    requires !Active(result) && s.workers.Keys == {OP} && s.workers[OP].phase.Admitted?
    requires s.table.records.Keys == {OP} && s.table.records[OP].key == KEY && s.table.active <= {OP}
    ensures Possible(PAUSED_SETUP, s, run)
    ensures After(PAUSED_SETUP, s, run).table == Table(map[OP := Record(result, KEY)], {})
  {
    var c := PAUSED_SETUP;
    var s1 := SaveOnce(Running, Started, s);
    var s2 := SaveOnce(result, Finished, s1);
    OneStepRun(c, s2, WorkerReturn(OP));
    run := PrependSave(c, s1, result, [WorkerReturn(OP)]);
    run := PrependSave(c, s, Running, run);
  }

  lemma PrependSave(c: Setup, s: System, st: Status, rest: seq<Action>) returns (run: seq<Action>)
    requires Enabled(c, s, WorkerRead(OP)) && Enabled(c, Step(c, s, WorkerRead(OP)), WorkerWrite(OP, st))
    requires Possible(c, Step(c, Step(c, s, WorkerRead(OP)), WorkerWrite(OP, st)), rest)
    ensures Possible(c, s, run)
    ensures After(c, s, run) == After(c, Step(c, Step(c, s, WorkerRead(OP)), WorkerWrite(OP, st)), rest)
  {
    Prepend(c, Step(c, s, WorkerRead(OP)), WorkerWrite(OP, st), rest);
    run := [WorkerWrite(OP, st)] + rest;
    Prepend(c, s, WorkerRead(OP), run);
    run := [WorkerRead(OP)] + run;
  }

  /** One save of the only worker, read and write. */
  lemma SaveOnce(st: Status, phase: Phase, s: System) returns (t: System)
    requires s.workers.Keys == {OP} && s.table.records.Keys == {OP} && s.table.records[OP].key == KEY
    requires MaySave(s.workers[OP].phase, st) && phase == (if Active(st) then Started else Finished)
    ensures Enabled(PAUSED_SETUP, s, WorkerRead(OP))
    ensures Enabled(PAUSED_SETUP, Step(PAUSED_SETUP, s, WorkerRead(OP)), WorkerWrite(OP, st))
    ensures t == Step(PAUSED_SETUP, Step(PAUSED_SETUP, s, WorkerRead(OP)), WorkerWrite(OP, st))
    ensures t.workers.Keys == {OP} && t.workers[OP].phase == phase
    ensures t.table.records == map[OP := Record(st, KEY)]
    ensures OP in t.table.active <==> Active(st)
    ensures t.table.active <= s.table.active + {OP}
  {
    t := Step(PAUSED_SETUP, Step(PAUSED_SETUP, s, WorkerRead(OP)), WorkerWrite(OP, st));
    assert t.table.records.Keys == {OP};
  }
}
