/** The background research task of one operation, await by await. Any await may complete, raise, or deliver one of
    any number of cancellations; a storage call that was sent may be executed by
    the server at any later time, also after its caller gave up on it. */
module BackgroundTask {
  import opened Keyspace
  import opened SpendLedger
  import W = ShieldedWaits

  // ----- The task -----

  /** The awaits of the try block before the result is stored. */
  datatype Work = SavingRunning | ReportingStart | Researching | SavingResult

  /** The cancellation-safe waits of the finally block. */
  datatype Wait = IngestWait | SpendWait | LeaseWait | SlotWait

  /** `Handling` is an except block storing a terminal state, then reporting it. */
  datatype Pc =
    | NotStarted
    | Working(work: Work)
    | ReportingResult | Reconciling | Scheduling
    | Handling(stored: bool)
    | Waiting(wait: Wait)
    | Ended | NeverRan

  /** `holding` says that the operation was admitted with a spend hold of
      `amount`; otherwise its accounting is delegated. A timer may fire up to `lag`
      late, and the step after a wait begin that much later. */
  datatype Config = Config(op: OpId, holding: bool, amount: int, limit: int, lag: nat)

  /** `flight` are settling calls sent and not yet executed. `settlements` counts
      executions that removed the hold, `credited` the money they gave back. */
  datatype Money = Money(
    ledger: Ledger,
    flight: set<Call>,
    settlements: nat,
    credited: int,
    windowOver: bool)

  datatype Clock = Clock(now: int, finallyAt: int, deadline: int, endedAt: int)

  /** `reconciled` is the task's own flag that the hold is no longer its to
      release; `settleFailed` records that a settling call raised or timed out. */
  datatype Task = Task(
    pc: Pc,
    reconciled: bool,
    ingest: bool,
    settleFailed: bool,
    cleanups: seq<W.Cleanup>,
    clock: Clock,
    money: Money)

  datatype Event =
    | Tick(d: int)
    | Return
    | Raise
    | Cancel
    | LoseLease
    | TimeOut
    | ScheduleIngest
    | Execute(call: Call)
    | Others(call: Call)
    | NewWindow

  predicate Awaiting(pc: Pc) {
    !pc.Scheduling? && !pc.Ended? && !pc.NeverRan?
  }

  /** The hold is still this task's to release. */
  predicate Due(c: Config, t: Task) { c.holding && !t.reconciled }

  predicate Enabled(c: Config, t: Task, e: Event) {
    match e
    case Tick(d) => 0 <= d && (t.pc.Waiting? ==> t.clock.now + d <= t.clock.deadline + c.lag)
    case Return =>
      // A call that reports success has been executed.
      && !t.pc.Ended? && !t.pc.NeverRan?
      && (t.pc.Reconciling? ==> Reconcile(c.op, 0) !in t.money.flight)
      && (t.pc == Waiting(SpendWait) ==> Release(c.op) !in t.money.flight)
    case Raise => (Awaiting(t.pc) && !t.pc.NotStarted?) || t.pc.Scheduling?
    case Cancel => Awaiting(t.pc)
    case LoseLease => t.pc == Working(Researching)
    case TimeOut => t.pc.Waiting? && t.clock.deadline <= t.clock.now
    case ScheduleIngest => t.pc.Scheduling?
    case Execute(call) => call in t.money.flight
    case Others(call) => call.op != c.op && Admissible(call) && (call.Reconcile? ==> call.actual == 0)
    case NewWindow => true
  }

  // The finally block, entered from any exit of the try block.

  function Begin(t: Task, w: Wait, timeout: int, begun: seq<W.Cleanup>): Task {
    t.(pc := Waiting(w), cleanups := t.cleanups + begun, clock := t.clock.(deadline := t.clock.now + timeout))
  }

  function EnterFinally(c: Config, t: Task): Task {
    var u := t.(clock := t.clock.(finallyAt := t.clock.now));
    if t.ingest then Begin(u, IngestWait, W.INGEST_WAIT, []) else ToSpend(c, u)
  }

  function ToSpend(c: Config, t: Task): Task {
    if Due(c, t) then Begin(Send(t, Release(c.op)), SpendWait, W.RELEASE_WAIT, [W.Spend]) else ToLease(t)
  }

  function ToLease(t: Task): Task { Begin(t, LeaseWait, W.RELEASE_WAIT, [W.Lease]) }

  function ToSlot(t: Task): Task { Begin(t, SlotWait, W.RELEASE_WAIT, [W.Slot]) }

  function ToEnd(t: Task): Task {
    t.(pc := Ended, cleanups := t.cleanups + [W.Unregister], clock := t.clock.(endedAt := t.clock.now))
  }

  function Send(t: Task, call: Call): Task {
    t.(money := t.money.(flight := t.money.flight + {call}))
  }

  function ToReconcile(c: Config, t: Task): Task {
    if c.holding then Send(t, Reconcile(c.op, 0)).(pc := Reconciling)
    else t.(pc := Scheduling, reconciled := true)
  }

  /** A wait of the cleanup is over, whichever way. */
  function WaitOver(c: Config, t: Task, failed: bool): Task
    requires t.pc.Waiting?
  {
    match t.pc.wait
    case IngestWait => ToSpend(c, t)
    case SpendWait => ToLease(t.(settleFailed := t.settleFailed || failed))
    case LeaseWait => ToSlot(t)
    case SlotWait => ToEnd(t)
  }

  function AfterWork(w: Work): Pc {
    match w
    case SavingRunning => Working(ReportingStart)
    case ReportingStart => Working(Researching)
    case Researching => Working(SavingResult)
    case SavingResult => ReportingResult
  }

  /** What an await's normal completion leads to. */
  function Returned(c: Config, t: Task): Task
    requires Enabled(c, t, Return)
  {
    match t.pc
    case NotStarted => t.(pc := Working(SavingRunning))
    case Working(w) => t.(pc := AfterWork(w))
    case ReportingResult => ToReconcile(c, t)
    case Reconciling => t.(pc := Scheduling, reconciled := true)
    case Scheduling => EnterFinally(c, t)
    case Handling(stored) => if stored then EnterFinally(c, t) else t.(pc := Handling(true))
    case Waiting(_) => WaitOver(c, t, false)
  }

  /** What an exception other than a cancellation leads to. Terminal progress
      reports are best effort; a failed reconciliation keeps the hold; a handler
      that raises goes straight to the finally block. */
  function OnRaise(c: Config, t: Task): Task
    requires Enabled(c, t, Raise)
  {
    match t.pc
    case Working(_) => t.(pc := Handling(false))
    case ReportingResult => ToReconcile(c, t)
    case Reconciling => t.(pc := Scheduling, reconciled := true, settleFailed := true)
    case Scheduling => t.(pc := Handling(false))
    case Handling(_) => EnterFinally(c, t)
    case Waiting(_) => WaitOver(c, t, true)
  }

  /** Where a cancellation lands. In cleanup the loop around the wait looks at its
      deadline again: it gives up if that is over, and else waits for what is left
      of it. A task that has not run its first step dies without entering the
      function at all. */
  function Cancelled(c: Config, t: Task): Task
    requires Enabled(c, t, Cancel)
  {
    match t.pc
    case NotStarted => t.(pc := NeverRan)
    case Handling(_) => EnterFinally(c, t)
    case Waiting(_) => if t.clock.deadline <= t.clock.now then WaitOver(c, t, true) else t
    case _ => t.(pc := Handling(false))
  }

  function Executed(c: Config, m: Money, call: Call): Money {
    var after := Apply(m.ledger, c.limit, call).0;
    m.(ledger := after,
       flight := m.flight - {call},
       settlements := if c.op in m.ledger.holds && c.op !in after.holds then m.settlements + 1 else m.settlements,
       credited := m.credited + m.ledger.total - after.total)
  }

  function Step(c: Config, t: Task, e: Event): Task
    requires Enabled(c, t, e)
  {
    match e
    case Tick(d) => t.(clock := t.clock.(now := t.clock.now + d))
    case Return => Returned(c, t)
    case Raise => OnRaise(c, t)
    case Cancel => Cancelled(c, t)
    case LoseLease => EnterFinally(c, t)
    case TimeOut => WaitOver(c, t, true)
    case ScheduleIngest => EnterFinally(c, t.(ingest := true))
    case Execute(call) => t.(money := Executed(c, t.money, call))
    case Others(call) => t.(money := t.money.(ledger := Apply(t.money.ledger, c.limit, call).0))
    case NewWindow => t.(money := t.money.(ledger := EMPTY, windowOver := true))
  }

  // ----- Invariants -----

  /** The releases begun by each point of the cleanup. */
  function Begun(pc: Pc, due: bool): seq<W.Cleanup> {
    var spend := if due then [] + [W.Spend] else [];
    if pc == Waiting(SpendWait) then [] + [W.Spend]
    else if pc == Waiting(LeaseWait) then spend + [W.Lease]
    else if pc == Waiting(SlotWait) then spend + [W.Lease] + [W.Slot]
    else if pc.Ended? then spend + [W.Lease] + [W.Slot] + [W.Unregister]
    else []
  }

  /** How long after entering `finally` the deadline of each wait may be. */
  function Allowance(c: Config, w: Wait, ingest: bool, due: bool): int {
    var before := if ingest then W.INGEST_WAIT + c.lag else if due then W.RELEASE_WAIT + c.lag else 0;
    match w
    case IngestWait => W.INGEST_WAIT
    case SpendWait => W.RELEASE_WAIT
    case LeaseWait => before + W.RELEASE_WAIT
    case SlotWait => before + W.RELEASE_WAIT + c.lag + W.RELEASE_WAIT
  }

  predicate CleanupInOrder(c: Config, t: Task) {
    && t.cleanups == Begun(t.pc, Due(c, t))
    && (t.pc == Waiting(SpendWait) ==> Due(c, t))
    // An ingest is scheduled only once no release of the hold is due any more.
    && (t.ingest ==> !Due(c, t))
    && (t.pc == Waiting(IngestWait) ==> t.ingest)
    && (t.pc.Scheduling? ==> t.reconciled)
    && (t.pc.Waiting? ==> t.clock.now <= t.clock.deadline + c.lag && t.clock.deadline <= t.clock.finallyAt + Allowance(c, t.pc.wait, t.ingest, Due(c, t)))
    && (t.pc.Ended? ==> t.clock.endedAt <= t.clock.finallyAt + Allowance(c, SlotWait, t.ingest, Due(c, t)) + c.lag)
  }

  /** While the window lasts, either the hold is there untouched, or exactly one
      call took it away and gave back its amount; and the ledger's total is
      exactly its holds. */
  ghost predicate Accounted(c: Config, m: Money) {
    && Funded(m.ledger, c.limit) && Sum(m.ledger.holds) == m.ledger.total
    && m.flight <= {Reconcile(c.op, 0), Release(c.op)}
    && (c.op in m.ledger.holds ==>
          c.holding && !m.windowOver && m.ledger.holds[c.op] == c.amount && m.settlements == 0)
    && (c.holding && !m.windowOver && c.op !in m.ledger.holds ==> m.settlements == 1)
    && m.settlements <= 1
    && m.credited == m.settlements * c.amount
  }

  /** A settling call that was executed, or reported done, left no hold behind;
      and before the task starts nobody has sent one. */
  predicate Settled(c: Config, t: Task) {
    var held := c.op in t.money.ledger.holds;
    && (held && t.pc.Reconciling? ==> Reconcile(c.op, 0) in t.money.flight)
    && (held && t.pc == Waiting(SpendWait) ==> Release(c.op) in t.money.flight)
    && (held && t.reconciled ==> t.settleFailed)
    && (held && (t.pc == Waiting(LeaseWait) || t.pc == Waiting(SlotWait) || t.pc.Ended?) ==> t.settleFailed)
    && (t.pc.NotStarted? || t.pc.NeverRan? ==>
          t.money.flight == {} && (c.holding && !t.money.windowOver ==> held))
  }

  ghost predicate Inv(c: Config, t: Task) {
    CleanupInOrder(c, t) && Accounted(c, t.money) && Settled(c, t)
  }

  /** The task as admission hands it over, its hold reserved among others. */
  ghost predicate Initial(c: Config, t: Task) {
    && t.pc.NotStarted? && !t.reconciled && !t.ingest && !t.settleFailed && t.cleanups == []
    && t.money.flight == {} && t.money.settlements == 0 && t.money.credited == 0 && !t.money.windowOver
    && 0 <= c.limit && Funded(t.money.ledger, c.limit) && Sum(t.money.ledger.holds) == t.money.ledger.total
    && (c.op in t.money.ledger.holds <==> c.holding)
    && (c.holding ==> t.money.ledger.holds[c.op] == c.amount)
  }

  // Entering each wait from a point where the waits so far kept to their order
  // and their time.

  lemma LeaseInOrder(c: Config, t: Task)
    requires t.cleanups == (if Due(c, t) then [W.Spend] else []) && (t.ingest ==> !Due(c, t))
    requires t.clock.now <= t.clock.finallyAt + Allowance(c, LeaseWait, t.ingest, Due(c, t)) - W.RELEASE_WAIT
    ensures CleanupInOrder(c, ToLease(t))
  {
  }

  lemma SpendInOrder(c: Config, t: Task)
    requires t.cleanups == [] && (t.ingest ==> !Due(c, t))
    requires t.clock.now <= t.clock.finallyAt + if t.ingest then W.INGEST_WAIT + c.lag else 0
    ensures CleanupInOrder(c, ToSpend(c, t))
  {
    if !Due(c, t) { LeaseInOrder(c, t); }
  }

  lemma FinallyInOrder(c: Config, t: Task)
    requires t.cleanups == [] && (t.ingest ==> !Due(c, t))
    ensures CleanupInOrder(c, EnterFinally(c, t))
  {
    if !t.ingest { SpendInOrder(c, t.(clock := t.clock.(finallyAt := t.clock.now))); }
  }

  lemma WaitEndsInOrder(c: Config, t: Task, failed: bool)
    requires CleanupInOrder(c, t) && t.pc.Waiting?
    ensures CleanupInOrder(c, WaitOver(c, t, failed))
  {
    match t.pc.wait
    case IngestWait => SpendInOrder(c, t);
    case SpendWait => LeaseInOrder(c, t.(settleFailed := t.settleFailed || failed));
    case LeaseWait =>
    case SlotWait =>
  }

  lemma StepKeepsCleanup(c: Config, t: Task, e: Event)
    requires CleanupInOrder(c, t) && Enabled(c, t, e)
    ensures CleanupInOrder(c, Step(c, t, e))
  {
    if t.pc.Waiting? {
      if e.Return? || e.Raise? || e.TimeOut? || e.Cancel? { WaitEndsInOrder(c, t, !e.Return?); }
    } else {
      match e
      case Return => ReturnInOrder(c, t);
      case Raise => RaiseInOrder(c, t);
      case Cancel => CancelInOrder(c, t);
      case LoseLease => FinallyInOrder(c, t);
      case ScheduleIngest => FinallyInOrder(c, t.(ingest := true));
      case _ =>
    }
  }

  lemma ReturnInOrder(c: Config, t: Task)
    requires CleanupInOrder(c, t) && Enabled(c, t, Return) && !t.pc.Waiting?
    ensures CleanupInOrder(c, Returned(c, t))
  {
    FinallyInOrder(c, t);
  }

  lemma RaiseInOrder(c: Config, t: Task)
    requires CleanupInOrder(c, t) && Enabled(c, t, Raise) && !t.pc.Waiting?
    ensures CleanupInOrder(c, OnRaise(c, t))
  {
    FinallyInOrder(c, t);
  }

  lemma CancelInOrder(c: Config, t: Task)
    requires CleanupInOrder(c, t) && Enabled(c, t, Cancel) && !t.pc.Waiting?
    ensures CleanupInOrder(c, Cancelled(c, t))
  {
    FinallyInOrder(c, t);
  }

  predicate OnLedger(e: Event) { e.Execute? || e.Others? || e.NewWindow? }

  /** The later state has only put more of the task's own calls in flight. */
  predicate OnlySent(c: Config, before: Money, after: Money) {
    && after == before.(flight := after.flight)
    && before.flight <= after.flight <= before.flight + {Reconcile(c.op, 0), Release(c.op)}
  }

  lemma FinallyOnlySends(c: Config, t: Task)
    ensures OnlySent(c, t.money, EnterFinally(c, t).money)
  {
  }

  /** Everything the task does by itself only puts calls in flight. */
  lemma TaskOnlySends(c: Config, t: Task, e: Event)
    requires Enabled(c, t, e) && !OnLedger(e)
    ensures OnlySent(c, t.money, Step(c, t, e).money)
  {
    if t.pc.Waiting? {
      WaitOnlySends(c, t, e);
    } else if e.ScheduleIngest? {
      FinallyOnlySends(c, t.(ingest := true));
    } else {
      FinallyOnlySends(c, t);
      match e
      case Return => assert OnlySent(c, t.money, Returned(c, t).money);
      case Raise => assert OnlySent(c, t.money, OnRaise(c, t).money);
      case Cancel => assert OnlySent(c, t.money, Cancelled(c, t).money);
      case _ =>
    }
  }

  lemma WaitOnlySends(c: Config, t: Task, e: Event)
    requires Enabled(c, t, e) && !OnLedger(e) && t.pc.Waiting?
    ensures OnlySent(c, t.money, Step(c, t, e).money)
  {
  }

  lemma ExecutionKeepsAccounts(c: Config, m: Money, call: Call)
    requires Accounted(c, m) && call in m.flight && 0 <= c.limit
    ensures Accounted(c, Executed(c, m, call)) && c.op !in Executed(c, m, call).ledger.holds
  {
    ApplyKeepsFunded(m.ledger, c.limit, call);
  }

  lemma StepKeepsAccounts(c: Config, t: Task, e: Event)
    requires Accounted(c, t.money) && Enabled(c, t, e) && 0 <= c.limit
    ensures Accounted(c, Step(c, t, e).money)
  {
    match e
    case Execute(call) => ExecutionKeepsAccounts(c, t.money, call);
    case Others(call) => ApplyKeepsFunded(t.money.ledger, c.limit, call);
    case NewWindow => assert Sum(EMPTY.holds) == 0;
    case _ => TaskOnlySends(c, t, e);
  }

  lemma StepKeepsSettled(c: Config, t: Task, e: Event)
    requires Inv(c, t) && Enabled(c, t, e) && 0 <= c.limit
    ensures Settled(c, Step(c, t, e))
  {
    if e.Execute? {
      ExecutionKeepsAccounts(c, t.money, e.call);
    } else if !OnLedger(e) {
      TaskOnlySends(c, t, e);
      if t.pc.Waiting? { WaitKeepsSettled(c, t, e); } else { WorkKeepsSettled(c, t, e); }
    }
  }

  lemma WaitKeepsSettled(c: Config, t: Task, e: Event)
    requires Inv(c, t) && Enabled(c, t, e) && !OnLedger(e) && t.pc.Waiting?
    ensures Settled(c, Step(c, t, e))
  {
    if e.Return? || e.Raise? || e.TimeOut? || e.Cancel? { WaitOverKeepsSettled(c, t, !e.Return?); }
  }

  lemma WaitOverKeepsSettled(c: Config, t: Task, failed: bool)
    requires Inv(c, t) && t.pc.Waiting?
    requires t.pc == Waiting(SpendWait) && !failed ==> Release(c.op) !in t.money.flight
    ensures Settled(c, WaitOver(c, t, failed))
  {
  }

  lemma FinallyKeepsSettled(c: Config, t: Task)
    requires CleanupInOrder(c, t) && Accounted(c, t.money)
    requires c.op in t.money.ledger.holds && t.reconciled ==> t.settleFailed
    ensures Settled(c, EnterFinally(c, t))
  {
  }

  lemma WorkKeepsSettled(c: Config, t: Task, e: Event)
    requires Inv(c, t) && Enabled(c, t, e) && !OnLedger(e) && !t.pc.Waiting?
    ensures Settled(c, Step(c, t, e))
  {
    match e
    case Return => ReturnKeepsSettled(c, t);
    case Raise => RaiseKeepsSettled(c, t);
    case Cancel => CancelKeepsSettled(c, t);
    case ScheduleIngest => FinallyKeepsSettled(c, t.(ingest := true));
    case LoseLease => FinallyKeepsSettled(c, t);
    case _ =>
  }

  lemma ReturnKeepsSettled(c: Config, t: Task)
    requires Inv(c, t) && Enabled(c, t, Return) && !t.pc.Waiting?
    ensures Settled(c, Returned(c, t))
  {
    FinallyKeepsSettled(c, t);
  }

  lemma RaiseKeepsSettled(c: Config, t: Task)
    requires Inv(c, t) && Enabled(c, t, Raise) && !t.pc.Waiting?
    ensures Settled(c, OnRaise(c, t))
  {
    FinallyKeepsSettled(c, t);
  }

  lemma CancelKeepsSettled(c: Config, t: Task)
    requires Inv(c, t) && Enabled(c, t, Cancel) && !t.pc.Waiting?
    ensures Settled(c, Cancelled(c, t))
  {
    FinallyKeepsSettled(c, t);
  }

  ghost predicate Possible(c: Config, t: Task, run: seq<Event>)
    decreases |run|
  {
    run != [] ==> Enabled(c, t, run[0]) && Possible(c, Step(c, t, run[0]), run[1..])
  }

  function After(c: Config, t: Task, run: seq<Event>): Task
    requires Possible(c, t, run)
    decreases |run|
  {
    if run == [] then t else After(c, Step(c, t, run[0]), run[1..])
  }

  lemma {:induction false} InvHolds(c: Config, t: Task, run: seq<Event>)
    requires Inv(c, t) && 0 <= c.limit && Possible(c, t, run)
    ensures Inv(c, After(c, t, run))
    decreases |run|
  {
    if run != [] {
      StepKeepsCleanup(c, t, run[0]);
      StepKeepsAccounts(c, t, run[0]);
      StepKeepsSettled(c, t, run[0]);
      InvHolds(c, Step(c, t, run[0]), run[1..]);
    }
  }

  // ----- What holds in every run -----

  /** The hold leaves the total at most once and for exactly its amount, wherever
      cancellations land, also when a reconciliation of unknown outcome is
      followed by a release and either is executed late. When the task has ended
      the hold is gone, unless the settling call itself failed or timed out. */
  lemma HoldSettledOnce(c: Config, t: Task, run: seq<Event>)
    requires Initial(c, t) && Possible(c, t, run)
    ensures var u := After(c, t, run);
            && u.money.settlements <= 1 && u.money.credited == u.money.settlements * c.amount
            && (u.pc.Ended? && !u.settleFailed ==> c.op !in u.money.ledger.holds)
            && (c.holding && !u.money.windowOver && c.op !in u.money.ledger.holds ==> u.money.credited == c.amount)
            && Sum(u.money.ledger.holds) == u.money.ledger.total
  {
    assert Inv(c, t);
    InvHolds(c, t, run);
  }

  /** However many cancellations arrive: a task that ended began every due
      release exactly once, the hold first if it was due, then the lease, then
      the slot, and unregistered last; it was never waiting for an ingest with
      its hold unsettled; and it ended in less time from entering `finally` than
      shutdown waits for it, unless timers fire late by more than two thirds of
      the time of a release. */
  lemma CleanupIsComplete(c: Config, t: Task, run: seq<Event>)
    requires Initial(c, t) && Possible(c, t, run)
    ensures var u := After(c, t, run);
            && (u.pc.Ended? ==>
                  && u.cleanups == (if Due(c, u) then [W.Spend] else []) + [W.Lease, W.Slot, W.Unregister]
                  && (3 * c.lag < 2 * W.RELEASE_WAIT ==> u.clock.endedAt - u.clock.finallyAt < W.QUIESCE_WAIT))
            && (u.ingest ==> !Due(c, u))
            && (u.pc.Waiting? && 3 * c.lag < 2 * W.RELEASE_WAIT ==> u.clock.now - u.clock.finallyAt < W.QUIESCE_WAIT)
  {
    assert Inv(c, t);
    InvHolds(c, t, run);
  }

  // ----- What gets stored, reconciled and scheduled -----

  /** Points of the task from which it may still have to store a terminal state. */
  predicate Unstored(pc: Pc) { pc.NotStarted? || pc.Working? || pc == Handling(false) }

  /** The step stores a result, or a failed or cancelled state. */
  predicate StoresTerminal(t: Task, e: Event) {
    e.Return? && (t.pc == Working(SavingResult) || t.pc == Handling(false))
  }

  /** The step gives that up: the lease is lost, or the handler's own save fails. */
  predicate GivesUp(t: Task, e: Event) {
    (e.LoseLease? && t.pc == Working(Researching)) || ((e.Raise? || e.Cancel?) && t.pc == Handling(false))
  }

  predicate StoredOrGivenUp(c: Config, t: Task, run: seq<Event>)
    requires Possible(c, t, run)
    decreases |run|
  {
    run != [] && (StoresTerminal(t, run[0]) || GivesUp(t, run[0]) || StoredOrGivenUp(c, Step(c, t, run[0]), run[1..]))
  }

  /** A task that ends has stored a terminal state, unless it lost its lease or the
      save of that state itself failed or was cancelled. */
  lemma {:induction false} EndedIsStored(c: Config, t: Task, run: seq<Event>)
    requires Unstored(t.pc) && Possible(c, t, run)
    ensures After(c, t, run).pc.Ended? ==> StoredOrGivenUp(c, t, run)
    decreases |run|
  {
    if run != [] && !StoresTerminal(t, run[0]) && !GivesUp(t, run[0]) {
      if Step(c, t, run[0]).pc.NeverRan? {
        StartedOrNot(c, Step(c, t, run[0]), run[1..]);
      } else {
        EndedIsStored(c, Step(c, t, run[0]), run[1..]);
      }
    }
  }

  /** A cancellation or exception that the try block hands to its handlers. */
  predicate Interrupts(t: Task, e: Event) {
    || (e.Cancel? && (t.pc.Working? || t.pc.ReportingResult? || t.pc.Reconciling?))
    || (e.Raise? && (t.pc.Working? || t.pc.Scheduling?))
  }

  /** And each of those, also after the result was stored, is followed by a stored
      failed or cancelled state before the task ends, with the same exceptions. */
  lemma InterruptedIsStored(c: Config, t: Task, e: Event, run: seq<Event>)
    requires Enabled(c, t, e) && Interrupts(t, e) && Possible(c, Step(c, t, e), run)
    ensures After(c, Step(c, t, e), run).pc.Ended? ==> StoredOrGivenUp(c, Step(c, t, e), run)
  {
    EndedIsStored(c, Step(c, t, e), run);
  }

  /** A run in which nothing fails, is cancelled or times out. */
  predicate Clean(run: seq<Event>) {
    forall e :: e in run ==> !e.Raise? && !e.Cancel? && !e.LoseLease? && !e.TimeOut?
  }

  /** Points before the ingest has been scheduled or skipped. */
  predicate Ahead(pc: Pc) {
    pc.NotStarted? || pc.Working? || pc.ReportingResult? || pc.Reconciling? || pc.Scheduling?
  }

  /** How often the run passes the point where an ingest is scheduled. */
  function Schedulings(c: Config, t: Task, run: seq<Event>): nat
    requires Possible(c, t, run)
    decreases |run|
  {
    if run == [] then 0
    else
      (if t.pc.Scheduling? && (run[0].Return? || run[0].ScheduleIngest?) then 1 else 0)
      + Schedulings(c, Step(c, t, run[0]), run[1..])
  }

  predicate OnCourse(t: Task) {
    && !t.settleFailed && !t.pc.Handling? && !t.pc.NeverRan? && t.pc != Waiting(SpendWait)
    && (t.pc.Scheduling? || t.pc.Waiting? || t.pc.Ended? ==> t.reconciled)
  }

  lemma StepStaysOnCourse(c: Config, t: Task, e: Event)
    requires OnCourse(t) && Enabled(c, t, e) && Clean([e])
    ensures OnCourse(Step(c, t, e))
    ensures Ahead(Step(c, t, e).pc) <==> Ahead(t.pc) && !(t.pc.Scheduling? && (e.Return? || e.ScheduleIngest?))
  {
    assert e in [e];
  }

  lemma {:induction false} CleanRunStaysOnCourse(c: Config, t: Task, run: seq<Event>)
    requires OnCourse(t) && Possible(c, t, run) && Clean(run)
    ensures OnCourse(After(c, t, run))
    ensures After(c, t, run).pc.Ended? ==> Schedulings(c, t, run) == if Ahead(t.pc) then 1 else 0
    ensures !Ahead(t.pc) ==> Schedulings(c, t, run) == 0
    decreases |run|
  {
    if run != [] {
      assert run[0] in run;
      StepStaysOnCourse(c, t, run[0]);
      CleanRunStaysOnCourse(c, Step(c, t, run[0]), run[1..]);
    }
  }

  /** A task that nothing disturbs reconciles its hold itself, gets to schedule its
      ingest exactly once, and has no hold left to release when it cleans up. */
  lemma CleanRunReconcilesAndSchedules(c: Config, t: Task, run: seq<Event>)
    requires Initial(c, t) && Possible(c, t, run) && Clean(run) && After(c, t, run).pc.Ended?
    ensures var u := After(c, t, run);
            && u.reconciled && !u.settleFailed && c.op !in u.money.ledger.holds
            && u.cleanups == [W.Lease, W.Slot, W.Unregister] && Schedulings(c, t, run) == 1
  {
    CleanRunStaysOnCourse(c, t, run);
    CleanupIsComplete(c, t, run);
    HoldSettledOnce(c, t, run);
  }

  lemma OneMore(c: Config, t: Task, e: Event, run: seq<Event>)
    requires Enabled(c, t, e) && !e.Raise? && !e.Cancel? && !e.LoseLease? && !e.TimeOut?
    requires Possible(c, Step(c, t, e), run) && Clean(run)
    ensures Possible(c, t, [e] + run) && Clean([e] + run) && After(c, t, [e] + run) == After(c, Step(c, t, e), run)
  {
    assert ([e] + run)[1..] == run;
  }

  /** And it can get there, with its ingest scheduled, from any admission. */
  lemma CleanRunExists(c: Config, t: Task) returns (run: seq<Event>)
    requires Initial(c, t)
    ensures Possible(c, t, run) && Clean(run)
    ensures After(c, t, run).pc.Ended? && After(c, t, run).ingest
  {
    run := WorkIsDone(c, t);
  }

  lemma WorkIsDone(c: Config, t: Task) returns (run: seq<Event>)
    requires (t.pc.NotStarted? || t.pc.Working?) && t.money.flight == {}
    ensures Possible(c, t, run) && Clean(run) && After(c, t, run).pc.Ended? && After(c, t, run).ingest
    decreases if t.pc.NotStarted? then 4 else match t.pc.work case SavingRunning => 3 case ReportingStart => 2 case Researching => 1 case SavingResult => 0
  {
    var next := Step(c, t, Return);
    if next.pc.Working? { run := WorkIsDone(c, next); } else { run := ResultIsReported(c, next); }
    OneMore(c, t, Return, run);
    run := [Return] + run;
  }

  lemma ResultIsReported(c: Config, t: Task) returns (run: seq<Event>)
    requires t.pc.ReportingResult? && t.money.flight == {}
    ensures Possible(c, t, run) && Clean(run) && After(c, t, run).pc.Ended? && After(c, t, run).ingest
  {
    var next := Step(c, t, Return);
    if c.holding {
      var settle := Execute(Reconcile(c.op, 0));
      var done := Step(c, next, settle);
      assert done.money.flight == {};
      run := IngestIsScheduled(c, Step(c, done, Return));
      OneMore(c, done, Return, run);
      OneMore(c, next, settle, [Return] + run);
      run := [settle] + ([Return] + run);
    } else {
      run := IngestIsScheduled(c, next);
    }
    OneMore(c, t, Return, run);
    run := [Return] + run;
  }

  lemma IngestIsScheduled(c: Config, t: Task) returns (run: seq<Event>)
    requires t.pc.Scheduling? && t.reconciled
    ensures Possible(c, t, run) && Clean(run) && After(c, t, run).pc.Ended? && After(c, t, run).ingest
  {
    var t1 := Step(c, t, ScheduleIngest);
    var t2 := Step(c, t1, Return);
    var t3 := Step(c, t2, Return);
    var t4 := Step(c, t3, Return);
    assert Possible(c, t4, []) && After(c, t4, []) == t4;
    OneMore(c, t3, Return, []);
    OneMore(c, t2, Return, [Return] + []);
    OneMore(c, t1, Return, [Return] + ([Return] + []));
    OneMore(c, t, ScheduleIngest, [Return] + ([Return] + ([Return] + [])));
    run := [ScheduleIngest] + ([Return] + ([Return] + ([Return] + [])));
  }

  /** The one gap: cancelled before its first step, a task runs no cleanup at
      all, and its hold stays until the window ends. Cleanup happens exactly for
      the tasks whose first step is not a cancellation. */
  lemma CleanupSkippedOnlyBeforeStart(c: Config, t: Task, run: seq<Event>)
    requires Initial(c, t) && Possible(c, t, run)
    ensures After(c, t, run).pc.NeverRan? <==> FirstStep(run) == Some(Cancel)
    ensures var u := After(c, t, run);
            u.pc.NeverRan? ==> u.cleanups == [] && (c.holding && !u.money.windowOver ==> c.op in u.money.ledger.holds)
  {
    NotYetStarted(c, t, run);
    assert Inv(c, t);
    InvHolds(c, t, run);
  }

  /** The first event that steps the task, as opposed to its surroundings. */
  function FirstStep(run: seq<Event>): Option<Event>
    decreases |run|
  {
    if run == [] then None
    else if run[0].Cancel? || run[0].Return? then Some(run[0])
    else FirstStep(run[1..])
  }

  lemma {:induction false} StartedOrNot(c: Config, t: Task, run: seq<Event>)
    requires !t.pc.NotStarted? && Possible(c, t, run)
    ensures After(c, t, run).pc.NeverRan? <==> t.pc.NeverRan?
    decreases |run|
  {
    if run != [] {
      StepStaysStarted(c, t, run[0]);
      StartedOrNot(c, Step(c, t, run[0]), run[1..]);
    }
  }

  lemma StepStaysStarted(c: Config, t: Task, e: Event)
    requires !t.pc.NotStarted? && Enabled(c, t, e)
    ensures !Step(c, t, e).pc.NotStarted? && (Step(c, t, e).pc.NeverRan? <==> t.pc.NeverRan?)
  {
    assert EnterFinally(c, t).pc.Waiting? && EnterFinally(c, t.(ingest := true)).pc.Waiting?;
  }

  lemma {:induction false} NotYetStarted(c: Config, t: Task, run: seq<Event>)
    requires t.pc.NotStarted? && Possible(c, t, run)
    ensures After(c, t, run).pc.NeverRan? <==> FirstStep(run) == Some(Cancel)
    decreases |run|
  {
    if run != [] {
      if run[0].Cancel? || run[0].Return? {
        StartedOrNot(c, Step(c, t, run[0]), run[1..]);
      } else {
        NotYetStarted(c, Step(c, t, run[0]), run[1..]);
      }
    }
  }
}
