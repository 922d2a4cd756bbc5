/** The life of an operation's stored status, while any number of requests,
    workers and stale-operation reconcilers act on the same Redis keys. Every
    script is one atomic step; a worker's save is a read and a later write, which
    the server may execute when the worker has long given up on it; a reconciler
    fails operations from snapshots it may have read long before. */
module StatusProtocol {
  import opened Keyspace
  import opened OperationStore
  import I = Idempotency
  import L = Leases

  /** `Handling` is a task that gave up on a save: whatever comes, it saves nothing
      but its failure or cancellation any more. */
  datatype Phase = Admitted | Started | Handling | Finished | Returned

  /** A background task. `lost` is set for good once its lease is not its own at
      some step; nothing keeps it from saving then. `read` is the record a save in
      progress has fetched. `reopened` records that its running state was once
      stored over a terminal one. */
  datatype Worker = Worker(inst: InstanceId, phase: Phase, lost: bool, reopened: bool, read: Option<Record>)

  /** `flight` are saves that were sent and given up on; `snapshots` all records any
      reconciler ever fetched; `unindexing` the removals from the index that
      reconcilers still have to send, one for each operation they failed. */
  datatype System = System(
    now: int,
    idem: I.Idem,
    table: Table,
    leases: L.Leases,
    workers: map<OpId, Worker>,
    flight: multiset<(OpId, Record)>,
    snapshots: set<(OpId, Record)>,
    unindexing: multiset<OpId>)

  /** Whom the theorems are about: `home` is the one key each followed operation is
      submitted under, and `keys` the followed keys, whose life a run stays within
      once they are bound to a stored operation. Everyone else does as he likes. */
  datatype Setup = Setup(home: map<OpId, IdemKey>, keys: set<IdemKey>, leases: L.Config)

  predicate Followed(c: Setup, op: OpId) { op in c.home && c.home[op] in c.keys }

  datatype Action =
    | Tick(to: int)
    | Claim(op: OpId, key: IdemKey, token: Token)
    | ReleaseKey(op: OpId, key: IdemKey, token: Token)
    | LeaseCall(call: L.Action)
    | SaveAdmitted(op: OpId, key: IdemKey, token: Token, inst: InstanceId)
    | WorkerRead(op: OpId)
    | WorkerWrite(op: OpId, status: Status)
    | WorkerAbandon(op: OpId, status: Status)
    | WorkerReturn(op: OpId)
    | LateWrite(op: OpId, record: Record)
    | ReconcilerRead(op: OpId)
    | ReconcilerFail(op: OpId, snapshot: Record)
    | ReconcilerUnindex(op: OpId)
    | ReconcilerIndex(op: OpId, snapshot: Record)

  /** What a background task may save next. Its first save is the running state
      (or, if that is interrupted, a terminal one); it ends with a result, a
      failure or a cancellation, and a cancellation or failure that lands after
      the result was saved replaces it. */
  predicate MaySave(phase: Phase, st: Status) {
    match phase
    case Admitted => st.Running? || st.Failed? || st.Cancelled?
    case Started => !Active(st)
    case Handling => st.Failed? || st.Cancelled?
    case Finished => st.Failed? || st.Cancelled?
    case Returned => false
  }

  predicate HoldsLease(s: System, op: OpId, inst: InstanceId) {
    Get(s.leases.owners, op, s.now) == Some(inst)
  }

  /** The key is bound to a stored operation, and no request may persist again. */
  predicate Kept(i: I.Idem, key: IdemKey) {
    key in i.keys && i.keys[key].value in i.saved && key !in i.pending
  }

  predicate OwnKey(c: Setup, op: OpId, key: IdemKey) { op in c.home ==> key == c.home[op] }

  predicate Enabled(c: Setup, s: System, a: Action) {
    match a
    case Tick(to) => s.now <= to && forall k :: k in c.keys && Kept(s.idem, k) ==> to < s.idem.keys[k].expiresAt
    case Claim(op, key, _) => OwnKey(c, op, key)
    case ReleaseKey(op, key, _) => OwnKey(c, op, key)
    case LeaseCall(_) => true
    case SaveAdmitted(op, key, _, _) => OwnKey(c, op, key)
    case WorkerRead(op) => op in s.workers && op in s.table.records
    case WorkerWrite(op, st) => op in s.workers && s.workers[op].read.Some? && MaySave(s.workers[op].phase, st)
    case WorkerAbandon(op, st) => op in s.workers && s.workers[op].read.Some? && MaySave(s.workers[op].phase, st)
    case WorkerReturn(op) => op in s.workers
    case LateWrite(op, r) => (op, r) in s.flight && op in s.workers
    case ReconcilerRead(op) => op in s.table.records
    case ReconcilerFail(op, snapshot) => (op, snapshot) in s.snapshots && Active(snapshot.status)
    case ReconcilerUnindex(op) => op in s.unindexing
    case ReconcilerIndex(op, snapshot) => (op, snapshot) in s.snapshots && Active(snapshot.status)
  }

  /** The record a worker sends when it saves what it has read. */
  function Sent(w: Worker, st: Status): Record
    requires w.read.Some?
  {
    w.read.value.(status := st)
  }

  /** Storing this puts an active state over a terminal one. */
  predicate Reopens(t: Table, op: OpId, r: Record) {
    Active(r.status) && op in t.records && !Active(t.records[op].status)
  }

  function Written(s: System, op: OpId, r: Record, w: Worker): System {
    s.(table := Store(s.table, op, r), workers := s.workers[op := w.(reopened := w.reopened || Reopens(s.table, op, r))])
  }

  function Act(c: Setup, s: System, a: Action): System
    requires Enabled(c, s, a)
  {
    match a
    case Tick(to) => s.(now := to)
    case Claim(op, key, token) => s.(idem := I.Claim(s.idem, s.now, key, op, token).0)
    case ReleaseKey(op, key, token) => s.(idem := I.ReleaseKey(s.idem, s.now, key, op, token).0)
    case LeaseCall(call) => s.(leases := L.Step(s.leases, c.leases, L.Event(s.now, call)).0)
    case SaveAdmitted(op, key, token, inst) =>
      var (idem, saved) := I.SaveAdmitted(s.idem, s.now, key, op, token);
      if !saved then s
      else s.(idem := idem,
              table := Store(s.table, op, Record(Queued, key)),
              workers := s.workers[op := Worker(inst, Admitted, false, false, None)])
    case WorkerRead(op) => s.(workers := s.workers[op := s.workers[op].(read := Some(s.table.records[op]))])
    case WorkerWrite(op, st) =>
      var w := s.workers[op];
      Written(s, op, Sent(w, st), w.(phase := if Active(st) then Started else Finished, read := None))
    case WorkerAbandon(op, st) =>
      var w := s.workers[op];
      s.(flight := s.flight + multiset{(op, Sent(w, st))}, workers := s.workers[op := w.(phase := Handling, read := None)])
    case WorkerReturn(op) => s.(workers := s.workers[op := s.workers[op].(phase := Returned, read := None)])
    case LateWrite(op, r) => Written(s.(flight := s.flight - multiset{(op, r)}), op, r, s.workers[op])
    case ReconcilerRead(op) => s.(snapshots := s.snapshots + {(op, s.table.records[op])})
    case ReconcilerFail(op, snapshot) =>
      var (table, failed) := FailIfUnowned(s.table, s.leases.owners, s.now, op, snapshot);
      s.(table := table, unindexing := if failed then s.unindexing + multiset{op} else s.unindexing)
    case ReconcilerUnindex(op) =>
      s.(table := s.table.(active := s.table.active - {op}), unindexing := s.unindexing - multiset{op})
    case ReconcilerIndex(op, _) => s.(table := s.table.(active := s.table.active + {op}))
  }

  /** After every step, a worker whose lease is no longer its own has lost it. */
  function Sweep(s: System): System {
    s.(workers := map op | op in s.workers ::
         s.workers[op].(lost := s.workers[op].lost || !HoldsLease(s, op, s.workers[op].inst)))
  }

  function Step(c: Setup, s: System, a: Action): System
    requires Enabled(c, s, a)
  {
    Sweep(Act(c, s, a))
  }

  // ----- Invariant -----

  /** The operation's home key is bound to it for good, and cannot be saved on. */
  predicate Bound(c: Setup, s: System, op: OpId) {
    && op in s.table.records && op in c.home && c.home[op] in s.idem.keys
    && I.Sealed(s.idem, c.home[op], op, s.idem.keys[c.home[op]].expiresAt)
    && s.now < s.idem.keys[c.home[op]].expiresAt
    && s.table.records[op].key == c.home[op]
  }

  /** How many times the running state may still be stored: by the worker's first
      save, or by that save executed late. */
  function RunsLeft(c: Setup, s: System, op: OpId): nat
    requires op in s.workers && op in c.home
  {
    (if s.workers[op].phase.Admitted? then 1 else 0) + s.flight[(op, Record(Running, c.home[op]))]
  }

  /** What is known of an operation beside its binding. Before the first save only
      a reconciler may have failed it, and before the result too, and then the
      worker had lost its lease; the running state is stored at most once more;
      and unless it was stored over a terminal one, which takes a lost lease or a
      late save, an active operation is in the index to stay. */
  predicate Tracked(c: Setup, s: System, op: OpId)
    requires op in s.workers && op in c.home && op in s.table.records
  {
    var w, st := s.workers[op], s.table.records[op].status;
    && (w.phase.Admitted? ==> (st.Queued? || (w.lost && st.Failed?)) && !w.reopened)
    && (w.phase.Started? ==> st.Running? || (w.lost && st.Failed?))
    && RunsLeft(c, s, op) <= 1
    && (w.read.Some? ==> w.read.value.key == c.home[op])
    && (w.reopened ==> RunsLeft(c, s, op) == 0)
    && (Active(st) && !w.reopened ==> op in s.table.active && op !in s.unindexing)
  }

  /** The saves given up on are of tasks that have seen it, in the stored form, and
      not of the queued state. */
  predicate Flying(c: Setup, s: System, op: OpId, r: Record)
    requires op in s.workers && op in c.home
  {
    && !s.workers[op].phase.Admitted? && !s.workers[op].phase.Started?
    && r.key == c.home[op] && !r.status.Queued?
  }

  ghost predicate AllBound(c: Setup, s: System) {
    && s.idem.saved == s.table.records.Keys == s.workers.Keys
    && forall op :: op in s.table.records && Followed(c, op) ==> Bound(c, s, op)
  }

  ghost predicate AllTracked(c: Setup, s: System) {
    s.table.records.Keys == s.workers.Keys && forall op :: op in s.workers && Followed(c, op) ==> Tracked(c, s, op)
  }

  ghost predicate LeasesHeld(s: System) {
    forall op :: op in s.workers && !s.workers[op].lost ==> HoldsLease(s, op, s.workers[op].inst)
  }

  /** What others hold of an operation came from its record. */
  ghost predicate Sourced(c: Setup, s: System) {
    && (forall p :: p in s.snapshots ==> p.0 in s.workers && (Followed(c, p.0) ==> p.1.key == c.home[p.0]))
    && (forall op :: op in s.unindexing ==> op in s.workers)
    && (forall p :: p in s.flight ==> p.0 in s.workers && (Followed(c, p.0) ==> Flying(c, s, p.0, p.1)))
  }

  ghost predicate Inv(c: Setup, s: System) {
    AllBound(c, s) && AllTracked(c, s) && LeasesHeld(s) && Sourced(c, s)
  }

  function Initial(now: int): System {
    System(now, I.NONE, Table(map[], {}), L.IDLE, map[], multiset{}, {}, multiset{})
  }

  lemma InitialHolds(c: Setup, now: int)
    ensures Inv(c, Initial(now))
  {
  }

  /** What a step must keep before it is noticed who lost his lease. */
  ghost predicate Consistent(c: Setup, s: System) {
    AllBound(c, s) && AllTracked(c, s) && Sourced(c, s)
  }

  lemma SweepRestoresInv(c: Setup, s: System)
    requires Consistent(c, s)
    ensures Inv(c, Sweep(s))
  {
    var t := Sweep(s);
    assert t.workers.Keys == s.workers.Keys;
    forall op | op in t.table.records && Followed(c, op) ensures Bound(c, t, op) { assert Bound(c, s, op); }
    forall op | op in t.workers && Followed(c, op) ensures Tracked(c, t, op) { assert Tracked(c, s, op); }
    forall p | p in t.flight ensures p.0 in t.workers && (Followed(c, p.0) ==> Flying(c, t, p.0, p.1)) {}
  }

  predicate OfRequest(a: Action) { a.Tick? || a.Claim? || a.ReleaseKey? || a.LeaseCall? }

  lemma RequestKeepsConsistent(c: Setup, s: System, a: Action)
    requires Inv(c, s) && Enabled(c, s, a) && OfRequest(a)
    ensures Consistent(c, Act(c, s, a))
  {
    RequestKeepsBound(c, s, a);
    var t := Act(c, s, a);
    forall op | op in t.workers && Followed(c, op) ensures Tracked(c, t, op) { assert Tracked(c, s, op); }
  }

  lemma RequestKeepsBound(c: Setup, s: System, a: Action)
    requires Inv(c, s) && Enabled(c, s, a) && OfRequest(a)
    ensures AllBound(c, Act(c, s, a))
  {
    var t := Act(c, s, a);
    forall op | op in t.table.records && Followed(c, op) ensures Bound(c, t, op) {
      assert Bound(c, s, op) && Kept(s.idem, c.home[op]);
    }
  }

  lemma SaveKeepsBound(c: Setup, s: System, a: Action)
    requires Inv(c, s) && Enabled(c, s, a) && a.SaveAdmitted?
    ensures AllBound(c, Act(c, s, a))
    ensures a.op in s.table.records && Followed(c, a.op) ==> Act(c, s, a) == s
  {
    var t := Act(c, s, a);
    if a.op in s.table.records && Followed(c, a.op) { assert Bound(c, s, a.op); }
    forall op | op in t.table.records && Followed(c, op) ensures Bound(c, t, op) {
      if op in s.table.records { assert Bound(c, s, op); }
    }
  }

  lemma SaveLeavesOthers(c: Setup, s: System, a: Action)
    requires Enabled(c, s, a) && a.SaveAdmitted? && s.table.records.Keys == s.workers.Keys
    ensures forall op :: op in s.workers && op != a.op ==> SameFor(s, Act(c, s, a), op)
    ensures var t := Act(c, s, a);
            t == s || (t.workers.Keys == s.workers.Keys + {a.op} && t.table.records.Keys == t.workers.Keys && t.flight == s.flight
                       && t.unindexing == s.unindexing && a.op in t.table.active
                       && t.workers[a.op] == Worker(a.inst, Admitted, false, false, None) && t.table.records[a.op] == Record(Queued, a.key))
  {
  }

  lemma SaveKeepsTracked(c: Setup, s: System, a: Action)
    requires Inv(c, s) && Enabled(c, s, a) && a.SaveAdmitted?
    requires a.op in s.table.records && Followed(c, a.op) ==> Act(c, s, a) == s
    ensures AllTracked(c, Act(c, s, a))
  {
    SaveLeavesOthers(c, s, a);
    var t := Act(c, s, a);
    if t != s { NewIsTracked(c, s, t, a.op); }
  }

  lemma NewIsTracked(c: Setup, s: System, t: System, newest: OpId)
    requires AllTracked(c, s) && Sourced(c, s) && (newest in s.workers ==> !Followed(c, newest))
    requires forall op :: op in s.workers && op != newest ==> SameFor(s, t, op)
    requires t.workers.Keys == s.workers.Keys + {newest} && t.table.records.Keys == t.workers.Keys && t.flight == s.flight
    requires t.unindexing == s.unindexing && newest in t.table.active
    requires t.workers[newest].phase.Admitted? && !t.workers[newest].reopened && t.workers[newest].read.None?
    requires t.table.records[newest].status.Queued?
    ensures AllTracked(c, t)
  {
    forall op | op in t.workers && Followed(c, op) ensures Tracked(c, t, op) {
      if op == newest {
        assert (op, Record(Running, c.home[op])) !in s.flight;
      } else {
        assert Tracked(c, s, op) && SameFor(s, t, op);
      }
    }
  }

  lemma SaveKeepsSourced(c: Setup, s: System, a: Action)
    requires Inv(c, s) && Enabled(c, s, a) && a.SaveAdmitted?
    requires a.op in s.table.records && Followed(c, a.op) ==> Act(c, s, a) == s
    ensures Sourced(c, Act(c, s, a))
  {
    var t := Act(c, s, a);
    forall p | p in t.flight ensures p.0 in t.workers && (Followed(c, p.0) ==> Flying(c, t, p.0, p.1)) {
      assert p in s.flight;
    }
  }

  lemma SaveKeepsConsistent(c: Setup, s: System, a: Action)
    requires Inv(c, s) && Enabled(c, s, a) && a.SaveAdmitted?
    ensures Consistent(c, Act(c, s, a))
  {
    SaveKeepsBound(c, s, a);
    SaveKeepsTracked(c, s, a);
    SaveKeepsSourced(c, s, a);
  }

  // A step on one operation.

  predicate OnOne(a: Action) { !OfRequest(a) && !a.SaveAdmitted? }

  /** Nothing that is known of this operation differs. */
  ghost predicate SameFor(s: System, t: System, op: OpId) {
    && op in s.workers && op in t.workers && s.workers[op] == t.workers[op]
    && op in s.table.records && op in t.table.records && s.table.records[op] == t.table.records[op]
    && (op in s.table.active <==> op in t.table.active)
    && (op in s.unindexing <==> op in t.unindexing)
    && forall r :: s.flight[(op, r)] == t.flight[(op, r)]
  }

  /** The two differ in what is known of one operation. */
  ghost predicate Touches(s: System, t: System, only: OpId) {
    && t.idem == s.idem && t.now == s.now && only in s.workers
    && t.table.records.Keys == s.table.records.Keys && t.workers.Keys == s.workers.Keys
    && (forall op :: op in s.workers && op != only ==> SameFor(s, t, op))
    && (forall p :: p in t.snapshots && p !in s.snapshots ==> p.0 == only)
    && (forall p :: p in t.flight && p !in s.flight ==> p.0 == only)
    && (forall op :: op in t.unindexing && op !in s.unindexing ==> op == only)
  }

  /** What must be known of that one. */
  ghost predicate Own(c: Setup, t: System, op: OpId) {
    && op in t.workers && op in t.table.records && op in c.home
    && t.table.records[op].key == c.home[op] && Tracked(c, t, op)
    && (forall r :: (op, r) in t.snapshots ==> r.key == c.home[op])
    && (forall r :: (op, r) in t.flight ==> Flying(c, t, op, r))
  }

  lemma OneKeepsConsistent(c: Setup, s: System, t: System, only: OpId)
    requires Inv(c, s) && Touches(s, t, only) && (Followed(c, only) ==> Own(c, t, only))
    ensures Consistent(c, t)
  {
    forall op | op in t.table.records && Followed(c, op) ensures Bound(c, t, op) {
      assert Bound(c, s, op);
      if op != only { assert SameFor(s, t, op); }
    }
    forall op | op in t.workers && Followed(c, op) ensures Tracked(c, t, op) {
      if op != only { assert Tracked(c, s, op) && SameFor(s, t, op); }
    }
    SourcesStay(c, s, t, only);
  }

  lemma SourcesStay(c: Setup, s: System, t: System, only: OpId)
    requires Sourced(c, s) && Touches(s, t, only) && (Followed(c, only) ==> Own(c, t, only))
    requires s.workers.Keys == s.table.records.Keys
    ensures Sourced(c, t)
  {
    forall p | p in t.snapshots ensures p.0 in t.workers && (Followed(c, p.0) ==> p.1.key == c.home[p.0]) {
      if p.0 == only { assert p == (only, p.1); }
    }
    forall p | p in t.flight ensures p.0 in t.workers && (Followed(c, p.0) ==> Flying(c, t, p.0, p.1)) {
      if p.0 == only { assert p == (only, p.1); }
    }
  }

  predicate OfWorker(a: Action) { a.WorkerRead? || a.WorkerWrite? || a.WorkerAbandon? || a.WorkerReturn? || a.LateWrite? }

  lemma ActTouchesOne(c: Setup, s: System, a: Action)
    requires Enabled(c, s, a) && OnOne(a) && a.op in s.workers && s.table.records.Keys == s.workers.Keys
    ensures Touches(s, Act(c, s, a), a.op)
  {
    if OfWorker(a) { WorkerTouchesOne(c, s, a); } else { ReconcilerTouchesOne(c, s, a); }
  }

  lemma WorkerTouchesOne(c: Setup, s: System, a: Action)
    requires Enabled(c, s, a) && OfWorker(a) && a.op in s.workers && s.table.records.Keys == s.workers.Keys
    ensures Touches(s, Act(c, s, a), a.op)
  {
    if a.WorkerWrite? || a.LateWrite? { StoreTouchesOne(c, s, a); }
  }

  lemma StoreTouchesOne(c: Setup, s: System, a: Action)
    requires Enabled(c, s, a) && (a.WorkerWrite? || a.LateWrite?) && a.op in s.workers && s.table.records.Keys == s.workers.Keys
    ensures Touches(s, Act(c, s, a), a.op)
  {
    var t := Act(c, s, a);
    forall op | op in s.workers && op != a.op ensures SameFor(s, t, op) {}
  }

  lemma ReconcilerTouchesOne(c: Setup, s: System, a: Action)
    requires Enabled(c, s, a) && OnOne(a) && !OfWorker(a) && a.op in s.workers && s.table.records.Keys == s.workers.Keys
    ensures Touches(s, Act(c, s, a), a.op)
  {
    var t := Act(c, s, a);
    forall op | op in s.workers && op != a.op ensures SameFor(s, t, op) {}
  }

  lemma InvOwns(c: Setup, s: System, op: OpId)
    requires Inv(c, s) && Followed(c, op) && op in s.workers
    ensures Own(c, s, op) && (!s.workers[op].lost ==> HoldsLease(s, op, s.workers[op].inst))
  {
    assert Bound(c, s, op) && Tracked(c, s, op);
    forall r | (op, r) in s.snapshots ensures r.key == c.home[op] { assert (op, r).1 == r; }
    forall r | (op, r) in s.flight ensures Flying(c, s, op, r) { assert (op, r).1 == r; }
  }

  lemma WorkerKeepsOwn(c: Setup, s: System, a: Action)
    requires Enabled(c, s, a) && (a.WorkerRead? || a.WorkerReturn?) && Own(c, s, a.op)
    ensures Own(c, Act(c, s, a), a.op)
  {
  }

  lemma WriteKeepsOwn(c: Setup, s: System, a: Action)
    requires Enabled(c, s, a) && a.WorkerWrite? && Own(c, s, a.op)
    ensures Own(c, Act(c, s, a), a.op)
  {
  }

  lemma AbandonKeepsOwn(c: Setup, s: System, a: Action)
    requires Enabled(c, s, a) && a.WorkerAbandon? && Own(c, s, a.op)
    ensures Own(c, Act(c, s, a), a.op)
  {
    var t := Act(c, s, a);
    forall r | (a.op, r) in t.flight ensures Flying(c, t, a.op, r) {
      if r != Sent(s.workers[a.op], a.status) { assert (a.op, r) in s.flight; }
    }
  }

  lemma LateKeepsOwn(c: Setup, s: System, a: Action)
    requires Enabled(c, s, a) && a.LateWrite? && Own(c, s, a.op)
    ensures Own(c, Act(c, s, a), a.op)
  {
    assert Flying(c, s, a.op, a.record);
  }

  lemma FailKeepsOwn(c: Setup, s: System, a: Action)
    requires Enabled(c, s, a) && a.ReconcilerFail? && Own(c, s, a.op)
    requires !s.workers[a.op].lost ==> HoldsLease(s, a.op, s.workers[a.op].inst)
    ensures Own(c, Act(c, s, a), a.op)
  {
  }

  lemma ReconcilerKeepsOwn(c: Setup, s: System, a: Action)
    requires Enabled(c, s, a) && (a.ReconcilerRead? || a.ReconcilerUnindex? || a.ReconcilerIndex?) && Own(c, s, a.op)
    ensures Own(c, Act(c, s, a), a.op)
  {
  }

  lemma ActKeepsOwn(c: Setup, s: System, a: Action)
    requires Enabled(c, s, a) && OnOne(a) && Own(c, s, a.op)
    requires !s.workers[a.op].lost ==> HoldsLease(s, a.op, s.workers[a.op].inst)
    ensures Own(c, Act(c, s, a), a.op)
  {
    match a
    case WorkerWrite(_, _) => WriteKeepsOwn(c, s, a);
    case WorkerAbandon(_, _) => AbandonKeepsOwn(c, s, a);
    case LateWrite(_, _) => LateKeepsOwn(c, s, a);
    case ReconcilerFail(_, _) => FailKeepsOwn(c, s, a);
    case WorkerRead(_) => WorkerKeepsOwn(c, s, a);
    case WorkerReturn(_) => WorkerKeepsOwn(c, s, a);
    case _ => ReconcilerKeepsOwn(c, s, a);
  }

  lemma ActKeepsConsistent(c: Setup, s: System, a: Action)
    requires Inv(c, s) && Enabled(c, s, a) && OnOne(a)
    ensures Consistent(c, Act(c, s, a))
  {
    assert a.op in s.workers;
    ActTouchesOne(c, s, a);
    if Followed(c, a.op) {
      InvOwns(c, s, a.op);
      ActKeepsOwn(c, s, a);
    }
    OneKeepsConsistent(c, s, Act(c, s, a), a.op);
  }

  lemma StepKeepsInv(c: Setup, s: System, a: Action)
    requires Inv(c, s) && Enabled(c, s, a)
    ensures Inv(c, Step(c, s, a))
  {
    if OfRequest(a) {
      RequestKeepsConsistent(c, s, a);
    } else if a.SaveAdmitted? {
      SaveKeepsConsistent(c, s, a);
    } else {
      ActKeepsConsistent(c, s, a);
    }
    SweepRestoresInv(c, Act(c, s, a));
  }

  // ----- What one step may do to a status -----

  /** The step stores an active state over a terminal one. */
  predicate Reopening(s: System, a: Action, op: OpId) {
    match a
    case WorkerWrite(o, st) => o == op && op in s.workers && s.workers[op].read.Some? && Reopens(s.table, op, Sent(s.workers[op], st))
    case LateWrite(o, r) => o == op && Reopens(s.table, op, r)
    case _ => false
  }

  /** How a step may change one stored record: not at all; by a save of its own
      worker, in time or late; or by a reconciler, which turns only unowned active
      operations, and only into failed ones. It moves the status back exactly when
      it reopens it, and a save in time does that only for a worker that has lost
      its lease, with the running state over a reconciler's failure. */
  predicate Moves(c: Setup, s: System, a: Action, op: OpId, next: Record)
    requires op in s.table.records
  {
    var now := s.table.records[op];
    && next.key == now.key
    && (Rank(next.status) < Rank(now.status) <==> Reopening(s, a, op))
    && (Reopening(s, a, op) && a.WorkerWrite? ==> a.status.Running? && now.status.Failed? && s.workers[op].lost)
    && (next.status != now.status ==>
          || (a.WorkerWrite? && a.op == op)
          || (a.LateWrite? && a.op == op)
          || (a.ReconcilerFail? && a.op == op && Get(s.leases.owners, op, s.now).None?
              && Active(now.status) && next.status.Failed?))
  }

  /** What a save stores, in time or late: the record as it was read, with the status
      the worker saves; the index follows the status; and nothing else changes. */
  lemma SavesStoreTheirStatus(c: Setup, s: System, a: Action)
    requires Enabled(c, s, a) && (a.WorkerWrite? || a.LateWrite?)
    ensures var t := Step(c, s, a).table;
            && a.op in t.records
            && (a.WorkerWrite? ==> t.records[a.op] == s.workers[a.op].read.value.(status := a.status))
            && (a.LateWrite? ==> t.records[a.op] == a.record)
            && (a.op in t.active <==> t.records[a.op].status.Queued? || t.records[a.op].status.Running?)
            && (forall op :: op != a.op ==>
                  && (op in t.records <==> op in s.table.records) && (op in t.records ==> t.records[op] == s.table.records[op])
                  && (op in t.active <==> op in s.table.active))
  {
  }

  /** What a worker gives up on is what it would have stored. */
  lemma AbandonedSaveStaysSent(c: Setup, s: System, a: Action)
    requires Enabled(c, s, a) && a.WorkerAbandon?
    ensures var t := Step(c, s, a);
            && t.table == s.table
            && t.flight == s.flight + multiset{(a.op, s.workers[a.op].read.value.(status := a.status))}
  {
  }

  /** A reconciler's failure takes effect exactly on an unowned queued or running
      operation, and leaves one unindexing to be sent. */
  lemma FailureTakesEffectIffStale(c: Setup, s: System, a: Action)
    requires Enabled(c, s, a) && a.ReconcilerFail?
    ensures var t := Step(c, s, a);
            var stale := a.op in s.table.records && (s.table.records[a.op].status.Queued? || s.table.records[a.op].status.Running?)
                         && (a.op in s.leases.owners ==> s.leases.owners[a.op].expiresAt <= s.now);
            && t.table.records == (if stale then s.table.records[a.op := a.snapshot.(status := Failed)] else s.table.records)
            && t.unindexing == (if stale then s.unindexing + multiset{a.op} else s.unindexing)
            && t.table.active == s.table.active
  {
  }

  /** A step that is not on this operation leaves what is known of it. */
  lemma ElsewhereSame(c: Setup, s: System, a: Action, op: OpId)
    requires Inv(c, s) && Enabled(c, s, a) && Followed(c, op) && op in s.workers && !(OnOne(a) && a.op == op)
    ensures SameFor(s, Act(c, s, a), op)
  {
    if a.SaveAdmitted? {
      SaveKeepsBound(c, s, a);
      SaveLeavesOthers(c, s, a);
    } else if OnOne(a) {
      assert a.op in s.workers;
      ActTouchesOne(c, s, a);
    }
  }

  lemma OwnMoves(c: Setup, s: System, a: Action, op: OpId)
    requires Own(c, s, op) && Enabled(c, s, a) && OnOne(a) && a.op == op
    ensures op in Act(c, s, a).table.records && Moves(c, s, a, op, Act(c, s, a).table.records[op])
  {
    if a.WorkerWrite? {
      OwnWriteMoves(c, s, a, op);
    } else if a.LateWrite? {
      OwnLateMoves(c, s, a, op);
    } else if a.ReconcilerFail? {
      OwnFailMoves(c, s, a, op);
    }
  }

  lemma OwnWriteMoves(c: Setup, s: System, a: Action, op: OpId)
    requires Own(c, s, op) && Enabled(c, s, a) && a.WorkerWrite? && a.op == op
    ensures op in Act(c, s, a).table.records && Moves(c, s, a, op, Act(c, s, a).table.records[op])
  {
  }

  lemma OwnLateMoves(c: Setup, s: System, a: Action, op: OpId)
    requires Own(c, s, op) && Enabled(c, s, a) && a.LateWrite? && a.op == op
    ensures op in Act(c, s, a).table.records && Moves(c, s, a, op, Act(c, s, a).table.records[op])
  {
    assert Flying(c, s, op, a.record);
  }

  lemma OwnFailMoves(c: Setup, s: System, a: Action, op: OpId)
    requires Own(c, s, op) && Enabled(c, s, a) && a.ReconcilerFail? && a.op == op
    ensures op in Act(c, s, a).table.records && Moves(c, s, a, op, Act(c, s, a).table.records[op])
  {
  }

  lemma StepMovesStatus(c: Setup, s: System, a: Action, op: OpId)
    requires Inv(c, s) && Enabled(c, s, a) && Followed(c, op) && op in s.table.records
    ensures op in Step(c, s, a).table.records && Moves(c, s, a, op, Step(c, s, a).table.records[op])
  {
    if OnOne(a) && a.op == op {
      InvOwns(c, s, op);
      OwnMoves(c, s, a, op);
    } else {
      ElsewhereSame(c, s, a, op);
    }
  }

  /** Each reopening uses up the one running state there is to store. */
  lemma StepSpendsRuns(c: Setup, s: System, a: Action, op: OpId)
    requires Inv(c, s) && Enabled(c, s, a) && Followed(c, op) && op in s.workers
    ensures op in Step(c, s, a).workers
    ensures RunsLeft(c, Step(c, s, a), op) + (if Reopening(s, a, op) then 1 else 0) <= RunsLeft(c, s, op)
  {
    if OnOne(a) && a.op == op {
      InvOwns(c, s, op);
      OwnSpendsRuns(c, s, a, op);
    } else {
      ElsewhereSame(c, s, a, op);
      SameSpendsNone(c, s, Act(c, s, a), op);
    }
  }

  lemma SameSpendsNone(c: Setup, s: System, t: System, op: OpId)
    requires SameFor(s, t, op) && op in c.home
    ensures RunsLeft(c, Sweep(t), op) == RunsLeft(c, s, op)
  {
  }

  lemma OwnSpendsRuns(c: Setup, s: System, a: Action, op: OpId)
    requires Own(c, s, op) && Enabled(c, s, a) && OnOne(a) && a.op == op
    ensures op in Act(c, s, a).workers
    ensures RunsLeft(c, Act(c, s, a), op) + (if Reopening(s, a, op) then 1 else 0) <= RunsLeft(c, s, op)
  {
    if a.LateWrite? { assert Flying(c, s, op, a.record); }
  }
}
