/** Admitting one request: claim its idempotency key, reserve budget, bind the
    operation id, take a concurrency slot, become owner, persist the queued
    state; and, when any of these is refused, roll back what was taken. */
module Admission {
  import opened Keyspace
  import I = Idempotency
  import L = Leases
  import SL = SpendLedger
  import SB = SpendBackends

  const CLAIM_TTL: int := 86400 * SECOND

  /** `reserve` is absent when the external gateway does the accounting. */
  datatype Request = Request(
    op: OpId, key: IdemKey, token: Token, inst: InstanceId, reserve: Option<int>)

  datatype Config = Config(limit: int, leases: L.Config)

  /** The shared keys an admission touches. `bound` is the idempotency key stored
      in each persisted operation. */
  datatype Store = Store(
    idem: I.Idem,
    leases: L.Leases,
    spend: SB.RedisSpend,
    claims: map<OpId, Entry<IdemKey>>,
    bound: map<OpId, IdemKey>)

  function ClaimOperation(s: Store, now: int, op: OpId, key: IdemKey): (Store, bool) {
    if op in s.bound && s.bound[op] != key then (s, false)
    else if Get(s.claims, op, now).Some? then (s, Get(s.claims, op, now) == Some(key))
    else (s.(claims := s.claims[op := Entry(key, now + CLAIM_TTL)]), true)
  }

  function ReleaseOperation(s: Store, now: int, op: OpId, key: IdemKey): Store {
    if Get(s.claims, op, now) != Some(key) then s else s.(claims := s.claims - {op})
  }

  /** How a call to the store may end: it works, or it raises, before or after the
      server has executed it. */
  datatype Fault = Works | Unserved | Served

  datatype Faults = Faults(claim: Fault, reserve: Fault, bind: Fault, slot: Fault, begin: Fault, save: Fault)

  /** The faults of the releases of a rollback. */
  datatype Undo = Undo(key: Fault, owner: Fault, claim: Fault, slot: Fault, spend: Fault)

  const NO_FAULT := Faults(Works, Works, Works, Works, Works, Works)
  const ALL_UNDONE := Undo(Works, Works, Works, Works, Works)

  /** One flag for each resource of an admission. */
  datatype Taken = Taken(key: bool, spend: bool, claim: bool, slot: bool, owner: bool)

  const NOTHING := Taken(false, false, false, false, false)

  /** An admission under way; it stops at the first refusal. `taken` are its own
      flags; `lost` what a call took that raised after it was executed; `raised`
      says that it stopped because a call raised. */
  datatype Progress = Progress(store: Store, taken: Taken, lost: Taken, refused: bool, raised: bool)

  /** The instants at which the calls of one admission are served, and what
      happens besides: whether the request passes validation, which calls raise,
      and whether the start of the task does. `cancels` says that what is raised is
      a cancellation of the request, which the handlers do not catch. */
  datatype Course = Course(
    claim: int, reserve: int, bind: int, slot: int, begin: int, save: int, rollback: int,
    valid: bool, faults: Faults, startRaises: bool, cancels: bool, undo: Undo)

  predicate InOrder(t: Course) {
    t.claim <= t.reserve <= t.bind <= t.slot <= t.begin <= t.save <= t.rollback
  }

  /** The request goes on only when a call worked and granted. */
  predicate Stops(f: Fault, granted: bool) { !granted || f.Served? }

  function Reserved(c: Config, r: Request, now: int, f: Fault, p: Progress): Progress {
    if p.refused || r.reserve.None? then p
    else if f.Unserved? then p.(refused := true, raised := true)
    else
      var (spend, ok) := SB.RedisReserve(p.store.spend, now, c.limit, r.op, r.reserve.value);
      Progress(p.store.(spend := spend), p.taken.(spend := ok && f.Works?), p.lost.(spend := ok && f.Served?), Stops(f, ok), f.Served?)
  }

  function BoundTo(r: Request, now: int, f: Fault, p: Progress): Progress {
    if p.refused then p
    else if f.Unserved? then p.(refused := true, raised := true)
    else
      var (store, ok) := ClaimOperation(p.store, now, r.op, r.key);
      Progress(store, p.taken.(claim := ok && f.Works?), p.lost.(claim := ok && f.Served?), Stops(f, ok), f.Served?)
  }

  function Slotted(c: Config, r: Request, now: int, f: Fault, p: Progress): Progress {
    if p.refused then p
    else if f.Unserved? then p.(refused := true, raised := true)
    else
      var (leases, ok) := L.Acquire(p.store.leases, c.leases, now, L.Member(r.inst, r.op));
      Progress(p.store.(leases := leases), p.taken.(slot := ok && f.Works?), p.lost.(slot := ok && f.Served?), Stops(f, ok), f.Served?)
  }

  function Owned(c: Config, r: Request, now: int, f: Fault, p: Progress): Progress {
    if p.refused then p
    else if f.Unserved? then p.(refused := true, raised := true)
    else
      var (leases, ok) := L.Begin(p.store.leases, c.leases, now, L.Member(r.inst, r.op));
      Progress(p.store.(leases := leases), p.taken.(owner := ok && f.Works?), p.lost.(owner := ok && f.Served?), Stops(f, ok), f.Served?)
  }

  function Granted(t: Course, s: Store): Progress {
    Progress(s, NOTHING.(key := true), NOTHING, !t.valid, false)
  }

  /** The acquisitions between a granted key and the save. */
  function Acquired(c: Config, r: Request, t: Course, s: Store): Progress {
    Owned(c, r, t.begin, t.faults.begin,
      Slotted(c, r, t.slot, t.faults.slot,
        BoundTo(r, t.bind, t.faults.bind,
          Reserved(c, r, t.reserve, t.faults.reserve, Granted(t, s)))))
  }

  function Admitted(c: Config, r: Request, t: Course, s: Store): Progress {
    Acquired(c, r, t, s.(idem := I.Claim(s.idem, t.claim, r.key, r.op, r.token).0))
  }

  /** Undo what was taken; unless the key, asked to be released, still belongs to
      this very operation, or cannot be asked: then its resources are kept. Each
      other release is attempted whatever became of those before it. */
  function Rollback(c: Config, r: Request, now: int, s: Store, taken: Taken, undo: Undo): Store {
    var (idem, owner) := if taken.key && !undo.key.Unserved? then I.ReleaseKey(s.idem, now, r.key, r.op, r.token) else (s.idem, None);
    var given := s.(idem := idem);
    if taken.key && (!undo.key.Works? || owner == Some(r.op)) then given else Released(r, now, given, taken, undo)
  }

  function Released(r: Request, now: int, s: Store, taken: Taken, undo: Undo): Store {
    s.(leases := L.Leases(OwnersAfter(r, now, s, taken.owner && !undo.owner.Unserved?),
                          SlotsAfter(r, s, taken.slot && !undo.slot.Unserved?)),
       claims := if taken.claim && !undo.claim.Unserved? then ReleaseOperation(s, now, r.op, r.key).claims else s.claims,
       spend := if taken.spend && !undo.spend.Unserved? then SB.RedisRelease(s.spend, now, r.op).0 else s.spend)
  }

  function OwnersAfter(r: Request, now: int, s: Store, release: bool): map<OpId, Entry<InstanceId>> {
    if release then L.ReleaseLease(s.leases, now, L.Member(r.inst, r.op)).0.owners else s.leases.owners
  }

  function SlotsAfter(r: Request, s: Store, release: bool): map<L.Member, int> {
    if release then L.ReleaseSlot(s.leases, L.Member(r.inst, r.op)).slots else s.leases.slots
  }

  /** An admission before its save stopped at a call that raised. */
  predicate Broken(p: Progress, t: Course) { p.raised || (!p.refused && t.faults.save.Unserved?) }

  datatype Reply = Known(op: OpId) | Refused | Started

  function Attempt(c: Config, r: Request, t: Course, s: Store): (Store, Reply) {
    var (idem, existing) := I.Claim(s.idem, t.claim, r.key, r.op, r.token);
    if t.faults.claim.Unserved? then (s, Refused)
    else if t.faults.claim.Served? then (s.(idem := idem), Refused)
    else if existing.Some? then (s, if existing.value in s.idem.saved then Known(existing.value) else Refused)
    else
      var p := Admitted(c, r, t, s);
      if p.refused || t.faults.save.Unserved? then
        (if t.cancels && Broken(p, t) then p.store else Rollback(c, r, t.rollback, p.store, p.taken, t.undo), Refused)
      else
        var (idem, saved) := I.SaveAdmitted(p.store.idem, t.save, r.key, r.op, r.token);
        var stored := p.store.(idem := idem, bound := if saved then p.store.bound[r.op := r.key] else p.store.bound);
        if saved && t.faults.save.Works? && !t.startRaises then (stored, Started)
        else if t.cancels && (t.faults.save.Served? || saved) then (stored, Refused)
        else (Rollback(c, r, t.rollback, stored, p.taken, t.undo), Refused)
  }

  /** The admission endpoint over the storage objects. */
  class AdmissionService {
    const config: Config
    const idem: I.IdempotencyKeys
    const leases: L.LeaseKeys
    const spend: SB.RedisSpendKeys
    var claims: map<OpId, Entry<IdemKey>>
    var bound: map<OpId, IdemKey>

    constructor (config: Config, idem: I.IdempotencyKeys, leases: L.LeaseKeys, spend: SB.RedisSpendKeys)
      ensures this.config == config && this.idem == idem && this.leases == leases && this.spend == spend
      ensures claims == map[] && bound == map[]
    {
      this.config, this.idem, this.leases, this.spend := config, idem, leases, spend;
      claims, bound := map[], map[];
    }

    function Model(): Store
      reads this, idem, leases, spend
    {
      Store(idem.Model(), leases.Model(), spend.Model(), claims, bound)
    }

    method ClaimOperationId(now: int, op: OpId, key: IdemKey) returns (claimed: bool)
      modifies this`claims
      ensures (Model(), claimed) == ClaimOperation(old(Model()), now, op, key)
    {
      if op in bound && bound[op] != key {
        return false;
      }
      var existing := Get(claims, op, now);
      if existing.Some? {
        return existing.value == key;
      }
      claims := claims[op := Entry(key, now + CLAIM_TTL)];
      return true;
    }

    /** The client compares, then deletes; what another client does in between it
        cannot see. */
    method ReleaseOperationId(now: int, op: OpId, key: IdemKey) returns (released: bool)
      modifies this`claims
      ensures Model() == ReleaseOperation(old(Model()), now, op, key)
      ensures released <==> Get(old(claims), op, now) == Some(key)
    {
      if Get(claims, op, now) != Some(key) {
        return false;
      }
      claims := claims - {op};
      return true;
    }

    method RollBack(r: Request, now: int, taken: Taken, undo: Undo)
      requires leases.config == config.leases
      modifies this`claims, idem, leases, spend
      ensures Model() == Rollback(config, r, now, old(Model()), taken, undo)
    {
      if taken.key {
        if undo.key.Unserved? {
          return;
        }
        var remaining := idem.Release(now, r.key, r.op, r.token);
        if undo.key.Served? || remaining == Some(r.op) {
          return;
        }
      }
      ReleaseTaken(r, now, taken, undo);
    }

    /** Each release isolated from the others. */
    method ReleaseTaken(r: Request, now: int, taken: Taken, undo: Undo)
      requires leases.config == config.leases
      modifies this`claims, leases, spend
      ensures Model() == Released(r, now, old(Model()), taken, undo)
    {
      var m := L.Member(r.inst, r.op);
      if taken.owner && !undo.owner.Unserved? { leases.ReleaseOperationLease(now, m); }
      if taken.claim && !undo.claim.Unserved? { var _ := ReleaseOperationId(now, r.op, r.key); }
      if taken.slot && !undo.slot.Unserved? { leases.ReleaseConcurrencySlot(m); }
      if taken.spend && !undo.spend.Unserved? { var _ := spend.Release(now, r.op); }
    }

    /** The acquisitions between the granted key and the save, up to the first
        refusal or exception, recording each success in its flag. */
    method Acquire(r: Request, t: Course) returns (taken: Taken, ghost lost: Taken, refused: bool, raised: bool)
      requires leases.config == config.leases
      modifies this`claims, leases, spend
      ensures Progress(Model(), taken, lost, refused, raised) == Acquired(config, r, t, old(Model()))
    {
      taken, lost := NOTHING.(key := true), NOTHING;
      if !t.valid {
        return taken, lost, true, false;
      }
      if r.reserve.Some? {
        if t.faults.reserve.Unserved? {
          return taken, lost, true, true;
        }
        var admitted := spend.Reserve(t.reserve, config.limit, r.op, r.reserve.value);
        if !admitted || t.faults.reserve.Served? {
          return taken, lost.(spend := admitted && t.faults.reserve.Served?), true, t.faults.reserve.Served?;
        }
        taken := taken.(spend := true);
      }
      if t.faults.bind.Unserved? {
        return taken, lost, true, true;
      }
      var claimed := ClaimOperationId(t.bind, r.op, r.key);
      if !claimed || t.faults.bind.Served? {
        return taken, lost.(claim := claimed && t.faults.bind.Served?), true, t.faults.bind.Served?;
      }
      taken := taken.(claim := true);
      var m := L.Member(r.inst, r.op);
      if t.faults.slot.Unserved? {
        return taken, lost, true, true;
      }
      var slotted := leases.AcquireConcurrencySlot(t.slot, m);
      if !slotted || t.faults.slot.Served? {
        return taken, lost.(slot := slotted && t.faults.slot.Served?), true, t.faults.slot.Served?;
      }
      taken := taken.(slot := true);
      if t.faults.begin.Unserved? {
        return taken, lost, true, true;
      }
      var owned := leases.BeginOperation(t.begin, m);
      if !owned || t.faults.begin.Served? {
        return taken, lost.(owner := owned && t.faults.begin.Served?), true, t.faults.begin.Served?;
      }
      return taken.(owner := true), lost, false, false;
    }

    method StartResearch(r: Request, t: Course) returns (reply: Reply)
      requires leases.config == config.leases
      modifies this, idem, leases, spend
      ensures (Model(), reply) == Attempt(config, r, t, old(Model()))
    {
      if t.faults.claim.Unserved? {
        return Refused;
      }
      var existing := idem.ClaimKey(t.claim, r.key, r.op, r.token);
      if t.faults.claim.Served? {
        return Refused;
      }
      if existing.Some? {
        if existing.value !in idem.operations {
          return Refused;
        }
        return Known(existing.value);
      }
      var taken, refused, raised;
      ghost var lost;
      taken, lost, refused, raised := Acquire(r, t);
      if t.cancels && (raised || (!refused && t.faults.save.Unserved?)) {
        return Refused;
      }
      if refused || t.faults.save.Unserved? {
        RollBack(r, t.rollback, taken, t.undo);
        return Refused;
      }
      var saved := idem.Save(t.save, r.key, r.op, r.token);
      if saved {
        bound := bound[r.op := r.key];
      }
      if saved && t.faults.save.Works? && !t.startRaises {
        return Started;
      }
      if t.cancels && (t.faults.save.Served? || saved) {
        return Refused;
      }
      RollBack(r, t.rollback, taken, t.undo);
      return Refused;
    }
  }

  // ----- What a reader sees, and what a failed admission leaves of it -----

  datatype View = View(
    keys: map<IdemKey, OpId>,
    claims: map<OpId, IdemKey>,
    slots: set<L.Member>,
    owners: map<OpId, InstanceId>,
    ledger: SL.Ledger)

  function Slots(slots: map<L.Member, int>, now: int): set<L.Member> {
    set m | m in slots && now < slots[m]
  }

  function Ledger(spend: SB.RedisSpend, now: int): SL.Ledger { SB.View(SB.Redis(spend), now) }

  function See(s: Store, now: int): View {
    View(Visible(s.idem.keys, now), Visible(s.claims, now), Slots(s.leases.slots, now),
         Visible(s.leases.owners, now), Ledger(s.spend, now))
  }

  /** None of what the admission took was already there, seen at the rollback:
      no orphaned binding of the key, no hold, claim or slot of the operation. */
  predicate Fresh(r: Request, taken: Taken, v: View) {
    && r.key !in v.keys
    && (taken.spend ==> r.op !in v.ledger.holds)
    && (taken.claim ==> r.op !in v.claims)
    && (taken.slot ==> L.Member(r.inst, r.op) !in v.slots)
  }

  /** The store after the one call alone that raised although it was executed. */
  function OnlyLost(c: Config, r: Request, t: Course, s: Store, lost: Taken): Store {
    var m := L.Member(r.inst, r.op);
    s.(spend := if lost.spend && r.reserve.Some? then SB.RedisReserve(s.spend, t.reserve, c.limit, r.op, r.reserve.value).0 else s.spend,
       claims := if lost.claim then ClaimOperation(s, t.bind, r.op, r.key).0.claims else s.claims,
       leases := L.Leases(if lost.owner then L.Begin(s.leases, c.leases, t.begin, m).0.owners else s.leases.owners,
                          if lost.slot then L.Acquire(s.leases, c.leases, t.slot, m).0.slots else s.leases.slots))
  }

  /** A hold taken and given back leaves the ledger a reader sees as it was, then
      and at any later instant, across a window's end too, exactly when there was
      no hold before. */
  lemma HoldRoundTrip(b: SB.RedisSpend, limit: int, op: OpId, amount: int, at: int, back: int, later: int)
    requires 0 <= limit && 0 < amount && at <= back <= later && SB.Consistent(SB.Redis(b), at)
    requires 0 <= Ledger(b, at).total
    ensures var (after, ok) := SB.RedisReserve(b, at, limit, op, amount);
            var released := SB.RedisRelease(after, back, op).0;
            && (!ok ==> Ledger(after, back) == Ledger(b, back) && Ledger(after, later) == Ledger(b, later))
            && (ok ==> (Ledger(released, back) == Ledger(b, back) <==> op !in Ledger(b, back).holds))
            && (ok && op !in Ledger(b, back).holds ==> Ledger(released, later) == Ledger(b, later))
  {
    var (after, ok) := SB.RedisReserve(b, at, limit, op, amount);
    ReserveLedger(b, limit, op, amount, at, back);
    ReserveLedger(b, limit, op, amount, at, later);
    if ok {
      HoldGivenBack(b, after, limit, op, amount, at, back);
      SB.TimeOnlyRollsOver(SB.Redis(after), at, back);
      SB.ServeRefinesApply(SB.Redis(after), back, limit, SL.Release(op));
      if op !in Ledger(b, back).holds {
        LaterToo(b, after, SB.RedisRelease(after, back, op).0, limit, op, at, back, later);
      }
    }
  }

  lemma HoldGivenBack(b: SB.RedisSpend, after: SB.RedisSpend, limit: int, op: OpId, amount: int, at: int, back: int)
    requires 0 <= limit && 0 < amount && at <= back && SB.Consistent(SB.Redis(b), at) && SB.Consistent(SB.Redis(after), at)
    requires 0 <= Ledger(b, at).total && SB.RedisReserve(b, at, limit, op, amount) == (after, true)
    requires (true, Ledger(after, at)) == (SL.Apply(Ledger(b, at), limit, SL.Reserve(op, amount)).1, SL.Apply(Ledger(b, at), limit, SL.Reserve(op, amount)).0)
    ensures Ledger(SB.RedisRelease(after, back, op).0, back) == Ledger(b, back) <==> op !in Ledger(b, back).holds
  {
    SB.TimeOnlyRollsOver(SB.Redis(after), at, back);
    SB.ServeRefinesApply(SB.Redis(after), back, limit, SL.Release(op));
    SB.TimeOnlyRollsOver(SB.Redis(b), at, back);
    var before := Ledger(b, at);
    if op !in before.holds { assert before.holds[op := amount] - {op} == before.holds; }
  }

  /** The visible ledger after a reservation: what it was, with the hold if it was
      granted, until the window ends. */
  lemma ReserveLedger(b: SB.RedisSpend, limit: int, op: OpId, amount: int, at: int, later: int)
    requires 0 <= limit && 0 < amount && at <= later && SB.Consistent(SB.Redis(b), at)
    ensures var (after, ok) := SB.RedisReserve(b, at, limit, op, amount);
            && SB.Consistent(SB.Redis(after), at)
            && (ok, Ledger(after, at)) == (SL.Apply(Ledger(b, at), limit, SL.Reserve(op, amount)).1, SL.Apply(Ledger(b, at), limit, SL.Reserve(op, amount)).0)
            && (!ok ==> Ledger(after, later) == Ledger(b, later))
  {
    var after := SB.RedisReserve(b, at, limit, op, amount).0;
    var call := SB.Timed(at, SL.Reserve(op, amount));
    SB.ServeRefinesApply(SB.Redis(b), at, limit, SL.Reserve(op, amount));
    SB.TimeOnlyRollsOver(SB.Redis(b), at, later);
    SB.TimeOnlyRollsOver(SB.Redis(after), at, later);
    SB.ServeKeepsWindow(SB.Redis(b), at, limit, call);
    SB.TimeKeepsEnd(SB.Redis(b), at, later);
    SB.TimeKeepsEnd(SB.Redis(after), at, later);
    if SB.Over(SB.Redis(b), at) { SB.OverIsEmpty(SB.Redis(b), at); }
  }

  /** Equal ledgers stay equal: a window that was running ends when it would have,
      and one that was opened for the reservation is empty again. */
  lemma LaterToo(b: SB.RedisSpend, after: SB.RedisSpend, released: SB.RedisSpend, limit: int, op: OpId, at: int, back: int, later: int)
    requires at <= back <= later && SB.Consistent(SB.Redis(b), at) && SB.Consistent(SB.Redis(after), back)
    requires SB.Consistent(SB.Redis(released), back) && released == SB.RedisRelease(after, back, op).0
    requires Ledger(released, back) == Ledger(b, back)
    requires !SB.Over(SB.Redis(b), at) ==> after.window == b.window
    ensures Ledger(released, later) == Ledger(b, later)
  {
    SB.TimeOnlyRollsOver(SB.Redis(b), at, back);
    SB.TimeOnlyRollsOver(SB.Redis(b), back, later);
    SB.TimeOnlyRollsOver(SB.Redis(released), back, later);
    SB.TimeKeepsEnd(SB.Redis(b), at, back);
    SB.TimeKeepsEnd(SB.Redis(b), back, later);
    if SB.Over(SB.Redis(b), back) { SB.OverIsEmpty(SB.Redis(b), back); }
  }

  lemma SlotRoundTrip(s: L.Leases, c: L.Config, m: L.Member, at: int, back: int, later: int)
    requires at <= back <= later
    ensures var (after, ok) := L.Acquire(s, c, at, m);
            var released := L.ReleaseSlot(after, m).slots;
            && after.owners == s.owners
            && (!ok ==> Slots(after.slots, later) == Slots(s.slots, later))
            && (ok ==> (Slots(released, back) == Slots(s.slots, back) <==> m !in Slots(s.slots, back)))
            && (ok && m !in Slots(s.slots, back) ==> Slots(released, later) == Slots(s.slots, later))
  {
    var after := L.Acquire(s, c, at, m).0;
    assert Slots(L.ReleaseSlot(after, m).slots, back) == Slots(s.slots, back) - {m};
    assert Slots(L.ReleaseSlot(after, m).slots, later) == Slots(s.slots, later) - {m};
    if !L.Acquire(s, c, at, m).1 { assert Slots(after.slots, later) == Slots(s.slots, later); }
  }

  lemma OwnerRoundTrip(s: L.Leases, c: L.Config, m: L.Member, at: int, back: int, later: int)
    requires at <= back <= later
    ensures var (after, ok) := L.Begin(s, c, at, m);
            && after.slots == s.slots
            && (!ok ==> after == s)
            && (ok ==> L.ReleaseLease(after, back, m).0.slots == s.slots
                       && Visible(L.ReleaseLease(after, back, m).0.owners, later) == Visible(s.owners, later))
  {
  }

  lemma ClaimRoundTrip(s: Store, op: OpId, key: IdemKey, at: int, back: int, later: int)
    requires at <= back <= later
    ensures var (after, ok) := ClaimOperation(s, at, op, key);
            && (!ok ==> after == s)
            && after == s.(claims := after.claims)
            && (ok ==> (Visible(ReleaseOperation(after, back, op, key).claims, back) == Visible(s.claims, back)
                        <==> op !in Visible(s.claims, back)))
            && (ok && op !in Visible(s.claims, back) ==>
                  Visible(ReleaseOperation(after, back, op, key).claims, later) == Visible(s.claims, later))
  {
    var (after, ok) := ClaimOperation(s, at, op, key);
    if ok {
      var released := ReleaseOperation(after, back, op, key).claims;
      VisibleWithout(s.claims, released, op, back);
      VisibleWithout(s.claims, released, op, later);
    }
  }

  /** The client compares the claim and deletes it in two commands. Whatever others
      did in between, the late delete does what one atomic step would do then,
      unless the operation is claimed under another key by that time. */
  lemma SplitReleaseNeedsSameKey(s: Store, now: int, op: OpId, key: IdemKey)
    ensures Visible(s.claims - {op}, now) == Visible(ReleaseOperation(s, now, op, key).claims, now)
            <==> Get(s.claims, op, now).None? || Get(s.claims, op, now) == Some(key)
  {
    VisibleWithout(s.claims, s.claims - {op}, op, now);
  }

  /** Entries that differ only in one key, which one of them does not show. */
  lemma VisibleWithout<K, V>(before: map<K, Entry<V>>, after: map<K, Entry<V>>, k: K, now: int)
    requires k !in Visible(after, now)
    requires forall x :: x != k ==> (x in before <==> x in after) && (x in before ==> before[x] == after[x])
    ensures Visible(after, now) == Visible(before, now) - {k}
    ensures Visible(after, now) == Visible(before, now) <==> k !in Visible(before, now)
  {
  }

  lemma KeyRoundTrip(s: I.Idem, r: Request, at: int, back: int, later: int)
    requires at <= back < at + I.ADMISSION_TTL && back <= later && I.Claim(s, at, r.key, r.op, r.token).1.None?
    ensures var (after, owner) := I.ReleaseKey(I.Claim(s, at, r.key, r.op, r.token).0, back, r.key, r.op, r.token);
            && owner.None?
            && (Visible(after.keys, back) == Visible(s.keys, back) <==> r.key !in Visible(s.keys, back))
            && (r.key !in Visible(s.keys, back) ==> Visible(after.keys, later) == Visible(s.keys, later))
  {
    var after := I.ReleaseKey(I.Claim(s, at, r.key, r.op, r.token).0, back, r.key, r.op, r.token).0;
    VisibleWithout(s.keys, after.keys, r.key, back);
    VisibleWithout(s.keys, after.keys, r.key, later);
  }

  // What an admission under way holds of each resource.

  predicate SpendPart(c: Config, r: Request, t: Course, s: Store, p: Progress) {
    if p.taken.spend || p.lost.spend then
      && r.reserve.Some? && !(p.taken.spend && p.lost.spend)
      && SB.RedisReserve(s.spend, t.reserve, c.limit, r.op, r.reserve.value) == (p.store.spend, true)
    else
      || p.store.spend == s.spend
      || (r.reserve.Some? && SB.RedisReserve(s.spend, t.reserve, c.limit, r.op, r.reserve.value) == (p.store.spend, false))
  }

  predicate ClaimPart(r: Request, t: Course, s: Store, p: Progress) {
    if p.taken.claim || p.lost.claim then
      !(p.taken.claim && p.lost.claim) && ClaimOperation(s, t.bind, r.op, r.key) == (s.(claims := p.store.claims), true)
    else p.store.claims == s.claims
  }

  predicate SlotPart(c: Config, r: Request, t: Course, s: Store, p: Progress) {
    var (slotted, ok) := L.Acquire(s.leases, c.leases, t.slot, L.Member(r.inst, r.op));
    if p.taken.slot || p.lost.slot then !(p.taken.slot && p.lost.slot) && ok && p.store.leases.slots == slotted.slots
    else p.store.leases.slots == s.leases.slots || (!ok && p.store.leases.slots == slotted.slots)
  }

  predicate OwnerPart(c: Config, r: Request, t: Course, s: Store, p: Progress) {
    var (begun, ok) := L.Begin(s.leases, c.leases, t.begin, L.Member(r.inst, r.op));
    if p.taken.owner || p.lost.owner then !(p.taken.owner && p.lost.owner) && ok && p.store.leases.owners == begun.owners
    else p.store.leases.owners == s.leases.owners
  }

  lemma AdmittedParts(c: Config, r: Request, t: Course, s: Store)
    ensures var p := Admitted(c, r, t, s);
            && p.taken.key && p.store.idem == I.Claim(s.idem, t.claim, r.key, r.op, r.token).0
            && p.store.bound == s.bound
            && SpendPart(c, r, t, s, p) && ClaimPart(r, t, s, p) && SlotPart(c, r, t, s, p) && OwnerPart(c, r, t, s, p)
  {
    var granted := Granted(t, s.(idem := I.Claim(s.idem, t.claim, r.key, r.op, r.token).0));
    var reserved := Reserved(c, r, t.reserve, t.faults.reserve, granted);
    var bound := BoundTo(r, t.bind, t.faults.bind, reserved);
    var slotted := Slotted(c, r, t.slot, t.faults.slot, bound);
    ReservedPart(c, r, t, s, granted);
    BoundPart(r, t, s, reserved);
    SlottedPart(c, r, t, s, bound);
    OwnedPart(c, r, t, s, slotted);
  }

  lemma ReservedPart(c: Config, r: Request, t: Course, s: Store, p: Progress)
    requires p.store.spend == s.spend && p.taken == NOTHING.(key := true) && p.lost == NOTHING
    ensures var q := Reserved(c, r, t.reserve, t.faults.reserve, p);
            && q.store == p.store.(spend := q.store.spend)
            && q.taken == p.taken.(spend := q.taken.spend) && q.lost == p.lost.(spend := q.lost.spend)
            && SpendPart(c, r, t, s, q)
  {
  }

  lemma BoundPart(r: Request, t: Course, s: Store, p: Progress)
    requires p.store.claims == s.claims && p.store.bound == s.bound && !p.taken.claim && !p.lost.claim
    ensures var q := BoundTo(r, t.bind, t.faults.bind, p);
            && q.store == p.store.(claims := q.store.claims)
            && q.taken == p.taken.(claim := q.taken.claim) && q.lost == p.lost.(claim := q.lost.claim)
            && ClaimPart(r, t, s, q)
  {
    BoundStops(r, t.bind, t.faults.bind, p);
    if p.refused || t.faults.bind.Unserved? {
      KeptPart(r, t, s, p, BoundTo(r, t.bind, t.faults.bind, p));
    } else {
      ClaimNeedsClaims(s, p.store, t.bind, r.op, r.key);
      AskedPart(r, t, s, p, t.faults.bind, BoundTo(r, t.bind, t.faults.bind, p));
    }
  }

  lemma KeptPart(r: Request, t: Course, s: Store, p: Progress, q: Progress)
    requires p.store.claims == s.claims && !p.taken.claim && !p.lost.claim
    requires q.store == p.store && q.taken == p.taken && q.lost == p.lost
    ensures q.store == p.store.(claims := q.store.claims)
    ensures q.taken == p.taken.(claim := q.taken.claim) && q.lost == p.lost.(claim := q.lost.claim)
    ensures ClaimPart(r, t, s, q)
  {
  }

  lemma AskedPart(r: Request, t: Course, s: Store, p: Progress, f: Fault, q: Progress)
    requires p.store.claims == s.claims && !p.taken.claim && !p.lost.claim && f != Unserved
    requires var (claimed, ok) := ClaimOperation(s, t.bind, r.op, r.key);
             && claimed == s.(claims := claimed.claims) && (!ok ==> claimed == s)
             && q.store == p.store.(claims := claimed.claims)
             && q.taken == p.taken.(claim := ok && f == Works) && q.lost == p.lost.(claim := ok && f == Served)
    ensures q.store == p.store.(claims := q.store.claims)
    ensures q.taken == p.taken.(claim := q.taken.claim) && q.lost == p.lost.(claim := q.lost.claim)
    ensures ClaimPart(r, t, s, q)
  {
  }

  lemma BoundStops(r: Request, now: int, f: Fault, p: Progress)
    ensures var (store, ok) := ClaimOperation(p.store, now, r.op, r.key);
            BoundTo(r, now, f, p)
            == if p.refused then p else if f.Unserved? then p.(refused := true, raised := true)
               else Progress(store, p.taken.(claim := ok && f == Works), p.lost.(claim := ok && f == Served), Stops(f, ok), f.Served?)
  {
  }

  lemma ClaimNeedsClaims(a: Store, b: Store, now: int, op: OpId, key: IdemKey)
    requires a.claims == b.claims && a.bound == b.bound
    ensures ClaimOperation(a, now, op, key).1 == ClaimOperation(b, now, op, key).1
    ensures ClaimOperation(b, now, op, key).0 == b.(claims := ClaimOperation(a, now, op, key).0.claims)
    ensures ClaimOperation(a, now, op, key).0 == a.(claims := ClaimOperation(a, now, op, key).0.claims)
    ensures !ClaimOperation(a, now, op, key).1 ==> ClaimOperation(a, now, op, key).0 == a
  {
  }

  lemma SlottedPart(c: Config, r: Request, t: Course, s: Store, p: Progress)
    requires p.store.leases == s.leases && !p.taken.slot && !p.lost.slot
    ensures var q := Slotted(c, r, t.slot, t.faults.slot, p);
            && q.store == p.store.(leases := s.leases.(slots := q.store.leases.slots))
            && q.taken == p.taken.(slot := q.taken.slot) && q.lost == p.lost.(slot := q.lost.slot)
            && SlotPart(c, r, t, s, q)
  {
    var m := L.Member(r.inst, r.op);
    AcquireKeepsOwners(s.leases, c.leases, t.slot, m);
    var (leases, ok) := L.Acquire(p.store.leases, c.leases, t.slot, m);
    SlottedStops(c, r, t.slot, t.faults.slot, p);
    TriedPart(c, r, t, s, p, leases, ok, Slotted(c, r, t.slot, t.faults.slot, p));
  }

  lemma TriedPart(c: Config, r: Request, t: Course, s: Store, p: Progress, leases: L.Leases, ok: bool, q: Progress)
    requires p.store.leases == s.leases && !p.taken.slot && !p.lost.slot && leases.owners == s.leases.owners
    requires (leases, ok) == L.Acquire(s.leases, c.leases, t.slot, L.Member(r.inst, r.op))
    requires q == p || q == p.(refused := true, raised := true)
             || exists f :: f != Unserved &&
                  q == Progress(p.store.(leases := leases), p.taken.(slot := ok && f == Works),
                                p.lost.(slot := ok && f == Served), Stops(f, ok), f.Served?)
    ensures q.store == p.store.(leases := s.leases.(slots := q.store.leases.slots))
    ensures q.taken == p.taken.(slot := q.taken.slot) && q.lost == p.lost.(slot := q.lost.slot)
    ensures SlotPart(c, r, t, s, q)
  {
  }

  lemma AcquireKeepsOwners(s: L.Leases, c: L.Config, now: int, m: L.Member)
    ensures L.Acquire(s, c, now, m).0.owners == s.owners
  {
  }

  lemma SlottedStops(c: Config, r: Request, now: int, f: Fault, p: Progress)
    ensures var (leases, ok) := L.Acquire(p.store.leases, c.leases, now, L.Member(r.inst, r.op));
            Slotted(c, r, now, f, p)
            == if p.refused then p else if f.Unserved? then p.(refused := true, raised := true)
               else Progress(p.store.(leases := leases), p.taken.(slot := ok && f == Works), p.lost.(slot := ok && f == Served), Stops(f, ok), f.Served?)
  {
  }

  lemma OwnedPart(c: Config, r: Request, t: Course, s: Store, p: Progress)
    requires p.store.leases.owners == s.leases.owners && !p.taken.owner && !p.lost.owner
    ensures var q := Owned(c, r, t.begin, t.faults.begin, p);
            && q.store == p.store.(leases := p.store.leases.(owners := q.store.leases.owners))
            && q.taken == p.taken.(owner := q.taken.owner) && q.lost == p.lost.(owner := q.lost.owner)
            && OwnerPart(c, r, t, s, q)
  {
    var m := L.Member(r.inst, r.op);
    BeginNeedsOwners(s.leases, p.store.leases, c.leases, t.begin, m);
    var (leases, ok) := L.Begin(p.store.leases, c.leases, t.begin, m);
    OwnedStops(c, r, t.begin, t.faults.begin, p);
    BegunPart(c, r, t, s, p, leases, ok, Owned(c, r, t.begin, t.faults.begin, p));
  }

  lemma BegunPart(c: Config, r: Request, t: Course, s: Store, p: Progress, leases: L.Leases, ok: bool, q: Progress)
    requires p.store.leases.owners == s.leases.owners && !p.taken.owner && !p.lost.owner
    requires var begun := L.Begin(s.leases, c.leases, t.begin, L.Member(r.inst, r.op));
             ok == begun.1 && leases == p.store.leases.(owners := begun.0.owners) && (!ok ==> begun.0.owners == s.leases.owners)
    requires q == p || q == p.(refused := true, raised := true)
             || exists f :: f != Unserved &&
                  q == Progress(p.store.(leases := leases), p.taken.(owner := ok && f == Works),
                                p.lost.(owner := ok && f == Served), Stops(f, ok), f.Served?)
    ensures q.store == p.store.(leases := p.store.leases.(owners := q.store.leases.owners))
    ensures q.taken == p.taken.(owner := q.taken.owner) && q.lost == p.lost.(owner := q.lost.owner)
    ensures OwnerPart(c, r, t, s, q)
  {
  }

  lemma BeginNeedsOwners(a: L.Leases, b: L.Leases, c: L.Config, now: int, m: L.Member)
    requires a.owners == b.owners
    ensures L.Begin(a, c, now, m).1 == L.Begin(b, c, now, m).1
    ensures L.Begin(b, c, now, m).0 == b.(owners := L.Begin(a, c, now, m).0.owners)
    ensures !L.Begin(a, c, now, m).1 ==> L.Begin(a, c, now, m).0 == a
  {
  }

  lemma OwnedStops(c: Config, r: Request, now: int, f: Fault, p: Progress)
    ensures var (leases, ok) := L.Begin(p.store.leases, c.leases, now, L.Member(r.inst, r.op));
            Owned(c, r, now, f, p)
            == if p.refused then p else if f.Unserved? then p.(refused := true, raised := true)
               else Progress(p.store.(leases := leases), p.taken.(owner := ok && f == Works), p.lost.(owner := ok && f == Served), Stops(f, ok), f.Served?)
  {
  }

  /** Once the key is given up, each resource is released or not by its own call
      alone: one that raises does not keep another from being released. */
  lemma RollbackParts(c: Config, r: Request, now: int, s: Store, taken: Taken, undo: Undo)
    requires taken.key && undo.key.Works? && I.ReleaseKey(s.idem, now, r.key, r.op, r.token).1 != Some(r.op)
    ensures var after, m := Rollback(c, r, now, s, taken, undo), L.Member(r.inst, r.op);
            && after.bound == s.bound && after.idem == I.ReleaseKey(s.idem, now, r.key, r.op, r.token).0
            && after.spend == (if taken.spend && !undo.spend.Unserved? then SB.RedisRelease(s.spend, now, r.op).0 else s.spend)
            && after.claims == (if taken.claim && !undo.claim.Unserved? then ReleaseOperation(s, now, r.op, r.key).claims else s.claims)
            && after.leases.slots == (if taken.slot && !undo.slot.Unserved? then s.leases.slots - {m} else s.leases.slots)
            && after.leases.owners == (if taken.owner && !undo.owner.Unserved? then L.ReleaseLease(s.leases, now, m).0.owners else s.leases.owners)
  {
  }

  lemma LedgerRestored(c: Config, r: Request, t: Course, s: Store, p: Progress, later: int)
    requires 0 <= c.limit && InOrder(t) && t.rollback <= later
    requires (r.reserve.Some? ==> 0 < r.reserve.value) && SpendPart(c, r, t, s, p)
    requires SB.Consistent(SB.Redis(s.spend), t.reserve) && 0 <= Ledger(s.spend, t.reserve).total
    ensures var after := if p.taken.spend then SB.RedisRelease(p.store.spend, t.rollback, r.op).0 else p.store.spend;
            var left := OnlyLost(c, r, t, s, p.lost).spend;
            var clean := p.taken.spend ==> r.op !in Ledger(s.spend, t.rollback).holds;
            && (Ledger(after, t.rollback) == Ledger(left, t.rollback) <==> clean)
            && (clean ==> Ledger(after, later) == Ledger(left, later))
  {
    if r.reserve.Some? { HoldRoundTrip(s.spend, c.limit, r.op, r.reserve.value, t.reserve, t.rollback, later); }
  }

  lemma ClaimsRestored(c: Config, r: Request, t: Course, s: Store, p: Progress, later: int)
    requires InOrder(t) && t.rollback <= later && ClaimPart(r, t, s, p)
    ensures var after := if p.taken.claim then ReleaseOperation(p.store, t.rollback, r.op, r.key).claims else p.store.claims;
            var left := OnlyLost(c, r, t, s, p.lost).claims;
            var clean := p.taken.claim ==> r.op !in Visible(s.claims, t.rollback);
            && (Visible(after, t.rollback) == Visible(left, t.rollback) <==> clean)
            && (clean ==> Visible(after, later) == Visible(left, later))
  {
    ClaimRoundTrip(s, r.op, r.key, t.bind, t.rollback, later);
  }

  lemma SlotsRestored(c: Config, r: Request, t: Course, s: Store, p: Progress, later: int)
    requires InOrder(t) && t.rollback <= later && SlotPart(c, r, t, s, p)
    ensures var m := L.Member(r.inst, r.op);
            var after := if p.taken.slot then p.store.leases.slots - {m} else p.store.leases.slots;
            var left := OnlyLost(c, r, t, s, p.lost).leases.slots;
            var clean := p.taken.slot ==> m !in Slots(s.leases.slots, t.rollback);
            && (Slots(after, t.rollback) == Slots(left, t.rollback) <==> clean)
            && (clean ==> Slots(after, later) == Slots(left, later))
  {
    SlotRoundTrip(s.leases, c.leases, L.Member(r.inst, r.op), t.slot, t.rollback, later);
    SlotRoundTrip(s.leases, c.leases, L.Member(r.inst, r.op), t.slot, t.rollback, t.rollback);
  }

  lemma OwnersRestored(c: Config, r: Request, t: Course, s: Store, p: Progress, later: int)
    requires InOrder(t) && t.rollback <= later && OwnerPart(c, r, t, s, p)
    ensures var m := L.Member(r.inst, r.op);
            var after := if p.taken.owner then L.ReleaseLease(p.store.leases, t.rollback, m).0.owners else p.store.leases.owners;
            Visible(after, later) == Visible(OnlyLost(c, r, t, s, p.lost).leases.owners, later)
  {
    OwnerRoundTrip(s.leases, c.leases, L.Member(r.inst, r.op), t.begin, t.rollback, later);
  }

  /** A failed admission restores everything but what it was not told of. For every
      point at which it can be refused or a call can raise, executed or not, with
      its rollback in time and working and nobody else acting on the store
      meanwhile: a reader sees after the rollback, and at every later instant,
      what it would have seen with nothing of the request executed but the one
      call that raised after its execution (nothing at all if there is none), if
      and only if nothing the request took was there before. */
  lemma FailedAdmissionRestores(c: Config, r: Request, t: Course, s: Store, later: int)
    requires 0 <= c.limit && InOrder(t) && t.rollback < t.claim + I.ADMISSION_TTL && t.rollback <= later
    requires r.reserve.Some? ==> 0 < r.reserve.value
    requires SB.Consistent(SB.Redis(s.spend), t.reserve) && 0 <= Ledger(s.spend, t.reserve).total
    requires t.faults.claim.Works? && I.Claim(s.idem, t.claim, r.key, r.op, r.token).1.None?
    requires t.undo == ALL_UNDONE
    requires Admitted(c, r, t, s).refused || t.faults.save.Unserved?
    requires t.cancels ==> !Broken(Admitted(c, r, t, s), t)
    ensures var p, (after, reply) := Admitted(c, r, t, s), Attempt(c, r, t, s);
            var left := OnlyLost(c, r, t, s, p.lost);
            && reply == Refused
            && (See(after, t.rollback) == See(left, t.rollback) <==> Fresh(r, p.taken, See(s, t.rollback)))
            && (Fresh(r, p.taken, See(s, t.rollback)) ==> See(after, later) == See(left, later))
            && (p.lost == NOTHING ==> left == s)
  {
    var p := Admitted(c, r, t, s);
    AdmittedParts(c, r, t, s);
    KeyRoundTrip(s.idem, r, t.claim, t.rollback, later);
    RollbackParts(c, r, t.rollback, p.store, p.taken, t.undo);
    LedgerRestored(c, r, t, s, p, later);
    ClaimsRestored(c, r, t, s, p, later);
    SlotsRestored(c, r, t, s, p, later);
    OwnersRestored(c, r, t, s, p, later);
    OwnersRestored(c, r, t, s, p, t.rollback);
    RefusedIsRolledBack(c, r, t, s);
    var after, left := Rollback(c, r, t.rollback, p.store, p.taken, t.undo), OnlyLost(c, r, t, s, p.lost);
    SameView(after, left, t.rollback);
    SameView(after, left, later);
  }

  lemma RefusedIsRolledBack(c: Config, r: Request, t: Course, s: Store)
    requires t.faults.claim.Works? && I.Claim(s.idem, t.claim, r.key, r.op, r.token).1.None?
    requires Admitted(c, r, t, s).refused || t.faults.save.Unserved?
    requires t.cancels ==> !Broken(Admitted(c, r, t, s), t)
    ensures var p := Admitted(c, r, t, s);
            Attempt(c, r, t, s) == (Rollback(c, r, t.rollback, p.store, p.taken, t.undo), Refused)
  {
  }

  lemma SameView(a: Store, b: Store, now: int)
    ensures See(a, now) == See(b, now) <==>
              && Visible(a.idem.keys, now) == Visible(b.idem.keys, now) && Visible(a.claims, now) == Visible(b.claims, now)
              && Slots(a.leases.slots, now) == Slots(b.leases.slots, now)
              && Visible(a.leases.owners, now) == Visible(b.leases.owners, now) && Ledger(a.spend, now) == Ledger(b.spend, now)
  {
  }

  /** A request that is cancelled at a call of its admission is not rolled back:
      what it had taken, and what that call took if it was executed, all stays,
      the hold until its window ends, the rest for the time it was taken for. */
  lemma CancelledAdmissionKeepsAll(c: Config, r: Request, t: Course, s: Store)
    requires 0 <= c.limit && t.cancels && t.faults.claim.Works? && Broken(Admitted(c, r, t, s), t)
    requires I.Claim(s.idem, t.claim, r.key, r.op, r.token).1.None?
    requires (r.reserve.Some? ==> 0 < r.reserve.value) && SB.Consistent(SB.Redis(s.spend), t.reserve)
    ensures var p, (after, reply) := Admitted(c, r, t, s), Attempt(c, r, t, s);
            var m := L.Member(r.inst, r.op);
            && reply == Refused && after.bound == s.bound
            && I.Claim(after.idem, t.claim, r.key, r.op, r.token) == (after.idem, Some(r.op))
            && (p.taken.spend || p.lost.spend ==> r.op in Ledger(after.spend, t.reserve).holds)
            && (p.taken.claim || p.lost.claim ==> Get(after.claims, r.op, t.bind) == Some(r.key))
            && (p.taken.slot || p.lost.slot ==> m in after.leases.slots && after.leases.slots[m] == t.slot + c.leases.ttl)
            && (p.taken.owner || p.lost.owner ==> r.op in after.leases.owners && after.leases.owners[r.op] == Entry(r.inst, t.begin + c.leases.ttl))
  {
    AdmittedParts(c, r, t, s);
    CancelledIsKept(c, r, t, s);
    PartsShow(c, r, t, s, Admitted(c, r, t, s));
  }

  lemma CancelledIsKept(c: Config, r: Request, t: Course, s: Store)
    requires t.cancels && t.faults.claim.Works? && Broken(Admitted(c, r, t, s), t)
    requires I.Claim(s.idem, t.claim, r.key, r.op, r.token).1.None?
    ensures Attempt(c, r, t, s) == (Admitted(c, r, t, s).store, Refused)
  {
  }

  /** What an admission under way has taken is there to be seen. */
  lemma PartsShow(c: Config, r: Request, t: Course, s: Store, p: Progress)
    requires SpendPart(c, r, t, s, p) && ClaimPart(r, t, s, p) && SlotPart(c, r, t, s, p) && OwnerPart(c, r, t, s, p)
    requires 0 <= c.limit && (r.reserve.Some? ==> 0 < r.reserve.value) && SB.Consistent(SB.Redis(s.spend), t.reserve)
    ensures var m := L.Member(r.inst, r.op);
            && (p.taken.spend || p.lost.spend ==> r.op in Ledger(p.store.spend, t.reserve).holds)
            && (p.taken.claim || p.lost.claim ==> Get(p.store.claims, r.op, t.bind) == Some(r.key))
            && (p.taken.slot || p.lost.slot ==> m in p.store.leases.slots && p.store.leases.slots[m] == t.slot + c.leases.ttl)
            && (p.taken.owner || p.lost.owner ==> r.op in p.store.leases.owners && p.store.leases.owners[r.op] == Entry(r.inst, t.begin + c.leases.ttl))
  {
    if r.reserve.Some? { ReserveLedger(s.spend, c.limit, r.op, r.reserve.value, t.reserve, t.reserve); }
  }

  /** An admission whose lease has lapsed finds its operation still the key's
      owner, and its rollback keeps everything it took, until it expires. */
  lemma LapsedRollbackKeepsAll(c: Config, r: Request, t: Course, s: Store)
    requires InOrder(t) && t.claim + I.ADMISSION_TTL <= t.rollback < t.claim + I.KEY_TTL
    requires t.faults.claim.Works? && I.Claim(s.idem, t.claim, r.key, r.op, r.token).1.None?
    ensures var p := Admitted(c, r, t, s);
            && Rollback(c, r, t.rollback, p.store, p.taken, t.undo) == p.store
            && (t.claim + I.ADMISSION_TTL <= t.save && !p.refused ==> Attempt(c, r, t, s) == (p.store, Refused))
  {
    AdmittedParts(c, r, t, s);
  }

  /** Once the queued state is persisted, nothing is rolled back, also when the
      save's own answer or the start of the task fails: the operation keeps its
      key, owner, slot and hold, and the requester is told of an error. */
  lemma PersistedAdmissionIsKept(c: Config, r: Request, t: Course, s: Store)
    requires InOrder(t) && t.rollback < t.claim + I.ADMISSION_TTL
    requires t.faults.claim.Works? && I.Claim(s.idem, t.claim, r.key, r.op, r.token).1.None?
    requires !Admitted(c, r, t, s).refused && !t.faults.save.Unserved?
    ensures var (after, reply) := Attempt(c, r, t, s);
            var p := Admitted(c, r, t, s);
            && reply == (if t.faults.save.Works? && !t.startRaises then Started else Refused)
            && after.leases == p.store.leases && after.spend == p.store.spend && after.claims == p.store.claims
            && r.op in after.idem.saved && r.op in after.bound && after.bound[r.op] == r.key
            && I.Claim(after.idem, t.rollback, r.key, r.op, r.token) == (after.idem, Some(r.op))
            && Get(after.leases.owners, r.op, t.begin) == (if 0 < c.leases.ttl then Some(r.inst) else None)
  {
    AdmittedParts(c, r, t, s);
    TakenUnlessRefused(c, r, t, s);
    PersistedKey(s.idem, r, t);
  }

  lemma TakenUnlessRefused(c: Config, r: Request, t: Course, s: Store)
    requires !Admitted(c, r, t, s).refused
    ensures Admitted(c, r, t, s).taken == Taken(true, r.reserve.Some?, true, true, true)
    ensures Admitted(c, r, t, s).lost == NOTHING
  {
  }

  /** What the save leaves of a key: bound, persisted, and not to be released. */
  lemma PersistedKey(s: I.Idem, r: Request, t: Course)
    requires InOrder(t) && t.rollback < t.claim + I.ADMISSION_TTL
    requires I.Claim(s, t.claim, r.key, r.op, r.token).1.None?
    ensures var claimed := I.Claim(s, t.claim, r.key, r.op, r.token).0;
            var (after, saved) := I.SaveAdmitted(claimed, t.save, r.key, r.op, r.token);
            && saved && r.op in after.saved
            && I.ReleaseKey(after, t.rollback, r.key, r.op, r.token) == (after, Some(r.op))
            && I.Claim(after, t.rollback, r.key, r.op, r.token) == (after, Some(r.op))
  {
  }

  // ----- What a request is answered -----

  /** A key is bound, for a reader at this instant, to this operation. */
  predicate IsBound(s: Store, key: IdemKey, op: OpId, now: int) {
    key in s.idem.keys && now < s.idem.keys[key].expiresAt && s.idem.keys[key].value == op
  }

  /** It is bound to an operation not stored, and somebody may still store it. */
  predicate IsPending(s: Store, key: IdemKey, op: OpId, now: int) {
    IsBound(s, key, op, now) && op !in s.idem.saved && key in s.idem.pending && now < s.idem.pending[key].expiresAt
  }

  /** A retry is answered with its operation exactly when its key is bound to a
      stored one, and then nothing changes; while the key's operation is not stored
      and its admission lease lives, the retry is refused, and nothing changes. */
  lemma RetryIsAnswered(c: Config, r: Request, t: Course, s: Store)
    ensures var (after, reply) := Attempt(c, r, t, s);
            && (forall op :: reply == Known(op) <==> t.faults.claim.Works? && IsBound(s, r.key, op, t.claim) && op in s.idem.saved)
            && (reply.Known? ==> after == s)
            && (forall op :: t.faults.claim.Works? && IsPending(s, r.key, op, t.claim) ==> (after, reply) == (s, Refused))
  {
    I.ClaimGrantsIffFree(s.idem, t.claim, r.key, r.op, r.token);
    var (idem, existing) := I.Claim(s.idem, t.claim, r.key, r.op, r.token);
    if t.faults.claim.Works? && existing.None? { GrantedIsNotKnown(c, r, t, s); }
  }

  lemma GrantedIsNotKnown(c: Config, r: Request, t: Course, s: Store)
    requires t.faults.claim.Works? && I.Claim(s.idem, t.claim, r.key, r.op, r.token).1.None?
    ensures !Attempt(c, r, t, s).1.Known?
  {
  }

  /** The last calls of an attempt are served before this instant. */
  predicate Before(t: Course, until: int) { t.claim < until && t.save < until && t.rollback < until }

  /** No attempt touches a key that is bound to a stored operation. */
  lemma AttemptKeepsSeal(c: Config, r: Request, t: Course, s: Store, key: IdemKey, op: OpId, until: int)
    requires I.Sealed(s.idem, key, op, until) && Before(t, until)
    ensures I.Sealed(Attempt(c, r, t, s).0.idem, key, op, until)
  {
    I.SealedStep(s.idem, I.Event(t.claim, I.DoClaim(r.key, r.op, r.token)), key, op, until);
    if t.faults.claim.Works? && I.Claim(s.idem, t.claim, r.key, r.op, r.token).1.None? {
      GrantedKeepsSeal(c, r, t, s, key, op, until);
    }
  }

  lemma GrantedKeepsSeal(c: Config, r: Request, t: Course, s: Store, key: IdemKey, op: OpId, until: int)
    requires t.faults.claim.Works? && I.Claim(s.idem, t.claim, r.key, r.op, r.token).1.None?
    requires I.Sealed(I.Claim(s.idem, t.claim, r.key, r.op, r.token).0, key, op, until) && Before(t, until)
    ensures I.Sealed(Attempt(c, r, t, s).0.idem, key, op, until)
  {
    AdmittedParts(c, r, t, s);
    var p := Admitted(c, r, t, s);
    if p.refused || t.faults.save.Unserved? {
      RollbackKeepsSeal(c, r, t, p.store, p.taken, key, op, until);
    } else {
      SavedKeepsSeal(c, r, t, p, key, op, until);
    }
  }

  lemma SavedKeepsSeal(c: Config, r: Request, t: Course, p: Progress, key: IdemKey, op: OpId, until: int)
    requires I.Sealed(p.store.idem, key, op, until) && Before(t, until)
    ensures var (idem, saved) := I.SaveAdmitted(p.store.idem, t.save, r.key, r.op, r.token);
            var stored := p.store.(idem := idem, bound := if saved then p.store.bound[r.op := r.key] else p.store.bound);
            && I.Sealed(idem, key, op, until)
            && I.Sealed(Rollback(c, r, t.rollback, stored, p.taken, t.undo).idem, key, op, until)
  {
    I.SealedStep(p.store.idem, I.Event(t.save, I.DoSave(r.key, r.op, r.token)), key, op, until);
    var (idem, saved) := I.SaveAdmitted(p.store.idem, t.save, r.key, r.op, r.token);
    var stored := p.store.(idem := idem, bound := if saved then p.store.bound[r.op := r.key] else p.store.bound);
    RollbackKeepsSeal(c, r, t, stored, p.taken, key, op, until);
  }

  lemma RollbackKeepsSeal(c: Config, r: Request, t: Course, s: Store, taken: Taken, key: IdemKey, op: OpId, until: int)
    requires I.Sealed(s.idem, key, op, until) && Before(t, until)
    ensures I.Sealed(Rollback(c, r, t.rollback, s, taken, t.undo).idem, key, op, until)
  {
    I.SealedStep(s.idem, I.Event(t.rollback, I.DoRelease(r.key, r.op, r.token)), key, op, until);
  }

  datatype Try = Try(request: Request, course: Course)

  /** Any requests, one admission after the other. */
  function Tried(c: Config, s: Store, tries: seq<Try>): Store
    decreases |tries|
  {
    if tries == [] then s else Tried(c, Attempt(c, tries[0].request, tries[0].course, s).0, tries[1..])
  }

  lemma {:induction false} TriesKeepSeal(c: Config, s: Store, tries: seq<Try>, key: IdemKey, op: OpId, until: int)
    requires I.Sealed(s.idem, key, op, until) && forall t :: t in tries ==> Before(t.course, until)
    ensures I.Sealed(Tried(c, s, tries).idem, key, op, until)
    decreases |tries|
  {
    if tries != [] {
      assert tries[0] in tries;
      AttemptKeepsSeal(c, tries[0].request, tries[0].course, s, key, op, until);
      TriesKeepSeal(c, Attempt(c, tries[0].request, tries[0].course, s).0, tries[1..], key, op, until);
    }
  }

  /** An ambiguous submission resolves: after an attempt that started its operation,
      and any other attempts by anyone, every attempt under its key within the
      key's life whose claim works is answered with that operation. */
  lemma RetriesFindStarted(c: Config, r: Request, t: Course, s: Store, tries: seq<Try>, again: Try)
    requires Attempt(c, r, t, s).1.Started? && t.claim <= t.save
    requires forall x :: x in tries ==> Before(x.course, t.claim + I.KEY_TTL)
    requires again.request.key == r.key && again.course.faults.claim.Works? && again.course.claim < t.claim + I.KEY_TTL
    ensures var now := Tried(c, Attempt(c, r, t, s).0, tries);
            Attempt(c, again.request, again.course, now) == (now, Known(r.op))
  {
    StartedIsSealed(c, r, t, s);
    TriesKeepSeal(c, Attempt(c, r, t, s).0, tries, r.key, r.op, t.claim + I.KEY_TTL);
    RetryIsAnswered(c, again.request, again.course, Tried(c, Attempt(c, r, t, s).0, tries));
  }

  lemma StartedIsSealed(c: Config, r: Request, t: Course, s: Store)
    requires Attempt(c, r, t, s).1.Started?
    ensures I.Sealed(Attempt(c, r, t, s).0.idem, r.key, r.op, t.claim + I.KEY_TTL)
  {
    AdmittedParts(c, r, t, s);
  }

  // ----- When a request is admitted -----

  /** An operation id is granted exactly when no stored operation and no live claim
      binds it to another key; a claim not there before is made for a day. */
  lemma ClaimGrantsIffUnbound(s: Store, now: int, op: OpId, key: IdemKey)
    ensures var (t, granted) := ClaimOperation(s, now, op, key);
            var live := op in s.claims && now < s.claims[op].expiresAt;
            && (granted <==> (op in s.bound ==> s.bound[op] == key) && (live ==> s.claims[op].value == key))
            && t == if granted && !live then s.(claims := s.claims[op := Entry(key, now + 86400 * SECOND)]) else s
  {
  }

  predicate KeyIsFree(s: Store, key: IdemKey, now: int) {
    || key !in s.idem.keys || s.idem.keys[key].expiresAt <= now
    || (s.idem.keys[key].value !in s.idem.saved && (key in s.idem.pending ==> s.idem.pending[key].expiresAt <= now))
  }

  predicate BudgetFits(c: Config, r: Request, l: SL.Ledger) {
    r.reserve.None? || r.op in l.holds || l.total + r.reserve.value <= c.limit
  }

  /** An undisturbed request is started exactly when its key is free, it is valid,
      its budget fits, its operation id is its own or nobody's, fewer operations
      than the ceiling hold live slots, nobody owns it, and the save is in time. */
  lemma StartedIffAllFree(c: Config, r: Request, t: Course, s: Store)
    requires 0 <= c.limit && t.claim <= t.save && t.faults == NO_FAULT && !t.startRaises
    requires SB.Consistent(SB.Redis(s.spend), t.reserve)
    ensures Attempt(c, r, t, s).1.Started? <==>
              && KeyIsFree(s, r.key, t.claim) && t.valid
              && BudgetFits(c, r, Ledger(s.spend, t.reserve))
              && (r.op in s.bound ==> s.bound[r.op] == r.key)
              && (r.op in Visible(s.claims, t.bind) ==> s.claims[r.op].value == r.key)
              && |Slots(s.leases.slots, t.slot)| < c.leases.maxOps
              && r.op !in Visible(s.leases.owners, t.begin)
              && t.save < t.claim + I.ADMISSION_TTL
  {
    I.ClaimGrantsIffFree(s.idem, t.claim, r.key, r.op, r.token);
    if I.Claim(s.idem, t.claim, r.key, r.op, r.token).1.None? {
      SavedIffInTime(c, r, t, s);
      if t.valid { NotRefusedIffGranted(c, r, t, s); }
    }
  }

  lemma SavedIffInTime(c: Config, r: Request, t: Course, s: Store)
    requires t.claim <= t.save && t.faults == NO_FAULT && !t.startRaises && I.Claim(s.idem, t.claim, r.key, r.op, r.token).1.None?
    ensures Attempt(c, r, t, s).1.Started? <==> !Admitted(c, r, t, s).refused && t.save < t.claim + I.ADMISSION_TTL
    ensures !t.valid ==> Admitted(c, r, t, s).refused
  {
    AdmittedParts(c, r, t, s);
  }

  lemma NotRefusedIffGranted(c: Config, r: Request, t: Course, s: Store)
    requires 0 <= c.limit && t.valid && t.faults == NO_FAULT && SB.Consistent(SB.Redis(s.spend), t.reserve)
    ensures !Admitted(c, r, t, s).refused <==>
              && BudgetFits(c, r, Ledger(s.spend, t.reserve))
              && (r.op in s.bound ==> s.bound[r.op] == r.key)
              && (r.op in Visible(s.claims, t.bind) ==> s.claims[r.op].value == r.key)
              && |Slots(s.leases.slots, t.slot)| < c.leases.maxOps
              && r.op !in Visible(s.leases.owners, t.begin)
  {
    var m := L.Member(r.inst, r.op);
    var granted := Granted(t, s.(idem := I.Claim(s.idem, t.claim, r.key, r.op, r.token).0));
    var reserved := Reserved(c, r, t.reserve, Works, granted);
    var bound := BoundTo(r, t.bind, Works, reserved);
    var slotted := Slotted(c, r, t.slot, Works, bound);
    ReservedIffFits(c, r, t.reserve, granted);
    ClaimGrantsIffUnbound(reserved.store, t.bind, r.op, r.key);
    SlottedIffRoom(c, r, t.slot, bound);
    L.BeginGrantsIffUnowned(slotted.store.leases, c.leases, t.begin, m);
  }

  lemma ReservedIffFits(c: Config, r: Request, now: int, p: Progress)
    requires 0 <= c.limit && !p.refused && SB.Consistent(SB.Redis(p.store.spend), now)
    ensures var q := Reserved(c, r, now, Works, p);
            && (q.refused <==> !BudgetFits(c, r, Ledger(p.store.spend, now)))
            && q.store == p.store.(spend := q.store.spend)
  {
    if r.reserve.Some? { SB.ServeRefinesApply(SB.Redis(p.store.spend), now, c.limit, SL.Reserve(r.op, r.reserve.value)); }
  }

  lemma SlottedIffRoom(c: Config, r: Request, now: int, p: Progress)
    ensures var q := Slotted(c, r, now, Works, p);
            && (q.refused <==> p.refused || |Slots(p.store.leases.slots, now)| >= c.leases.maxOps)
            && q.store == p.store.(leases := p.store.leases.(slots := q.store.leases.slots))
  {
    L.AcquireGrantsIffRoom(p.store.leases, c.leases, now, L.Member(r.inst, r.op));
  }

  // ----- A second key for an operation that is under way -----

  /** The money it costs: a request for an operation already stored under another
      key reserves nothing new, is refused its operation id, and its rollback
      gives back the hold that the running operation was admitted with. */
  lemma SecondKeyDropsHold(c: Config, r: Request, t: Course, s: Store)
    requires 0 <= c.limit && InOrder(t) && t.rollback < t.claim + I.ADMISSION_TTL
    requires t.valid && t.faults == NO_FAULT && t.undo == ALL_UNDONE
    requires r.reserve.Some? && 0 < r.reserve.value && r.op in s.bound && s.bound[r.op] != r.key
    requires I.Claim(s.idem, t.claim, r.key, r.op, r.token).1.None?
    requires SB.Consistent(SB.Redis(s.spend), t.reserve)
    requires r.op in Ledger(s.spend, t.rollback).holds
    ensures var (after, reply) := Attempt(c, r, t, s);
            var was, now := Ledger(s.spend, t.rollback), Ledger(after.spend, t.rollback);
            && reply == Refused && after.leases == s.leases && after.bound == s.bound
            && now.holds == was.holds - {r.op} && now.total == Max(0, was.total - was.holds[r.op])
  {
    SB.TimeOnlyRollsOver(SB.Redis(s.spend), t.reserve, t.rollback);
    ReserveLedger(s.spend, c.limit, r.op, r.reserve.value, t.reserve, t.rollback);
    var spend := SB.RedisReserve(s.spend, t.reserve, c.limit, r.op, r.reserve.value).0;
    HeldReserveKeeps(s.spend, c.limit, r.op, r.reserve.value, t.reserve);
    SB.TimeOnlyRollsOver(SB.Redis(spend), t.reserve, t.rollback);
    SB.ServeRefinesApply(SB.Redis(spend), t.rollback, c.limit, SL.Release(r.op));
    KeyRoundTrip(s.idem, r, t.claim, t.rollback, t.rollback);
    SecondKeyTakes(c, r, t, s);
  }

  lemma SecondKeyTakes(c: Config, r: Request, t: Course, s: Store)
    requires t.valid && t.faults == NO_FAULT && r.reserve.Some? && r.op in s.bound && s.bound[r.op] != r.key
    requires SB.RedisReserve(s.spend, t.reserve, c.limit, r.op, r.reserve.value).1
    ensures var p := Admitted(c, r, t, s);
            && p.refused && p.taken == NOTHING.(key := true, spend := true)
            && p.store == s.(idem := I.Claim(s.idem, t.claim, r.key, r.op, r.token).0,
                             spend := SB.RedisReserve(s.spend, t.reserve, c.limit, r.op, r.reserve.value).0)
  {
  }

  /** Reserving for a live hold changes nothing. */
  lemma HeldReserveKeeps(b: SB.RedisSpend, limit: int, op: OpId, amount: int, at: int)
    requires SB.Consistent(SB.Redis(b), at) && op in Ledger(b, at).holds
    ensures SB.RedisReserve(b, at, limit, op, amount) == (b, true)
  {
  }

  const EMPTY_STORE := Store(I.NONE, L.IDLE, SB.FRESH, map[], map[])

  /** A course on which nothing fails, all within one second. */
  function Smooth(at: int): Course {
    Course(at, at, at, at, at, at, at, true, NO_FAULT, false, false, ALL_UNDONE)
  }

  /** It happens: an operation started on an empty store, then requested again
      under another key a second later, runs on without its hold. */
  lemma RunningOperationLosesHold(c: Config, first: Request, second: Request)
    requires 0 < c.leases.ttl && 0 < c.leases.maxOps && first.reserve.Some? && second.reserve.Some?
    requires 0 < first.reserve.value <= c.limit && 0 < second.reserve.value
    requires first.op == second.op && first.key != second.key
    ensures var (started, reply) := Attempt(c, first, Smooth(0), EMPTY_STORE);
            var (after, refusal) := Attempt(c, second, Smooth(SECOND), started);
            && reply == Started && refusal == Refused
            && Ledger(started.spend, SECOND).holds == map[first.op := first.reserve.value]
            && Ledger(after.spend, SECOND).holds == map[] && after.leases == started.leases
            && !Fresh(second, Admitted(c, second, Smooth(SECOND), started).taken, See(started, SECOND))
  {
    var started := FirstStarts(c, first);
    SB.TimeOnlyRollsOver(SB.Redis(started.spend), 0, SECOND);
    SecondKeyDropsHold(c, second, Smooth(SECOND), started);
    HeldReserveKeeps(started.spend, c.limit, second.op, second.reserve.value, SECOND);
    SecondKeyTakes(c, second, Smooth(SECOND), started);
    assert map[first.op := first.reserve.value] - {first.op} == map[];
  }

  lemma FirstStarts(c: Config, r: Request) returns (started: Store)
    requires 0 < c.leases.ttl && 0 < c.leases.maxOps && r.reserve.Some? && 0 < r.reserve.value <= c.limit
    ensures Attempt(c, r, Smooth(0), EMPTY_STORE) == (started, Started)
    ensures started.bound == map[r.op := r.key]
    ensures started.spend == SB.RedisReserve(SB.FRESH, 0, c.limit, r.op, r.reserve.value).0
    ensures SB.Consistent(SB.Redis(started.spend), 0)
    ensures Ledger(started.spend, 0) == SL.Ledger(r.reserve.value, map[r.op := r.reserve.value])
    ensures started.idem.keys.Keys == {r.key} && !SB.Over(SB.Redis(started.spend), SECOND)
  {
    ReserveLedger(SB.FRESH, c.limit, r.op, r.reserve.value, 0, 0);
    started := Attempt(c, r, Smooth(0), EMPTY_STORE).0;
    assert L.Reap(map[], 0) == map[];
  }
}
