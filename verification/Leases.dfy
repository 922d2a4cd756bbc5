/** Who runs what, across every instance of the service: one owner lease per
    operation and the shared, bounded set of concurrency slots. Both expire, so a
    crashed instance frees what it held; both are renewed by one heartbeat. */
module Leases {
  import opened Keyspace

  /** A slot belongs to one operation on one instance. */
  datatype Member = Member(inst: InstanceId, op: OpId)

  datatype Config = Config(ttl: int, maxOps: nat)

  /** `slots` is the sorted set: each member with its own expiry as score. */
  datatype Leases = Leases(owners: map<OpId, Entry<InstanceId>>, slots: map<Member, int>)

  const IDLE := Leases(map[], map[])

  datatype Heartbeat = Renewed | LeaseLost | SlotLost

  function Reap(slots: map<Member, int>, now: int): map<Member, int> {
    map m | m in slots && now < slots[m] :: slots[m]
  }

  function Acquire(s: Leases, c: Config, now: int, m: Member): (Leases, bool) {
    var live := Reap(s.slots, now);
    if |live| >= c.maxOps then (s.(slots := live), false)
    else (s.(slots := live[m := now + c.ttl]), true)
  }

  function ReleaseSlot(s: Leases, m: Member): Leases {
    s.(slots := s.slots - {m})
  }

  function Begin(s: Leases, c: Config, now: int, m: Member): (Leases, bool) {
    if Get(s.owners, m.op, now).Some? then (s, false)
    else (s.(owners := s.owners[m.op := Entry(m.inst, now + c.ttl)]), true)
  }

  function ReleaseLease(s: Leases, now: int, m: Member): (Leases, bool) {
    if Get(s.owners, m.op, now) == Some(m.inst) then (s.(owners := s.owners - {m.op}), true)
    else (s, false)
  }

  function Renew(s: Leases, c: Config, now: int, m: Member): (Leases, Heartbeat) {
    if Get(s.owners, m.op, now) != Some(m.inst) then (s, LeaseLost)
    else
      var kept := s.(owners := s.owners[m.op := Entry(m.inst, now + c.ttl)]);
      if m in s.slots then (kept.(slots := s.slots[m := now + c.ttl]), Renewed) else (kept, SlotLost)
  }

  class LeaseKeys {
    const config: Config
    var owners: map<OpId, Entry<InstanceId>>
    var slots: map<Member, int>

    constructor (config: Config)
      ensures Model() == IDLE && this.config == config
    {
      this.config := config;
      owners, slots := map[], map[];
    }

    function Model(): Leases
      reads this
    {
      Leases(owners, slots)
    }

    method AcquireConcurrencySlot(now: int, m: Member) returns (acquired: bool)
      modifies this
      ensures (Model(), acquired) == Acquire(old(Model()), config, now, m)
    {
      slots := Reap(slots, now);
      if |slots| >= config.maxOps {
        return false;
      }
      slots := slots[m := now + config.ttl];
      return true;
    }

    method ReleaseConcurrencySlot(m: Member)
      modifies this
      ensures Model() == ReleaseSlot(old(Model()), m)
    {
      slots := slots - {m};
    }

    method BeginOperation(now: int, m: Member) returns (acquired: bool)
      modifies this
      ensures (Model(), acquired) == Begin(old(Model()), config, now, m)
    {
      if Get(owners, m.op, now).Some? {
        return false;
      }
      owners := owners[m.op := Entry(m.inst, now + config.ttl)];
      return true;
    }

    method ReleaseOperationLease(now: int, m: Member)
      modifies this
      ensures Model() == ReleaseLease(old(Model()), now, m).0
    {
      if Get(owners, m.op, now) == Some(m.inst) {
        owners := owners - {m.op};
      }
    }

    /** The heartbeat. False tells the worker to stop. */
    method TouchOperation(now: int, m: Member) returns (owns: bool)
      modifies this
      ensures Model() == Renew(old(Model()), config, now, m).0
      ensures owns == Renew(old(Model()), config, now, m).1.Renewed?
    {
      if Get(owners, m.op, now) != Some(m.inst) {
        return false;
      }
      owners := owners[m.op := Entry(m.inst, now + config.ttl)];
      if m in slots {
        slots := slots[m := now + config.ttl];
        return true;
      }
      return false;
    }
  }

  // ----- Runs: any instances, any interleaving, crashes included -----

  datatype Action =
    | DoAcquire(m: Member)
    | DoReleaseSlot(m: Member)
    | DoBegin(m: Member)
    | DoReleaseLease(m: Member)
    | DoRenew(m: Member)

  datatype Event = Event(at: int, action: Action)

  /** The new state, and whether the call did what it was asked to. */
  function Step(s: Leases, c: Config, e: Event): (Leases, bool) {
    match e.action
    case DoAcquire(m) => Acquire(s, c, e.at, m)
    case DoReleaseSlot(m) => (ReleaseSlot(s, m), true)
    case DoBegin(m) => Begin(s, c, e.at, m)
    case DoReleaseLease(m) => ReleaseLease(s, e.at, m)
    case DoRenew(m) => var (t, h) := Renew(s, c, e.at, m); (t, h.Renewed?)
  }

  function After(c: Config, events: seq<Event>): Leases
    decreases |events|
  {
    if events == [] then IDLE
    else Step(After(c, events[..|events| - 1]), c, events[|events| - 1]).0
  }

  function ReplyAt(c: Config, events: seq<Event>, i: nat): bool
    requires i < |events|
  {
    Step(After(c, events[..i]), c, events[i]).1
  }

  ghost predicate InOrder(events: seq<Event>) {
    forall i, j :: 0 <= i < j < |events| ==> events[i].at <= events[j].at
  }

  /** What the workers believe: when each unreleased slot was last acquired or
      renewed successfully. */
  function LastTouch(c: Config, events: seq<Event>): map<Member, int>
    decreases |events|
  {
    if events == [] then map[]
    else
      var last := |events| - 1;
      var e := events[last];
      var before := LastTouch(c, events[..last]);
      match e.action
      case DoAcquire(m) => if ReplyAt(c, events, last) then before[m := e.at] else before
      case DoRenew(m) => if ReplyAt(c, events, last) then before[m := e.at] else before
      case DoReleaseSlot(m) => before - {m}
      case DoBegin(_) => before
      case DoReleaseLease(_) => before
  }

  /** The members whose last touch is less than one TTL old. */
  function Fresh(c: Config, events: seq<Event>, now: int): set<Member> {
    var touched := LastTouch(c, events);
    set m | m in touched && now < touched[m] + c.ttl
  }

  lemma {:induction false} FreshMembersHoldSlots(c: Config, events: seq<Event>, now: int)
    requires InOrder(events) && (events != [] ==> events[|events| - 1].at <= now)
    ensures forall m :: m in Fresh(c, events, now) ==>
              m in After(c, events).slots && After(c, events).slots[m] == LastTouch(c, events)[m] + c.ttl
    decreases |events|
  {
    if events != [] {
      var last := |events| - 1;
      var prefix := events[..last];
      if prefix != [] { assert prefix[last - 1].at <= events[last].at; }
      FreshMembersHoldSlots(c, prefix, events[last].at);
      forall m | m in Fresh(c, events, now)
        ensures m in After(c, events).slots && After(c, events).slots[m] == LastTouch(c, events)[m] + c.ttl
      {
        assert m in LastTouch(c, prefix) && LastTouch(c, events)[m] == LastTouch(c, prefix)[m] ==> m in Fresh(c, prefix, events[last].at);
      }
    }
  }

  lemma {:induction false} SlotSetStaysBounded(c: Config, events: seq<Event>)
    ensures |After(c, events).slots| <= c.maxOps
    decreases |events|
  {
    if events != [] {
      var prefix, e := events[..|events| - 1], events[|events| - 1];
      var before := After(c, prefix).slots;
      SlotSetStaysBounded(c, prefix);
      SubsetIsSmaller(Reap(before, e.at).Keys, before.Keys);
      if e.action.DoReleaseSlot? { SubsetIsSmaller((before - {e.action.m}).Keys, before.Keys); }
      if e.action.DoRenew? && e.action.m in before {
        assert before[e.action.m := e.at + c.ttl].Keys == before.Keys;
      }
    }
  }

  lemma {:induction false} SubsetIsSmaller<T>(a: set<T>, b: set<T>)
    requires a <= b
    ensures |a| <= |b|
  {
    if a != {} {
      var x :| x in a;
      SubsetIsSmaller(a - {x}, b - {x});
    }
  }

  /** The service-wide concurrency bound. In every run of any instances, with
      crashes (an instance that does nothing more) and heartbeats however late,
      the slot set stays within the ceiling, and so does the number of workers
      that can still believe they hold a slot. */
  lemma ConcurrencyBound(c: Config, events: seq<Event>, now: int)
    requires InOrder(events) && (events != [] ==> events[|events| - 1].at <= now)
    ensures Fresh(c, events, now) <= After(c, events).slots.Keys
    ensures |Fresh(c, events, now)| <= |After(c, events).slots| <= c.maxOps
  {
    FreshMembersHoldSlots(c, events, now);
    SlotSetStaysBounded(c, events);
    SubsetIsSmaller(Fresh(c, events, now), After(c, events).slots.Keys);
  }

  /** A heartbeat answers true exactly when it found both the lease and the slot
      and pushed both a full TTL ahead. It never brings a reaped slot back, and
      by anyone but the owner it changes nothing. */
  lemma HeartbeatIsHonest(s: Leases, c: Config, now: int, m: Member)
    ensures var (t, h) := Renew(s, c, now, m);
            && (h.Renewed? <==> Get(s.owners, m.op, now) == Some(m.inst) && m in s.slots)
            && (h.Renewed? ==> t.owners[m.op] == Entry(m.inst, now + c.ttl) && t.slots[m] == now + c.ttl)
            && t.slots.Keys == s.slots.Keys
            && (Get(s.owners, m.op, now) == Some(m.inst) ==> t.owners == s.owners[m.op := Entry(m.inst, now + c.ttl)])
            && (Get(s.owners, m.op, now) != Some(m.inst) ==> t == s)
  {
    if m in s.slots { assert s.slots[m := now + c.ttl].Keys == s.slots.Keys; }
  }

  // ----- When a slot or a lease is granted -----

  /** A slot is granted exactly when fewer members than the ceiling are unexpired.
      Either way the expired ones are gone, and the others keep their expiry. */
  lemma AcquireGrantsIffRoom(s: Leases, c: Config, now: int, m: Member)
    ensures var (t, granted) := Acquire(s, c, now, m);
            var live := set x | x in s.slots && now < s.slots[x];
            && (granted <==> |live| < c.maxOps)
            && (forall x :: x in t.slots <==> x in live || (granted && x == m))
            && (forall x :: x in t.slots ==> t.slots[x] == if granted && x == m then now + c.ttl else s.slots[x])
            && t.owners == s.owners
  {
    assert Reap(s.slots, now).Keys == set x | x in s.slots && now < s.slots[x];
  }

  /** A lease is granted exactly when the operation has no live owner. */
  lemma BeginGrantsIffUnowned(s: Leases, c: Config, now: int, m: Member)
    ensures var (t, granted) := Begin(s, c, now, m);
            && (granted <==> (m.op in s.owners ==> s.owners[m.op].expiresAt <= now))
            && t == if granted then s.(owners := s.owners[m.op := Entry(m.inst, now + c.ttl)]) else s
  {
  }

  /** Every member in the slot set was acquired or renewed, and expires a TTL later. */
  lemma {:induction false} SlotsWereTouched(c: Config, events: seq<Event>)
    ensures forall m :: m in After(c, events).slots ==>
              m in LastTouch(c, events) && After(c, events).slots[m] == LastTouch(c, events)[m] + c.ttl
    decreases |events|
  {
    if events != [] { SlotsWereTouched(c, events[..|events| - 1]); }
  }

  /** Over any run: a worker gets a slot exactly when fewer members than the ceiling
      were touched less than a TTL ago. One that crashed takes no place beyond that,
      and the acquire drops it. */
  lemma SlotGrantedIffFewAreFresh(c: Config, events: seq<Event>, i: nat, m: Member)
    requires i < |events| && InOrder(events[..i + 1]) && events[i].action == DoAcquire(m)
    ensures var live := Fresh(c, events[..i], events[i].at);
            && (ReplyAt(c, events, i) <==> |live| < c.maxOps)
            && (forall x :: x in After(c, events[..i + 1]).slots <==> x in live || (ReplyAt(c, events, i) && x == m))
  {
    var before := events[..i];
    assert events[..i + 1][..i] == before && events[..i + 1][i] == events[i];
    if i > 0 { assert events[..i + 1][i - 1].at <= events[..i + 1][i].at; }
    assert InOrder(before) by {
      forall k, l | 0 <= k < l < |before| ensures before[k].at <= before[l].at {
        assert events[..i + 1][k].at <= events[..i + 1][l].at;
      }
    }
    SlotsWereTouched(c, before);
    FreshMembersHoldSlots(c, before, events[i].at);
    var s := After(c, before);
    assert Fresh(c, before, events[i].at) == set x | x in s.slots && events[i].at < s.slots[x];
    AcquireGrantsIffRoom(s, c, events[i].at, m);
  }

  // ----- Exclusive ownership -----

  predicate OwnedBy(s: Leases, op: OpId, inst: InstanceId) {
    op in s.owners && s.owners[op].value == inst
  }

  /** The lease this state stores for the operation has run out. */
  predicate Lapsed(s: Leases, op: OpId, now: int) {
    op in s.owners && s.owners[op].expiresAt <= now
  }

  lemma OnlyOwnerEndsLease(s: Leases, c: Config, e: Event, op: OpId, inst: InstanceId)
    requires OwnedBy(s, op, inst) && !Lapsed(s, op, e.at)
    ensures OwnedBy(Step(s, c, e).0, op, inst) <==> e.action != DoReleaseLease(Member(inst, op))
    ensures e.action.DoBegin? && e.action.m.op == op ==> !Step(s, c, e).1
  {
  }

  /** Between event i and event j the lease taken at i neither lapsed nor was
      given up by its holder. */
  ghost predicate Undisturbed(c: Config, events: seq<Event>, i: int, j: int, m: Member) {
    0 <= i <= j < |events| &&
    forall n {:trigger events[n]} :: i < n <= j ==>
      !Lapsed(After(c, events[..n]), m.op, events[n].at) && (n < j ==> events[n].action != DoReleaseLease(m))
  }

  lemma {:induction false} UndisturbedStaysOwned(c: Config, events: seq<Event>, i: nat, j: nat, m: Member)
    requires i < j && Undisturbed(c, events, i, j, m)
    requires events[i].action == DoBegin(m) && ReplyAt(c, events, i)
    ensures OwnedBy(After(c, events[..j]), m.op, m.inst)
    decreases j
  {
    assert events[..j][..j - 1] == events[..j - 1];
    if i < j - 1 {
      assert Undisturbed(c, events, i, j - 1, m);
      UndisturbedStaysOwned(c, events, i, j - 1, m);
      OnlyOwnerEndsLease(After(c, events[..j - 1]), c, events[j - 1], m.op, m.inst);
    }
  }

  /** Lease exclusivity. If one instance began an operation at event i and any
      instance successfully began it again at event j, then in between the first
      lease was released by its own holder or had run out. */
  lemma SecondBeginNeedsRelease(c: Config, events: seq<Event>, i: nat, j: nat, first: Member, second: Member)
    requires i < j < |events| && first.op == second.op
    requires events[i].action == DoBegin(first) && ReplyAt(c, events, i)
    requires events[j].action == DoBegin(second) && ReplyAt(c, events, j)
    ensures exists n {:trigger events[n]} :: i < n <= j &&
              (Lapsed(After(c, events[..n]), first.op, events[n].at)
               || (n < j && events[n].action == DoReleaseLease(first)))
  {
    if Undisturbed(c, events, i, j, first) {
      UndisturbedStaysOwned(c, events, i, j, first);
      OnlyOwnerEndsLease(After(c, events[..j]), c, events[j], first.op, first.inst);
    }
  }
}
