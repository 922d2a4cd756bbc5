/** The two implementations of the spend budget: the Redis scripts over a total,
    a window marker and a reservation hash, and the process-local fields. Each
    is a class with one method per operation, specified by a function of its
    state; both are proved to refine the ledger of SpendLedger over whole runs. */
module SpendBackends {
  import opened Keyspace
  import opened SpendLedger

  // ----- Redis -----

  /** The total's key: `None` as expiry means the key would live for ever. */
  datatype Total = Total(value: int, expiresAt: Option<int>)

  /** A hash field "amount:window". A window is named by the instant it began. */
  datatype Hold = Hold(amount: int, window: int)

  datatype RedisSpend = RedisSpend(
    total: Option<Total>,
    window: Option<Entry<int>>,
    holds: map<OpId, Hold>,
    holdsExpireAt: int)

  const FRESH := RedisSpend(None, None, map[], 0)

  predicate TotalLive(s: RedisSpend, now: int) {
    s.total.Some? && (s.total.value.expiresAt.Some? ==> now < s.total.value.expiresAt.value)
  }

  /** TTL < 0: no such key, or a key without expiry. */
  predicate TtlNegative(s: RedisSpend, now: int) {
    !TotalLive(s, now) || s.total.value.expiresAt.None?
  }

  function TotalValue(s: RedisSpend, now: int): int {
    if TotalLive(s, now) then s.total.value.value else 0
  }

  predicate WindowLive(s: RedisSpend, now: int) {
    s.window.Some? && now < s.window.value.expiresAt
  }

  /** The reservation hash expires as a whole. */
  function LiveHolds(s: RedisSpend, now: int): map<OpId, Hold> {
    if now < s.holdsExpireAt then s.holds else map[]
  }

  predicate CurrentHold(s: RedisSpend, now: int, h: Hold) {
    WindowLive(s, now) && s.window.value.value == h.window
  }

  /** The window set-up at the head of the reserve script. */
  function OpenWindow(s: RedisSpend, now: int): RedisSpend {
    if TtlNegative(s, now) then
      s.(window := Some(Entry(now, now + DAY)),
         total := Some(Total(TotalValue(s, now), Some(now + DAY))))
    else if !WindowLive(s, now) then
      s.(window := Some(Entry(now, s.total.value.expiresAt.value)))
    else s
  }

  function RedisReserve(s: RedisSpend, now: int, limit: int, op: OpId, amount: int): (RedisSpend, bool) {
    var w := OpenWindow(s, now);
    var holds := LiveHolds(w, now);
    if op in holds && holds[op].window == w.window.value.value then (w, true)
    else if TotalValue(s, now) + amount > limit then (w, false)
    else (w.(total := Some(w.total.value.(value := w.total.value.value + amount)),
             holds := holds[op := Hold(amount, w.window.value.value)],
             holdsExpireAt := now + DAY), true)
  }

  /** SET ... KEEPTTL, then a day's expiry if that left the key without one. */
  function StoreTotal(s: RedisSpend, now: int, value: int): RedisSpend {
    var kept := if TotalLive(s, now) then s.total.value.expiresAt else None;
    s.(total := Some(Total(value, if kept.Some? then kept else Some(now + DAY))))
  }

  function DropHold(s: RedisSpend, now: int, op: OpId): RedisSpend {
    s.(holds := LiveHolds(s, now) - {op})
  }

  function RedisReconcile(s: RedisSpend, now: int, limit: int, op: OpId, actual: int): (RedisSpend, bool) {
    var holds := LiveHolds(s, now);
    if op !in holds then (s, false)
    else if !CurrentHold(s, now, holds[op]) then (DropHold(s, now, op), false)
    else
      var next := Min(limit, Max(0, TotalValue(s, now) - holds[op].amount + actual));
      (DropHold(StoreTotal(s, now, next), now, op), true)
  }

  function RedisRelease(s: RedisSpend, now: int, op: OpId): (RedisSpend, bool) {
    var holds := LiveHolds(s, now);
    if op !in holds then (s, false)
    else if !CurrentHold(s, now, holds[op]) then (DropHold(s, now, op), false)
    else
      var next := Max(0, TotalValue(s, now) - holds[op].amount);
      (DropHold(StoreTotal(s, now, next), now, op), true)
  }

  /** The shared Redis keys, one method per script. Every method gets the
      server's TIME. */
  class RedisSpendKeys {
    var total: Option<Total>
    var window: Option<Entry<int>>
    var holds: map<OpId, Hold>
    var holdsExpireAt: int

    constructor ()
      ensures Model() == FRESH
    {
      total, window, holds, holdsExpireAt := None, None, map[], 0;
    }

    function Model(): RedisSpend
      reads this
    {
      RedisSpend(total, window, holds, holdsExpireAt)
    }

    method Reserve(now: int, limit: int, op: OpId, amount: int) returns (admitted: bool)
      modifies this
      ensures (Model(), admitted) == RedisReserve(old(Model()), now, limit, op, amount)
    {
      var current := TotalValue(Model(), now);
      if TtlNegative(Model(), now) {
        window := Some(Entry(now, now + DAY));
        total := Some(Total(current, Some(now + DAY)));
      } else if !WindowLive(Model(), now) {
        window := Some(Entry(now, total.value.expiresAt.value));
      }
      var win := window.value.value;
      var existing := LiveHolds(Model(), now);
      if op in existing && existing[op].window == win {
        return true;
      }
      if current + amount > limit {
        return false;
      }
      total := Some(total.value.(value := total.value.value + amount));
      holds := existing[op := Hold(amount, win)];
      holdsExpireAt := now + DAY;
      return true;
    }

    method Reconcile(now: int, limit: int, op: OpId, actual: int) returns (settled: bool)
      modifies this
      ensures (Model(), settled) == RedisReconcile(old(Model()), now, limit, op, actual)
    {
      var existing := LiveHolds(Model(), now);
      if op !in existing {
        return false;
      }
      if !CurrentHold(Model(), now, existing[op]) {
        holds := existing - {op};
        return false;
      }
      var next := TotalValue(Model(), now) - existing[op].amount + actual;
      if next < 0 { next := 0; }
      if next > limit { next := limit; }
      SetTotalKeepingTtl(now, next);
      holds := existing - {op};
      return true;
    }

    method Release(now: int, op: OpId) returns (settled: bool)
      modifies this
      ensures (Model(), settled) == RedisRelease(old(Model()), now, op)
    {
      var existing := LiveHolds(Model(), now);
      if op !in existing {
        return false;
      }
      if !CurrentHold(Model(), now, existing[op]) {
        holds := existing - {op};
        return false;
      }
      var next := TotalValue(Model(), now) - existing[op].amount;
      if next < 0 { next := 0; }
      SetTotalKeepingTtl(now, next);
      holds := existing - {op};
      return true;
    }

    method SetTotalKeepingTtl(now: int, value: int)
      modifies this`total
      ensures Model() == StoreTotal(old(Model()), now, value)
    {
      var kept := if TotalLive(Model(), now) then total.value.expiresAt else None;
      total := Some(Total(value, kept));
      if TtlNegative(Model(), now) {
        total := Some(Total(value, Some(now + DAY)));
      }
    }
  }

  // ----- Process memory -----

  datatype MemorySpend = MemorySpend(total: int, windowStarted: int, holds: map<OpId, int>)

  function Reset(s: MemorySpend, now: int): MemorySpend {
    if now - s.windowStarted >= DAY then MemorySpend(0, now, map[]) else s
  }

  function MemoryCall(s: MemorySpend, now: int, limit: int, c: Call): (MemorySpend, bool) {
    var r := Reset(s, now);
    match c
    case Reserve(op, amount) =>
      if op in r.holds then (r, true)
      else if r.total + amount > limit then (r, false)
      else (r.(total := r.total + amount, holds := r.holds[op := amount]), true)
    case Reconcile(op, actual) =>
      if op !in r.holds then (r, false)
      else (r.(total := Max(0, Min(limit, r.total - r.holds[op] + actual)), holds := r.holds - {op}), true)
    case Release(op) =>
      if op !in r.holds then (r, false)
      else (r.(total := Max(0, r.total - r.holds[op]), holds := r.holds - {op}), true)
  }

  /** The spend fields of the in-memory storage object. */
  class MemorySpendFields {
    var dailySpend: int
    var windowStarted: int
    var reservations: map<OpId, int>

    constructor (now: int)
      ensures Model() == MemorySpend(0, now, map[])
    {
      dailySpend, windowStarted, reservations := 0, now, map[];
    }

    function Model(): MemorySpend
      reads this
    {
      MemorySpend(dailySpend, windowStarted, reservations)
    }

    method ResetWindowIfNeeded(now: int)
      modifies this
      ensures Model() == Reset(old(Model()), now)
    {
      if now - windowStarted >= DAY {
        dailySpend := 0;
        reservations := map[];
        windowStarted := now;
      }
    }

    method Reserve(now: int, limit: int, op: OpId, amount: int) returns (admitted: bool)
      modifies this
      ensures (Model(), admitted) == MemoryCall(old(Model()), now, limit, Call.Reserve(op, amount))
    {
      ResetWindowIfNeeded(now);
      if op in reservations {
        return true;
      }
      if dailySpend + amount > limit {
        return false;
      }
      dailySpend := dailySpend + amount;
      reservations := reservations[op := amount];
      return true;
    }

    method Release(now: int, op: OpId)
      modifies this
      ensures Model() == MemoryCall(old(Model()), now, 0, Call.Release(op)).0
    {
      ResetWindowIfNeeded(now);
      if op !in reservations {
        return;
      }
      var amount := reservations[op];
      reservations := reservations - {op};
      dailySpend := Max(0, dailySpend - amount);
    }

    method Reconcile(now: int, limit: int, op: OpId, actual: int)
      modifies this
      ensures Model() == MemoryCall(old(Model()), now, limit, Call.Reconcile(op, actual)).0
    {
      ResetWindowIfNeeded(now);
      if op !in reservations {
        return;
      }
      var reserved := reservations[op];
      reservations := reservations - {op};
      dailySpend := Max(0, Min(limit, dailySpend - reserved + actual));
    }
  }

  // ----- One ledger behind both -----

  datatype Backend = Redis(redis: RedisSpend) | Memory(memory: MemorySpend)

  function Serve(b: Backend, now: int, limit: int, c: Call): (Backend, bool) {
    match b
    case Memory(m) => var (next, reply) := MemoryCall(m, now, limit, c); (Memory(next), reply)
    case Redis(r) =>
      var (next, reply) :=
        match c
        case Reserve(op, amount) => RedisReserve(r, now, limit, op, amount)
        case Reconcile(op, actual) => RedisReconcile(r, now, limit, op, actual)
        case Release(op) => RedisRelease(r, now, op);
      (Redis(next), reply)
  }

  /** The instant at which the backend's current window ends; a Redis backend
      without a window has already ended it. */
  function WindowEnd(b: Backend, now: int): int {
    match b
    case Memory(m) => m.windowStarted + DAY
    case Redis(r) => if r.window.Some? then r.window.value.expiresAt else now
  }

  /** The ledger a reader sees in the backend at `now`: the total if its key is
      live, and only the holds counted in the live window. */
  function View(b: Backend, now: int): Ledger {
    match b
    case Memory(m) => if WindowEnd(b, now) <= now then EMPTY else Ledger(m.total, m.holds)
    case Redis(r) =>
      var holds := LiveHolds(r, now);
      Ledger(TotalValue(r, now), map op | op in holds && CurrentHold(r, now, holds[op]) :: holds[op].amount)
  }

  /** What every script keeps. The total and its window marker end together, a
      day after the window's name; holds are tagged with this or an older
      window; and the hash outlives the window of every hold it counts. */
  predicate Consistent(b: Backend, now: int) {
    match b
    case Memory(m) => m.windowStarted <= now
    case Redis(r) =>
      && (r.total.Some? <==> r.window.Some?)
      && (r.window.None? ==> r.holds == map[])
      && (r.window.Some? ==>
            && r.window.value.value <= now
            && r.window.value.expiresAt == r.window.value.value + DAY
            && r.total.value.expiresAt == Some(r.window.value.expiresAt)
            && (forall op :: op in r.holds ==>
                  && r.holds[op].window <= r.window.value.value
                  && (r.holds[op].window == r.window.value.value ==> r.window.value.expiresAt <= r.holdsExpireAt)))
  }

  /** Time alone either changes nothing a reader sees, hold by hold, or ends the
      window and empties the ledger. A hold never goes before its window. */
  lemma TimeOnlyRollsOver(b: Backend, now: int, later: int)
    requires Consistent(b, now) && now <= later
    ensures Consistent(b, later)
    ensures View(b, later) == if WindowEnd(b, later) <= later then EMPTY else View(b, now)
  {
    if b.Redis? && WindowLive(b.redis, later) {
      var before, after := LiveHolds(b.redis, now), LiveHolds(b.redis, later);
      forall op | op in before && CurrentHold(b.redis, now, before[op]) ensures op in after {}
    }
  }

  lemma ServeRefinesApply(b: Backend, now: int, limit: int, c: Call)
    requires 0 <= limit && Consistent(b, now)
    ensures Consistent(Serve(b, now, limit, c).0, now)
    ensures View(Serve(b, now, limit, c).0, now) == Apply(View(b, now), limit, c).0
    ensures Serve(b, now, limit, c).1 == Apply(View(b, now), limit, c).1
  {
    if b.Redis? {
      match c
      case Reserve(_, _) => ReserveRefinesApply(b.redis, now, limit, c);
      case Reconcile(_, _) => ReconcileRefinesApply(b.redis, now, limit, c);
      case Release(_) => ReleaseRefinesApply(b.redis, now, limit, c);
    }
  }

  /** Opening a window shows a reader an empty ledger, or what he saw before. */
  lemma OpenWindowKeepsView(r: RedisSpend, now: int)
    requires Consistent(Redis(r), now)
    ensures Consistent(Redis(OpenWindow(r, now)), now) && WindowLive(OpenWindow(r, now), now)
    ensures View(Redis(OpenWindow(r, now)), now) == View(Redis(r), now)
  {
  }

  lemma ReserveRefinesApply(r: RedisSpend, now: int, limit: int, c: Call)
    requires 0 <= limit && Consistent(Redis(r), now) && c.Reserve?
    ensures Consistent(Serve(Redis(r), now, limit, c).0, now)
    ensures View(Serve(Redis(r), now, limit, c).0, now) == Apply(View(Redis(r), now), limit, c).0
    ensures Serve(Redis(r), now, limit, c).1 == Apply(View(Redis(r), now), limit, c).1
  {
    OpenWindowKeepsView(r, now);
    var w := OpenWindow(r, now);
    var l, next := View(Redis(w), now), Serve(Redis(r), now, limit, c).0;
    assert c.op in l.holds <==> c.op in LiveHolds(w, now) && LiveHolds(w, now)[c.op].window == w.window.value.value;
    assert View(next, now).holds == Apply(l, limit, c).0.holds;
  }

  lemma ReconcileRefinesApply(r: RedisSpend, now: int, limit: int, c: Call)
    requires 0 <= limit && Consistent(Redis(r), now) && c.Reconcile?
    ensures Consistent(Serve(Redis(r), now, limit, c).0, now)
    ensures View(Serve(Redis(r), now, limit, c).0, now) == Apply(View(Redis(r), now), limit, c).0
    ensures Serve(Redis(r), now, limit, c).1 == Apply(View(Redis(r), now), limit, c).1
  {
    SettledHoldLeaves(r, now, limit, c);
  }

  lemma ReleaseRefinesApply(r: RedisSpend, now: int, limit: int, c: Call)
    requires 0 <= limit && Consistent(Redis(r), now) && c.Release?
    ensures Consistent(Serve(Redis(r), now, limit, c).0, now)
    ensures View(Serve(Redis(r), now, limit, c).0, now) == Apply(View(Redis(r), now), limit, c).0
    ensures Serve(Redis(r), now, limit, c).1 == Apply(View(Redis(r), now), limit, c).1
  {
    SettledHoldLeaves(r, now, limit, c);
  }

  lemma SettledHoldLeaves(r: RedisSpend, now: int, limit: int, c: Call)
    requires 0 <= limit && Consistent(Redis(r), now) && !c.Reserve?
    ensures var l := View(Redis(r), now);
            && (c.op in l.holds <==> c.op in LiveHolds(r, now) && CurrentHold(r, now, LiveHolds(r, now)[c.op]))
            && View(Serve(Redis(r), now, limit, c).0, now).holds == l.holds - {c.op}
            && (c.op !in l.holds ==> l.holds - {c.op} == l.holds)
  {
  }

  // ----- Whole runs -----

  datatype Timed = Timed(at: int, call: Call)

  predicate InOrder(from: int, calls: seq<Timed>)
    decreases |calls|
  {
    calls != [] ==> from <= calls[0].at && InOrder(calls[0].at, calls[1..])
  }

  function Replies(b: Backend, limit: int, calls: seq<Timed>): seq<bool>
    decreases |calls|
  {
    if calls == [] then []
    else
      var (next, reply) := Serve(b, calls[0].at, limit, calls[0].call);
      [reply] + Replies(next, limit, calls[1..])
  }

  function Final(b: Backend, limit: int, calls: seq<Timed>): Backend
    decreases |calls|
  {
    if calls == [] then b
    else Final(Serve(b, calls[0].at, limit, calls[0].call).0, limit, calls[1..])
  }

  /** The ledger steps one call amounts to: a rollover first if the call finds
      the window over. */
  function CallSteps(b: Backend, c: Timed): seq<Step> {
    if WindowEnd(b, c.at) <= c.at then [Rollover, Do(c.call)] else [Do(c.call)]
  }

  function LedgerSteps(b: Backend, limit: int, calls: seq<Timed>): seq<Step>
    decreases |calls|
  {
    if calls == [] then []
    else CallSteps(b, calls[0]) + LedgerSteps(Serve(b, calls[0].at, limit, calls[0].call).0, limit, calls[1..])
  }

  function LedgerReplies(l: Ledger, limit: int, steps: seq<Step>): seq<bool>
    decreases |steps|
  {
    if steps == [] then []
    else
      var (next, reply) := Advance(l, limit, steps[0]);
      (if steps[0].Do? then [reply] else []) + LedgerReplies(next, limit, steps[1..])
  }

  function LastInstant(from: int, calls: seq<Timed>): int {
    if calls == [] then from else calls[|calls| - 1].at
  }

  /** Either backend, over any run, answers and ends as the one ledger does. */
  lemma {:induction false} BackendRefinesLedger(b: Backend, from: int, limit: int, calls: seq<Timed>)
    requires 0 <= limit && Consistent(b, from) && InOrder(from, calls)
    ensures Consistent(Final(b, limit, calls), LastInstant(from, calls))
    ensures View(Final(b, limit, calls), LastInstant(from, calls))
            == Run(View(b, from), limit, LedgerSteps(b, limit, calls))
    ensures Replies(b, limit, calls) == LedgerReplies(View(b, from), limit, LedgerSteps(b, limit, calls))
    decreases |calls|
  {
    if calls != [] {
      var next := Serve(b, calls[0].at, limit, calls[0].call).0;
      var rest := LedgerSteps(next, limit, calls[1..]);
      CallRefinesSteps(b, from, limit, calls[0]);
      BackendRefinesLedger(next, calls[0].at, limit, calls[1..]);
      assert LastInstant(calls[0].at, calls[1..]) == LastInstant(from, calls);
      StepsAppend(View(b, from), limit, CallSteps(b, calls[0]), rest);
    }
  }

  lemma CallRefinesSteps(b: Backend, from: int, limit: int, c: Timed)
    requires 0 <= limit && Consistent(b, from) && from <= c.at
    ensures var (next, reply) := Serve(b, c.at, limit, c.call);
            && Consistent(next, c.at)
            && View(next, c.at) == Run(View(b, from), limit, CallSteps(b, c))
            && LedgerReplies(View(b, from), limit, CallSteps(b, c)) == [reply]
  {
    TimeOnlyRollsOver(b, from, c.at);
    ServeRefinesApply(b, c.at, limit, c.call);
    var l := View(b, c.at);
    RunOneCall(l, limit, c.call);
    if WindowEnd(b, c.at) <= c.at {
      assert [Rollover, Do(c.call)][1..] == [Do(c.call)];
    }
  }

  lemma RunOneCall(l: Ledger, limit: int, c: Call)
    ensures Run(l, limit, [Do(c)]) == Apply(l, limit, c).0
    ensures LedgerReplies(l, limit, [Do(c)]) == [Apply(l, limit, c).1]
  {
    assert LedgerReplies(Apply(l, limit, c).0, limit, [Do(c)][1..]) == [];
  }

  lemma {:induction false} StepsAppend(l: Ledger, limit: int, first: seq<Step>, rest: seq<Step>)
    ensures Run(l, limit, first + rest) == Run(Run(l, limit, first), limit, rest)
    ensures LedgerReplies(l, limit, first + rest)
            == LedgerReplies(l, limit, first) + LedgerReplies(Run(l, limit, first), limit, rest)
    decreases |first|
  {
    if first == [] {
      assert first + rest == rest;
    } else {
      assert (first + rest)[1..] == first[1..] + rest;
      StepsAppend(Advance(l, limit, first[0]).0, limit, first[1..], rest);
    }
  }

  // ----- When the backends are interchangeable -----

  predicate Over(b: Backend, now: int) { WindowEnd(b, now) <= now }

  /** Two windows that are both over, or end together. */
  predicate Aligned(r: Backend, m: Backend, now: int) {
    if Over(r, now) || Over(m, now) then Over(r, now) && Over(m, now)
    else WindowEnd(r, now) == WindowEnd(m, now)
  }

  /** Each call that finds its window over, the first one ending at `end`, is a
      reservation. A script opens a window in no other call; in memory any does. */
  predicate ReservesFirst(end: int, calls: seq<Timed>)
    decreases |calls|
  {
    calls != [] ==>
      if calls[0].at < end then ReservesFirst(end, calls[1..])
      else calls[0].call.Reserve? && ReservesFirst(calls[0].at + DAY, calls[1..])
  }

  /** A call moves no window's end while the window lasts; after that a
      reservation starts a new one a day long, in either backend. */
  lemma ServeKeepsWindow(b: Backend, from: int, limit: int, c: Timed)
    requires Consistent(b, from) && from <= c.at
    ensures var next := Serve(b, c.at, limit, c.call).0;
            && (!Over(b, c.at) ==> WindowEnd(next, c.at) == WindowEnd(b, from))
            && (Over(b, c.at) && c.call.Reserve? ==> WindowEnd(next, c.at) == c.at + DAY)
            && (Over(b, c.at) && !c.call.Reserve? ==> (Over(next, c.at) <==> b.Redis?))
  {
  }

  /** A window that is over stays over, and a running one keeps its end. */
  lemma TimeKeepsEnd(b: Backend, from: int, at: int)
    requires Consistent(b, from) && from <= at
    ensures Over(b, from) ==> Over(b, at)
    ensures !Over(b, from) ==> WindowEnd(b, at) == WindowEnd(b, from)
    ensures WindowEnd(b, from) <= from + DAY
  {
  }

  /** Aligned windows stay aligned in a call exactly when it finds them running, is
      a reservation, or is served by two backends of a kind. */
  lemma OneCallKeepsAligned(r: Backend, m: Backend, from: int, limit: int, c: Timed)
    requires Consistent(r, from) && Consistent(m, from) && from <= c.at && Aligned(r, m, from)
    ensures Aligned(Serve(r, c.at, limit, c.call).0, Serve(m, c.at, limit, c.call).0, c.at)
            <==> !Over(r, c.at) || c.call.Reserve? || r.Redis? == m.Redis?
    ensures Over(r, c.at) <==> Over(m, c.at)
    ensures !Over(r, c.at) ==> WindowEnd(r, from) == WindowEnd(Serve(r, c.at, limit, c.call).0, c.at)
  {
    TimeKeepsEnd(r, from, c.at);
    TimeKeepsEnd(m, from, c.at);
    ServeKeepsWindow(r, from, limit, c);
    ServeKeepsWindow(m, from, limit, c);
  }

  /** One call that meets equal views is answered alike and leaves equal views. */
  lemma OneCallAgrees(r: Backend, m: Backend, from: int, limit: int, c: Timed)
    requires 0 <= limit && Consistent(r, from) && Consistent(m, from) && from <= c.at
    requires Aligned(r, m, from) && View(r, from) == View(m, from)
    ensures var (r', replyR) := Serve(r, c.at, limit, c.call);
            var (m', replyM) := Serve(m, c.at, limit, c.call);
            && replyR == replyM && View(r', c.at) == View(m', c.at)
            && Consistent(r', c.at) && Consistent(m', c.at)
  {
    TimeKeepsEnd(r, from, c.at);
    TimeKeepsEnd(m, from, c.at);
    TimeOnlyRollsOver(r, from, c.at);
    TimeOnlyRollsOver(m, from, c.at);
    ServeRefinesApply(r, c.at, limit, c.call);
    ServeRefinesApply(m, c.at, limit, c.call);
  }

  lemma OverIsEmpty(b: Backend, now: int)
    requires Consistent(b, now) && Over(b, now)
    ensures View(b, now) == EMPTY
  {
    TimeOnlyRollsOver(b, now, now);
  }

  /** The two backends are interchangeable: from equal views and windows that end
      together they give every caller the same answers and keep equal views, as
      long as the first call after each window's end is a reservation. */
  lemma {:induction false} BackendsAgree(r: Backend, m: Backend, from: int, limit: int, calls: seq<Timed>)
    requires 0 <= limit && Consistent(r, from) && Consistent(m, from) && InOrder(from, calls)
    requires View(r, from) == View(m, from) && Aligned(r, m, from)
    requires ReservesFirst(WindowEnd(r, from), calls)
    ensures Replies(r, limit, calls) == Replies(m, limit, calls)
    ensures View(Final(r, limit, calls), LastInstant(from, calls)) == View(Final(m, limit, calls), LastInstant(from, calls))
    ensures Aligned(Final(r, limit, calls), Final(m, limit, calls), LastInstant(from, calls))
    decreases |calls|
  {
    if calls != [] {
      var c := calls[0];
      var r', m' := Serve(r, c.at, limit, c.call).0, Serve(m, c.at, limit, c.call).0;
      OneCallAgrees(r, m, from, limit, c);
      TimeKeepsEnd(r, from, c.at);
      OneCallKeepsAligned(r, m, from, limit, c);
      ServeKeepsWindow(r, from, limit, c);
      BackendsAgree(r', m', c.at, limit, calls[1..]);
      assert LastInstant(c.at, calls[1..]) == LastInstant(from, calls);
    }
  }

  /** Two calls in a row, seen on the ledger. */
  lemma TwoCalls(b: Backend, from: int, limit: int, first: Timed, second: Timed)
    requires 0 <= limit && Consistent(b, from) && from <= first.at <= second.at
    ensures var next := Serve(b, first.at, limit, first.call).0;
            && Consistent(next, first.at)
            && Replies(b, limit, [first, second])
               == [Apply(View(b, first.at), limit, first.call).1, Apply(View(next, second.at), limit, second.call).1]
            && View(next, first.at) == Apply(View(b, first.at), limit, first.call).0
            && InOrder(from, [first, second])
  {
    var next := Serve(b, first.at, limit, first.call).0;
    TimeOnlyRollsOver(b, from, first.at);
    ServeRefinesApply(b, first.at, limit, first.call);
    TimeOnlyRollsOver(next, first.at, second.at);
    ServeRefinesApply(next, second.at, limit, second.call);
    assert [first, second][1..] == [second] && [second][1..] == [];
    assert Replies(next, limit, [second]) == [Serve(next, second.at, limit, second.call).1];
  }

  /** Two reservations that fill the budget: the second is granted exactly where
      the window ended in between. */
  lemma FillTwice(b: Backend, from: int, limit: int, first: Timed, second: Timed)
    requires 0 < limit && Consistent(b, from) && from <= first.at <= second.at
    requires first.call.Reserve? && second.call.Reserve? && second.call.amount == limit
    requires var l := View(b, first.at);
             && first.call.op !in l.holds && second.call.op !in l.holds && first.call.op != second.call.op
             && 0 < first.call.amount && l.total + first.call.amount == limit
    ensures InOrder(from, [first, second])
    ensures Replies(b, limit, [first, second])
            == [true, (if Over(b, first.at) then first.at + DAY else WindowEnd(b, from)) <= second.at]
  {
    var next := Serve(b, first.at, limit, first.call).0;
    TwoCalls(b, from, limit, first, second);
    ServeKeepsWindow(b, from, limit, first);
    TimeKeepsEnd(b, from, first.at);
    TimeOnlyRollsOver(next, first.at, second.at);
    TimeKeepsEnd(next, first.at, second.at);
  }

  predicate Reservations(from: int, calls: seq<Timed>) {
    InOrder(from, calls) && forall t :: t in calls ==> t.call.Reserve? && 0 < t.call.amount
  }

  lemma {:induction false} ReservationsReserveFirst(end: int, calls: seq<Timed>)
    requires forall t :: t in calls ==> t.call.Reserve?
    ensures ReservesFirst(end, calls)
    decreases |calls|
  {
    if calls != [] {
      assert calls[0] in calls;
      ReservationsReserveFirst(if calls[0].at < end then end else calls[0].at + DAY, calls[1..]);
    }
  }

  /** Windows that are not aligned are told apart by at most two reservations, of
      two operations without a hold. */
  lemma MisalignedDisagree(r: Backend, m: Backend, from: int, limit: int, a: OpId, b: OpId) returns (calls: seq<Timed>)
    requires 0 < limit && Consistent(r, from) && Consistent(m, from) && View(r, from) == View(m, from)
    requires View(r, from).total <= limit && a != b && a !in View(r, from).holds && b !in View(r, from).holds
    requires !Aligned(r, m, from) && Earlier(r, m, from)
    ensures Reservations(from, calls)
    ensures Replies(r, limit, calls) != Replies(m, limit, calls)
  {
    TimeKeepsEnd(m, from, from);
    if Over(r, from) {
      OverIsEmpty(r, from);
      calls := LateAnchorDisagrees(r, m, from, limit, a, b);
    } else if View(r, from).total == limit {
      calls := [Timed(WindowEnd(r, from), Reserve(b, limit))];
      FullBudget(r, from, limit, calls[0]);
      FullBudget(m, from, limit, calls[0]);
    } else {
      var first, second := Timed(from, Reserve(a, limit - View(r, from).total)), Timed(WindowEnd(r, from), Reserve(b, limit));
      calls := [first, second];
      FillTwice(r, from, limit, first, second);
      FillTwice(m, from, limit, first, second);
    }
  }

  /** The first backend's window is over, or ends before the second's. */
  predicate Earlier(r: Backend, m: Backend, now: int) {
    !Over(m, now) && (Over(r, now) || WindowEnd(r, now) < WindowEnd(m, now))
  }

  /** A window opened only by the next reservation outlasts one already running. */
  lemma LateAnchorDisagrees(r: Backend, m: Backend, from: int, limit: int, a: OpId, b: OpId) returns (calls: seq<Timed>)
    requires 0 < limit && Consistent(r, from) && Consistent(m, from) && a != b
    requires View(r, from) == View(m, from) == EMPTY && Over(r, from) && !Over(m, from)
    ensures Reservations(from, calls)
    ensures Replies(r, limit, calls) == [true, false] && Replies(m, limit, calls) == [true, true]
  {
    var end := WindowEnd(m, from);
    var first := Timed(if end < from + DAY then from else from + 1, Reserve(a, limit));
    var second := Timed(end, Reserve(b, limit));
    calls := [first, second];
    TimeKeepsEnd(r, from, first.at);
    TimeKeepsEnd(m, from, first.at);
    TimeOnlyRollsOver(r, from, first.at);
    TimeOnlyRollsOver(m, from, first.at);
    FillTwice(r, from, limit, first, second);
    FillTwice(m, from, limit, first, second);
  }

  /** On a full budget a reservation is granted exactly when the window is over. */
  lemma FullBudget(b: Backend, from: int, limit: int, c: Timed)
    requires 0 < limit && Consistent(b, from) && from <= c.at && !Over(b, from)
    requires View(b, from).total == limit && c.call.Reserve? && c.call.amount == limit && c.call.op !in View(b, from).holds
    ensures Replies(b, limit, [c]) == [WindowEnd(b, from) <= c.at]
  {
    TimeOnlyRollsOver(b, from, c.at);
    TimeKeepsEnd(b, from, c.at);
    ServeRefinesApply(b, c.at, limit, c.call);
    assert [c][1..] == [];
  }

  /** Exactly when reservations cannot tell two backends apart: from equal views
      they answer every run of reservations alike if and only if their windows
      are both over or end together. */
  lemma ReservationsAgreeIffAligned(r: Backend, m: Backend, from: int, limit: int, a: OpId, b: OpId)
    requires 0 < limit && Consistent(r, from) && Consistent(m, from) && View(r, from) == View(m, from)
    requires View(r, from).total <= limit && a != b && a !in View(r, from).holds && b !in View(r, from).holds
    ensures (forall calls :: Reservations(from, calls) ==> Replies(r, limit, calls) == Replies(m, limit, calls))
            <==> Aligned(r, m, from)
  {
    if Aligned(r, m, from) {
      forall calls | Reservations(from, calls) ensures Replies(r, limit, calls) == Replies(m, limit, calls) {
        ReservationsReserveFirst(WindowEnd(r, from), calls);
        BackendsAgree(r, m, from, limit, calls);
      }
    } else if Earlier(r, m, from) {
      var calls := MisalignedDisagree(r, m, from, limit, a, b);
    } else {
      var calls := MisalignedDisagree(m, r, from, limit, a, b);
    }
  }

  const HOUR: int := 3600 * SECOND

  /** From empty, with a positive ceiling: memory counts its day from its start,
      Redis from the first reservation. A budget spent twelve hours after the start
      is free again an hour after the first day in memory, and not in Redis. */
  lemma MemoryDayStartsEarlier(a: OpId, b: OpId)
    requires a != b
    ensures var calls := [Timed(12 * HOUR, Reserve(a, 10)), Timed(25 * HOUR, Reserve(b, 10))];
            && Reservations(0, calls)
            && View(Redis(FRESH), 0) == View(Memory(MemorySpend(0, 0, map[])), 0) == EMPTY
            && Replies(Redis(FRESH), 10, calls) == [true, false]
            && Replies(Memory(MemorySpend(0, 0, map[])), 10, calls) == [true, true]
  {
    var first, second := Timed(12 * HOUR, Reserve(a, 10)), Timed(25 * HOUR, Reserve(b, 10));
    var redis, memory := Redis(FRESH), Memory(MemorySpend(0, 0, map[]));
    OverIsEmpty(redis, 0);
    TimeOnlyRollsOver(redis, 0, first.at);
    TimeOnlyRollsOver(memory, 0, first.at);
    FillTwice(redis, 0, 10, first, second);
    FillTwice(memory, 0, 10, first, second);
  }

  /** In every state either backend can reach from empty, by any calls of the
      admission path at any times, the holds a reader sees are all counted, and
      no total passes the ceiling. When only zero is ever charged, as for local
      models, the visible total is exactly the visible holds. */
  lemma BackendsStayFunded(b: Backend, from: int, limit: int, calls: seq<Timed>)
    requires 0 <= limit && Consistent(b, from) && InOrder(from, calls) && View(b, from) == EMPTY
    requires forall t :: t in calls ==> Admissible(t.call)
    ensures Funded(View(Final(b, limit, calls), LastInstant(from, calls)), limit)
    ensures (forall t :: t in calls && t.call.Reconcile? ==> t.call.actual == 0) ==>
              var l := View(Final(b, limit, calls), LastInstant(from, calls)); Sum(l.holds) == l.total
  {
    BackendRefinesLedger(b, from, limit, calls);
    StepsComeFromCalls(b, limit, calls);
    assert Sum(map[]) == 0;
    EveryRunFunded(EMPTY, limit, LedgerSteps(b, limit, calls));
  }

  lemma {:induction false} StepsComeFromCalls(b: Backend, limit: int, calls: seq<Timed>)
    ensures forall s :: s in LedgerSteps(b, limit, calls) && s.Do? ==> exists t :: t in calls && t.call == s.call
    decreases |calls|
  {
    if calls != [] {
      var next := Serve(b, calls[0].at, limit, calls[0].call).0;
      StepsComeFromCalls(next, limit, calls[1..]);
      forall s | s in LedgerSteps(b, limit, calls) && s.Do? ensures exists t :: t in calls && t.call == s.call {
        if s in LedgerSteps(next, limit, calls[1..]) {
          var t :| t in calls[1..] && t.call == s.call;
          assert t in calls;
        } else {
          assert s.call == calls[0].call && calls[0] in calls;
        }
      }
    }
  }
}
