/** Progress events and the server-sent stream that follows them: a log that
    workers append to (and Redis trims from its old end), and a generator that
    polls it, yields what is new, and closes after the operation is terminal. */
module ProgressStream {
  import opened Keyspace

  /** An entry: its position-giving id, and whether it announces a terminal stage. */
  datatype Payload = Payload(json: string)

  datatype Item = Item(id: nat, terminal: bool, payload: Payload)

  /** XRANGE from just after the cursor; a fresh reader's cursor is 0. */
  function Newer(items: seq<Item>, cursor: nat): seq<Item> {
    if items == [] then []
    else (if cursor < items[0].id then [items[0]] else []) + Newer(items[1..], cursor)
  }

  ghost predicate Increasing(items: seq<Item>) {
    && (forall i :: 0 <= i < |items| ==> 0 < items[i].id)
    && (forall i, j :: 0 <= i < j < |items| ==> items[i].id < items[j].id)
  }

  /** What is newer than a cursor in an ordered log is a suffix of it. */
  lemma {:induction false} NewerIsSuffix(items: seq<Item>, cursor: nat, k: nat)
    requires k <= |items|
    requires forall i :: 0 <= i < k ==> items[i].id <= cursor
    requires forall i :: k <= i < |items| ==> cursor < items[i].id
    ensures Newer(items, cursor) == items[k..]
  {
    if items != [] {
      NewerIsSuffix(items[1..], cursor, if k == 0 then 0 else k - 1);
      if k == 0 { assert items == [items[0]] + items[1..]; }
    }
  }

  lemma PositionsSlice(log: seq<Item>, cursor: nat)
    requires forall k :: 0 <= k < |log| ==> log[k].id == k + 1
    ensures Newer(log, cursor) == log[Min(cursor, |log|)..]
  {
    NewerIsSuffix(log, cursor, Min(cursor, |log|));
  }

  /** The in-memory event lists. Their cursors are positions. */
  class MemoryEvents {
    var events: map<OpId, seq<Item>>

    constructor ()
      ensures events == map[] && Valid()
    {
      events := map[];
    }

    /** The k-th event of an operation carries the id k + 1. */
    ghost predicate Valid()
      reads this
    {
      forall op :: op in events ==> forall k :: 0 <= k < |events[op]| ==> events[op][k].id == k + 1
    }

    function Log(op: OpId): seq<Item>
      reads this
    {
      if op in events then events[op] else []
    }

    method Push(op: OpId, terminal: bool, payload: Payload)
      requires Valid()
      modifies this
      ensures Valid()
      ensures Log(op) == old(Log(op)) + [Item(|old(Log(op))| + 1, terminal, payload)]
      ensures forall o :: o != op ==> Log(o) == old(Log(o))
    {
      if op !in events {
        events := events[op := []];
      }
      events := events[op := events[op] + [Item(|events[op]| + 1, terminal, payload)]];
    }

    /** Slicing by position reads exactly what is newer than the cursor. */
    method GetAfter(op: OpId, cursor: nat) returns (entries: seq<Item>)
      requires Valid()
      ensures entries == Newer(Log(op), cursor)
    {
      var log := if op in events then events[op] else [];
      PositionsSlice(log, cursor);
      entries := CopyFrom(log, Min(cursor, |log|));
    }
  }

  method CopyFrom(log: seq<Item>, start: nat) returns (entries: seq<Item>)
    requires start <= |log|
    ensures entries == log[start..]
  {
    entries := [];
    var index := start;
    while index < |log|
      invariant start <= index <= |log| && entries == log[start..index]
    {
      entries := entries + [log[index]];
      index := index + 1;
    }
  }

  // ----- The generator against a growing, trimmed log -----

  /** `Draining` yields a fetched batch one event at a time; what follows depends
      on where it was fetched: in the poll loop, in the grace period after the
      terminal status was seen, or in the final flush. */
  datatype Stage = Poll | Grace(rounds: nat) | Flush

  datatype Phase = Fetching | Draining(stage: Stage) | Closed

  const GRACE_ROUNDS: nat := 5

  /** `pushed` is everything ever appended, of which the first `trimmed` are gone.
      `readLength` and `readTrim` are the log's length and trim point at the last
      fetch that did not fail, `flushLength` its length at the final one, and
      `flushed` says whether that one did not. */
  datatype Stream = Stream(
    pushed: seq<Item>, trimmed: nat,
    phase: Phase, cursor: nat, batch: seq<Item>, next: nat, yielded: seq<Item>, sawTerminal: bool,
    readLength: nat, readTrim: nat, flushLength: nat, flushed: bool)

  datatype Action =
    | Push(item: Item)
    | Trim(to: nat)
    | Fetch(ok: bool)
    | Yield
    | CheckStatus(terminal: bool)
    | GraceRound(ok: bool)
    | FinalFetch(ok: bool)
    | Close

  predicate InGrace(s: Stream) {
    s.phase.Draining? && s.phase.stage.Grace? && s.batch == []
  }

  predicate Enabled(s: Stream, a: Action) {
    match a
    case Push(item) => 0 < item.id && (s.pushed != [] ==> s.pushed[|s.pushed| - 1].id < item.id)
    case Trim(to) => s.trimmed <= to <= |s.pushed|
    case Fetch(_) => s.phase.Fetching?
    case Yield => s.phase.Draining? && s.batch != []
    case CheckStatus(_) => s.phase == Draining(Poll) && s.batch == []
    case GraceRound(_) => InGrace(s) && !s.sawTerminal && s.phase.stage.rounds < GRACE_ROUNDS
    case FinalFetch(_) => InGrace(s) && (s.sawTerminal || GRACE_ROUNDS <= s.phase.stage.rounds)
    case Close => s.phase == Draining(Flush) && s.batch == []
  }

  /** Read everything newer than the cursor; a read that fails is an empty one.
      `next` is the position of the first entry read, or of the next one to come. */
  function Read(s: Stream, stage: Stage, ok: bool): Stream
    requires s.trimmed <= |s.pushed|
  {
    if !ok then s.(batch := [], phase := Draining(stage))
    else s.(batch := Newer(s.pushed[s.trimmed..], s.cursor), next := Max(s.next, s.trimmed),
       phase := Draining(stage), readLength := |s.pushed|, readTrim := s.trimmed)
  }

  function Step(s: Stream, a: Action): Stream
    requires Enabled(s, a) && s.trimmed <= |s.pushed|
  {
    match a
    case Push(item) => s.(pushed := s.pushed + [item])
    case Trim(to) => s.(trimmed := to)
    case Fetch(ok) => Read(s, Poll, ok)
    case Yield =>
      var item := s.batch[0];
      s.(yielded := s.yielded + [item], cursor := item.id, batch := s.batch[1..], next := s.next + 1,
         sawTerminal := s.sawTerminal || item.terminal)
    case CheckStatus(terminal) => s.(phase := if terminal then Draining(Grace(0)) else Fetching)
    case GraceRound(ok) => Read(s, Grace(s.phase.stage.rounds + 1), ok)
    case FinalFetch(ok) => Read(s, Flush, ok).(flushLength := |s.pushed|, flushed := ok)
    case Close => s.(phase := Closed)
  }

  const OPENED := Stream([], 0, Fetching, 0, [], 0, [], false, 0, 0, 0, false)

  // ----- Invariant -----

  /** A batch is a piece of the log that reaches to its end as it was when read. */
  ghost predicate BatchInLog(s: Stream) {
    && Increasing(s.pushed) && s.trimmed <= |s.pushed|
    && s.next + |s.batch| <= |s.pushed|
    && s.batch == s.pushed[s.next..s.next + |s.batch|]
    && s.readLength <= |s.pushed| && s.readTrim <= s.trimmed
    && (!s.phase.Draining? ==> s.batch == [])
    && s.readLength == s.next + |s.batch|
  }

  /** The cursor separates what was passed from what is to come; only entries
      trimmed away unread lie between. */
  ghost predicate CursorSplits(s: Stream) {
    && s.cursor == (if s.yielded == [] then 0 else s.yielded[|s.yielded| - 1].id)
    && (forall i :: 0 <= i < s.next && i < |s.pushed| ==> s.pushed[i].id <= s.cursor || i < s.trimmed)
    && (forall i :: s.next <= i < |s.pushed| ==> s.cursor < s.pushed[i].id)
  }

  /** Yielded is in order, once each, and misses only entries that were already
      trimmed when they would have been read. */
  ghost predicate YieldedInOrder(s: Stream) {
    && Increasing(s.yielded)
    && (forall y :: y in s.yielded ==> y in s.pushed)
    && (forall i :: 0 <= i < s.next && i < |s.pushed| ==> s.pushed[i] in s.yielded || i < s.readTrim)
    && (s.readTrim == 0 && s.next <= |s.pushed| ==> s.yielded == s.pushed[..s.next])
  }

  ghost predicate Inv(s: Stream) {
    BatchInLog(s) && CursorSplits(s) && YieldedInOrder(s)
  }

  lemma ReadIsRest(s: Stream)
    requires BatchInLog(s) && CursorSplits(s)
    ensures Max(s.next, s.trimmed) <= |s.pushed|
    ensures Newer(s.pushed[s.trimmed..], s.cursor) == s.pushed[Max(s.next, s.trimmed)..]
  {
    var log, k := s.pushed[s.trimmed..], Max(s.next, s.trimmed);
    forall i | 0 <= i < |log| ensures i < k - s.trimmed <==> log[i].id <= s.cursor {
      assert log[i] == s.pushed[s.trimmed + i];
    }
    NewerIsSuffix(log, s.cursor, k - s.trimmed);
  }

  lemma ReadKeepsInv(s: Stream, stage: Stage, ok: bool)
    requires Inv(s) && s.batch == []
    ensures Inv(Read(s, stage, ok))
  {
    if ok {
      ReadIsRest(s);
      ReadSplits(s, stage);
    }
  }

  /** A final read that did not fail is the last one. */
  predicate FlushIsLast(s: Stream) {
    s.flushed ==> s.flushLength == s.readLength && (s.phase == Draining(Flush) || s.phase.Closed?)
  }

  lemma StepKeepsFlush(s: Stream, a: Action)
    requires Enabled(s, a) && s.trimmed <= |s.pushed| && FlushIsLast(s)
    ensures FlushIsLast(Step(s, a))
  {
  }

  lemma ReadSplits(s: Stream, stage: Stage)
    requires CursorSplits(s) && YieldedInOrder(s) && s.readTrim <= s.trimmed <= |s.pushed| && s.next <= |s.pushed|
    ensures CursorSplits(Read(s, stage, true)) && YieldedInOrder(Read(s, stage, true))
  {
  }

  lemma YieldKeepsInv(s: Stream)
    requires Inv(s) && Enabled(s, Yield)
    ensures Inv(Step(s, Yield))
  {
    YieldKeepsBatch(s);
    YieldKeepsOrder(s);
    assert s.batch[0] == s.pushed[s.next];
  }

  lemma YieldKeepsBatch(s: Stream)
    requires BatchInLog(s) && Enabled(s, Yield)
    ensures BatchInLog(Step(s, Yield))
  {
    var t := Step(s, Yield);
    assert t.batch == s.pushed[t.next..t.next + |t.batch|];
  }

  lemma YieldKeepsOrder(s: Stream)
    requires Inv(s) && Enabled(s, Yield)
    ensures YieldedInOrder(Step(s, Yield))
  {
    var t, item := Step(s, Yield), s.batch[0];
    assert item == s.pushed[s.next];
    YieldIncreases(s.yielded, item);
    assert s.pushed[..t.next] == s.pushed[..s.next] + [item];
  }

  lemma YieldIncreases(yielded: seq<Item>, item: Item)
    requires Increasing(yielded) && 0 < item.id && (yielded != [] ==> yielded[|yielded| - 1].id < item.id)
    ensures Increasing(yielded + [item])
    ensures item in yielded + [item] && forall y :: y in yielded ==> y in yielded + [item]
  {
    assert (yielded + [item])[|yielded|] == item;
  }

  lemma PushKeepsInv(s: Stream, item: Item)
    requires Inv(s) && Enabled(s, Push(item))
    ensures Inv(Step(s, Push(item)))
  {
    PushKeepsBatch(s, item);
    if s.yielded != [] { assert s.yielded[|s.yielded| - 1] in s.pushed; }
    PushKeepsOrder(s, item);
  }

  lemma PushKeepsBatch(s: Stream, item: Item)
    requires BatchInLog(s) && Enabled(s, Push(item))
    ensures BatchInLog(Step(s, Push(item)))
    ensures forall y :: y in s.pushed ==> y.id < item.id
  {
    var t := Step(s, Push(item));
    assert t.batch == t.pushed[t.next..t.next + |t.batch|];
  }

  lemma PushKeepsOrder(s: Stream, item: Item)
    requires YieldedInOrder(s) && s.next <= |s.pushed|
    ensures YieldedInOrder(s.(pushed := s.pushed + [item]))
  {
    assert (s.pushed + [item])[..s.next] == s.pushed[..s.next];
  }

  lemma StepKeepsInv(s: Stream, a: Action)
    requires Inv(s) && Enabled(s, a)
    ensures Inv(Step(s, a))
  {
    match a
    case Push(item) => PushKeepsInv(s, item);
    case Yield => YieldKeepsInv(s);
    case Fetch(ok) => ReadKeepsInv(s, Poll, ok);
    case GraceRound(ok) => ReadKeepsInv(s, Grace(s.phase.stage.rounds + 1), ok);
    case FinalFetch(ok) => FinalKeepsInv(s, ok);
    case _ => OtherStepsKeepInv(s, a);
  }

  lemma FinalKeepsInv(s: Stream, ok: bool)
    requires Inv(s) && Enabled(s, FinalFetch(ok))
    ensures Inv(Step(s, FinalFetch(ok)))
  {
    ReadKeepsInv(s, Flush, ok);
  }

  lemma OtherStepsKeepInv(s: Stream, a: Action)
    requires Inv(s) && Enabled(s, a) && (a.Trim? || a.CheckStatus? || a.Close?)
    ensures Inv(Step(s, a))
  {
  }

  ghost predicate Possible(s: Stream, run: seq<Action>)
    requires s.trimmed <= |s.pushed|
    decreases |run|
  {
    run != [] ==> Enabled(s, run[0]) && Possible(Step(s, run[0]), run[1..])
  }

  function After(s: Stream, run: seq<Action>): Stream
    requires s.trimmed <= |s.pushed| && Possible(s, run)
    decreases |run|
  {
    if run == [] then s else After(Step(s, run[0]), run[1..])
  }

  lemma {:induction false} InvHolds(s: Stream, run: seq<Action>)
    requires Inv(s) && FlushIsLast(s) && Possible(s, run)
    ensures Inv(After(s, run)) && FlushIsLast(After(s, run))
    decreases |run|
  {
    if run != [] {
      StepKeepsInv(s, run[0]);
      StepKeepsFlush(s, run[0]);
      InvHolds(Step(s, run[0]), run[1..]);
    }
  }

  // ----- What a consumer receives -----

  /** Exactly once and in order, for any interleaving of pushes, trims and polls.
      If nothing was trimmed before the last read, what was yielded is the log up
      to the cursor. Otherwise its ids still increase, and every entry passed over
      had been trimmed away by the last read, in every prefix of the run too. A
      closed stream has yielded everything that its last successful read found
      there; and if that was its final read, everything pushed before that. */
  lemma DeliveredOnceInOrder(run: seq<Action>)
    requires Possible(OPENED, run)
    ensures var s := After(OPENED, run);
            && Increasing(s.yielded)
            && (forall y :: y in s.yielded ==> y in s.pushed)
            && s.readLength <= |s.pushed| && s.readTrim <= s.trimmed
            && (s.readTrim == 0 ==> s.yielded <= s.pushed && (s.phase.Closed? ==> s.yielded == s.pushed[..s.readLength]))
            && (forall i :: 0 <= i < |s.pushed| && s.pushed[i].id <= s.cursor ==> s.pushed[i] in s.yielded || i < s.readTrim)
            && (s.phase.Closed? ==> forall i :: s.readTrim <= i < s.readLength ==> s.pushed[i] in s.yielded)
            && (s.flushed ==> s.readLength == s.flushLength)
  {
    InvHolds(OPENED, run);
  }

  /** The stream closes only after it saw the terminal status, and after that only
      with a terminal event in hand or with its whole grace period spent. */
  lemma {:induction false} ClosesAfterTerminal(s: Stream, run: seq<Action>)
    requires s.trimmed <= |s.pushed| && Possible(s, run)
    requires s.phase.Fetching? || s.phase == Draining(Poll)
    ensures After(s, run).phase.Closed? ==> CheckStatus(true) in run && (GraceRounds(run) >= GRACE_ROUNDS || After(s, run).sawTerminal)
    decreases |run|
  {
    if run != [] {
      var t := Step(s, run[0]);
      if t.phase == Draining(Grace(0)) {
        GraceEnds(t, run[1..]);
      } else {
        ClosesAfterTerminal(t, run[1..]);
      }
    }
  }

  function GraceRounds(run: seq<Action>): nat
    decreases |run|
  {
    if run == [] then 0 else (if run[0].GraceRound? then 1 else 0) + GraceRounds(run[1..])
  }

  /** The grace rounds a stream still has to go before it may close unanswered. */
  function RoundsLeft(s: Stream): int {
    if s.phase.Draining? && s.phase.stage.Grace? then GRACE_ROUNDS - s.phase.stage.rounds else 0
  }

  lemma {:induction false} GraceEnds(s: Stream, run: seq<Action>)
    requires s.trimmed <= |s.pushed| && Possible(s, run) && !s.phase.Fetching? && s.phase != Draining(Poll)
    ensures After(s, run).phase.Closed? ==> GraceRounds(run) >= RoundsLeft(s) || After(s, run).sawTerminal
    ensures s.sawTerminal ==> After(s, run).sawTerminal
    decreases |run|
  {
    if run != [] { GraceEnds(Step(s, run[0]), run[1..]); }
  }

  /** A stream waits no longer than it must: at most five grace rounds, and none once
      it has yielded a terminal event. */
  lemma {:induction false} GraceIsBounded(s: Stream, run: seq<Action>)
    requires s.trimmed <= |s.pushed| && Possible(s, run)
    requires s.phase.Draining? && s.phase.stage.Grace? ==> s.phase.stage.rounds <= GRACE_ROUNDS
    ensures GraceRounds(run) <= if s.phase.Fetching? || s.phase == Draining(Poll) then 5 else Max(0, RoundsLeft(s))
    ensures s.sawTerminal ==> GraceRounds(run) == 0
    decreases |run|
  {
    if run != [] { GraceIsBounded(Step(s, run[0]), run[1..]); }
  }

  /** And it can close: a stream that has yielded its batch and seen a terminal event
      closes on the next terminal status, yielding what is left. */
  lemma ClosesOnTerminal(s: Stream) returns (run: seq<Action>)
    requires Inv(s) && s.phase == Draining(Poll) && s.batch == [] && s.sawTerminal
    ensures Possible(s, run) && After(s, run).phase.Closed?
    ensures After(s, run).pushed == s.pushed && (s.readTrim == s.trimmed == 0 ==> After(s, run).yielded == s.pushed)
  {
    var s1 := Step(s, CheckStatus(true));
    var s2 := Step(s1, FinalFetch(true));
    StepKeepsInv(s, CheckStatus(true));
    StepKeepsInv(s1, FinalFetch(true));
    run := YieldAll(s2);
    assert ([FinalFetch(true)] + run)[1..] == run;
    run := [FinalFetch(true)] + run;
    assert ([CheckStatus(true)] + run)[1..] == run;
    run := [CheckStatus(true)] + run;
  }

  lemma {:induction false} YieldAll(s: Stream) returns (run: seq<Action>)
    requires Inv(s) && s.phase == Draining(Flush)
    ensures Possible(s, run) && After(s, run).phase.Closed?
    ensures After(s, run).pushed == s.pushed
    ensures s.readTrim == s.trimmed == 0 ==> After(s, run).yielded == s.pushed[..s.readLength]
    decreases |s.batch|
  {
    if s.batch == [] {
      run := [Close];
      assert [Close][1..] == [] && Possible(Step(s, Close), []);
    } else {
      var t := Step(s, Yield);
      StepKeepsInv(s, Yield);
      run := YieldAll(t);
      assert ([Yield] + run)[1..] == run;
      run := [Yield] + run;
    }
  }
}
