/** The finally block of a research task as it runs: a wait for the outcome ingest
    and up to three releases, each shielded from the cancellations of the task
    and cut against a deadline of its own. */
module ShieldedWaits {
  import opened Keyspace

  const INGEST_WAIT: int := 6 * SECOND
  const RELEASE_WAIT: int := SECOND
  const QUIESCE_WAIT: int := INGEST_WAIT + 4 * RELEASE_WAIT

  /** How an awaited task ends by itself; `Withdrawn` is a cancellation of that
      very task by somebody else. */
  datatype Result = Done | Raised | Withdrawn

  /** When, if ever, the awaited task ends by itself, and how. */
  datatype Inner = Hangs | Settles(at: int, result: Result)

  datatype Outcome = Settled(result: Result) | TimedOut

  predicate SettlesBy(inner: Inner, deadline: int) { inner.Settles? && inner.at <= deadline }

  /** The end of a wait that nobody cancels. */
  function Settlement(start: int, timeout: int, inner: Inner): (int, Outcome) {
    if SettlesBy(inner, start + timeout) then (Max(start, inner.at), Settled(inner.result))
    else (start + timeout, TimedOut)
  }

  /** A wait is over as soon as its task is: at once if that was done before, else
      when it ends, with its result; and only a task that does not end within the
      time makes it last that long. */
  lemma WaitEndsWithItsTask(start: int, timeout: int, inner: Inner)
    requires 0 <= timeout
    ensures var (end, outcome) := Settlement(start, timeout, inner);
            && (inner.Settles? && inner.at <= start ==> end == start && outcome == Settled(inner.result))
            && (inner.Settles? && start <= inner.at <= start + timeout ==> end == inner.at && outcome == Settled(inner.result))
            && (outcome.TimedOut? <==> inner.Hangs? || start + timeout < inner.at)
            && (outcome.TimedOut? ==> end == start + timeout)
  {
  }

  /** Wait under repeated cancellation: the caller is cancelled at the given
      instants, the wait is shielded and resumed for what is left of its time. No
      number of cancellations changes when it ends or how. `heard` of them are
      used up. */
  method ShieldedWait(start: int, timeout: int, inner: Inner, cancellations: seq<int>)
    returns (end: int, outcome: Outcome, heard: nat)
    requires 0 <= timeout
    ensures (end, outcome) == Settlement(start, timeout, inner)
    ensures heard <= |cancellations|
  {
    var deadline := start + timeout;
    var now := start;
    heard := 0;
    while !SettlesBy(inner, now)
      invariant start <= now <= deadline && heard <= |cancellations|
      invariant SettlesBy(inner, now) ==> now == Max(start, inner.at)
      decreases |cancellations| - heard
    {
      var remaining := deadline - now;
      if remaining <= 0 {
        return now, TimedOut, heard;
      }
      var settles := SettlesBy(inner, now + remaining);
      var wake := if settles then inner.at else now + remaining;
      if heard < |cancellations| && cancellations[heard] < wake {
        now := Max(now, cancellations[heard]);
        heard := heard + 1;
      } else if settles {
        return wake, Settled(inner.result), heard;
      } else {
        return wake, TimedOut, heard;
      }
    }
    return now, Settled(inner.result), heard;
  }

  /** Run a release. It is begun here, and cancelled only when its time is over. */
  method ReleaseCancellationSafe(start: int, timeout: int, release: Inner, cancellations: seq<int>)
    returns (end: int, outcome: Outcome, abandoned: bool, heard: nat)
    requires 0 <= timeout
    ensures (end, outcome) == Settlement(start, timeout, Begun(release, start))
    ensures abandoned <==> outcome.TimedOut?
    ensures heard <= |cancellations|
  {
    end, outcome, heard := ShieldedWait(start, timeout, Begun(release, start), cancellations);
    abandoned := outcome.TimedOut?;
  }

  /** A release described by its duration, begun now. */
  function Begun(release: Inner, now: int): Inner {
    if release.Hangs? then Hangs else Settles(now + release.at, release.result)
  }

  datatype Cleanup = Ingest | Spend | Lease | Slot | Unregister

  /** One step of the finally block, when it began and how it ended. */
  datatype Stage = Stage(what: Cleanup, begun: int, ended: int, outcome: Outcome)

  function Staged(what: Cleanup, now: int, timeout: int, inner: Inner): Stage {
    var (end, outcome) := Settlement(now, timeout, inner);
    Stage(what, now, end, outcome)
  }

  /** What the block is given: its pending ingest, whether the hold is still due,
      and how long each release takes. */
  datatype Work = Work(ingest: Option<Inner>, due: bool, spend: Inner, lease: Inner, slot: Inner)

  /** The stages of a finally block that nobody cancels: first what must be over
      before the operation is let go, then letting it go. */
  function FinallyStages(start: int, w: Work): seq<Stage> {
    Opening(start, w) + Closing(EndOf(Opening(start, w), start), w)
  }

  function Opening(start: int, w: Work): seq<Stage> {
    var first := if w.ingest.Some? then [Staged(Ingest, start, INGEST_WAIT, w.ingest.value)] else [];
    var now := EndOf(first, start);
    first + if w.due then [Staged(Spend, now, RELEASE_WAIT, Begun(w.spend, now))] else []
  }

  function Closing(now: int, w: Work): seq<Stage> {
    var lease := Staged(Lease, now, RELEASE_WAIT, Begun(w.lease, now));
    var slot := Staged(Slot, lease.ended, RELEASE_WAIT, Begun(w.slot, lease.ended));
    [lease, slot, Stage(Unregister, slot.ended, slot.ended, Settled(Done))]
  }

  function EndOf(stages: seq<Stage>, start: int): int {
    if stages == [] then start else stages[|stages| - 1].ended
  }

  function TimedOutOf(stages: seq<Stage>): set<Cleanup> {
    set s | s in stages && s.outcome.TimedOut? :: s.what
  }

  /** The whole block, cancelled at any instants any number of times: each stage
      begins, ends and turns out as if nobody had cancelled; a release is
      cancelled exactly when its time is over, and the ingest never. */
  method FinallyBlock(start: int, w: Work, cancellations: seq<int>)
    returns (stages: seq<Stage>, abandoned: set<Cleanup>)
    ensures stages == FinallyStages(start, w)
    ensures abandoned == TimedOutOf(stages) - {Ingest}
  {
    var opening, late, heard := OpeningBlock(start, w, cancellations);
    var closing, later := ClosingBlock(EndOf(opening, start), w, cancellations[heard..]);
    TimedOutAppend(opening, closing);
    return opening + closing, late + later;
  }

  method OpeningBlock(start: int, w: Work, cancellations: seq<int>)
    returns (stages: seq<Stage>, abandoned: set<Cleanup>, heard: nat)
    ensures stages == Opening(start, w)
    ensures abandoned == TimedOutOf(stages) - {Ingest}
    ensures heard <= |cancellations|
  {
    stages, abandoned, heard := [], {}, 0;
    var now := start;
    if w.ingest.Some? {
      var end, outcome, n := ShieldedWait(start, INGEST_WAIT, w.ingest.value, cancellations);
      stages, now, heard := [Stage(Ingest, start, end, outcome)], end, n;
    }
    if w.due {
      var end, outcome, late, n := ReleaseCancellationSafe(now, RELEASE_WAIT, w.spend, cancellations[heard..]);
      TimedOutAppend(stages, [Stage(Spend, now, end, outcome)]);
      stages := stages + [Stage(Spend, now, end, outcome)];
      abandoned, heard := if late then {Spend} else {}, heard + n;
    }
  }

  method ClosingBlock(start: int, w: Work, cancellations: seq<int>)
    returns (stages: seq<Stage>, abandoned: set<Cleanup>)
    ensures stages == Closing(start, w)
    ensures abandoned == TimedOutOf(stages) && Ingest !in abandoned
  {
    var leased, outcome, late, heard := ReleaseCancellationSafe(start, RELEASE_WAIT, w.lease, cancellations);
    var lease := Stage(Lease, start, leased, outcome);
    abandoned := if late then {Lease} else {};
    var end;
    end, outcome, late, heard := ReleaseCancellationSafe(leased, RELEASE_WAIT, w.slot, cancellations[heard..]);
    abandoned := abandoned + if late then {Slot} else {};
    stages := [lease, Stage(Slot, leased, end, outcome), Stage(Unregister, end, end, Settled(Done))];
  }

  lemma TimedOutAppend(a: seq<Stage>, b: seq<Stage>)
    ensures TimedOutOf(a + b) == TimedOutOf(a) + TimedOutOf(b)
  {
    forall s | s in a || s in b ensures s in a + b {}
  }

  /** Stages follow each other without a gap, none longer than its allowance. */
  predicate Tight(stages: seq<Stage>, start: int) {
    forall i :: 0 <= i < |stages| ==> Follows(stages[i], EndOf(stages[..i], start))
  }

  predicate Follows(s: Stage, now: int) {
    s.begun == now <= s.ended <= now + Allowance(s.what)
  }

  function Allowance(what: Cleanup): int {
    match what
    case Ingest => INGEST_WAIT
    case Unregister => 0
    case _ => RELEASE_WAIT
  }

  function Due(w: Work): seq<Cleanup> {
    (if w.ingest.Some? then [Ingest] else []) + (if w.due then [Spend] else []) + [Lease, Slot, Unregister]
  }

  function Kinds(stages: seq<Stage>): seq<Cleanup> {
    seq(|stages|, i requires 0 <= i < |stages| => stages[i].what)
  }

  /** The block does what is due once each, in order, gap by gap. */
  lemma FinallyInOrder(start: int, w: Work)
    ensures Kinds(FinallyStages(start, w)) == Due(w) && Tight(FinallyStages(start, w), start)
  {
    var opening := Opening(start, w);
    var closing := Closing(EndOf(opening, start), w);
    OpeningInOrder(start, w);
    ClosingInOrder(EndOf(opening, start), w);
    TightAppend(opening, closing, start);
    assert Kinds(opening + closing) == Kinds(opening) + Kinds(closing);
  }

  lemma OpeningInOrder(start: int, w: Work)
    ensures Tight(Opening(start, w), start)
    ensures Kinds(Opening(start, w)) == (if w.ingest.Some? then [Ingest] else []) + (if w.due then [Spend] else [])
  {
    var first := if w.ingest.Some? then [Staged(Ingest, start, INGEST_WAIT, w.ingest.value)] else [];
    var now := EndOf(first, start);
    if w.due { TightAppend(first, [Staged(Spend, now, RELEASE_WAIT, Begun(w.spend, now))], start); }
  }

  lemma ClosingInOrder(now: int, w: Work)
    ensures Tight(Closing(now, w), now) && Kinds(Closing(now, w)) == [Lease, Slot, Unregister]
  {
    var s := Closing(now, w);
    assert s[..1] == [s[0]] && s[..2] == [s[0], s[1]];
  }

  lemma TightAppend(a: seq<Stage>, b: seq<Stage>, start: int)
    requires Tight(a, start) && Tight(b, EndOf(a, start))
    ensures Tight(a + b, start)
  {
    forall i | 0 <= i < |a + b| ensures Follows((a + b)[i], EndOf((a + b)[..i], start)) {
      if i < |a| {
        assert (a + b)[..i] == a[..i];
      } else {
        assert (a + b)[..i] == a + b[..i - |a|];
        assert Follows(b[i - |a|], EndOf(b[..i - |a|], EndOf(a, start)));
      }
    }
  }

  /** It ends before shutdown stops waiting for it. */
  lemma FinallyInTime(start: int, w: Work)
    ensures EndOf(FinallyStages(start, w), start) - start < QUIESCE_WAIT
  {
  }
}
