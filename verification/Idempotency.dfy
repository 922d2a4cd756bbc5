/** The idempotency keys: a durable binding of a key to an operation, and beside
    it a short admission lease naming the request that may still persist it. */
module Idempotency {
  import opened Keyspace

  const KEY_TTL: int := 86400 * SECOND
  const ADMISSION_TTL: int := 30 * SECOND

  /** `saved` is the key set of the operations hash. */
  datatype Idem = Idem(
    keys: map<IdemKey, Entry<OpId>>,
    pending: map<IdemKey, Entry<Token>>,
    saved: set<OpId>)

  const NONE := Idem(map[], map[], {})

  function Claim(s: Idem, now: int, key: IdemKey, op: OpId, token: Token): (Idem, Option<OpId>) {
    var existing := Get(s.keys, key, now);
    if existing.Some? && (existing.value in s.saved || Get(s.pending, key, now).Some?) then
      (s, existing)
    else
      (s.(keys := s.keys[key := Entry(op, now + KEY_TTL)],
          pending := s.pending[key := Entry(token, now + ADMISSION_TTL)]), None)
  }

  /** The answer is the owner the key still has, if any. */
  function ReleaseKey(s: Idem, now: int, key: IdemKey, op: OpId, token: Token): (Idem, Option<OpId>) {
    var existing := Get(s.keys, key, now);
    if existing == Some(op) && Get(s.pending, key, now) == Some(token) then
      (s.(keys := s.keys - {key}, pending := s.pending - {key}), None)
    else (s, existing)
  }

  function SaveAdmitted(s: Idem, now: int, key: IdemKey, op: OpId, token: Token): (Idem, bool) {
    if Get(s.keys, key, now) == Some(op) && Get(s.pending, key, now) == Some(token) then
      (s.(saved := s.saved + {op}, pending := s.pending - {key}), true)
    else (s, false)
  }

  class IdempotencyKeys {
    var keys: map<IdemKey, Entry<OpId>>
    var pending: map<IdemKey, Entry<Token>>
    var operations: set<OpId>

    constructor ()
      ensures Model() == NONE
    {
      keys, pending, operations := map[], map[], {};
    }

    function Model(): Idem
      reads this
    {
      Idem(keys, pending, operations)
    }

    method ClaimKey(now: int, key: IdemKey, op: OpId, token: Token) returns (owner: Option<OpId>)
      modifies this
      ensures (Model(), owner) == Claim(old(Model()), now, key, op, token)
    {
      var existing := Get(keys, key, now);
      if existing.Some? {
        if existing.value in operations {
          return existing;
        }
        if Get(pending, key, now).Some? {
          return existing;
        }
      }
      keys := keys[key := Entry(op, now + KEY_TTL)];
      pending := pending[key := Entry(token, now + ADMISSION_TTL)];
      return None;
    }

    method Release(now: int, key: IdemKey, op: OpId, token: Token) returns (owner: Option<OpId>)
      modifies this
      ensures (Model(), owner) == ReleaseKey(old(Model()), now, key, op, token)
    {
      var existing := Get(keys, key, now);
      if existing.None? {
        return None;
      }
      if existing != Some(op) {
        return existing;
      }
      if Get(pending, key, now) != Some(token) {
        return existing;
      }
      keys := keys - {key};
      pending := pending - {key};
      return None;
    }

    method Save(now: int, key: IdemKey, op: OpId, token: Token) returns (saved: bool)
      modifies this
      ensures (Model(), saved) == SaveAdmitted(old(Model()), now, key, op, token)
    {
      if Get(keys, key, now) != Some(op) || Get(pending, key, now) != Some(token) {
        return false;
      }
      operations := operations + {op};
      pending := pending - {key};
      return true;
    }
  }

  // ----- Runs: any requests, any interleaving -----

  /** `DoPersist` is a later save of an operation by its worker. */
  datatype Action =
    | DoClaim(key: IdemKey, op: OpId, token: Token)
    | DoRelease(key: IdemKey, op: OpId, token: Token)
    | DoSave(key: IdemKey, op: OpId, token: Token)
    | DoPersist(op: OpId)

  datatype Event = Event(at: int, action: Action)

  datatype Reply = Owner(op: Option<OpId>) | Saved(ok: bool)

  function Step(s: Idem, e: Event): (Idem, Reply) {
    match e.action
    case DoClaim(key, op, token) => var (t, r) := Claim(s, e.at, key, op, token); (t, Owner(r))
    case DoRelease(key, op, token) => var (t, r) := ReleaseKey(s, e.at, key, op, token); (t, Owner(r))
    case DoSave(key, op, token) => var (t, r) := SaveAdmitted(s, e.at, key, op, token); (t, Saved(r))
    case DoPersist(op) => (s.(saved := s.saved + {op}), Saved(true))
  }

  function After(s: Idem, events: seq<Event>): Idem
    decreases |events|
  {
    if events == [] then s
    else Step(After(s, events[..|events| - 1]), events[|events| - 1]).0
  }

  function ReplyAt(s: Idem, events: seq<Event>, i: nat): Reply
    requires i < |events|
  {
    Step(After(s, events[..i]), events[i]).1
  }

  ghost predicate InOrder(events: seq<Event>) {
    forall i, j :: 0 <= i < j < |events| ==> events[i].at <= events[j].at
  }

  /** The pending lease never outlives its key: it ends exactly this much earlier. */
  ghost predicate PendingWithinKey(s: Idem) {
    forall k :: k in s.pending ==>
      k in s.keys && s.pending[k].expiresAt + (KEY_TTL - ADMISSION_TTL) == s.keys[k].expiresAt
  }

  lemma {:induction false} PendingNeverOutlivesKey(s: Idem, events: seq<Event>)
    requires PendingWithinKey(s)
    ensures PendingWithinKey(After(s, events))
    ensures forall k, now :: Get(After(s, events).pending, k, now).Some? ==> Get(After(s, events).keys, k, now).Some?
    decreases |events|
  {
    if events != [] {
      PendingNeverOutlivesKey(s, events[..|events| - 1]);
    }
  }

  /** The key is bound to a persisted operation and no request may persist again. */
  predicate Sealed(s: Idem, key: IdemKey, op: OpId, until: int) {
    key in s.keys && s.keys[key] == Entry(op, until) && op in s.saved && key !in s.pending
  }

  /** What a request on a sealed key is told: the persisted operation, and no. */
  predicate SealedReply(e: Event, r: Reply, key: IdemKey, op: OpId) {
    match e.action
    case DoClaim(k, _, _) => k == key ==> r == Owner(Some(op))
    case DoRelease(k, _, _) => k == key ==> r == Owner(Some(op))
    case DoSave(k, _, _) => k == key ==> r == Saved(false)
    case DoPersist(_) => true
  }

  lemma SealedStep(s: Idem, e: Event, key: IdemKey, op: OpId, until: int)
    requires Sealed(s, key, op, until) && e.at < until
    ensures Sealed(Step(s, e).0, key, op, until)
    ensures SealedReply(e, Step(s, e).1, key, op)
  {
  }

  lemma {:induction false} SealHolds(s: Idem, events: seq<Event>, i: nat, key: IdemKey, op: OpId, until: int)
    requires i <= |events| && Sealed(After(s, events[..i]), key, op, until)
    requires forall n :: i <= n < |events| ==> events[n].at < until
    ensures Sealed(After(s, events), key, op, until)
    decreases |events|
  {
    if i == |events| {
      assert events[..i] == events;
    } else {
      var prefix := events[..|events| - 1];
      assert prefix[..i] == events[..i];
      forall n | i <= n < |prefix| ensures prefix[n].at < until { assert prefix[n] == events[n]; }
      SealHolds(s, prefix, i, key, op, until);
      SealedStep(After(s, prefix), events[|events| - 1], key, op, until);
    }
  }

  /** At most one request ever persists an operation during one life of a key.
      After a save succeeded at step i, every request on that key before the
      key's expiry is answered with the saved operation: a claim returns it, a
      late rollback leaves it, and no second save succeeds, whatever else any
      number of requests did in between. */
  lemma AtMostOneSavePerKeyLife(s: Idem, events: seq<Event>, i: nat, j: nat)
    requires i < j < |events| && InOrder(events)
    requires events[i].action.DoSave? && ReplyAt(s, events, i) == Saved(true)
    requires events[j].at < After(s, events[..i]).keys[events[i].action.key].expiresAt
    ensures SealedReply(events[j], ReplyAt(s, events, j), events[i].action.key, events[i].action.op)
  {
    var a := events[i].action;
    var until := After(s, events[..i]).keys[a.key].expiresAt;
    assert events[..i + 1][..i] == events[..i];
    assert Sealed(After(s, events[..i + 1]), a.key, a.op, until);
    var prefix := events[..j];
    assert prefix[..i + 1] == events[..i + 1];
    forall n | i + 1 <= n < |prefix| ensures prefix[n].at < until { assert events[n].at <= events[j].at; }
    SealHolds(s, prefix, i + 1, a.key, a.op, until);
    SealedStep(After(s, events[..j]), events[j], a.key, a.op, until);
  }

  /** An event that neither grants the key, nor releases it, nor saves on it. */
  predicate Untouched(e: Event, r: Reply, key: IdemKey) {
    match e.action
    case DoClaim(k, _, _) => k == key ==> r != Owner(None)
    case DoRelease(k, _, _) => k == key ==> r != Owner(None)
    case DoSave(k, _, _) => k == key ==> r != Saved(true)
    case DoPersist(_) => true
  }

  /** Event m granted the key to this request, and nothing has touched the key's
      lease since. */
  ghost predicate LastGrant(events: seq<Event>, m: int, key: IdemKey, op: OpId, token: Token) {
    && 0 <= m < |events|
    && events[m].action == DoClaim(key, op, token)
    && ReplyAt(NONE, events, m) == Owner(None)
    && forall n {:trigger events[n]} :: m < n < |events| ==> Untouched(events[n], ReplyAt(NONE, events, n), key)
  }

  /** An event that does not grant the key anew leaves a surviving lease alone. */
  lemma LeaseSurvives(before: Idem, e: Event, key: IdemKey)
    requires var after := Step(before, e).0;
             key in after.pending && Get(after.keys, key, e.at).Some?
             && (e.action.DoClaim? && e.action.key == key ==> Step(before, e).1 != Owner(None))
    ensures var after := Step(before, e).0;
            && key in before.pending && before.pending[key] == after.pending[key]
            && key in before.keys && before.keys[key] == after.keys[key]
            && Untouched(e, Step(before, e).1, key)
  {
  }

  lemma GrantStaysLast(events: seq<Event>, m: int, key: IdemKey, op: OpId, token: Token)
    requires events != []
    requires var last := |events| - 1;
             LastGrant(events[..last], m, key, op, token) && Untouched(events[last], ReplyAt(NONE, events, last), key)
    ensures LastGrant(events, m, key, op, token)
  {
    var last := |events| - 1;
    forall n | 0 <= n < last ensures events[..last][n] == events[n] && events[..last][..n] == events[..n] {}
    forall n {:trigger events[n]} | m < n < |events| ensures Untouched(events[n], ReplyAt(NONE, events, n), key) {
      if n < last { assert Untouched(events[..last][n], ReplyAt(NONE, events[..last], n), key); }
    }
  }

  lemma {:induction false} LeaseComesFromGrant(events: seq<Event>, key: IdemKey) returns (m: int)
    requires InOrder(events) && key in After(NONE, events).pending
    requires events != [] ==> Get(After(NONE, events).keys, key, events[|events| - 1].at).Some?
    ensures key in After(NONE, events).keys
    ensures LastGrant(events, m, key, After(NONE, events).keys[key].value, After(NONE, events).pending[key].value)
    ensures After(NONE, events).pending[key].expiresAt == events[m].at + ADMISSION_TTL
    decreases |events|
  {
    var last := |events| - 1;
    var prefix, e := events[..last], events[last];
    var before := After(NONE, prefix);
    if e.action.DoClaim? && e.action.key == key && Step(before, e).1 == Owner(None) {
      m := last;
    } else {
      LeaseSurvives(before, e, key);
      if prefix != [] { assert prefix[last - 1].at <= e.at; }
      m := LeaseComesFromGrant(prefix, key);
      GrantStaysLast(events, m, key, before.keys[key].value, before.pending[key].value);
    }
  }

  /** A save succeeds only for the request that was granted the key last, within
      thirty seconds of that grant, for the very operation it was granted, and
      at most once per grant. A request whose lease lapsed never persists over
      the retry that reclaimed the key. */
  lemma SaveFollowsItsGrant(events: seq<Event>, i: nat) returns (m: int)
    requires i < |events| && InOrder(events)
    requires events[i].action.DoSave? && ReplyAt(NONE, events, i) == Saved(true)
    ensures LastGrant(events[..i], m, events[i].action.key, events[i].action.op, events[i].action.token)
    ensures events[m].at <= events[i].at < events[m].at + ADMISSION_TTL
  {
    var prefix := events[..i];
    if prefix != [] { assert prefix[i - 1].at <= events[i].at; }
    m := LeaseComesFromGrant(prefix, events[i].action.key);
  }

  // ----- When a claim, a release and a save take effect -----

  /** A claim is granted exactly when the key is unbound or expired, or its
      operation was never stored and nobody's admission lease on it lives. A grant
      binds the key for its life and the token for the admission lease; a refusal
      changes nothing and names the owner. */
  lemma ClaimGrantsIffFree(s: Idem, now: int, key: IdemKey, op: OpId, token: Token)
    ensures var (t, owner) := Claim(s, now, key, op, token);
            && (owner.None? <==>
                  || key !in s.keys || s.keys[key].expiresAt <= now
                  || (s.keys[key].value !in s.saved && (key in s.pending ==> s.pending[key].expiresAt <= now)))
            && (owner.None? ==>
                  && t.keys == s.keys[key := Entry(op, now + 86400 * SECOND)]
                  && t.pending == s.pending[key := Entry(token, now + 30 * SECOND)] && t.saved == s.saved)
            && (owner.Some? ==> t == s && owner.value == s.keys[key].value)
  {
  }

  /** A release frees a key exactly for the request that still holds its admission
      lease; it answers with the owner the key is left with. */
  lemma ReleaseFreesIffHeld(s: Idem, now: int, key: IdemKey, op: OpId, token: Token)
    ensures var (t, owner) := ReleaseKey(s, now, key, op, token);
            var held := key in s.keys && key in s.pending && now < s.keys[key].expiresAt && now < s.pending[key].expiresAt
                        && s.keys[key].value == op && s.pending[key].value == token;
            && t == (if held then s.(keys := s.keys - {key}, pending := s.pending - {key}) else s)
            && owner == Get(t.keys, key, now)
  {
  }

  /** A save is accepted exactly from the request that still holds the lease. */
  lemma SaveAcceptedIffHeld(s: Idem, now: int, key: IdemKey, op: OpId, token: Token)
    ensures var (t, saved) := SaveAdmitted(s, now, key, op, token);
            && (saved <==>
                  && key in s.keys && key in s.pending && now < s.keys[key].expiresAt && now < s.pending[key].expiresAt
                  && s.keys[key].value == op && s.pending[key].value == token)
            && t == if saved then s.(saved := s.saved + {op}, pending := s.pending - {key}) else s
  {
  }

  /** No permanent tombstone: in any run, thirty seconds after the last grant of a
      key whose operation was never stored, the next claim of it is granted. */
  lemma LapsedKeyIsGranted(events: seq<Event>, i: nat)
    requires i < |events| && InOrder(events) && events[i].action.DoClaim?
    requires var key := events[i].action.key;
             && (key in After(NONE, events[..i]).keys ==> After(NONE, events[..i]).keys[key].value !in After(NONE, events[..i]).saved)
             && forall n :: 0 <= n < i && Grants(events, n, key) ==> events[n].at + 30 * SECOND <= events[i].at
    ensures ReplyAt(NONE, events, i) == Owner(None)
  {
    var a, now, prefix := events[i].action, events[i].at, events[..i];
    var s := After(NONE, prefix);
    ClaimGrantsIffFree(s, now, a.key, a.op, a.token);
    if a.key in s.keys && now < s.keys[a.key].expiresAt && a.key in s.pending {
      var m := LeaseWasGranted(events, i, a.key);
    }
  }

  /** A lease on a live key ends thirty seconds after a grant of the run. */
  lemma LeaseWasGranted(events: seq<Event>, i: nat, key: IdemKey) returns (m: nat)
    requires i < |events| && InOrder(events)
    requires var s := After(NONE, events[..i]); key in s.pending && key in s.keys && events[i].at < s.keys[key].expiresAt
    ensures m < i && Grants(events, m, key)
    ensures After(NONE, events[..i]).pending[key].expiresAt == events[m].at + 30 * SECOND
  {
    var prefix := events[..i];
    if prefix != [] { assert prefix[i - 1].at <= events[i].at; }
    m := LeaseComesFromGrant(prefix, key);
    assert prefix[..m] == events[..m];
  }

  predicate Grants(events: seq<Event>, n: nat, key: IdemKey)
    requires n < |events|
  {
    events[n].action.DoClaim? && events[n].action.key == key && ReplyAt(NONE, events, n) == Owner(None)
  }
}
