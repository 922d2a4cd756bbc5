/** The in-memory storage object: a bounded, insertion-ordered cache of operations
    that evicts finished work first, and bounded tombstones of idempotency keys
    and operation claims that outlive it. */
module MemoryCache {
  import opened Keyspace
  import S = OperationStore

  const OPERATION_CACHE_LIMIT: nat := 500
  const RESERVATION_LIMIT: nat := 10000

  ghost predicate Distinct<K>(order: seq<K>) {
    forall i, j :: 0 <= i < j < |order| ==> order[i] != order[j]
  }

  /** An ordered dictionary is an order of distinct keys and a map on them. */
  ghost predicate Ordered<K, V>(order: seq<K>, entries: map<K, V>) {
    Distinct(order) && (forall k :: k in entries ==> k in order) && (forall k :: k in order ==> k in entries)
  }

  function Without<K(==)>(order: seq<K>, k: K): seq<K> {
    if order == [] then []
    else if order[0] == k then Without(order[1..], k)
    else [order[0]] + Without(order[1..], k)
  }

  lemma {:induction false} WithoutDropsOne<K(!new)>(order: seq<K>, k: K)
    requires Distinct(order)
    ensures Distinct(Without(order, k))
    ensures forall x :: x in Without(order, k) <==> x in order && x != k
    ensures |Without(order, k)| == |order| - (if k in order then 1 else 0)
  {
    if order != [] {
      WithoutDropsOne(order[1..], k);
      assert order == [order[0]] + order[1..];
      assert order[0] !in order[1..];
    }
  }

  lemma {:induction false} WithoutAbsent<K(!new)>(order: seq<K>, k: K)
    requires k !in order
    ensures Without(order, k) == order
  {
    if order != [] {
      WithoutAbsent(order[1..], k);
      assert order == [order[0]] + order[1..];
    }
  }

  /** The fields of a stored operation that other requests depend on. */
  datatype Record = Record(status: S.Status, key: Option<IdemKey>)

  type Records = map<OpId, Record>

  /** A save updates the fields it brings and keeps the others. */
  function Merged(records: Records, op: OpId, status: S.Status, key: Option<IdemKey>): Record {
    if op in records && key.None? then records[op].(status := status) else Record(status, key)
  }

  /** What evictions and saves act on. */
  datatype Cache = Cache(order: seq<OpId>, records: Records)

  datatype Save = Save(op: OpId, status: S.Status, key: Option<IdemKey>)

  function Saved(c: Cache, s: Save): Cache { Stored(c, s.op, Merged(c.records, s.op, s.status, s.key)) }

  function Stored(c: Cache, op: OpId, r: Record): Cache {
    var all := c.records[op := r];
    var moved := Without(c.order, op) + [op];
    var order := Evict(moved, all, Excess(moved, all, OPERATION_CACHE_LIMIT));
    Cache(order, map o | o in all && o in order :: all[o])
  }

  /** What one save stores, and what it leaves. */
  lemma SaveStores(c: Cache, s: Save)
    ensures var t := Saved(c, s).records;
            && (s.op in t ==>
                  && t[s.op].status == s.status
                  && t[s.op].key == if s.key.Some? then s.key else if s.op in c.records then c.records[s.op].key else None)
            && (forall o :: o in t && o != s.op ==> o in c.records && t[o] == c.records[o])
  {
  }

  lemma MovedIsOrdered(order: seq<OpId>, records: Records, op: OpId, r: Record)
    requires Ordered(order, records)
    ensures Ordered(Without(order, op) + [op], records[op := r])
  {
    WithoutDropsOne(order, op);
  }

  lemma RestOfAll(all: Records, rest: Records, order: seq<OpId>)
    requires rest == all - (all.Keys - rest.Keys) && Ordered(order, rest)
    ensures rest == map o | o in all && o in order :: all[o]
  {
  }

  /** A save drops no queued or running operation, and not its own if it is one. */
  lemma SaveKeepsLive(c: Cache, s: Save)
    requires Ordered(c.order, c.records)
    ensures forall o :: o in c.records && o != s.op && S.Active(c.records[o].status) ==> o in Saved(c, s).records
    ensures S.Active(s.status) ==> s.op in Saved(c, s).records
  {
    var all := c.records[s.op := Merged(c.records, s.op, s.status, s.key)];
    var moved := Without(c.order, s.op) + [s.op];
    MovedIsOrdered(c.order, c.records, s.op, all[s.op]);
    EvictionEndsAtLimit(moved, all, OPERATION_CACHE_LIMIT);
    assert Merged(c.records, s.op, s.status, s.key).status == s.status;
  }

  function AllSaved(c: Cache, saves: seq<Save>): Cache {
    if saves == [] then c else Saved(AllSaved(c, saves[..|saves| - 1]), saves[|saves| - 1])
  }

  /** The last status saved for the operation, and the last key brought. */
  function LastStatus(saves: seq<Save>, op: OpId): Option<S.Status> {
    if saves == [] then None
    else if saves[|saves| - 1].op == op then Some(saves[|saves| - 1].status)
    else LastStatus(saves[..|saves| - 1], op)
  }

  function LastKey(saves: seq<Save>, op: OpId): Option<IdemKey> {
    if saves == [] then None
    else
      var last := saves[|saves| - 1];
      if last.op == op && last.key.Some? then last.key else LastKey(saves[..|saves| - 1], op)
  }

  /** The operation is never evicted in the run. */
  ghost predicate Survives(c: Cache, saves: seq<Save>, op: OpId) {
    forall n :: 0 <= n <= |saves| ==> op in AllSaved(c, saves[..n]).records
  }

  /** Over any run of saves, of any operations, with the evictions they cause: an
      operation that is there at the end has the last status saved for it; and if it
      was there all along, the last key brought, or else its first. */
  lemma {:induction false} LastSaveWins(c: Cache, saves: seq<Save>, op: OpId)
    requires op in AllSaved(c, saves).records
    ensures var r := AllSaved(c, saves).records[op];
            && (LastStatus(saves, op).Some? ==> r.status == LastStatus(saves, op).value)
            && (LastStatus(saves, op).None? ==> op in c.records && r == c.records[op])
            && (Survives(c, saves, op) ==>
                  op in c.records && r.key == if LastKey(saves, op).Some? then LastKey(saves, op) else c.records[op].key)
    decreases |saves|
  {
    if Survives(c, saves, op) { assert op in AllSaved(c, saves[..0]).records; }
    if saves != [] {
      var last := |saves| - 1;
      var before := saves[..last];
      SaveStores(AllSaved(c, before), saves[last]);
      if Survives(c, saves, op) {
        forall n | 0 <= n <= last ensures op in AllSaved(c, before[..n]).records { assert before[..n] == saves[..n]; }
        assert before[..last] == before;
      }
      if op in AllSaved(c, before).records { LastSaveWins(c, before, op); }
    }
  }

  predicate Terminal(records: Records, op: OpId) {
    op in records && !S.Active(records[op].status)
  }

  /** The finished operations, oldest first. */
  function Finished(order: seq<OpId>, records: Records): seq<OpId> {
    if order == [] then []
    else (if Terminal(records, order[0]) then [order[0]] else []) + Finished(order[1..], records)
  }

  /** The operations still queued or running, oldest first. */
  function Live(order: seq<OpId>, records: Records): seq<OpId> {
    if order == [] then []
    else (if Terminal(records, order[0]) then [] else [order[0]]) + Live(order[1..], records)
  }

  /** The order once its n oldest finished operations are gone. */
  function Evict(order: seq<OpId>, records: Records, n: nat): seq<OpId> {
    if order == [] || n == 0 then order
    else if Terminal(records, order[0]) then Evict(order[1..], records, n - 1)
    else [order[0]] + Evict(order[1..], records, n)
  }

  /** How many operations a cache over its limit drops. */
  function Excess(order: seq<OpId>, records: Records, limit: nat): nat {
    if |order| <= limit then 0 else Min(|order| - limit, |Finished(order, records)|)
  }

  lemma {:induction false} FinishedPlusLive(order: seq<OpId>, records: Records)
    ensures |Finished(order, records)| + |Live(order, records)| == |order|
    ensures forall op :: op in Finished(order, records) ==> op in order && Terminal(records, op)
    ensures forall op :: op in order && !Terminal(records, op) ==> op in Live(order, records)
  {
    if order != [] { FinishedPlusLive(order[1..], records); }
  }

  /** Removing the next finished operation by name is evicting one more. */
  lemma {:induction false} EvictOneMore(order: seq<OpId>, records: Records, n: nat)
    requires Distinct(order)
    requires n < |Finished(order, records)|
    ensures Without(Evict(order, records, n), Finished(order, records)[n]) == Evict(order, records, n + 1)
  {
    var first, rest := order[0], order[1..];
    assert order == [first] + rest && first !in rest;
    if Terminal(records, first) {
      if n == 0 {
        WithoutAbsent(rest, first);
        assert Evict(rest, records, 0) == rest;
      } else {
        EvictOneMore(rest, records, n - 1);
      }
    } else {
      EvictOneMore(rest, records, n);
      FinishedPlusLive(rest, records);
      if n == 0 {
        assert Evict(order, records, 0) == order && Evict(rest, records, 0) == rest;
      } else {
        var tail := Evict(rest, records, n);
        assert Evict(order, records, n) == [first] + tail && ([first] + tail)[1..] == tail;
      }
    }
  }

  predicate IsCut(order: seq<OpId>, records: Records, n: nat, cut: nat) {
    && cut <= |order|
    && Evict(order, records, n) == Live(order[..cut], records) + order[cut..]
    && |Finished(order[..cut], records)| == n
  }

  /** Evicting n is cutting the order somewhere: before the cut only the live
      operations stay, after it everything does. So exactly the oldest finished
      operations go, and a queued or running one never does. */
  lemma {:induction false} EvictsOldestFinished(order: seq<OpId>, records: Records, n: nat) returns (cut: nat)
    requires n <= |Finished(order, records)|
    ensures IsCut(order, records, n, cut)
    ensures |Evict(order, records, n)| == |order| - n
  {
    if order == [] || n == 0 {
      cut := 0;
    } else {
      var fewer := if Terminal(records, order[0]) then n - 1 else n;
      var c := EvictsOldestFinished(order[1..], records, fewer);
      cut := c + 1;
      CutLater(order, records, c);
      if Terminal(records, order[0]) { CutBehindFinished(order, records, n, c); } else { CutBehindLive(order, records, n, c); }
    }
  }

  lemma CutBehindFinished(order: seq<OpId>, records: Records, n: nat, c: nat)
    requires order != [] && n > 0 && Terminal(records, order[0]) && IsCut(order[1..], records, n - 1, c)
    requires order[c + 1..] == order[1..][c..] && Live(order[..c + 1], records) == Live(order[1..][..c], records)
    requires |Finished(order[..c + 1], records)| == 1 + |Finished(order[1..][..c], records)|
    ensures IsCut(order, records, n, c + 1)
  {
  }

  lemma CutBehindLive(order: seq<OpId>, records: Records, n: nat, c: nat)
    requires order != [] && n > 0 && !Terminal(records, order[0]) && IsCut(order[1..], records, n, c)
    requires order[c + 1..] == order[1..][c..] && Live(order[..c + 1], records) == [order[0]] + Live(order[1..][..c], records)
    requires |Finished(order[..c + 1], records)| == |Finished(order[1..][..c], records)|
    ensures IsCut(order, records, n, c + 1)
  {
    Prepend(order[0], Live(order[1..][..c], records), order[1..][c..]);
  }

  lemma Prepend(first: OpId, a: seq<OpId>, b: seq<OpId>)
    ensures [first] + (a + b) == ([first] + a) + b
  {
  }

  lemma CutLater(order: seq<OpId>, records: Records, c: nat)
    requires order != [] && c <= |order| - 1
    ensures order[c + 1..] == order[1..][c..]
    ensures Live(order[..c + 1], records)
            == if Terminal(records, order[0]) then Live(order[1..][..c], records) else [order[0]] + Live(order[1..][..c], records)
    ensures |Finished(order[..c + 1], records)|
            == (if Terminal(records, order[0]) then 1 else 0) + |Finished(order[1..][..c], records)|
  {
    assert order[..c + 1][1..] == order[1..][..c];
  }

  lemma NextVictim(order: seq<OpId>, records: Records, n: nat)
    requires Distinct(order) && n < |Finished(order, records)|
    ensures var victim := Finished(order, records)[n];
            && Without(Evict(order, records, n), victim) == Evict(order, records, n + 1)
            && |Evict(order, records, n + 1)| == |order| - n - 1
  {
    EvictOneMore(order, records, n);
    var _ := EvictsOldestFinished(order, records, n + 1);
  }

  lemma WithoutKeepsOrdered<K(!new), V>(order: seq<K>, entries: map<K, V>, k: K)
    requires Ordered(order, entries)
    ensures Ordered(Without(order, k), entries - {k})
  {
    WithoutDropsOne(order, k);
    forall x | x in Without(order, k) ensures x in entries - {k} { assert x in order; }
  }

  lemma AppendKeepsOrdered<K(!new), V>(order: seq<K>, entries: map<K, V>, k: K, v: V)
    requires Ordered(order, entries) && k !in entries
    ensures Ordered(order + [k], entries[k := v])
  {
  }

  lemma DropMore<K, V>(entries: map<K, V>, gone: set<K>, k: K)
    ensures entries - gone - {k} == entries - (gone + {k})
  {
  }

  /** A cache over its limit keeps every live operation and ends at its limit, or
      at the number of live operations if that is more. */
  lemma EvictionEndsAtLimit(order: seq<OpId>, records: Records, limit: nat)
    ensures var kept := Evict(order, records, Excess(order, records, limit));
            && |kept| == (if |order| <= limit then |order| else Max(limit, |Live(order, records)|))
            && (forall op :: op in order && !Terminal(records, op) ==> op in kept)
  {
    var n := Excess(order, records, limit);
    FinishedPlusLive(order, records);
    var cut := EvictsOldestFinished(order, records, n);
    FinishedPlusLive(order[..cut], records);
    assert order == order[..cut] + order[cut..];
    forall op | op in order && !Terminal(records, op) ensures op in Evict(order, records, n) {
      if op in order[..cut] { assert op in Live(order[..cut], records); } else { assert op in order[cut..]; }
    }
  }

  /** What is left after dropping the oldest entries down to a limit. */
  function Newest<K>(order: seq<K>, limit: nat): seq<K> {
    if |order| <= limit then order else order[|order| - limit..]
  }

  lemma DropFirst<K, V>(order: seq<K>, entries: map<K, V>)
    requires Ordered(order, entries) && order != []
    ensures Ordered(order[1..], entries - {order[0]})
  {
    assert order == [order[0]] + order[1..];
    assert order[0] !in order[1..];
  }

  /** Pop from the old end of an ordered dictionary until it is within a limit. */
  method DropOldest<K(==,!new), V>(order: seq<K>, entries: map<K, V>, limit: nat) returns (kept: seq<K>, rest: map<K, V>)
    requires Ordered(order, entries)
    ensures Ordered(kept, rest) && kept == Newest(order, limit)
    ensures forall k :: k in rest ==> k in entries && rest[k] == entries[k]
    ensures |order| <= limit ==> rest == entries
  {
    kept, rest := order, entries;
    while |kept| > limit
      invariant Ordered(kept, rest) && |kept| <= |order|
      invariant kept == order[|order| - |kept|..]
      invariant |kept| < |order| ==> limit <= |kept|
      invariant forall k :: k in rest ==> k in entries && rest[k] == entries[k]
      invariant |kept| == |order| ==> rest == entries
    {
      DropFirst(kept, rest);
      rest := rest - {kept[0]};
      kept := kept[1..];
    }
  }

  class MemoryStorage {
    var order: seq<OpId>
    var records: Records
    var events: map<OpId, seq<string>>
    var owners: map<OpId, InstanceId>
    var keyOrder: seq<IdemKey>
    var keys: map<IdemKey, OpId>
    var claimOrder: seq<OpId>
    var claims: map<OpId, IdemKey>
    const inst: InstanceId

    constructor (inst: InstanceId)
      ensures Valid() && order == [] && keys == map[] && claims == map[] && owners == map[] && this.inst == inst
    {
      order, records, events, owners := [], map[], map[], map[];
      keyOrder, keys, claimOrder, claims := [], map[], [], map[];
      this.inst := inst;
    }

    ghost predicate Valid()
      reads this
    {
      && Ordered(order, records) && Ordered(keyOrder, keys) && Ordered(claimOrder, claims)
      && |keyOrder| <= RESERVATION_LIMIT && |claimOrder| <= RESERVATION_LIMIT
    }

    /** Over the limit, drop finished operations, oldest first, with their events
        and owner, until at the limit or out of candidates. */
    method EvictIfNeeded()
      requires Ordered(order, records)
      modifies this`order, this`records, this`events, this`owners
      ensures Ordered(order, records)
      ensures order == Evict(old(order), old(records), Excess(old(order), old(records), OPERATION_CACHE_LIMIT))
      ensures var gone := old(records).Keys - records.Keys;
              && records == old(records) - gone && events == old(events) - gone && owners == old(owners) - gone
    {
      if |order| <= OPERATION_CACHE_LIMIT {
        return;
      }
      var candidates := Finished(order, records);
      var i := 0;
      FinishedPlusLive(order, records);
      assert Evict(order, records, 0) == order;
      ghost var gone: set<OpId> := {};
      while i < |candidates| && |order| > OPERATION_CACHE_LIMIT
        invariant i <= |candidates| && candidates == Finished(old(order), old(records))
        invariant Ordered(order, records)
        invariant order == Evict(old(order), old(records), i)
        invariant |order| == |old(order)| - i && OPERATION_CACHE_LIMIT <= |order|
        invariant gone <= old(records).Keys
        invariant records == old(records) - gone && events == old(events) - gone && owners == old(owners) - gone
      {
        var evicted := candidates[i];
        NextVictim(old(order), old(records), i);
        WithoutKeepsOrdered(order, records, evicted);
        DropMore(old(records), gone, evicted);
        DropMore(old(events), gone, evicted);
        DropMore(old(owners), gone, evicted);
        order := Without(order, evicted);
        records := records - {evicted};
        events := events - {evicted};
        owners := owners - {evicted};
        gone := gone + {evicted};
        i := i + 1;
      }
      assert gone == old(records).Keys - records.Keys;
    }

    /** Merge, move to the end, evict. The saved status is the stored one, and so is
        the key if one was brought; other records only stay or go. Tombstones are
        not touched. */
    method SaveOperation(op: OpId, status: S.Status, key: Option<IdemKey>)
      requires Valid()
      modifies this`order, this`records, this`events, this`owners
      ensures Valid()
      ensures Cache(order, records) == Saved(Cache(old(order), old(records)), Save(op, status, key))
      ensures op in records ==>
                && records[op].status == status
                && records[op].key == if key.Some? then key else if op in old(records) then old(records)[op].key else None
      ensures forall o :: o in records && o != op ==> o in old(records) && records[o] == old(records)[o]
      ensures S.Active(status) ==> op in records
      ensures forall o :: o in old(records) && o != op && S.Active(old(records)[o].status) ==> o in records
      ensures var gone := old(records).Keys + {op} - records.Keys;
              events == old(events) - gone && owners == old(owners) - gone
    {
      ghost var before := Cache(order, records);
      MoveAndEvict(op, Merged(records, op, status, key));
      SaveStores(before, Save(op, status, key));
      SaveKeepsLive(before, Save(op, status, key));
    }

    method MoveAndEvict(op: OpId, r: Record)
      requires Ordered(order, records)
      modifies this`order, this`records, this`events, this`owners
      ensures Ordered(order, records)
      ensures Cache(order, records) == Stored(Cache(old(order), old(records)), op, r)
      ensures var gone := old(records).Keys + {op} - records.Keys;
              events == old(events) - gone && owners == old(owners) - gone
    {
      MovedIsOrdered(order, records, op, r);
      order := Without(order, op) + [op];
      records := records[op := r];
      ghost var all := records;
      assert all.Keys == old(records).Keys + {op};
      EvictIfNeeded();
      RestOfAll(all, records, order);
    }

    method SaveAdmittedOperation(op: OpId, key: IdemKey) returns (saved: bool)
      requires Valid()
      modifies this`order, this`records, this`events, this`owners
      ensures Valid()
      ensures saved <==> key in keys && keys[key] == op
      ensures saved ==> op in records && records[op] == Record(S.Queued, Some(key))
      ensures !saved ==> order == old(order) && records == old(records) && owners == old(owners) && events == old(events)
    {
      if key !in keys || keys[key] != op {
        return false;
      }
      SaveOperation(op, S.Queued, Some(key));
      return true;
    }

    /** A key claimed once answers with its operation as long as its tombstone
        lasts, also when the operation itself was evicted long ago; a new key
        may push out the oldest tombstone. */
    method ClaimIdempotencyKey(key: IdemKey, op: OpId) returns (owner: Option<OpId>)
      requires Valid()
      modifies this`keyOrder, this`keys, this`claimOrder, this`claims
      ensures Valid()
      ensures claimOrder == old(claimOrder) && claims == old(claims)
      ensures key in old(keys) ==> owner == Some(old(keys)[key]) && keys == old(keys) && keyOrder == old(keyOrder)
      ensures key !in old(keys) ==>
                && owner.None? && keyOrder == Newest(old(keyOrder) + [key], RESERVATION_LIMIT)
                && (forall k :: k in keys ==> keys[k] == if k == key then op else old(keys)[k])
    {
      if key in keys {
        return Some(keys[key]);
      }
      AppendKeepsOrdered(keyOrder, keys, key, op);
      keys := keys[key := op];
      keyOrder := keyOrder + [key];
      EvictIdempotencyIfNeeded();
      return None;
    }

    method EvictIdempotencyIfNeeded()
      requires Ordered(keyOrder, keys) && Ordered(claimOrder, claims)
      modifies this`keyOrder, this`keys, this`claimOrder, this`claims
      ensures Ordered(keyOrder, keys) && Ordered(claimOrder, claims)
      ensures keyOrder == Newest(old(keyOrder), RESERVATION_LIMIT)
      ensures claimOrder == Newest(old(claimOrder), RESERVATION_LIMIT)
      ensures forall k :: k in keys ==> k in old(keys) && keys[k] == old(keys)[k]
      ensures forall op :: op in claims ==> op in old(claims) && claims[op] == old(claims)[op]
      ensures |old(keyOrder)| <= RESERVATION_LIMIT ==> keys == old(keys)
      ensures |old(claimOrder)| <= RESERVATION_LIMIT ==> claims == old(claims)
    {
      keyOrder, keys := DropOldest(keyOrder, keys, RESERVATION_LIMIT);
      claimOrder, claims := DropOldest(claimOrder, claims, RESERVATION_LIMIT);
    }

    /** Free a key that is still bound to this operation; here the operation alone
        decides, there is no admission lease. */
    method ReleaseIdempotencyKey(key: IdemKey, op: OpId) returns (owner: Option<OpId>)
      requires Valid()
      modifies this`keyOrder, this`keys
      ensures Valid()
      ensures owner == if key in old(keys) && old(keys)[key] != op then Some(old(keys)[key]) else None
      ensures keys == if owner.None? then old(keys) - {key} else old(keys)
    {
      if key !in keys {
        assert keys - {key} == keys;
        return None;
      }
      if keys[key] != op {
        return Some(keys[key]);
      }
      WithoutDropsOne(keyOrder, key);
      WithoutKeepsOrdered(keyOrder, keys, key);
      keyOrder := Without(keyOrder, key);
      keys := keys - {key};
      return None;
    }

    /** An operation id is free when no claim and no stored operation binds it to
        another key; an evicted operation's claim still counts. */
    method ClaimOperationId(op: OpId, key: IdemKey) returns (claimed: bool)
      requires Valid()
      modifies this`keyOrder, this`keys, this`claimOrder, this`claims
      ensures Valid()
      ensures op in old(claims) ==> claimed == (old(claims)[op] == key)
      ensures op !in old(claims) ==> claimed == (op in records && records[op].key.Some? ==> records[op].key == Some(key))
      ensures op in old(claims) || !claimed ==> claims == old(claims) && claimOrder == old(claimOrder) && keys == old(keys)
      ensures op !in old(claims) && claimed ==>
                && claimOrder == Newest(old(claimOrder) + [op], RESERVATION_LIMIT)
                && (forall o :: o in claims ==> claims[o] == if o == op then key else old(claims)[o])
                && keyOrder == old(keyOrder) && keys == old(keys)
    {
      if op in claims {
        return claims[op] == key;
      }
      if op in records && records[op].key.Some? && records[op].key != Some(key) {
        return false;
      }
      AppendKeepsOrdered(claimOrder, claims, op, key);
      claims := claims[op := key];
      claimOrder := claimOrder + [op];
      EvictIdempotencyIfNeeded();
      return true;
    }

    method BeginOperation(op: OpId) returns (acquired: bool)
      modifies this`owners
      ensures acquired <==> op !in old(owners)
      ensures owners == if acquired then old(owners)[op := inst] else old(owners)
    {
      if op in owners {
        return false;
      }
      owners := owners[op := inst];
      return true;
    }

    method ReleaseOperationLease(op: OpId)
      modifies this`owners
      ensures owners == if op in old(owners) && old(owners)[op] == inst then old(owners) - {op} else old(owners)
    {
      if op in owners && owners[op] == inst {
        owners := owners - {op};
      }
    }

    /** At startup: fail every live operation that nobody in this process owns. */
    method MarkStaleOperations()
      requires Valid()
      modifies this`records
      ensures Valid() && records.Keys == old(records).Keys
      ensures forall op :: op in records ==>
                records[op] == if S.Active(old(records)[op].status) && op !in owners
                               then old(records)[op].(status := S.Failed) else old(records)[op]
    {
      var i := 0;
      while i < |order|
        invariant i <= |order| && Valid() && records.Keys == old(records).Keys
        invariant forall op :: op in records ==>
                    records[op] == if S.Active(old(records)[op].status) && op !in owners && op in order[..i]
                                   then old(records)[op].(status := S.Failed) else old(records)[op]
      {
        var op := order[i];
        assert op !in order[..i] && forall o :: o in order[..i + 1] <==> o in order[..i] || o == op;
        if S.Active(records[op].status) && op !in owners {
          records := records[op := records[op].(status := S.Failed)];
        }
        i := i + 1;
      }
    }
  }
}
