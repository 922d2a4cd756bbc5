/** The operations hash of Redis and the index of active operations beside it, one
    method per script. */
module OperationStore {
  import opened Keyspace

  datatype Status = Queued | Running | Completed | Partial | Failed | Cancelled

  predicate Active(st: Status) { st.Queued? || st.Running? }

  /** Queued, then running, then any of the terminal ones. */
  function Rank(st: Status): nat {
    if st.Queued? then 0 else if st.Running? then 1 else 2
  }

  /** The fields of a stored operation that other requests depend on. */
  datatype Record = Record(status: Status, key: IdemKey)

  // ----- The operations hash and its active index -----

  datatype Table = Table(records: map<OpId, Record>, active: set<OpId>)

  function Store(t: Table, op: OpId, r: Record): Table {
    Table(t.records[op := r], if Active(r.status) then t.active + {op} else t.active - {op})
  }

  /** The reconciler's script: fail the operation from a snapshot, if nobody owns
      it and it is still active now. */
  function FailIfUnowned(t: Table, owners: map<OpId, Entry<InstanceId>>, now: int, op: OpId, snapshot: Record): (Table, bool) {
    if Get(owners, op, now).Some? || op !in t.records || !Active(t.records[op].status) then (t, false)
    else (t.(records := t.records[op := snapshot.(status := Failed)]), true)
  }

  predicate Stale(t: Table, owners: map<OpId, Entry<InstanceId>>, now: int, op: OpId) {
    op in t.active && op in t.records && Active(t.records[op].status) && Get(owners, op, now).None?
  }

  class OperationKeys {
    var records: map<OpId, Record>
    var active: set<OpId>

    constructor ()
      ensures Model() == Table(map[], {})
    {
      records, active := map[], {};
    }

    function Model(): Table
      reads this
    {
      Table(records, active)
    }

    /** The save script: the record and its index membership in one step. */
    method WriteOperation(op: OpId, r: Record)
      modifies this
      ensures Model() == Store(old(Model()), op, r)
    {
      records := records[op := r];
      if Active(r.status) {
        active := active + {op};
      } else {
        active := active - {op};
      }
    }

    /** The second half of a save: merge the new status over `found`, which the
        first half read, however long ago, and write. A worker's update brings no
        key and keeps the one it found; `key` is that of a record not found. */
    method SaveOperation(op: OpId, found: Option<Record>, status: Status, key: IdemKey)
      modifies this
      ensures Model() == Store(old(Model()), op, Record(status, if found.Some? then found.value.key else key))
    {
      WriteOperation(op, if found.Some? then found.value.(status := status) else Record(status, key));
    }

    /** The reconciler's script. */
    method FailStale(now: int, owners: map<OpId, Entry<InstanceId>>, op: OpId, snapshot: Record) returns (failed: bool)
      modifies this`records
      ensures (Model(), failed) == FailIfUnowned(old(Model()), owners, now, op, snapshot)
    {
      if Get(owners, op, now).Some? {
        return false;
      }
      if op !in records {
        return false;
      }
      if !Active(records[op].status) {
        return false;
      }
      records := records[op := snapshot.(status := Failed)];
      return true;
    }

    /** One undisturbed reconciliation pass: index all active operations first if
        the backfill is due, snapshot the index, then fail every stale operation.
        It fails exactly the indexed active operations nobody owns, and touches
        nothing else. */
    method MarkStaleOperations(now: int, owners: map<OpId, Entry<InstanceId>>, backfill: bool)
      modifies this
      ensures records.Keys == old(records).Keys
      ensures forall op :: op in records ==>
                records[op] == if Stale(Indexed(old(Model()), backfill), owners, now, op)
                               then old(records)[op].(status := Failed) else old(records)[op]
      ensures active == var before := Indexed(old(Model()), backfill);
                        before.active - set op | op in before.active && Stale(before, owners, now, op)
    {
      if backfill {
        active := active + set op | op in records && Active(records[op].status);
      }
      FailAll(now, owners);
    }

    /** Snapshot the index and fail what is stale in it. */
    method FailAll(now: int, owners: map<OpId, Entry<InstanceId>>)
      modifies this
      ensures records.Keys == old(records).Keys
      ensures forall op :: op in records ==>
                records[op] == if Stale(old(Model()), owners, now, op)
                               then old(records)[op].(status := Failed) else old(records)[op]
      ensures active == old(active) - set op | op in old(active) && Stale(old(Model()), owners, now, op)
    {
      ghost var before := Model();
      var snapshot := map op | op in active && op in records :: records[op];
      var todo := snapshot.Keys;
      while todo != {}
        invariant todo <= snapshot.Keys && records.Keys == before.records.Keys
        invariant forall op :: op in records ==>
                    records[op] == if op !in todo && Stale(before, owners, now, op)
                                   then before.records[op].(status := Failed) else before.records[op]
        invariant active == before.active - set op | op in before.active && op !in todo && Stale(before, owners, now, op)
        decreases todo
      {
        var op :| op in todo;
        todo := todo - {op};
        if Active(snapshot[op].status) {
          var failed := FailStale(now, owners, op, snapshot[op]);
          if failed {
            active := active - {op};
          }
        }
      }
    }
  }

  /** The table once the backfill, if due, has indexed every active operation. */
  function Indexed(t: Table, backfill: bool): Table {
    if backfill then t.(active := t.active + set op | op in t.records && Active(t.records[op].status)) else t
  }
}
