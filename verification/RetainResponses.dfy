/**
 What a scheduler's answer to a retain batch does to the leases of a function (processBatchResponse
 and processErrBatchResponse in lease_manager.go).  Pools and leases are values in the fields of
 the object that owns them; Go's map iteration is an arbitrary choice in each loop.
 */
module RetainResponses {
  import opened Sequences
  import opened LeaseModel

  type PoolKey = string

  const LEASE_ID_NOT_FOUND := 150463
  const NON_OWNER_SCHEDULER := 150464
  const DEFAULT_RETAIN_MILLIS := 200

  datatype Fault = Fault(code: int, message: string)

  /** A pool: leaseMap and the IDs of the idle list. */
  datatype Leases = Leases(leaseMap: map<LeaseId, Lease>, idle: seq<LeaseId>)

  type Pools = map<PoolKey, Leases>

  /** The pool key each lease of the batch was sent with. */
  type BatchKeys = map<LeaseId, PoolKey>

  datatype Response = Response(succeeded: set<LeaseId>, failed: map<LeaseId, Fault>, leaseInterval: int)

  /** normalizeRetainInterval, in milliseconds. */
  function NormalizeInterval(millis: int): (r: int)
    ensures r >= 1 && (millis >= 1 ==> r == millis) && (millis < 1 ==> r == 200)
  {
    if millis < 1 then DEFAULT_RETAIN_MILLIS else millis
  }

  function Half(n: int): int {
    if n >= 0 then n / 2 else -(-n / 2)
  }

  predicate Reacquires(f: Fault) {
    f.code == LEASE_ID_NOT_FOUND || f.code == NON_OWNER_SCHEDULER
  }

  /** The scheduler a failed lease turns to. */
  function Redirect(f: Fault): string {
    if f.code == LEASE_ID_NOT_FOUND then "" else f.message
  }

  // ---------------------------------------------------------------------------------------
  // Effects on one lease, and on all pools
  // ---------------------------------------------------------------------------------------

  /** What is written to a lease: reacquire, and a new scheduler if there is one. */
  datatype Write = Write(reacquire: bool, scheduler: Option<string>)

  function Written(l: Lease, w: Write): Lease {
    l.(reacquire := w.reacquire, scheduler := if w.scheduler.Some? then w.scheduler.value else l.scheduler)
  }

  /** The lease `id` of pool `k` is the one the batch means. */
  predicate Meant(batch: BatchKeys, k: PoolKey, id: LeaseId) {
    id in batch && batch[id] == k
  }

  function WrittenMap(m: map<LeaseId, Lease>, k: PoolKey, batch: BatchKeys, writes: map<LeaseId,
                      Write>): map<LeaseId, Lease> {
    map id | id in m :: if id in writes && Meant(batch, k, id) then Written(m[id], writes[id]) else m[id]
  }

  function WrittenPools(pools: Pools, batch: BatchKeys, writes: map<LeaseId, Write>): Pools {
    map k | k in pools :: pools[k].(leaseMap := WrittenMap(pools[k].leaseMap, k, batch, writes))
  }

  /** The IDs of `gone` that the batch places in pool `k` and that are there. */
  function Hit(pools: Pools, batch: BatchKeys, gone: set<LeaseId>, k: PoolKey): set<LeaseId>
    requires k in pools
  {
    set id | id in gone && Meant(batch, k, id) && id in pools[k].leaseMap
  }

  function DroppedPools(pools: Pools, batch: BatchKeys, gone: set<LeaseId>): Pools {
    map k | k in pools ::
      Leases(pools[k].leaseMap - Hit(pools, batch, gone, k), Without(pools[k].idle, Hit(pools, batch, gone, k)))
  }

  /** The IDs of `gone` that are in the pool the batch places them in. */
  function Present(pools: Pools, batch: BatchKeys, gone: set<LeaseId>): set<LeaseId> {
    set id | id in gone && id in batch && batch[id] in pools && id in pools[batch[id]].leaseMap
  }

  // --- one more lease ---

  lemma WriteOneMore(pools: Pools, batch: BatchKeys, writes: map<LeaseId, Write>, id: LeaseId, w: Write)
    requires id in batch && id !in writes
    ensures var now, k := WrittenPools(pools, batch, writes), batch[id];
            WrittenPools(pools, batch, writes[id := w]) ==
              if k in now && id in now[k].leaseMap
              then now[k := now[k].(leaseMap := now[k].leaseMap[id := Written(now[k].leaseMap[id], w)])]
              else now
  {
    hide WrittenMap;
    var now, k := WrittenPools(pools, batch, writes), batch[id];
    forall p | p in pools
      ensures WrittenMap(pools[p].leaseMap, p, batch, writes[id := w]) ==
              if p == k && id in now[p].leaseMap
              then now[p].leaseMap[id := Written(now[p].leaseMap[id], w)] else now[p].leaseMap
    {
      WriteInMap(pools[p].leaseMap, p, batch, writes, id, w);
    }
  }

  lemma WriteInMap(m: map<LeaseId, Lease>, p: PoolKey, batch: BatchKeys, writes: map<LeaseId, Write>, id: LeaseId,
                   w: Write)
    requires id in batch && id !in writes
    ensures var now := WrittenMap(m, p, batch, writes);
            WrittenMap(m, p, batch, writes[id := w]) ==
              if p == batch[id] && id in now then now[id := Written(now[id], w)] else now
  {
    hide Written;
  }

  lemma DropOneMore(pools: Pools, batch: BatchKeys, gone: set<LeaseId>, id: LeaseId)
    requires id in batch && id !in gone
    ensures var now, k := DroppedPools(pools, batch, gone), batch[id];
            DroppedPools(pools, batch, gone + {id}) ==
              if k in now && id in now[k].leaseMap
              then now[k := Leases(now[k].leaseMap - {id}, Without(now[k].idle, {id}))]
              else now
    ensures var now, k := DroppedPools(pools, batch, gone), batch[id];
            Present(pools, batch, gone + {id}) ==
              if k in now && id in now[k].leaseMap
              then Present(pools, batch, gone) + {id} else Present(pools, batch, gone)
  {
    var now, k := DroppedPools(pools, batch, gone), batch[id];
    forall p | p in pools && p != k ensures Hit(pools, batch, gone + {id}, p) == Hit(pools, batch, gone, p) {
    }
    if k in pools {
      var hit := Hit(pools, batch, gone, k);
      assert Hit(pools, batch, gone + {id}, k) == if id in pools[k].leaseMap then hit + {id} else hit;
      assert id !in hit;
      if id in pools[k].leaseMap {
        WithoutTwice(pools[k].idle, hit, {id});
        assert pools[k].leaseMap - (hit + {id}) == pools[k].leaseMap - hit - {id};
      }
    }
  }

  lemma {:induction false} WithoutTwice<T>(s: seq<T>, a: set<T>, b: set<T>)
    ensures Without(s, a + b) == Without(Without(s, a), b)
  {
    if s != [] {
      WithoutTwice(s[1..], a, b);
      WithoutConcat(if s[0] in a then [] else [s[0]], Without(s[1..], a), b);
    }
  }

  lemma WriteNothing(pools: Pools, batch: BatchKeys)
    ensures WrittenPools(pools, batch, map[]) == pools
  {
    forall k | k in pools ensures WrittenPools(pools, batch, map[])[k] == pools[k] {
      assert WrittenMap(pools[k].leaseMap, k, batch, map[]) == pools[k].leaseMap;
    }
  }

  lemma DropNothing(pools: Pools, batch: BatchKeys)
    ensures DroppedPools(pools, batch, {}) == pools && Present(pools, batch, {}) == {}
  {
    forall k | k in pools ensures DroppedPools(pools, batch, {})[k] == pools[k] {
      assert Hit(pools, batch, {}, k) == {};
      WithoutNothing(pools[k].idle, {});
      assert pools[k].leaseMap - {} == pools[k].leaseMap;
    }
  }

  // ---------------------------------------------------------------------------------------
  // The object
  // ---------------------------------------------------------------------------------------

  class FuncKeyLeasePools {
    var leasePools: Pools
    var globalLeaseList: set<LeaseId>
    var interval: int

    constructor ()
      ensures leasePools == map[] && globalLeaseList == {} && interval == DEFAULT_RETAIN_MILLIS
    {
      leasePools, globalLeaseList, interval := map[], {}, DEFAULT_RETAIN_MILLIS;
    }

    /** The loops that write to the leases of a batch. */
    method WriteLeases(batch: BatchKeys, writes: map<LeaseId, Write>)
      requires writes.Keys <= batch.Keys
      modifies this`leasePools
      ensures leasePools == WrittenPools(old(leasePools), batch, writes)
    {
      hide WrittenPools;
      WriteNothing(leasePools, batch);
      var rest := writes.Keys;
      ghost var done: map<LeaseId, Write> := map[];
      while rest != {}
        invariant rest <= writes.Keys && done.Keys == writes.Keys - rest
        invariant forall id :: id in done ==> done[id] == writes[id]
        invariant leasePools == WrittenPools(old(leasePools), batch, done)
        decreases |rest|
      {
        var id :| id in rest;
        rest := rest - {id};
        WriteOneMore(old(leasePools), batch, done, id, writes[id]);
        done := done[id := writes[id]];
        var key := batch[id];
        if key !in leasePools || id !in leasePools[key].leaseMap {
          continue;
        }
        var pool := leasePools[key];
        leasePools := leasePools[key := pool.(leaseMap := pool.leaseMap[id := Written(pool.leaseMap[id], writes[id])])];
      }
      assert done == writes;
    }

    /** The loop over the leases that the scheduler has given up. */
    method DropLeases(batch: BatchKeys, gone: set<LeaseId>)
      requires gone <= batch.Keys
      modifies this`leasePools, this`globalLeaseList
      ensures leasePools == DroppedPools(old(leasePools), batch, gone)
      ensures globalLeaseList == old(globalLeaseList) - Present(old(leasePools), batch, gone)
    {
      hide DroppedPools, Present;
      DropNothing(leasePools, batch);
      var rest := gone;
      ghost var done := {};
      while rest != {}
        invariant rest <= gone && done == gone - rest
        invariant leasePools == DroppedPools(old(leasePools), batch, done)
        invariant globalLeaseList == old(globalLeaseList) - Present(old(leasePools), batch, done)
        decreases |rest|
      {
        var id :| id in rest;
        rest := rest - {id};
        DropOneMore(old(leasePools), batch, done, id);
        done := done + {id};
        var key := batch[id];
        if key !in leasePools || id !in leasePools[key].leaseMap {
          continue;
        }
        globalLeaseList := globalLeaseList - {id};
        leasePools := leasePools[key := Leases(leasePools[key].leaseMap - {id}, Without(leasePools[key].idle, {id}))];
      }
      assert done == gone;
    }

    /** processBatchResponse.  An answer about a lease outside the batch would make the source fail. */
    method ProcessBatchResponse(batch: BatchKeys, resp: Response)
      requires resp.succeeded <= batch.Keys && resp.failed.Keys <= batch.Keys
      modifies this
      ensures interval == if resp.leaseInterval >= 2 then resp.leaseInterval / 2 else 200
      ensures var written := WrittenPools(WrittenPools(old(leasePools), batch, Renewed(resp)), batch, Redirected(resp));
              leasePools == DroppedPools(written, batch, GivenUp(resp))
      ensures globalLeaseList == old(globalLeaseList) - Present(old(leasePools), batch, GivenUp(resp))
    {
      hide WrittenPools, DroppedPools, Present;
      interval := NormalizeInterval(Half(resp.leaseInterval));
      WriteLeases(batch, Renewed(resp));
      WriteLeases(batch, Redirected(resp));
      PresentAfterWrites(old(leasePools), batch, Renewed(resp), GivenUp(resp));
      PresentAfterWrites(WrittenPools(old(leasePools), batch, Renewed(resp)), batch, Redirected(resp), GivenUp(resp));
      DropLeases(batch, GivenUp(resp));
    }

    /** processErrBatchResponse: the whole batch is to be acquired anew. */
    method ProcessErrBatchResponse(batch: BatchKeys)
      modifies this`leasePools
      ensures leasePools == WrittenPools(old(leasePools), batch, map id | id in batch :: Write(true, None))
    {
      WriteLeases(batch, map id | id in batch :: Write(true, None));
    }
  }

  function Renewed(resp: Response): map<LeaseId, Write> {
    map id | id in resp.succeeded :: Write(false, None)
  }

  function Redirected(resp: Response): map<LeaseId, Write> {
    map id | id in resp.failed && Reacquires(resp.failed[id]) :: Write(true, Some(Redirect(resp.failed[id])))
  }

  function GivenUp(resp: Response): set<LeaseId> {
    set id | id in resp.failed && !Reacquires(resp.failed[id])
  }

  lemma PresentAfterWrites(pools: Pools, batch: BatchKeys, writes: map<LeaseId, Write>, gone: set<LeaseId>)
    ensures Present(WrittenPools(pools, batch, writes), batch, gone) == Present(pools, batch, gone)
  {
  }

  // ---------------------------------------------------------------------------------------
  // What that means for one lease
  // ---------------------------------------------------------------------------------------

  ghost function After(pools: Pools, batch: BatchKeys, resp: Response): Pools {
    DroppedPools(WrittenPools(WrittenPools(pools, batch, Renewed(resp)), batch, Redirected(resp)), batch, GivenUp(resp))
  }

  /** The fate of a lease: gone, kept with what the answer says of it, or untouched. */
  lemma FateOfALease(pools: Pools, batch: BatchKeys, resp: Response, k: PoolKey, id: LeaseId)
    requires k in pools && id in pools[k].leaseMap
    ensures k in After(pools, batch, resp)
    ensures var was, now := pools[k].leaseMap[id], After(pools, batch, resp)[k].leaseMap;
            if !Meant(batch, k, id) || (id !in resp.failed && id !in resp.succeeded) then id in now && now[id] == was
            else if id !in resp.failed then id in now && now[id] == was.(reacquire := false)
            else if resp.failed[id].code == 150463
            then id in now && now[id] == was.(reacquire := true, scheduler := "")
            else if resp.failed[id].code == 150464
            then id in now && now[id] == was.(reacquire := true, scheduler := resp.failed[id].message)
            else id !in now
  {
    WrittenFate(pools, batch, Renewed(resp), k, id);
    WrittenFate(WrittenPools(pools, batch, Renewed(resp)), batch, Redirected(resp), k, id);
    hide WrittenPools;
  }

  /** A batch that failed as a whole: its leases are to be acquired anew, where they are, and nothing else changes. */
  lemma FateInAFailedBatch(pools: Pools, batch: BatchKeys, k: PoolKey, id: LeaseId)
    requires k in pools && id in pools[k].leaseMap
    ensures var now := WrittenPools(pools, batch, map x | x in batch :: Write(true, None));
            && k in now && now[k].idle == pools[k].idle && now[k].leaseMap.Keys == pools[k].leaseMap.Keys
            && now[k].leaseMap[id] ==
                 if id in batch && batch[id] == k then pools[k].leaseMap[id].(reacquire := true)
                 else pools[k].leaseMap[id]
  {
  }

  lemma WrittenFate(pools: Pools, batch: BatchKeys, writes: map<LeaseId, Write>, k: PoolKey, id: LeaseId)
    requires k in pools && id in pools[k].leaseMap
    ensures var now := WrittenPools(pools, batch, writes);
            && k in now && id in now[k].leaseMap && now[k].idle == pools[k].idle
            && now[k].leaseMap[id] ==
                 if id in writes && Meant(batch, k, id) then Written(pools[k].leaseMap[id], writes[id])
                                      else pools[k].leaseMap[id]
  {
  }

  /** It leaves globalLeaseList exactly if it was given up and is where the batch says. */
  lemma FateInTheGlobalList(pools: Pools, batch: BatchKeys, resp: Response, id: LeaseId)
    ensures id in Present(pools, batch, GivenUp(resp)) <==>
            && id in resp.failed && resp.failed[id].code != 150463 && resp.failed[id].code != 150464
            && id in batch && batch[id] in pools && id in pools[batch[id]].leaseMap
  {
  }

  /** A lease that was given up leaves the idle list too; the others keep their places in it. */
  lemma FateOfTheIdleList(pools: Pools, batch: BatchKeys, resp: Response, k: PoolKey)
    requires k in pools && Distinct(pools[k].idle) && (forall id :: id in pools[k].idle ==> id in pools[k].leaseMap)
    ensures k in After(pools, batch, resp)
    ensures var idle := After(pools, batch, resp)[k].idle;
            && Distinct(idle) && idle == Without(pools[k].idle, Hit(pools, batch, GivenUp(resp), k))
            && forall id :: id in idle <==> id in pools[k].idle && !(Meant(batch, k, id) && id in GivenUp(resp))
  {
    var written := WrittenPools(WrittenPools(pools, batch, Renewed(resp)), batch, Redirected(resp));
    assert written[k].idle == pools[k].idle && written[k].leaseMap.Keys == pools[k].leaseMap.Keys;
    assert Hit(written, batch, GivenUp(resp), k) == Hit(pools, batch, GivenUp(resp), k);
    WithoutMembers(pools[k].idle, Hit(pools, batch, GivenUp(resp), k));
  }
}
