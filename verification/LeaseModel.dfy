/**
 The value of one lease (lease.go) and of one lease pool (the lock-protected
 sections of LeasePool in lease_manager.go).  The classes in LeasePool.dfy are
 proved against these functions, and the protocol in LeaseProtocol.dfy runs them.
 */
module LeaseModel {
  import opened Sequences

  type LeaseId = string

  /** `timed` says that claimTime is not the zero time; `served` counts recorded requests. */
  datatype Lease = Lease(
    available: bool, exited: bool, timed: bool, beginRelease: bool,
    reusable: bool, sig: string, served: nat, reacquire: bool, scheduler: string)
  {
    function Claim(): Lease {
      if available then this.(available := false, beginRelease := false, timed := true) else this
    }

    function Free(): Lease {
      this.(available := true, timed := false, served := if timed then served + 1 else served)
    }

    function Destroy(): Lease {
      this.(exited := true, available := false)
    }
  }

  /**
   `store` holds every lease object that ever entered the pool, `mapped` the IDs now in
   leaseMap, and `idle` the idle list from front to back.
   */
  datatype Pool = Pool(store: map<LeaseId, Lease>, mapped: set<LeaseId>, idle: seq<LeaseId>)

  const EMPTY_POOL := Pool(map[], {}, [])

  /** What every lock-protected section of a pool keeps. */
  ghost predicate WellFormed(p: Pool) {
    && p.mapped <= p.store.Keys
    && Distinct(p.idle)
    && (forall id :: id in p.idle ==> id in p.mapped)
    && (forall id :: id in p.store ==> (p.store[id].exited <==> id !in p.mapped))
    && (forall id :: id in p.store && p.store[id].exited ==> !p.store[id].available)
    && (forall id :: id in p.idle ==> p.store[id].reusable)
  }

  /** traverseIdleLeaseList: pop the idle list until a lease can be claimed. */
  function Traverse(p: Pool, sig: string): (r: (Pool, Option<LeaseId>))
    requires forall id :: id in p.idle ==> id in p.store
    decreases |p.idle|
  {
    if p.idle == [] then (p, None)
    else
      var id := p.idle[0];
      if p.store[id].sig != sig then (p.(idle := []), None)
      else
        var q := p.(idle := p.idle[1..], store := p.store[id := p.store[id].Claim()]);
        if p.store[id].available then (q, Some(id)) else Traverse(q, sig)
  }

  /** acquireInstanceLease after the scheduler answered: the claimed lease enters leaseMap. */
  function Insert(p: Pool, id: LeaseId, lease: Lease): Pool {
    p.(store := p.store[id := lease], mapped := p.mapped + {id})
  }

  /** removeLease for every ID of `gone`. */
  function Purge(p: Pool, gone: set<LeaseId>): Pool
    requires p.mapped <= p.store.Keys
  {
    Pool(map id | id in p.store :: if id in gone && id in p.mapped then p.store[id].Destroy() else p.store[id],
         p.mapped - gone, Without(p.idle, gone))
  }

  /** releaseInstanceLease. */
  function Release(p: Pool, id: LeaseId, abnormal: bool): Pool
    requires p.mapped <= p.store.Keys
  {
    if id !in p.mapped then p
    else
      var freed := if abnormal then p.store[id].Destroy() else p.store[id].Free();
      if !abnormal && p.store[id].reusable then
        p.(store := p.store[id := freed], idle := p.idle + [id])
      else
        Pool(p.store[id := freed.Destroy()], p.mapped - {id}, Without(p.idle, {id}))
  }

  /** The first idle entry that stops a traversal: another signature, or a claimable lease. */
  function StopIndex(p: Pool, sig: string): (k: nat)
    requires forall id :: id in p.idle ==> id in p.store
    ensures k <= |p.idle|
    ensures forall i :: 0 <= i < k ==> p.store[p.idle[i]].sig == sig && !p.store[p.idle[i]].available
    ensures k < |p.idle| ==> p.store[p.idle[k]].sig != sig || p.store[p.idle[k]].available
    decreases |p.idle|
  {
    if p.idle == [] || p.store[p.idle[0]].sig != sig || p.store[p.idle[0]].available then 0
    else 1 + StopIndex(p.(idle := p.idle[1..]), sig)
  }

  /**
   The traversal in closed form: it takes the first claimable lease whose predecessors all
   have the wanted signature, keeps exactly the entries behind it, and empties the list when
   it meets another signature or nothing claimable.
   */
  lemma {:induction false} TraverseTakesFirstClaimable(p: Pool, sig: string)
    requires forall id :: id in p.idle ==> id in p.store
    ensures var k := StopIndex(p, sig); var (q, got) := Traverse(p, sig);
            && q.mapped == p.mapped
            && (if k < |p.idle| && p.store[p.idle[k]].sig == sig
                then got == Some(p.idle[k]) && q.idle == p.idle[k + 1..]
                     && q.store == p.store[p.idle[k] := p.store[p.idle[k]].Claim()]
                else got == None && q.idle == [] && q.store == p.store)
    decreases |p.idle|
  {
    if p.idle == [] {
    } else {
      var id := p.idle[0];
      if p.store[id].sig != sig {
      } else if p.store[id].available {
      } else {
        var q := p.(idle := p.idle[1..], store := p.store[id := p.store[id].Claim()]);
        assert q.store == p.store;
        assert q == p.(idle := p.idle[1..]);
        TraverseTakesFirstClaimable(q, sig);
        var k := StopIndex(q, sig);
        assert StopIndex(p, sig) == k + 1;
        if k < |q.idle| {
          assert q.idle[k] == p.idle[k + 1];
          assert q.idle[k + 1..] == p.idle[k + 2..];
        }
      }
    }
  }

  /** Every section keeps `WellFormed`; what it does to each lease is stated beside it. */
  lemma TraverseKeeps(p: Pool, sig: string)
    requires WellFormed(p)
    ensures var (q, got) := Traverse(p, sig);
            && WellFormed(q) && q.mapped == p.mapped && q.store.Keys == p.store.Keys
            && (forall id :: id in q.idle ==> id in p.idle)
            && (got.None? ==> q.store == p.store)
            && (got.Some? ==> got.value in p.idle && got.value !in q.idle && got.value in p.mapped
                              && p.store[got.value].available && p.store[got.value].sig == sig
                              && q.store == p.store[got.value := p.store[got.value].Claim()])
  {
    TraverseTakesFirstClaimable(p, sig);
  }

  lemma PurgeKeeps(p: Pool, gone: set<LeaseId>)
    requires WellFormed(p)
    ensures var q := Purge(p, gone);
            && WellFormed(q) && q.store.Keys == p.store.Keys && q.mapped == p.mapped - gone
            && (forall id :: id in q.idle <==> id in p.idle && id !in gone)
            && (forall id :: id in p.store && !(id in gone && id in p.mapped) ==> q.store[id] == p.store[id])
            && (forall id :: id in gone && id in p.mapped ==> q.store[id] == p.store[id].Destroy())
  {
    WithoutMembers(p.idle, gone);
  }

  lemma ReleaseKeeps(p: Pool, id: LeaseId, abnormal: bool)
    requires WellFormed(p)
    requires id !in p.idle
    ensures var q := Release(p, id, abnormal);
            && WellFormed(q) && q.store.Keys == p.store.Keys
            && (forall x :: x in p.store && x != id ==> q.store[x] == p.store[x])
            && (id !in p.mapped ==> q == p)
            && (id in p.mapped && !abnormal && p.store[id].reusable ==>
                  q.mapped == p.mapped && q.idle == p.idle + [id] && q.store[id] == p.store[id].Free())
            && (id in p.mapped && (abnormal || !p.store[id].reusable) ==>
                  q.mapped == p.mapped - {id} && q.idle == p.idle && q.store[id].exited)
            && (id in p.store ==> q.store[id].reusable == p.store[id].reusable)
  {
    if id in p.mapped {
      WithoutMembers(p.idle, {id});
      WithoutNothing(p.idle, {id});
      if !abnormal && p.store[id].reusable {
        var q := Release(p, id, abnormal);
        assert forall x :: x in q.idle <==> x in p.idle || x == id;
      }
    }
  }
}
