/**
 Every step of the lease protocol keeps the invariant.  The first half says, predicate by
 predicate, which changes keep it; the second half shows that each step makes such changes.
 */
module LeaseSafety {
  import opened Sequences
  import opened LeaseModel
  import opened LeaseProtocol

  // ---------------------------------------------------------------------------------------
  // Directory and Requests
  // ---------------------------------------------------------------------------------------

  lemma DirectoryKeeps(home: map<LeaseId, PoolId>, pools: set<PoolId>, registry: map<PoolKey, PoolId>,
                       global: set<LeaseId>, index: map<LeaseId, PoolId>, key: PoolKey, p: PoolId, id: LeaseId,
                       gone: set<LeaseId>)
    requires Directory(home, pools, registry, global, index)
    ensures Directory(home, pools + {p}, registry[key := p], global, index)
    ensures Directory(home, pools, registry - {key}, global, index)
    ensures id !in home ==> Directory(home[id := p], pools, registry, global, index)
    ensures id in home && home[id] == p ==> Directory(home, pools, registry, global + {id}, index[id := p])
    ensures Directory(home, pools, registry, global - gone, index)
    ensures Directory(home, pools, registry, global - gone, index - gone)
  {
  }

  lemma RequestsKeep(home: map<LeaseId, PoolId>, pools: set<PoolId>, reqs: map<ReqId, Phase>, r: ReqId, ph: Phase,
                     id: LeaseId, p: PoolId)
    requires Requests(home, pools, reqs)
    ensures Requests(home, pools, reqs - {r})
    ensures Requests(home, pools + {p}, reqs)
    ensures id !in home ==> Requests(home[id := p], pools, reqs)
    ensures && (HasPool(ph) ==> ph.pool in pools)
            && (HasLease(ph) ==> ph.lease in home)
            && (HasLease(ph) && HasPool(ph) ==> ph.pool == home[ph.lease])
            ==> Requests(home, pools, reqs[r := ph])
  {
  }

  // ---------------------------------------------------------------------------------------
  // Heap
  // ---------------------------------------------------------------------------------------

  lemma HeapView(store: map<LeaseId, Lease>, home: map<LeaseId, PoolId>, mapped: set<LeaseId>,
                 idle: map<PoolId, seq<LeaseId>>, p: PoolId)
    requires Heap(store, home, mapped, idle) && p in idle
    ensures WellFormed(Pool(store, mapped, idle[p]))
  {
  }

  /** A section of pool `p` that removes only leases of `p` from leaseMap. */
  lemma HeapWithView(store: map<LeaseId, Lease>, home: map<LeaseId, PoolId>, mapped: set<LeaseId>,
                     idle: map<PoolId, seq<LeaseId>>, p: PoolId, v: Pool)
    requires Heap(store, home, mapped, idle) && p in idle
    requires WellFormed(v) && v.store.Keys == store.Keys && v.mapped <= mapped
    requires forall id :: id in v.idle ==> home[id] == p
    requires forall id :: id in mapped && id !in v.mapped ==> home[id] == p
    requires forall id :: id in store ==> v.store[id].reusable == store[id].reusable
    ensures Heap(v.store, home, v.mapped, idle[p := v.idle])
  {
  }

  lemma HeapInsert(store: map<LeaseId, Lease>, home: map<LeaseId, PoolId>, mapped: set<LeaseId>,
                   idle: map<PoolId, seq<LeaseId>>, id: LeaseId, p: PoolId, lease: Lease)
    requires Heap(store, home, mapped, idle) && p in idle && id !in home && !lease.exited
    ensures Heap(store[id := lease], home[id := p], mapped + {id}, idle)
  {
  }

  lemma HeapSetLease(store: map<LeaseId, Lease>, home: map<LeaseId, PoolId>, mapped: set<LeaseId>,
                     idle: map<PoolId, seq<LeaseId>>, id: LeaseId, lease: Lease)
    requires Heap(store, home, mapped, idle) && id in store
    requires lease.exited == store[id].exited && lease.reusable == store[id].reusable
    requires lease.available ==> store[id].available
    ensures Heap(store[id := lease], home, mapped, idle)
  {
  }

  lemma HeapShrinkIdle(store: map<LeaseId, Lease>, home: map<LeaseId, PoolId>, mapped: set<LeaseId>,
                       idle: map<PoolId, seq<LeaseId>>, p: PoolId, rest: seq<LeaseId>)
    requires Heap(store, home, mapped, idle) && p in idle && Distinct(rest)
    requires forall id :: id in rest ==> id in idle[p]
    ensures Heap(store, home, mapped, idle[p := rest])
  {
    hide Distinct;
  }

  lemma HeapNewPool(store: map<LeaseId, Lease>, home: map<LeaseId, PoolId>, mapped: set<LeaseId>,
                    idle: map<PoolId, seq<LeaseId>>, p: PoolId)
    requires Heap(store, home, mapped, idle) && p !in idle
    ensures Heap(store, home, mapped, idle[p := []])
  {
  }

  // ---------------------------------------------------------------------------------------
  // Exclusive
  // ---------------------------------------------------------------------------------------

  /** `b` is `a` with fewer leases handed out. */
  ghost predicate FewerLeases(a: map<ReqId, Phase>, b: map<ReqId, Phase>) {
    forall r :: r in b && HasLease(b[r]) ==> r in a && HasLease(a[r]) && a[r].lease == b[r].lease
  }

  ghost predicate IdleShrinks(a: map<PoolId, seq<LeaseId>>, b: map<PoolId, seq<LeaseId>>) {
    forall p, id :: p in b && id in b[p] ==> p in a && id in a[p]
  }

  /** The idle lists gain at most `id`, and that only if `allowed`. */
  ghost predicate IdleGains(a: map<PoolId, seq<LeaseId>>, b: map<PoolId, seq<LeaseId>>, id: LeaseId, allowed: bool) {
    forall p, x :: p in b && x in b[p] && !(allowed && x == id) ==> p in a && x in a[p]
  }

  ghost predicate NotFreed(a: map<LeaseId, Lease>, b: map<LeaseId, Lease>) {
    a.Keys <= b.Keys && forall id :: id in a && b[id].available ==> a[id].available
  }

  /** Exclusive survives whatever frees no lease, fills no idle list and claims nothing. */
  lemma ExclusiveShrinks(store: map<LeaseId, Lease>, idle: map<PoolId, seq<LeaseId>>, reqs: map<ReqId, Phase>,
                         watch: map<LeaseId, Watch>, store': map<LeaseId, Lease>,
                         idle': map<PoolId, seq<LeaseId>>, reqs': map<ReqId, Phase>, watch': map<LeaseId, Watch>)
    requires Exclusive(store, idle, reqs, watch)
    requires NotFreed(store, store') && IdleShrinks(idle, idle') && FewerLeases(reqs, reqs')
    requires forall id :: id in watch' && watch'[id] == Condemned(true) ==> id in watch && watch[id] == watch'[id]
    ensures Exclusive(store', idle', reqs', watch')
  {
    forall r, p | r in reqs' && HasLease(reqs'[r]) && p in idle' ensures reqs'[r].lease !in idle'[p] {
      assert r in reqs && HasLease(reqs[r]) && reqs[r].lease == reqs'[r].lease;
    }
  }

  /** A request claims a lease that nobody has. */
  lemma ExclusiveClaim(store: map<LeaseId, Lease>, idle: map<PoolId, seq<LeaseId>>, reqs: map<ReqId, Phase>,
                       watch: map<LeaseId, Watch>, r: ReqId, ph: Phase)
    requires Exclusive(store, idle, reqs, watch)
    requires HasLease(ph) && ph.lease in store && !store[ph.lease].available
    requires forall q :: q in reqs && HasLease(reqs[q]) ==> reqs[q].lease != ph.lease
    requires forall p :: p in idle ==> ph.lease !in idle[p]
    requires ph.lease in watch ==> watch[ph.lease] != Condemned(true)
    ensures Exclusive(store, idle, reqs[r := ph], watch)
  {
  }

  /** An available lease belongs to no request. */
  lemma AvailableIsUnowned(store: map<LeaseId, Lease>, idle: map<PoolId, seq<LeaseId>>, reqs: map<ReqId, Phase>,
                           watch: map<LeaseId, Watch>, id: LeaseId)
    requires Exclusive(store, idle, reqs, watch) && id in store && store[id].available
    ensures forall q :: q in reqs && HasLease(reqs[q]) ==> reqs[q].lease != id
    ensures id in watch ==> watch[id] != Condemned(true)
  {
  }

  /** The expiry loop claims a lease that nobody has. */
  lemma ExclusiveCondemn(store: map<LeaseId, Lease>, idle: map<PoolId, seq<LeaseId>>, reqs: map<ReqId, Phase>,
                         watch: map<LeaseId, Watch>, id: LeaseId)
    requires Exclusive(store, idle, reqs, watch)
    requires id in store && !store[id].available
    requires forall q :: q in reqs && HasLease(reqs[q]) ==> reqs[q].lease != id
    ensures Exclusive(store, idle, reqs, watch[id := Condemned(true)])
  {
  }

  /** The holder of a lease frees it and leaves, and the lease may join an idle list. */
  lemma ExclusiveRelease(store: map<LeaseId, Lease>, idle: map<PoolId, seq<LeaseId>>, reqs: map<ReqId, Phase>,
                         watch: map<LeaseId, Watch>, store': map<LeaseId, Lease>,
                         idle': map<PoolId, seq<LeaseId>>, r: ReqId)
    requires Exclusive(store, idle, reqs, watch)
    requires r in reqs && HasLease(reqs[r])
    requires store'.Keys == store.Keys
    requires forall x :: x in store && x != reqs[r].lease ==> store'[x] == store[x]
    requires IdleGains(idle, idle', reqs[r].lease, true)
    ensures Exclusive(store', idle', reqs - {r}, watch)
  {
    var id := reqs[r].lease;
    var left := reqs - {r};
    forall q, p | q in left && HasLease(left[q]) && p in idle' ensures left[q].lease !in idle'[p] {
      assert q in reqs && reqs[q].lease != id;
    }
  }

  // ---------------------------------------------------------------------------------------
  // Tracked and Guarded
  // ---------------------------------------------------------------------------------------

  lemma TrackedKeeps(mapped: set<LeaseId>, global: set<LeaseId>, reqs: map<ReqId, Phase>,
                     mapped': set<LeaseId>, global': set<LeaseId>, reqs': map<ReqId, Phase>)
    requires Tracked(mapped, global, reqs)
    requires mapped' <= mapped
    requires forall id :: id in mapped' && id in global ==> id in global'
    requires forall r :: r in reqs && reqs[r].Claimed? && reqs[r].lease in mapped' && reqs[r].lease !in global' ==>
               r in reqs' && reqs'[r].Claimed? && reqs'[r].lease == reqs[r].lease
    ensures Tracked(mapped', global', reqs')
  {
    forall id | id in mapped' && id !in global' ensures BeingPublished(reqs', id) {
      assert id in mapped && id !in global;
      assert BeingPublished(reqs, id);
      var r :| r in reqs && reqs[r].Claimed? && reqs[r].lease == id;
      assert r in reqs' && reqs'[r].Claimed? && reqs'[r].lease == id;
    }
  }

  lemma TrackedIssue(mapped: set<LeaseId>, global: set<LeaseId>, reqs: map<ReqId, Phase>, r: ReqId, ph: Phase)
    requires Tracked(mapped, global, reqs)
    requires r in reqs && !HasLease(reqs[r]) && ph.Claimed?
    ensures Tracked(mapped + {ph.lease}, global, reqs[r := ph])
  {
    var after := reqs[r := ph];
    forall id | id in mapped + {ph.lease} && id !in global ensures BeingPublished(after, id) {
      if id == ph.lease {
        assert r in after && after[r].Claimed? && after[r].lease == id;
      } else {
        assert BeingPublished(reqs, id);
        var q :| q in reqs && reqs[q].Claimed? && reqs[q].lease == id;
        assert q in after && after[q].Claimed? && after[q].lease == id;
      }
    }
  }

  /** Requests that keep their leases keep them owned. */
  lemma OwnersStay(a: map<ReqId, Phase>, b: map<ReqId, Phase>)
    requires FewerLeases(b, a)
    ensures forall r :: r in a && HasLease(a[r]) ==> Owned(b, a[r].lease)
  {
    forall r | r in a && HasLease(a[r]) ensures Owned(b, a[r].lease) {
      assert r in b && HasLease(b[r]) && b[r].lease == a[r].lease;
    }
  }

  /** The same requests have the same leases. */
  ghost predicate SameLeases(a: map<ReqId, Phase>, b: map<ReqId, Phase>) {
    && (forall r :: r in a && HasLease(a[r]) ==> r in b && b[r] == a[r])
    && (forall r :: r in b && HasLease(b[r]) ==> r in a && b[r] == a[r])
  }

  lemma SameLeasesKeep(s: State, b: map<ReqId, Phase>)
    requires SameLeases(s.reqs, b)
    requires Exclusive(s.store, s.idle, s.reqs, s.watch) && Tracked(s.mapped, s.global, s.reqs)
    requires Guarded(s.store, s.mapped, s.idle, s.reqs, s.watch, s.detached)
    ensures Exclusive(s.store, s.idle, b, s.watch) && Tracked(s.mapped, s.global, b)
    ensures Guarded(s.store, s.mapped, s.idle, b, s.watch, s.detached)
  {
    assert FewerLeases(s.reqs, b);
    ExclusiveShrinks(s.store, s.idle, s.reqs, s.watch, s.store, s.idle, b, s.watch);
    TrackedKeeps(s.mapped, s.global, s.reqs, s.mapped, s.global, b);
    OwnersStay(s.reqs, b);
    GuardedOwners(s.store, s.mapped, s.idle, s.reqs, b, s.watch, s.detached);
  }

  lemma GuardedOwners(store: map<LeaseId, Lease>, mapped: set<LeaseId>, idle: map<PoolId, seq<LeaseId>>,
                      a: map<ReqId, Phase>, b: map<ReqId, Phase>, watch: map<LeaseId, Watch>, detached: bool)
    requires Guarded(store, mapped, idle, a, watch, detached)
    requires forall r :: r in a && HasLease(a[r]) ==> Owned(b, a[r].lease)
    ensures Guarded(store, mapped, idle, b, watch, detached)
  {
  }

  lemma GuardedNewPool(store: map<LeaseId, Lease>, mapped: set<LeaseId>, idle: map<PoolId, seq<LeaseId>>,
                       reqs: map<ReqId, Phase>, watch: map<LeaseId, Watch>, detached: bool, p: PoolId)
    requires Guarded(store, mapped, idle, reqs, watch, detached)
    ensures Guarded(store, mapped, idle[p := []], reqs, watch, detached)
  {
  }

  /** A request claims an idle lease. */
  lemma GuardedClaim(store: map<LeaseId, Lease>, mapped: set<LeaseId>, idle: map<PoolId, seq<LeaseId>>,
                     reqs: map<ReqId, Phase>, watch: map<LeaseId, Watch>, detached: bool,
                     lease: Lease, idle': map<PoolId, seq<LeaseId>>, r: ReqId, ph: Phase)
    requires Guarded(store, mapped, idle, reqs, watch, detached)
    requires r in reqs && !HasLease(reqs[r]) && HasLease(ph) && ph.lease in store
    requires lease.reusable == store[ph.lease].reusable
    requires IdleShrinks(idle, idle') && forall p :: p in idle' ==> ph.lease !in idle'[p]
    ensures Guarded(store[ph.lease := lease], mapped, idle', reqs[r := ph], watch, detached)
  {
    var after := reqs[r := ph];
    assert r in after && after[r].lease == ph.lease;
    OwnersStay(reqs, after);
  }

  /** The scheduler's fresh lease enters leaseMap with its owner and, if reusable, its expiry loop. */
  lemma GuardedIssue(store: map<LeaseId, Lease>, mapped: set<LeaseId>, idle: map<PoolId, seq<LeaseId>>,
                     reqs: map<ReqId, Phase>, watch: map<LeaseId, Watch>, detached: bool,
                     lease: Lease, watch': map<LeaseId, Watch>, r: ReqId, ph: Phase)
    requires Guarded(store, mapped, idle, reqs, watch, detached)
    requires r in reqs && !HasLease(reqs[r]) && HasLease(ph) && ph.lease !in store
    requires forall p :: p in idle ==> ph.lease !in idle[p]
    requires watch' == if lease.reusable then watch[ph.lease := Watching] else watch
    ensures Guarded(store[ph.lease := lease], mapped + {ph.lease}, idle, reqs[r := ph], watch', detached)
  {
    var after := reqs[r := ph];
    assert r in after && after[r].lease == ph.lease;
    OwnersStay(reqs, after);
  }

  /** The owner `r` leaves; its lease is free again or gone from leaseMap. */
  lemma GuardedRelease(store: map<LeaseId, Lease>, mapped: set<LeaseId>, idle: map<PoolId, seq<LeaseId>>,
                       reqs: map<ReqId, Phase>, watch: map<LeaseId, Watch>, detached: bool,
                       store': map<LeaseId, Lease>, mapped': set<LeaseId>, idle': map<PoolId, seq<LeaseId>>, r: ReqId)
    requires Guarded(store, mapped, idle, reqs, watch, detached)
    requires r in reqs && HasLease(reqs[r])
    requires store'.Keys == store.Keys && mapped' <= mapped
    requires forall x :: x in store && x != reqs[r].lease ==> store'[x] == store[x]
    requires reqs[r].lease in mapped' ==>
               store'[reqs[r].lease].available && store'[reqs[r].lease].reusable == store[reqs[r].lease].reusable
    requires IdleGains(idle, idle', reqs[r].lease, reqs[r].lease in mapped')
    requires forall p :: p in idle ==> reqs[r].lease !in idle[p]
    ensures Guarded(store', mapped', idle', reqs - {r}, watch, detached)
  {
    var left := reqs - {r};
    forall id | !detached && id in mapped' && Unattended(store'[id], watch, id) ensures Owned(left, id) {
      assert id != reqs[r].lease && Owned(reqs, id);
      var q :| q in reqs && HasLease(reqs[q]) && reqs[q].lease == id;
      assert q in left && HasLease(left[q]) && left[q].lease == id;
    }
  }

  /** An owner of a lease that already left leaseMap leaves. */
  lemma GuardedDrop(store: map<LeaseId, Lease>, mapped: set<LeaseId>, idle: map<PoolId, seq<LeaseId>>,
                    reqs: map<ReqId, Phase>, watch: map<LeaseId, Watch>, detached: bool, r: ReqId)
    requires Guarded(store, mapped, idle, reqs, watch, detached)
    requires r in reqs && HasLease(reqs[r]) && (detached || reqs[r].lease !in mapped)
    ensures Guarded(store, mapped, idle, reqs - {r}, watch, detached)
  {
    var left := reqs - {r};
    forall id | !detached && id in mapped && Unattended(store[id], watch, id) ensures Owned(left, id) {
      assert Owned(reqs, id);
      var q :| q in reqs && HasLease(reqs[q]) && reqs[q].lease == id;
      assert q in left && HasLease(left[q]) && left[q].lease == id;
    }
  }

  /** The expiry loop claims, or notices that it must stop. */
  lemma GuardedCondemn(store: map<LeaseId, Lease>, mapped: set<LeaseId>, idle: map<PoolId, seq<LeaseId>>,
                       reqs: map<ReqId, Phase>, watch: map<LeaseId, Watch>, detached: bool,
                       id: LeaseId, lease: Lease, claimed: bool)
    requires Guarded(store, mapped, idle, reqs, watch, detached)
    requires id in store && id in watch && lease.reusable == store[id].reusable
    requires claimed || (watch[id].Watching? && lease == store[id])
    ensures Guarded(store[id := lease], mapped, idle, reqs, watch[id := Condemned(claimed)], detached)
  {
  }

  lemma GuardedSetLease(store: map<LeaseId, Lease>, mapped: set<LeaseId>, idle: map<PoolId, seq<LeaseId>>,
                        reqs: map<ReqId, Phase>, watch: map<LeaseId, Watch>, detached: bool,
                        id: LeaseId, lease: Lease)
    requires Guarded(store, mapped, idle, reqs, watch, detached) && id in store
    requires lease.reusable == store[id].reusable && lease.available == store[id].available
    ensures Guarded(store[id := lease], mapped, idle, reqs, watch, detached)
  {
  }

  /** Leases leave leaseMap, and only such leases lose their expiry loop. */
  lemma GuardedShrinks(store: map<LeaseId, Lease>, mapped: set<LeaseId>, idle: map<PoolId, seq<LeaseId>>,
                       reqs: map<ReqId, Phase>, watch: map<LeaseId, Watch>, detached: bool,
                       store': map<LeaseId, Lease>, mapped': set<LeaseId>, idle': map<PoolId, seq<LeaseId>>,
                       watch': map<LeaseId, Watch>)
    requires Guarded(store, mapped, idle, reqs, watch, detached)
    requires store'.Keys == store.Keys && mapped' <= mapped && IdleShrinks(idle, idle')
    requires forall p, id :: p in idle' && id in idle'[p] ==> id in mapped'
    requires forall id :: id in mapped' ==> store'[id] == store[id]
    requires forall id :: id in mapped' && id in watch ==> id in watch' && watch'[id] == watch[id]
    ensures Guarded(store', mapped', idle', reqs, watch', detached)
  {
    forall id | id in mapped' && store'[id].reusable ensures id in watch' && watch'[id] == watch[id] {
      assert id in watch;
    }
  }

  // ---------------------------------------------------------------------------------------
  // The steps
  // ---------------------------------------------------------------------------------------

  /** The parts of `Structure` that the steps below use with its definition hidden. */
  lemma Basics(s: State)
    requires Structure(s)
    ensures s.mapped <= s.store.Keys && s.store.Keys == s.home.Keys && s.global <= s.store.Keys
    ensures forall p, id :: p in s.idle && id in s.idle[p] ==> id in s.mapped && s.home[id] == p
    ensures forall k :: k in s.registry ==> s.registry[k] in s.idle
    ensures forall id :: id in s.home ==> s.home[id] in s.idle
    ensures s.global <= s.index.Keys <= s.home.Keys && forall id :: id in s.index ==> s.index[id] == s.home[id]
  {
  }

  lemma InvStructure(s: State)
    requires Inv(s)
    ensures Structure(s)
  {
  }

  lemma RequestBasics(s: State, r: ReqId)
    requires Structure(s) && r in s.reqs
    ensures HasPool(s.reqs[r]) ==> s.reqs[r].pool in s.idle
    ensures HasLease(s.reqs[r]) ==> s.reqs[r].lease in s.home
    ensures HasLease(s.reqs[r]) && HasPool(s.reqs[r]) ==> s.reqs[r].pool == s.home[s.reqs[r].lease]
  {
  }

  lemma UnissuedIsUnowned(s: State, id: LeaseId)
    requires Requests(s.home, s.idle.Keys, s.reqs) && id !in s.home
    ensures forall q :: q in s.reqs && HasLease(s.reqs[q]) ==> s.reqs[q].lease != id
  {
  }

  lemma OwnedIsNotIdle(s: State, r: ReqId)
    requires Exclusive(s.store, s.idle, s.reqs, s.watch) && r in s.reqs && HasLease(s.reqs[r])
    ensures forall p :: p in s.idle ==> s.reqs[r].lease !in s.idle[p]
  {
  }

  lemma DistinctView(v: Pool)
    requires WellFormed(v)
    ensures Distinct(v.idle)
  {
  }

  /** A request that has no lease before and after: nothing else of the invariant is touched. */
  lemma SetReqKeeps(s: State, r: ReqId, ph: Phase)
    requires Inv(s) && (r in s.reqs ==> !HasLease(s.reqs[r]))
    requires !HasLease(ph) && ph.pool in s.idle
    ensures Inv(s.(reqs := s.reqs[r := ph])) && Inv(s.(reqs := s.reqs - {r}))
  {
    hide Heap, Directory, Requests, Exclusive, Tracked, Guarded;
    var a, b := s.reqs[r := ph], s.reqs - {r};
    RequestsKeep(s.home, s.idle.Keys, s.reqs, r, ph, "", 0);
    SameLeasesKeep(s, a);
    SameLeasesKeep(s, b);
  }

  lemma NewPoolKeeps(s: State, key: PoolKey, p: PoolId)
    requires Inv(s) && p !in s.idle
    ensures Inv(s.(idle := s.idle[p := []], registry := s.registry[key := p],
                   pending := s.pending[p := 0], inFlight := s.inFlight[p := 0]))
  {
    hide Heap, Directory, Requests, Exclusive, Tracked, Guarded;
    var idle := s.idle[p := []];
    assert idle.Keys == s.idle.Keys + {p};
    DirectoryKeeps(s.home, s.idle.Keys, s.registry, s.global, s.index, key, p, "", {});
    RequestsKeep(s.home, s.idle.Keys, s.reqs, 0, Holding(""), "", p);
    HeapNewPool(s.store, s.home, s.mapped, s.idle, p);
    ExclusiveShrinks(s.store, s.idle, s.reqs, s.watch, s.store, idle, s.reqs, s.watch);
    GuardedNewPool(s.store, s.mapped, s.idle, s.reqs, s.watch, s.detached, p);
  }

  lemma LookupKeeps(s: State, r: ReqId, key: PoolKey, newPool: PoolId)
    requires Inv(s) && r !in s.reqs && newPool !in s.idle
    ensures Inv(DoLookup(s, r, key, newPool))
  {
    hide Heap, Directory, Requests, Exclusive, Tracked, Guarded;
    Basics(s);
    if key in s.registry {
      SetReqKeeps(s, r, Looked(s.registry[key]));
    } else {
      NewPoolKeeps(s, key, newPool);
      var m := s.(idle := s.idle[newPool := []], registry := s.registry[key := newPool],
                  pending := s.pending[newPool := 0], inFlight := s.inFlight[newPool := 0]);
      SetReqKeeps(m, r, Looked(newPool));
      assert DoLookup(s, r, key, newPool) == m.(reqs := m.reqs[r := Looked(newPool)]);
    }
  }

  lemma CountKeeps(s: State, r: ReqId)
    requires Inv(s) && r in s.reqs && s.reqs[r].Looked? && s.reqs[r].pool in s.idle
    ensures Inv(DoCount(s, r))
  {
    hide Heap, Directory, Requests, Exclusive, Tracked, Guarded;
    SetReqKeeps(s, r, Counted(s.reqs[r].pool));
  }

  lemma FetchFailKeeps(s: State, r: ReqId)
    requires Inv(s) && r in s.reqs && s.reqs[r].Fetching? && s.reqs[r].pool in s.idle
    ensures Inv(DoFetchFail(s, r))
  {
    hide Heap, Directory, Requests, Exclusive, Tracked, Guarded;
    SetReqKeeps(s, r, s.reqs[r]);
  }

  lemma TraverseFacts(s: State, r: ReqId, sig: string)
    requires Inv(s) && r in s.reqs && s.reqs[r].Counted? && s.reqs[r].pool in s.idle
    requires forall id :: id in s.idle[s.reqs[r].pool] ==> id in s.store
    ensures var (v, got) := Traverse(View(s, s.reqs[r].pool), sig);
            && WellFormed(v) && (got.None? ==> v.store == s.store && v.mapped == s.mapped)
            && (forall id :: id in v.idle ==> id in s.idle[s.reqs[r].pool])
            && (got.Some? ==> ClaimedFrom(s, r, v, got.value) && got.value in s.home
                              && s.home[got.value] == s.reqs[r].pool)
  {
    hide Heap, Directory, Requests, Exclusive, Tracked, Guarded, Traverse, WellFormed;
    Basics(s);
    HeapView(s.store, s.home, s.mapped, s.idle, s.reqs[r].pool);
    TraverseKeeps(View(s, s.reqs[r].pool), sig);
  }

  lemma TryIdleKeeps(s: State, r: ReqId, sig: string)
    requires Inv(s) && r in s.reqs && s.reqs[r].Counted? && s.reqs[r].pool in s.idle
    ensures Inv(DoTryIdle(s, r, sig))
  {
    hide Heap, Directory, Requests, Exclusive, Tracked, Guarded, Traverse, WellFormed, ClaimedFrom;
    Basics(s);
    var p := s.reqs[r].pool;
    var (v, got) := Traverse(View(s, p), sig);
    TraverseFacts(s, r, sig);
    if got.Some? {
      ClaimIdleKeeps(s, r, v, got.value);
    } else {
      DistinctView(v);
      ShrinkIdleKeeps(s, p, v.idle);
      SetReqKeeps(s.(idle := s.idle[p := v.idle]), r, Fetching(p));
    }
  }

  lemma ShrinkIdleKeeps(s: State, p: PoolId, rest: seq<LeaseId>)
    requires Inv(s) && p in s.idle && Distinct(rest)
    requires forall id :: id in rest ==> id in s.idle[p]
    ensures Inv(s.(idle := s.idle[p := rest]))
  {
    hide Heap, Directory, Requests, Exclusive, Tracked, Guarded, Distinct;
    var idle := s.idle[p := rest];
    assert idle.Keys == s.idle.Keys;
    assert IdleShrinks(s.idle, idle);
    Basics(s);
    HeapShrinkIdle(s.store, s.home, s.mapped, s.idle, p, rest);
    ExclusiveShrinks(s.store, s.idle, s.reqs, s.watch, s.store, idle, s.reqs, s.watch);
    GuardedShrinks(s.store, s.mapped, s.idle, s.reqs, s.watch, s.detached, s.store, s.mapped, idle, s.watch);
  }

  /** `v` is what a traversal of `s.reqs[r]`'s pool leaves after claiming `id`. */
  ghost predicate ClaimedFrom(s: State, r: ReqId, v: Pool, id: LeaseId) {
    && r in s.reqs && s.reqs[r].Counted? && s.reqs[r].pool in s.idle
    && id in s.store && s.store[id].available
    && v.mapped == s.mapped && v.store == s.store[id := s.store[id].Claim()]
    && (forall x :: x in v.idle ==> x in s.idle[s.reqs[r].pool]) && id !in v.idle
    && (forall q :: q in s.idle && q != s.reqs[r].pool ==> id !in s.idle[q])
  }

  lemma ClaimIdleExclusive(s: State, r: ReqId, v: Pool, id: LeaseId, idle: map<PoolId, seq<LeaseId>>, ph: Phase)
    requires ClaimedFrom(s, r, v, id)
    requires idle == s.idle[s.reqs[r].pool := v.idle] && ph == Claimed(s.reqs[r].pool, id)
    requires Exclusive(s.store, s.idle, s.reqs, s.watch) && Tracked(s.mapped, s.global, s.reqs)
    ensures Exclusive(v.store, idle, s.reqs[r := ph], s.watch) && Tracked(s.mapped, s.global, s.reqs[r := ph])
  {
    hide Exclusive, Tracked;
    AvailableIsUnowned(s.store, s.idle, s.reqs, s.watch, id);
    assert IdleShrinks(s.idle, idle);
    ExclusiveShrinks(s.store, s.idle, s.reqs, s.watch, v.store, idle, s.reqs, s.watch);
    ExclusiveClaim(v.store, idle, s.reqs, s.watch, r, ph);
    TrackedKeeps(s.mapped, s.global, s.reqs, s.mapped, s.global, s.reqs[r := ph]);
  }

  lemma ClaimIdleKeeps(s: State, r: ReqId, v: Pool, id: LeaseId)
    requires Inv(s) && WellFormed(v) && ClaimedFrom(s, r, v, id) && s.home[id] == s.reqs[r].pool
    ensures Inv(WithView(s, s.reqs[r].pool, v).(reqs := s.reqs[r := Claimed(s.reqs[r].pool, id)]))
  {
    hide Heap, Directory, Requests, Exclusive, Tracked, Guarded, WellFormed;
    var p := s.reqs[r].pool;
    var ph := Claimed(p, id);
    var idle := s.idle[p := v.idle];
    assert idle.Keys == s.idle.Keys;
    assert Heap(v.store, s.home, s.mapped, idle) by {
      Basics(s);
      HeapWithView(s.store, s.home, s.mapped, s.idle, p, v);
    }
    assert Requests(s.home, s.idle.Keys, s.reqs[r := ph]) by {
      Basics(s);
      RequestsKeep(s.home, s.idle.Keys, s.reqs, r, ph, "", 0);
    }
    ClaimIdleExclusive(s, r, v, id, idle, ph);
    GuardedClaim(s.store, s.mapped, s.idle, s.reqs, s.watch, s.detached, s.store[id].Claim(), idle, r, ph);
  }

  lemma IssueOwners(s: State, r: ReqId, ph: Phase, lease: Lease, watch: map<LeaseId, Watch>)
    requires Exclusive(s.store, s.idle, s.reqs, s.watch) && Tracked(s.mapped, s.global, s.reqs)
    requires Guarded(s.store, s.mapped, s.idle, s.reqs, s.watch, s.detached)
    requires r in s.reqs && !HasLease(s.reqs[r]) && ph.Claimed? && ph.lease !in s.store && !lease.available
    requires forall q :: q in s.reqs && HasLease(s.reqs[q]) ==> s.reqs[q].lease != ph.lease
    requires forall p :: p in s.idle ==> ph.lease !in s.idle[p]
    requires watch == if lease.reusable then s.watch[ph.lease := Watching] else s.watch
    requires ph.lease !in s.watch
    ensures Exclusive(s.store[ph.lease := lease], s.idle, s.reqs[r := ph], watch)
    ensures Tracked(s.mapped + {ph.lease}, s.global, s.reqs[r := ph])
    ensures Guarded(s.store[ph.lease := lease], s.mapped + {ph.lease}, s.idle, s.reqs[r := ph], watch, s.detached)
  {
    hide Exclusive, Tracked, Guarded;
    var store := s.store[ph.lease := lease];
    ExclusiveShrinks(s.store, s.idle, s.reqs, s.watch, store, s.idle, s.reqs, watch);
    ExclusiveClaim(store, s.idle, s.reqs, watch, r, ph);
    TrackedIssue(s.mapped, s.global, s.reqs, r, ph);
    GuardedIssue(s.store, s.mapped, s.idle, s.reqs, s.watch, s.detached, lease, watch, r, ph);
  }

  lemma FetchOkKeeps(s: State, r: ReqId, id: LeaseId, reusable: bool, sig: string, scheduler: string)
    requires Inv(s) && r in s.reqs && s.reqs[r].Fetching? && s.reqs[r].pool in s.idle && id !in s.home
    ensures Inv(DoFetchOk(s, r, id, reusable, sig, scheduler))
  {
    hide Heap, Directory, Requests, Exclusive, Tracked, Guarded;
    var p := s.reqs[r].pool;
    var ph := Claimed(p, id);
    var t := DoFetchOk(s, r, id, reusable, sig, scheduler);
    var lease := NewLease(reusable, sig, scheduler);
    assert t.idle == s.idle;
    assert forall q :: q in s.idle ==> id !in s.idle[q] by {
      Basics(s);
    }
    assert id !in s.store by {
      Basics(s);
    }
    UnissuedIsUnowned(s, id);
    assert Heap(t.store, t.home, t.mapped, s.idle) by {
      HeapInsert(s.store, s.home, s.mapped, s.idle, id, p, lease);
    }
    assert Directory(t.home, s.idle.Keys, s.registry, s.global, s.index) by {
      DirectoryKeeps(s.home, s.idle.Keys, s.registry, s.global, s.index, "", p, id, {});
    }
    assert Requests(t.home, s.idle.Keys, t.reqs) by {
      RequestsKeep(s.home, s.idle.Keys, s.reqs, r, ph, id, p);
      RequestsKeep(t.home, s.idle.Keys, s.reqs, r, ph, "", 0);
    }
    IssueOwners(s, r, ph, lease, t.watch);
  }

  lemma PublishKeeps(s: State, r: ReqId)
    requires Inv(s) && r in s.reqs && s.reqs[r].Claimed? && s.reqs[r].pool in s.idle
    ensures Inv(DoPublish(s, r))
  {
    hide Heap, Directory, Requests, Exclusive, Tracked, Guarded;
    RequestBasics(s, r);
    var t := DoPublish(s, r);
    DirectoryKeeps(s.home, s.idle.Keys, s.registry, s.global, s.index, "", s.reqs[r].pool, s.reqs[r].lease, {});
    RequestsKeep(s.home, s.idle.Keys, s.reqs, r, t.reqs[r], "", 0);
    ExclusiveShrinks(s.store, s.idle, s.reqs, s.watch, t.store, t.idle, t.reqs, t.watch);
    TrackedKeeps(s.mapped, s.global, s.reqs, t.mapped, t.global, t.reqs);
    OwnersStay(s.reqs, t.reqs);
    GuardedOwners(s.store, s.mapped, s.idle, s.reqs, t.reqs, s.watch, s.detached);
  }

  /** A held lease that left globalLeaseList has left its pool. */
  lemma UnlistedIsUnmapped(s: State, r: ReqId)
    requires Inv(s) && r in s.reqs && s.reqs[r].Returning? && s.reqs[r].lease !in s.global
    ensures s.reqs[r].lease !in s.mapped
  {
    var id := s.reqs[r].lease;
    assert id in s.mapped ==> BeingPublished(s.reqs, id);
  }

  /** The lease is the caller's or on its way back. */
  predicate Settled(ph: Phase) {
    ph.Holding? || ph.Returning?
  }

  /** A request moves on with its lease, past the point where it publishes it. */
  lemma SwapPhaseKeeps(s: State, r: ReqId, ph: Phase)
    requires Inv(s) && r in s.reqs && Settled(s.reqs[r]) && HasLease(ph) && ph.lease == s.reqs[r].lease
    requires ph.lease in s.home && (HasPool(ph) ==> ph.pool in s.idle && ph.pool == s.home[ph.lease])
    ensures Inv(s.(reqs := s.reqs[r := ph]))
  {
    hide Heap, Directory, Requests, Exclusive, Tracked, Guarded;
    var reqs := s.reqs[r := ph];
    RequestsKeep(s.home, s.idle.Keys, s.reqs, r, ph, "", 0);
    ExclusiveShrinks(s.store, s.idle, s.reqs, s.watch, s.store, s.idle, reqs, s.watch);
    TrackedKeeps(s.mapped, s.global, s.reqs, s.mapped, s.global, reqs);
    OwnersStay(s.reqs, reqs);
    GuardedOwners(s.store, s.mapped, s.idle, s.reqs, reqs, s.watch, s.detached);
  }

  /** A holder whose lease is already gone leaves. */
  lemma DropHolderKeeps(s: State, r: ReqId)
    requires Inv(s) && r in s.reqs && Settled(s.reqs[r]) && (s.detached || s.reqs[r].lease !in s.mapped)
    ensures Inv(Drop(s, r))
  {
    hide Heap, Directory, Requests, Exclusive, Tracked, Guarded;
    var reqs := s.reqs - {r};
    RequestsKeep(s.home, s.idle.Keys, s.reqs, r, s.reqs[r], "", 0);
    ExclusiveShrinks(s.store, s.idle, s.reqs, s.watch, s.store, s.idle, reqs, s.watch);
    TrackedKeeps(s.mapped, s.global, s.reqs, s.mapped, s.global, reqs);
    GuardedDrop(s.store, s.mapped, s.idle, s.reqs, s.watch, s.detached, r);
  }

  lemma ReleaseBeginKeeps(s: State, r: ReqId, abnormal: bool)
    requires Inv(s) && r in s.reqs && s.reqs[r].Holding?
    ensures Inv(DoReleaseBegin(s, r, abnormal))
  {
    hide Heap, Directory, Requests, Exclusive, Tracked, Guarded;
    RequestBasics(s, r);
    Basics(s);
    if s.detached {
      DropHolderKeeps(s, r);
    } else {
      SwapPhaseKeeps(s, r, Returning(s.reqs[r].lease, abnormal));
    }
  }

  lemma ReleaseLookupKeeps(s: State, r: ReqId)
    requires Inv(s) && r in s.reqs && s.reqs[r].Returning?
    ensures Inv(DoReleaseLookup(s, r))
  {
    hide Heap, Directory, Requests, Exclusive, Tracked, Guarded;
    var id := s.reqs[r].lease;
    RequestBasics(s, r);
    Basics(s);
    if id !in s.global {
      UnlistedIsUnmapped(s, r);
      DropHolderKeeps(s, r);
    } else {
      SwapPhaseKeeps(s, r, Releasing(s.index[id], id, s.reqs[r].abnormal));
    }
  }

  /** What releaseInstanceLease by `r` may leave behind: only its own lease changed. */
  ghost predicate Released(s: State, r: ReqId, v: Pool, idle: map<PoolId, seq<LeaseId>>) {
    && r in s.reqs && s.reqs[r].Releasing? && s.reqs[r].lease in s.store
    && (forall p :: p in s.idle ==> s.reqs[r].lease !in s.idle[p])
    && v.store.Keys == s.store.Keys && v.mapped <= s.mapped
    && (forall x :: x in s.store && x != s.reqs[r].lease ==> v.store[x] == s.store[x])
    && (s.reqs[r].lease in v.mapped ==> v.store[s.reqs[r].lease].available)
    && v.store[s.reqs[r].lease].reusable == s.store[s.reqs[r].lease].reusable
    && IdleGains(s.idle, idle, s.reqs[r].lease, s.reqs[r].lease in v.mapped)
  }

  lemma ReleaseFacts(s: State, r: ReqId)
    requires Inv(s) && r in s.reqs && s.reqs[r].Releasing? && s.reqs[r].pool in s.idle && s.mapped <= s.store.Keys
    ensures var v := Release(View(s, s.reqs[r].pool), s.reqs[r].lease, s.reqs[r].abnormal);
            && Released(s, r, v, s.idle[s.reqs[r].pool := v.idle]) && WellFormed(v)
            && (forall id :: id in v.idle ==> id == s.reqs[r].lease || id in s.idle[s.reqs[r].pool])
            && (forall id :: id in s.mapped && id !in v.mapped ==> id == s.reqs[r].lease)
  {
    hide Heap, Directory, Requests, Exclusive, Tracked, Guarded, Release, WellFormed;
    var p := s.reqs[r].pool;
    RequestBasics(s, r);
    OwnedIsNotIdle(s, r);
    HeapView(s.store, s.home, s.mapped, s.idle, p);
    ReleaseKeeps(View(s, p), s.reqs[r].lease, s.reqs[r].abnormal);
    assert s.reqs[r].lease in s.store by {
      Basics(s);
    }
  }

  lemma ReleaseOwners(s: State, r: ReqId, v: Pool, idle: map<PoolId, seq<LeaseId>>)
    requires Exclusive(s.store, s.idle, s.reqs, s.watch) && Tracked(s.mapped, s.global, s.reqs)
    requires Guarded(s.store, s.mapped, s.idle, s.reqs, s.watch, s.detached)
    requires Released(s, r, v, idle)
    ensures Exclusive(v.store, idle, s.reqs - {r}, s.watch) && Tracked(v.mapped, s.global, s.reqs - {r})
    ensures Guarded(v.store, v.mapped, idle, s.reqs - {r}, s.watch, s.detached)
  {
    hide Exclusive, Tracked, Guarded;
    ExclusiveRelease(s.store, s.idle, s.reqs, s.watch, v.store, idle, r);
    TrackedKeeps(s.mapped, s.global, s.reqs, v.mapped, s.global, s.reqs - {r});
    GuardedRelease(s.store, s.mapped, s.idle, s.reqs, s.watch, s.detached, v.store, v.mapped, idle, r);
  }

  lemma ReleaseHeap(s: State, r: ReqId, v: Pool)
    requires Inv(s) && r in s.reqs && s.reqs[r].Releasing? && s.reqs[r].pool in s.idle
    requires WellFormed(v) && Released(s, r, v, s.idle[s.reqs[r].pool := v.idle])
    requires forall id :: id in v.idle ==> id == s.reqs[r].lease || id in s.idle[s.reqs[r].pool]
    requires forall id :: id in s.mapped && id !in v.mapped ==> id == s.reqs[r].lease
    ensures Heap(v.store, s.home, v.mapped, s.idle[s.reqs[r].pool := v.idle])
  {
    hide Heap, Directory, Requests, Exclusive, Tracked, Guarded, WellFormed, IdleGains;
    Basics(s);
    RequestBasics(s, r);
    HeapWithView(s.store, s.home, s.mapped, s.idle, s.reqs[r].pool, v);
  }

  /** The parts of the invariant that a release touches make it whole. */
  lemma AssembleRelease(s: State, r: ReqId, v: Pool, idle: map<PoolId, seq<LeaseId>>)
    requires Inv(s) && idle.Keys == s.idle.Keys && Heap(v.store, s.home, v.mapped, idle)
    requires Requests(s.home, s.idle.Keys, s.reqs - {r})
    requires Exclusive(v.store, idle, s.reqs - {r}, s.watch) && Tracked(v.mapped, s.global, s.reqs - {r})
    requires Guarded(v.store, v.mapped, idle, s.reqs - {r}, s.watch, s.detached)
    ensures Inv(s.(store := v.store, mapped := v.mapped, idle := idle, reqs := s.reqs - {r}))
  {
    hide Heap, Directory, Requests, Exclusive, Tracked, Guarded;
  }

  lemma ReleaseApplyKeeps(s: State, r: ReqId)
    requires Inv(s) && r in s.reqs && s.reqs[r].Releasing? && s.reqs[r].pool in s.idle && s.mapped <= s.store.Keys
    ensures Inv(DoReleaseApply(s, r))
  {
    hide Heap, Directory, Requests, Exclusive, Tracked, Guarded, Release, WellFormed, Released;
    var Releasing(p, id, abnormal) := s.reqs[r];
    var v := Release(View(s, p), id, abnormal);
    var idle := s.idle[p := v.idle];
    assert idle.Keys == s.idle.Keys;
    ReleaseFacts(s, r);
    ReleaseHeap(s, r, v);
    ReleaseOwners(s, r, v, idle);
    RequestsKeep(s.home, s.idle.Keys, s.reqs, r, s.reqs[r], "", 0);
    AssembleRelease(s, r, v, idle);
  }

  lemma SetLeaseKeeps(s: State, id: LeaseId, lease: Lease)
    requires Inv(s) && id in s.store
    requires lease.reusable == s.store[id].reusable && lease.available == s.store[id].available
    requires lease.exited == s.store[id].exited
    ensures Inv(SetLease(s, id, lease))
  {
    hide Heap, Directory, Requests, Exclusive, Tracked, Guarded;
    HeapSetLease(s.store, s.home, s.mapped, s.idle, id, lease);
    ExclusiveShrinks(s.store, s.idle, s.reqs, s.watch, s.store[id := lease], s.idle, s.reqs, s.watch);
    GuardedSetLease(s.store, s.mapped, s.idle, s.reqs, s.watch, s.detached, id, lease);
  }

  lemma IdleTimerKeeps(s: State, id: LeaseId)
    requires Inv(s) && id in s.store && id in s.watch
    ensures Inv(DoIdleTimer(s, id))
  {
    hide Heap, Directory, Requests, Exclusive, Tracked, Guarded;
    if s.store[id].available {
      var t := DoIdleTimer(s, id);
      HeapSetLease(s.store, s.home, s.mapped, s.idle, id, t.store[id]);
      AvailableIsUnowned(s.store, s.idle, s.reqs, s.watch, id);
      ExclusiveShrinks(s.store, s.idle, s.reqs, s.watch, t.store, s.idle, s.reqs, s.watch);
      ExclusiveCondemn(t.store, s.idle, s.reqs, s.watch, id);
      GuardedCondemn(s.store, s.mapped, s.idle, s.reqs, s.watch, s.detached, id, t.store[id], true);
    }
  }

  lemma WatchStopKeeps(s: State, id: LeaseId)
    requires Inv(s) && id in s.store && id in s.watch && s.watch[id].Watching?
    ensures Inv(s.(watch := s.watch[id := Condemned(false)]))
  {
    hide Heap, Directory, Requests, Exclusive, Tracked, Guarded;
    var t := s.(watch := s.watch[id := Condemned(false)]);
    assert s.store[id := s.store[id]] == s.store;
    ExclusiveShrinks(s.store, s.idle, s.reqs, s.watch, t.store, t.idle, t.reqs, t.watch);
    GuardedCondemn(s.store, s.mapped, s.idle, s.reqs, s.watch, s.detached, id, s.store[id], false);
  }

  /** What removeLease may leave behind: fewer leases, the remaining ones as they were. */
  ghost predicate Purged(s: State, v: Pool, idle: map<PoolId, seq<LeaseId>>) {
    && v.store.Keys == s.store.Keys && v.mapped <= s.mapped && v.mapped <= s.store.Keys
    && NotFreed(s.store, v.store) && IdleShrinks(s.idle, idle)
    && (forall id :: id in v.mapped ==> v.store[id] == s.store[id])
    && (forall p, id :: p in idle && id in idle[p] ==> id in v.mapped)
    && (forall id :: id in s.store ==> v.store[id].reusable == s.store[id].reusable)
  }

  lemma PurgeOwners(s: State, v: Pool, idle: map<PoolId, seq<LeaseId>>, global: set<LeaseId>,
                    watch: map<LeaseId, Watch>)
    requires Exclusive(s.store, s.idle, s.reqs, s.watch) && Tracked(s.mapped, s.global, s.reqs)
    requires Guarded(s.store, s.mapped, s.idle, s.reqs, s.watch, s.detached)
    requires Purged(s, v, idle)
    requires forall id :: id in watch ==> id in s.watch && watch[id] == s.watch[id]
    requires forall id :: id in v.mapped && id in s.watch ==> id in watch
    requires forall id :: id in v.mapped && id in s.global ==> id in global
    ensures Exclusive(v.store, idle, s.reqs, watch) && Tracked(v.mapped, global, s.reqs)
    ensures Guarded(v.store, v.mapped, idle, s.reqs, watch, s.detached)
  {
    hide Exclusive, Tracked, Guarded, NotFreed, IdleShrinks;
    ExclusiveShrinks(s.store, s.idle, s.reqs, s.watch, v.store, idle, s.reqs, watch);
    TrackedKeeps(s.mapped, s.global, s.reqs, v.mapped, global, s.reqs);
    GuardedShrinks(s.store, s.mapped, s.idle, s.reqs, s.watch, s.detached, v.store, v.mapped, idle, watch);
  }

  /** One idle list shrinks, and the lists hold only what is left. */
  lemma ShrunkLists(home: map<LeaseId, PoolId>, mapped: set<LeaseId>, idle: map<PoolId, seq<LeaseId>>, p: PoolId,
                    list: seq<LeaseId>, idle': map<PoolId, seq<LeaseId>>, dead: LeaseId)
    requires forall q, id :: q in idle && id in idle[q] ==> id in mapped && id in home && home[id] == q
    requires p in idle && dead in home && home[dead] == p && idle' == idle[p := list]
    requires forall id :: id in list ==> id in idle[p] && id != dead
    ensures IdleShrinks(idle, idle')
    ensures forall q, id :: q in idle' && id in idle'[q] ==> id in mapped - {dead}
  {
  }

  /** Destroying one lease frees none and changes no other. */
  lemma ShrunkStore(store: map<LeaseId, Lease>, mapped: set<LeaseId>, dead: LeaseId, after: map<LeaseId, Lease>)
    requires mapped <= store.Keys && after.Keys == store.Keys
    requires forall id :: id in store && !(id == dead && id in mapped) ==> after[id] == store[id]
    requires dead in mapped ==> after[dead] == store[dead].Destroy()
    ensures NotFreed(store, after)
    ensures forall id :: id in mapped - {dead} ==> after[id] == store[id]
    ensures forall id :: id in store ==> after[id].reusable == store[id].reusable
  {
  }

  lemma PurgeOneFacts(s: State, p: PoolId, dead: LeaseId)
    requires Inv(s) && p in s.idle && dead in s.home && s.home[dead] == p && s.mapped <= s.store.Keys
    ensures var v := Purge(View(s, p), {dead});
            && Purged(s, v, s.idle[p := v.idle]) && WellFormed(v) && v.mapped == s.mapped - {dead}
            && (forall id :: id in v.idle ==> id in s.idle[p])
  {
    hide Heap, Directory, Requests, Exclusive, Tracked, Guarded, Purge, WellFormed, NotFreed, IdleShrinks;
    HeapView(s.store, s.home, s.mapped, s.idle, p);
    PurgeKeeps(View(s, p), {dead});
    var v := Purge(View(s, p), {dead});
    ShrunkStore(s.store, s.mapped, dead, v.store);
    Basics(s);
    ShrunkLists(s.home, s.mapped, s.idle, p, v.idle, s.idle[p := v.idle], dead);
  }

  lemma PurgeOneHeap(s: State, p: PoolId, dead: LeaseId, v: Pool)
    requires Inv(s) && p in s.idle && dead in s.home && s.home[dead] == p
    requires WellFormed(v) && Purged(s, v, s.idle[p := v.idle]) && v.mapped == s.mapped - {dead}
    requires forall id :: id in v.idle ==> id in s.idle[p]
    ensures Heap(v.store, s.home, v.mapped, s.idle[p := v.idle])
  {
    hide Heap, Directory, Requests, Exclusive, Tracked, Guarded, WellFormed;
    Basics(s);
    HeapWithView(s.store, s.home, s.mapped, s.idle, p, v);
  }

  /** removeLease of `dead` in pool `p`; at most its expiry loop and globalLeaseList forget it too. */
  lemma PurgeOneKeeps(s: State, p: PoolId, dead: LeaseId, global: set<LeaseId>, watch: map<LeaseId, Watch>)
    requires Inv(s) && p in s.idle && dead in s.home && s.home[dead] == p && s.mapped <= s.store.Keys
    requires global == s.global || global == s.global - {dead}
    requires watch == s.watch || watch == s.watch - {dead}
    ensures Inv(WithView(s, p, Purge(View(s, p), {dead})).(global := global, watch := watch))
  {
    hide Heap, Directory, Requests, Exclusive, Tracked, Guarded, Purge, WellFormed, Purged;
    var v := Purge(View(s, p), {dead});
    var idle := s.idle[p := v.idle];
    assert idle.Keys == s.idle.Keys;
    PurgeOneFacts(s, p, dead);
    PurgeOneHeap(s, p, dead, v);
    PurgeOwners(s, v, idle, global, watch);
    DirectoryKeeps(s.home, s.idle.Keys, s.registry, s.global, s.index, "", 0, "", {dead});
  }

  lemma PurgeExitKeeps(s: State, id: LeaseId)
    requires Inv(s) && s.exits.Some? && s.mapped <= s.store.Keys && (id in s.index ==> s.index[id] in s.idle)
    ensures Inv(DoPurgeExit(s, id))
  {
    hide Heap, Requests, Exclusive, Tracked, Guarded, Purge;
    if id in s.index {
      var t := WithView(s, s.index[id], Purge(View(s, s.index[id]), {id})).(global := s.global - {id});
      assert id in s.home && s.home[id] == s.index[id];
      PurgeOneKeeps(s, s.index[id], id, s.global - {id}, s.watch);
      assert t.(watch := s.watch) == t;
      ForgetKeeps(t, s.index - {id}, Some(s.exits.value - {id}));
    } else {
      assert id !in s.global;
      ForgetKeeps(s, s.index, Some(s.exits.value - {id}));
      assert s.global - {id} == s.global;
    }
  }

  /** The index forgets a lease that is not listed. */
  lemma ForgetKeeps(s: State, index: map<LeaseId, PoolId>, exits: Option<set<LeaseId>>)
    requires Inv(s) && exits.Some? && s.exits.Some?
    requires s.global <= index.Keys && forall id :: id in index ==> id in s.index && index[id] == s.index[id]
    ensures Inv(s.(index := index, exits := exits))
  {
    hide Heap, Requests, Exclusive, Tracked, Guarded;
  }

  lemma ClearEmptyKeeps(s: State, key: PoolKey)
    requires Inv(s) && key in s.registry
    ensures Inv(s.(registry := s.registry - {key}, stopped := s.stopped + {s.registry[key]}))
  {
    hide Heap, Directory, Requests, Exclusive, Tracked, Guarded;
    DirectoryKeeps(s.home, s.idle.Keys, s.registry, s.global, s.index, key, 0, "", {});
  }

  lemma DetachKeeps(s: State)
    requires Inv(s)
    ensures Inv(s.(detached := true, stopped := s.stopped + s.registry.Values))
  {
    hide Heap, Directory, Requests, Exclusive, Tracked;
  }

  // ---------------------------------------------------------------------------------------
  // Any step, one lemma per kind
  // ---------------------------------------------------------------------------------------

  lemma LookupStep(s: State, r: ReqId, key: PoolKey, newPool: PoolId)
    requires Inv(s) && Enabled(s, Lookup(r, key, newPool))
    ensures Inv(ApplyRequest(s, Lookup(r, key, newPool)))
  {
    hide Heap, Directory, Requests, Exclusive, Tracked, Guarded, DoLookup;
    Basics(s);
    LookupKeeps(s, r, key, newPool);
  }

  lemma CountStep(s: State, r: ReqId)
    requires Inv(s) && Enabled(s, Count(r))
    ensures Inv(ApplyRequest(s, Count(r)))
  {
    hide Heap, Directory, Requests, Exclusive, Tracked, Guarded, DoCount;
    Basics(s);
    RequestBasics(s, r);
    CountKeeps(s, r);
  }

  lemma TryIdleStep(s: State, r: ReqId, sig: string)
    requires Inv(s) && Enabled(s, TryIdle(r, sig))
    ensures Inv(ApplyRequest(s, TryIdle(r, sig)))
  {
    hide Heap, Directory, Requests, Exclusive, Tracked, Guarded, DoTryIdle;
    Basics(s);
    RequestBasics(s, r);
    TryIdleKeeps(s, r, sig);
  }

  lemma FetchFailStep(s: State, r: ReqId)
    requires Inv(s) && Enabled(s, FetchFail(r))
    ensures Inv(ApplyRequest(s, FetchFail(r)))
  {
    hide Heap, Directory, Requests, Exclusive, Tracked, Guarded, DoFetchFail;
    Basics(s);
    RequestBasics(s, r);
    FetchFailKeeps(s, r);
  }

  lemma FetchOkStep(s: State, r: ReqId, id: LeaseId, reusable: bool, sig: string, scheduler: string)
    requires Inv(s) && Enabled(s, FetchOk(r, id, reusable, sig, scheduler))
    ensures Inv(ApplyRequest(s, FetchOk(r, id, reusable, sig, scheduler)))
  {
    hide Heap, Directory, Requests, Exclusive, Tracked, Guarded, DoFetchOk;
    Basics(s);
    RequestBasics(s, r);
    FetchOkKeeps(s, r, id, reusable, sig, scheduler);
  }

  lemma PublishStep(s: State, r: ReqId)
    requires Inv(s) && Enabled(s, Publish(r))
    ensures Inv(ApplyRequest(s, Publish(r)))
  {
    hide Heap, Directory, Requests, Exclusive, Tracked, Guarded, DoPublish;
    Basics(s);
    RequestBasics(s, r);
    PublishKeeps(s, r);
  }

  lemma ReleaseBeginStep(s: State, r: ReqId, abnormal: bool)
    requires Inv(s) && Enabled(s, ReleaseBegin(r, abnormal))
    ensures Inv(ApplyRequest(s, ReleaseBegin(r, abnormal)))
  {
    hide Heap, Directory, Requests, Exclusive, Tracked, Guarded, DoReleaseBegin;
    Basics(s);
    RequestBasics(s, r);
    ReleaseBeginKeeps(s, r, abnormal);
  }

  lemma ReleaseLookupStep(s: State, r: ReqId)
    requires Inv(s) && Enabled(s, ReleaseLookup(r))
    ensures Inv(ApplyRequest(s, ReleaseLookup(r)))
  {
    hide Heap, Directory, Requests, Exclusive, Tracked, Guarded, DoReleaseLookup;
    Basics(s);
    RequestBasics(s, r);
    ReleaseLookupKeeps(s, r);
  }

  lemma ReleaseApplyStep(s: State, r: ReqId)
    requires Inv(s) && Enabled(s, ReleaseApply(r))
    ensures Inv(ApplyRequest(s, ReleaseApply(r)))
  {
    hide Heap, Directory, Requests, Exclusive, Tracked, Guarded, DoReleaseApply;
    Basics(s);
    RequestBasics(s, r);
    ReleaseApplyKeeps(s, r);
  }

  lemma RequestStepKeeps(s: State, step: Step)
    requires Inv(s) && Enabled(s, step) && RequestStep(step)
    ensures Inv(ApplyRequest(s, step))
  {
    hide Inv, Enabled, ApplyRequest;
    match step
    case Lookup(r, key, newPool) => LookupStep(s, r, key, newPool);
    case Count(r) => CountStep(s, r);
    case TryIdle(r, sig) => TryIdleStep(s, r, sig);
    case FetchFail(r) => FetchFailStep(s, r);
    case FetchOk(r, id, reusable, sig, scheduler) => FetchOkStep(s, r, id, reusable, sig, scheduler);
    case Publish(r) => PublishStep(s, r);
    case ReleaseBegin(r, abnormal) => ReleaseBeginStep(s, r, abnormal);
    case ReleaseLookup(r) => ReleaseLookupStep(s, r);
    case ReleaseApply(r) => ReleaseApplyStep(s, r);
  }

  lemma IdleTickStep(s: State, id: LeaseId)
    requires Inv(s) && Enabled(s, IdleTick(id))
    ensures Inv(ApplyBackground(s, IdleTick(id)))
  {
    hide Heap, Directory, Requests, Exclusive, Tracked, Guarded;
    Basics(s);
    SetLeaseKeeps(s, id, s.store[id].(beginRelease := s.store[id].available));
  }

  lemma IdleTimerStep(s: State, id: LeaseId)
    requires Inv(s) && Enabled(s, IdleTimer(id))
    ensures Inv(ApplyBackground(s, IdleTimer(id)))
  {
    hide Heap, Directory, Requests, Exclusive, Tracked, Guarded, DoIdleTimer;
    Basics(s);
    IdleTimerKeeps(s, id);
  }

  lemma WatchStopStep(s: State, id: LeaseId)
    requires Inv(s) && Enabled(s, WatchStop(id))
    ensures Inv(ApplyBackground(s, WatchStop(id)))
  {
    hide Heap, Directory, Requests, Exclusive, Tracked, Guarded;
    Basics(s);
    WatchStopKeeps(s, id);
  }

  lemma WatchRemoveStep(s: State, id: LeaseId)
    requires Inv(s) && Enabled(s, WatchRemove(id))
    ensures Inv(ApplyBackground(s, WatchRemove(id)))
  {
    hide Heap, Directory, Requests, Exclusive, Tracked, Guarded, Purge;
    Basics(s);
    PurgeOneKeeps(s, s.home[id], id, s.global, s.watch - {id});
  }

  lemma DecreaseStep(s: State, key: PoolKey, id: LeaseId)
    requires Inv(s) && Enabled(s, Decrease(key, id))
    ensures Inv(ApplyBackground(s, Decrease(key, id)))
  {
    hide Heap, Directory, Requests, Exclusive, Tracked, Guarded, Purge;
    Basics(s);
    if Reaches(s, key, id) {
      PurgeOneKeeps(s, s.registry[key], id, s.global - {id}, s.watch);
    }
  }

  lemma RenewStep(s: State, key: PoolKey, id: LeaseId, reacquire: bool, scheduler: string)
    requires Inv(s) && Enabled(s, Renew(key, id, reacquire, scheduler))
    ensures Inv(ApplyBackground(s, Renew(key, id, reacquire, scheduler)))
  {
    hide Heap, Directory, Requests, Exclusive, Tracked, Guarded;
    Basics(s);
    if Reaches(s, key, id) {
      SetLeaseKeeps(s, id, s.store[id].(reacquire := reacquire, scheduler := scheduler));
    }
  }

  lemma CollectStep(s: State)
    requires Inv(s) && Enabled(s, Collect)
    ensures Inv(ApplyBackground(s, Collect))
  {
    hide Heap, Directory, Requests, Exclusive, Tracked, Guarded;
    Basics(s);
  }

  lemma BeginPurgeStep(s: State)
    requires Inv(s) && Enabled(s, BeginPurge)
    ensures Inv(ApplyBackground(s, BeginPurge))
  {
    hide Heap, Directory, Requests, Exclusive, Tracked, Guarded;
  }

  lemma PurgeExitStep(s: State, id: LeaseId)
    requires Inv(s) && Enabled(s, PurgeExit(id))
    ensures Inv(ApplyBackground(s, PurgeExit(id)))
  {
    hide Heap, Directory, Requests, Exclusive, Tracked, Guarded, DoPurgeExit;
    Basics(s);
    PurgeExitKeeps(s, id);
  }

  lemma EndPurgeStep(s: State)
    requires Inv(s) && Enabled(s, EndPurge)
    ensures Inv(ApplyBackground(s, EndPurge))
  {
    hide Heap, Directory, Requests, Exclusive, Tracked, Guarded;
  }

  lemma ClearEmptyStep(s: State, key: PoolKey)
    requires Inv(s) && Enabled(s, ClearEmpty(key))
    ensures Inv(ApplyBackground(s, ClearEmpty(key)))
  {
    hide Heap, Directory, Requests, Exclusive, Tracked, Guarded, Clearable;
    Basics(s);
    ClearEmptyKeeps(s, key);
  }

  lemma ClearFunctionStep(s: State)
    requires Inv(s) && Enabled(s, ClearFunction)
    ensures Inv(ApplyBackground(s, ClearFunction))
  {
    hide Heap, Directory, Requests, Exclusive, Tracked, Guarded;
    Basics(s);
    DetachKeeps(s);
  }

  lemma EndLoopStep(s: State)
    requires Inv(s) && Enabled(s, EndLoop)
    ensures Inv(ApplyBackground(s, EndLoop))
  {
    hide Heap, Directory, Requests, Exclusive, Tracked, Guarded;
    Basics(s);
  }

  lemma BackgroundStepKeeps(s: State, step: Step)
    requires Inv(s) && Enabled(s, step) && !RequestStep(step)
    ensures Inv(ApplyBackground(s, step))
  {
    hide Inv, Enabled, ApplyBackground;
    match step
    case IdleTick(id) => IdleTickStep(s, id);
    case IdleTimer(id) => IdleTimerStep(s, id);
    case WatchStop(id) => WatchStopStep(s, id);
    case WatchRemove(id) => WatchRemoveStep(s, id);
    case Decrease(key, id) => DecreaseStep(s, key, id);
    case Renew(key, id, reacquire, scheduler) => RenewStep(s, key, id, reacquire, scheduler);
    case Collect => CollectStep(s);
    case BeginPurge => BeginPurgeStep(s);
    case PurgeExit(id) => PurgeExitStep(s, id);
    case EndPurge => EndPurgeStep(s);
    case ClearEmpty(key) => ClearEmptyStep(s, key);
    case ClearFunction => ClearFunctionStep(s);
    case EndLoop => EndLoopStep(s);
  }

  /** Every step of every party keeps the invariant. */
  lemma StepKeeps(s: State, step: Step)
    requires Inv(s) && Enabled(s, step)
    ensures Inv(Apply(s, step))
  {
    hide Heap, Directory, Requests, Exclusive, Tracked, Guarded, ApplyRequest, ApplyBackground;
    if RequestStep(step) {
      RequestStepKeeps(s, step);
    } else {
      BackgroundStepKeeps(s, step);
    }
  }
}
