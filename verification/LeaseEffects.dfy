/**
 What a step of the lease protocol does to a lease and to an idle list, said of the fields and
 without the steps' own functions: which step destroys a lease, frees it, takes it or writes to it,
 and that no other does.
 */
module LeaseEffects {
  import opened Sequences
  import opened LeaseModel
  import opened LeaseProtocol
  import opened LeaseSafety

  // ---------------------------------------------------------------------------------------
  // Which steps touch a lease
  // ---------------------------------------------------------------------------------------

  /** `r` gives `id` back in this step. */
  predicate GivesBack(s: State, step: Step, id: LeaseId) {
    step.ReleaseApply? && step.r in s.reqs && s.reqs[step.r].Releasing? && s.reqs[step.r].lease == id
  }

  /** The step destroys `id`: an abnormal or last release, its expiry loop, its scheduler or a retain pass. */
  predicate Kills(s: State, step: Step, id: LeaseId) {
    id in s.mapped && id in s.store && id in s.home
    && match step
       case ReleaseApply(r) => GivesBack(s, step, id) && (s.reqs[r].abnormal || !s.store[id].reusable)
       case WatchRemove(x) => x == id
       case Decrease(key, x) => x == id && key in s.registry && s.registry[key] == s.home[id]
       case PurgeExit(x) => x == id && id in s.index
       case _ => false
  }

  /** The step puts `id` back for the next request: it is released in order and can be used again. */
  predicate Frees(s: State, step: Step, id: LeaseId) {
    id in s.mapped && id in s.store && GivesBack(s, step, id) && !s.reqs[step.r].abnormal && s.store[id].reusable
  }

  /** The first idle lease that can be claimed, behind none of another signature. */
  predicate FirstClaimable(s: State, p: PoolId, sig: string, k: nat) {
    && p in s.idle && k < |s.idle[p]| && (forall i :: 0 <= i <= k ==> s.idle[p][i] in s.store)
    && s.store[s.idle[p][k]].available && s.store[s.idle[p][k]].sig == sig
    && forall i :: 0 <= i < k ==> s.store[s.idle[p][i]].sig == sig && !s.store[s.idle[p][i]].available
  }

  /** The request looks through the idle list of `p`. */
  predicate Looks(s: State, step: Step, p: PoolId) {
    step.TryIdle? && step.r in s.reqs && s.reqs[step.r].Counted? && s.reqs[step.r].pool == p
  }

  /** The step claims `id`, for the request that looks or for the expiry loop. */
  ghost predicate Takes(s: State, step: Step, id: LeaseId) {
    || (step == IdleTimer(id) && id in s.store && s.store[id].available)
    || (id in s.home && Looks(s, step, s.home[id])
        && exists k: nat :: FirstClaimable(s, s.home[id], step.sig, k) && s.idle[s.home[id]][k] == id)
  }

  predicate Renews(s: State, step: Step, id: LeaseId) {
    step.Renew? && step.id == id && id in s.mapped && id in s.home
    && step.key in s.registry && s.registry[step.key] == s.home[id]
  }

  /** A destroyed lease: exited and never to be claimed. */
  predicate Dead(was: Lease, now: Lease) {
    now.exited && !now.available && now.sig == was.sig && now.reusable == was.reusable
  }

  /** What becomes of a lease, field by field. */
  ghost predicate Becomes(s: State, step: Step, id: LeaseId, now: Lease)
    requires id in s.store
  {
    var was := s.store[id];
    if Kills(s, step, id) then Dead(was, now)
    else if Frees(s, step, id)
    then now == was.(available := true, timed := false, served := was.served + if was.timed then 1 else 0)
    else if Takes(s, step, id) then now == was.(available := false, beginRelease := false, timed := true)
    else if step == IdleTick(id) then now == was.(beginRelease := was.available)
    else if Renews(s, step, id) then now == was.(reacquire := step.reacquire, scheduler := step.scheduler)
    else now == was
  }

  /** `now` is `was` without `id`, everything else in its place. */
  ghost predicate Loses(was: seq<LeaseId>, id: LeaseId, now: seq<LeaseId>) {
    if id in was then exists a, b :: was == a + [id] + b && now == a + b && id !in now else now == was
  }

  /** What becomes of an idle list. */
  ghost predicate IdleBecomes(s: State, step: Step, p: PoolId, now: seq<LeaseId>)
    requires p in s.idle
  {
    if Looks(s, step, p) then
      || (exists k: nat :: FirstClaimable(s, p, step.sig, k) && now == s.idle[p][k + 1..])
      || ((forall k: nat :: !FirstClaimable(s, p, step.sig, k)) && now == [])
    else if step.ReleaseApply? && step.r in s.reqs && s.reqs[step.r].Releasing? && s.reqs[step.r].pool == p
            && Frees(s, step, s.reqs[step.r].lease)
    then now == s.idle[p] + [s.reqs[step.r].lease]
    else if (step.WatchRemove? || step.Decrease? || step.PurgeExit?) && Kills(s, step, step.id)
    then Loses(s.idle[p], step.id, now)
    else now == s.idle[p]
  }

  /** The step does to every lease and every idle list what it should. */
  ghost predicate Does(s: State, step: Step, t: State) {
    && s.store.Keys <= t.store.Keys && s.idle.Keys <= t.idle.Keys
    && (forall id :: id in s.store ==> Becomes(s, step, id, t.store[id]))
    && (forall id :: id in s.store ==> (id in t.mapped <==> id in s.mapped && !Kills(s, step, id)))
    && (forall p :: p in s.idle ==> IdleBecomes(s, step, p, t.idle[p]))
  }

  // ---------------------------------------------------------------------------------------
  // One step after the other
  // ---------------------------------------------------------------------------------------

  /** Steps that touch neither leases nor idle lists. */
  predicate Aloof(step: Step) {
    step.Lookup? || step.Count? || step.FetchFail? || step.Publish? || step.ReleaseBegin? || step.ReleaseLookup?
    || step.WatchStop? || step.Collect? || step.BeginPurge? || step.EndPurge? || step.ClearEmpty?
    || step.ClearFunction? || step.EndLoop?
  }

  /** Leases and lists are as before; there may be another pool. */
  ghost predicate SamePools(s: State, t: State) {
    && t.store == s.store && t.mapped == s.mapped
    && forall p :: p in s.idle ==> p in t.idle && t.idle[p] == s.idle[p]
  }

  lemma AloofLease(s: State, step: Step, id: LeaseId)
    requires Aloof(step) && id in s.store
    ensures Becomes(s, step, id, s.store[id]) && !Kills(s, step, id)
  {
    hide FirstClaimable;
  }

  lemma AloofList(s: State, step: Step, p: PoolId)
    requires Aloof(step) && p in s.idle
    ensures IdleBecomes(s, step, p, s.idle[p])
  {
    hide FirstClaimable, Frees, Kills;
  }

  lemma Untouched(s: State, step: Step, t: State)
    requires Aloof(step) && SamePools(s, t)
    ensures Does(s, step, t)
  {
    hide Becomes, Kills, IdleBecomes, Aloof;
    forall id | id in s.store ensures Becomes(s, step, id, t.store[id]) && !Kills(s, step, id) {
      AloofLease(s, step, id);
    }
    forall p | p in s.idle ensures IdleBecomes(s, step, p, t.idle[p]) {
      AloofList(s, step, p);
    }
  }

  lemma LookupAloof(s: State, r: ReqId, key: PoolKey, newPool: PoolId)
    requires newPool !in s.idle
    ensures SamePools(s, DoLookup(s, r, key, newPool))
  {
    var t := DoLookup(s, r, key, newPool);
    if key in s.registry {
      assert t == s.(reqs := s.reqs[r := Looked(s.registry[key])]);
    } else {
      assert t == s.(idle := s.idle[newPool := []], registry := s.registry[key := newPool],
                     pending := s.pending[newPool := 0], inFlight := s.inFlight[newPool := 0],
                     reqs := s.reqs[r := Looked(newPool)]);
    }
  }

  lemma CountersAloof(s: State, reqs: map<ReqId, Phase>, pending: map<PoolId, int>, inFlight: map<PoolId, int>,
                      global: set<LeaseId>, index: map<LeaseId, PoolId>)
    ensures SamePools(s, s.(reqs := reqs, pending := pending, inFlight := inFlight, global := global, index := index))
  {
  }

  lemma AcquireAloof(s: State, r: ReqId)
    requires r in s.reqs && (s.reqs[r].Looked? || s.reqs[r].Fetching? || s.reqs[r].Claimed?)
    requires s.reqs[r].pool in s.pending && s.reqs[r].pool in s.inFlight
    ensures s.reqs[r].Looked? ==> SamePools(s, DoCount(s, r))
    ensures s.reqs[r].Fetching? ==> SamePools(s, DoFetchFail(s, r))
    ensures s.reqs[r].Claimed? ==> SamePools(s, DoPublish(s, r))
  {
    hide SamePools;
    var t := match s.reqs[r] case Looked(_) => DoCount(s, r) case Fetching(_) => DoFetchFail(s, r)
             case Claimed(_, _) => DoPublish(s, r);
    CountersAloof(s, t.reqs, t.pending, t.inFlight, t.global, t.index);
  }

  lemma ReturnAloof(s: State, r: ReqId, abnormal: bool)
    requires r in s.reqs && s.reqs[r].Holding?
    ensures SamePools(s, DoReleaseBegin(s, r, abnormal))
  {
    var t := DoReleaseBegin(s, r, abnormal);
    assert t == s.(reqs := t.reqs);
  }

  lemma ReqsAloof(s: State, reqs: map<ReqId, Phase>, global: set<LeaseId>)
    ensures SamePools(s, s.(reqs := reqs, global := global))
  {
  }

  lemma ReturnLookupAloof(s: State, r: ReqId)
    requires r in s.reqs && s.reqs[r].Returning?
    ensures SamePools(s, DoReleaseLookup(s, r))
  {
    var id := s.reqs[r].lease;
    if id in s.global && id in s.index {
      ReqsAloof(s, s.reqs[r := Releasing(s.index[id], id, s.reqs[r].abnormal)], s.global);
    } else {
      ReqsAloof(s, s.reqs - {r}, if id in s.global then s.global - {id} else s.global);
    }
  }

  lemma AloofRequest(s: State, step: Step)
    requires Structure(s) && Enabled(s, step) && Aloof(step) && RequestStep(step)
    ensures Does(s, step, Apply(s, step))
  {
    hide Heap, Directory, Requests, Does, Clearable, DoTryIdle, DoFetchOk, DoReleaseApply, DoPublish, DoLookup,
      DoReleaseBegin, DoReleaseLookup, DoCount, DoFetchFail, SamePools;
    if step.Lookup? {
      LookupAloof(s, step.r, step.key, step.newPool);
    } else if step.ReleaseBegin? {
      ReturnAloof(s, step.r, step.abnormal);
    } else if step.ReleaseLookup? {
      ReturnLookupAloof(s, step.r);
    } else {
      RequestBasics(s, step.r);
      AcquireAloof(s, step.r);
    }
    Untouched(s, step, Apply(s, step));
  }

  lemma AloofBackground(s: State, step: Step)
    requires Structure(s) && Enabled(s, step) && Aloof(step) && !RequestStep(step)
    ensures Does(s, step, Apply(s, step))
  {
    hide Heap, Directory, Requests, Clearable, Does, DoIdleTick, DoIdleTimer, DoWatchRemove, DoDecrease, DoRenew,
      DoPurgeExit;
    assert SamePools(s, Apply(s, step));
    Untouched(s, step, Apply(s, step));
  }

  /** A fresh ID names no lease that was there. */
  lemma FetchOkDoes(s: State, r: ReqId, id: LeaseId, reusable: bool, sig: string, scheduler: string)
    requires r in s.reqs && s.reqs[r].Fetching? && s.reqs[r].pool in s.idle && s.reqs[r].pool in s.inFlight
    requires id !in s.store
    ensures Does(s, FetchOk(r, id, reusable, sig, scheduler), DoFetchOk(s, r, id, reusable, sig, scheduler))
  {
    var t := DoFetchOk(s, r, id, reusable, sig, scheduler);
    assert t.idle[s.reqs[r].pool] == s.idle[s.reqs[r].pool];
  }

  lemma SetLeaseDoes(s: State, step: Step, id: LeaseId, lease: Lease, t: State)
    requires (step == IdleTick(id) || step == IdleTimer(id) || (step.Renew? && step.id == id)) && id in s.store
    requires t.store == s.store[id := lease] && t.mapped == s.mapped && t.idle == s.idle
    requires Becomes(s, step, id, lease)
    ensures Does(s, step, t)
  {
    hide FirstClaimable, Dead, Loses;
  }

  lemma SameDoes(s: State, step: Step, t: State)
    requires step.IdleTimer? || step.Renew? || step.WatchRemove? || step.Decrease? || step.PurgeExit?
    requires step.id in s.store ==> Becomes(s, step, step.id, s.store[step.id])
    requires !Kills(s, step, step.id) && t.store == s.store && t.mapped == s.mapped && t.idle == s.idle
    ensures Does(s, step, t)
  {
    hide Becomes, IdleBecomes, Kills;
    forall x | x in s.store ensures Becomes(s, step, x, t.store[x]) && !Kills(s, step, x) {
      if x != step.id {
        OtherLease(s, step, x);
      }
    }
    forall q | q in s.idle ensures IdleBecomes(s, step, q, t.idle[q]) {
      SameList(s, step, q);
    }
  }

  /** A step about one lease leaves the others as they are. */
  lemma OtherLease(s: State, step: Step, x: LeaseId)
    requires step.IdleTimer? || step.Renew? || step.WatchRemove? || step.Decrease? || step.PurgeExit?
    requires x in s.store && x != step.id
    ensures Becomes(s, step, x, s.store[x]) && !Kills(s, step, x)
  {
    hide FirstClaimable, Dead;
  }

  lemma SameList(s: State, step: Step, q: PoolId)
    requires step.IdleTimer? || step.Renew? || step.WatchRemove? || step.Decrease? || step.PurgeExit?
    requires !Kills(s, step, step.id) && q in s.idle
    ensures IdleBecomes(s, step, q, s.idle[q])
  {
    hide FirstClaimable, Kills, Loses, Frees;
  }

  lemma IdleTickDoes(s: State, id: LeaseId)
    requires id in s.store
    ensures Does(s, IdleTick(id), DoIdleTick(s, id))
  {
    hide Does;
    SetLeaseDoes(s, IdleTick(id), id, s.store[id].(beginRelease := s.store[id].available), DoIdleTick(s, id));
  }

  lemma IdleTimerDoes(s: State, id: LeaseId)
    requires id in s.store
    ensures Does(s, IdleTimer(id), DoIdleTimer(s, id))
  {
    hide Does;
    if s.store[id].available {
      SetLeaseDoes(s, IdleTimer(id), id, s.store[id].Claim(), DoIdleTimer(s, id));
    } else {
      SameDoes(s, IdleTimer(id), s);
    }
  }

  lemma RenewDoes(s: State, key: PoolKey, id: LeaseId, reacquire: bool, scheduler: string)
    requires s.mapped <= s.store.Keys
    ensures Does(s, Renew(key, id, reacquire, scheduler), DoRenew(s, key, id, reacquire, scheduler))
  {
    hide Does;
    var step := Renew(key, id, reacquire, scheduler);
    if Reaches(s, key, id) {
      SetLeaseDoes(s, step, id, s.store[id].(reacquire := reacquire, scheduler := scheduler),
                   DoRenew(s, key, id, reacquire, scheduler));
    } else {
      SameDoes(s, step, s);
    }
  }

  // --- removals ---

  lemma WithoutMiddle(a: seq<LeaseId>, x: LeaseId, b: seq<LeaseId>)
    requires x !in a && x !in b
    ensures Without(a + [x] + b, {x}) == a + b
  {
    hide Without;
    WithoutConcat(a + [x], b, {x});
    WithoutConcat(a, [x], {x});
    WithoutNothing(a, {x});
    WithoutNothing(b, {x});
    WithoutIt(x);
  }

  lemma WithoutIt(x: LeaseId)
    ensures Without([x], {x}) == []
  {
  }

  lemma LosesMiddle(a: seq<LeaseId>, x: LeaseId, b: seq<LeaseId>)
    requires x !in a && x !in b
    ensures Loses(a + [x] + b, x, a + b)
  {
    assert x in a + [x] + b && x !in a + b;
  }

  lemma {:induction false} WithoutOne(s: seq<LeaseId>, x: LeaseId)
    requires Distinct(s)
    ensures Loses(s, x, Without(s, {x}))
  {
    hide Loses, Without;
    if x in s {
      var i :| 0 <= i < |s| && s[i] == x;
      var a, b := s[..i], s[i + 1..];
      assert s == a + [x] + b && x !in a && x !in b;
      WithoutMiddle(a, x, b);
      LosesMiddle(a, x, b);
    } else {
      WithoutNothing(s, {x});
      LosesNothing(s, x);
    }
  }

  /** Pool `p` is left as `v`. */
  ghost predicate PoolIs(s: State, p: PoolId, v: Pool, t: State)
    requires p in s.idle
  {
    t.store == v.store && t.mapped == v.mapped && t.idle == s.idle[p := v.idle]
  }

  /** Removing `id` from its pool `p`. */
  lemma PurgeDoes(s: State, step: Step, p: PoolId, id: LeaseId, t: State)
    requires Heap(s.store, s.home, s.mapped, s.idle) && p in s.idle && id in s.home && s.home[id] == p
    requires (step.WatchRemove? || step.Decrease? || step.PurgeExit?) && step.id == id
    requires s.mapped <= s.store.Keys && (Kills(s, step, id) <==> id in s.mapped)
    requires PoolIs(s, p, Purge(View(s, p), {id}), t)
    ensures Does(s, step, t)
  {
    hide Heap, Purge, WellFormed, Kills, Loses;
    HeapView(s.store, s.home, s.mapped, s.idle, p);
    PurgeKeeps(View(s, p), {id});
    PurgedIdle(s, p, id, t.idle[p]);
    OnlyDestroyed(s, step, id, t);
    OnlyItsList(s, step, p, id, t);
  }

  lemma PurgedIdle(s: State, p: PoolId, id: LeaseId, now: seq<LeaseId>)
    requires Heap(s.store, s.home, s.mapped, s.idle) && p in s.idle && s.mapped <= s.store.Keys
    requires now == Purge(View(s, p), {id}).idle
    ensures Loses(s.idle[p], id, now) && (id !in s.mapped ==> now == s.idle[p])
  {
    WithoutOne(s.idle[p], id);
  }

  lemma OnlyDestroyed(s: State, step: Step, id: LeaseId, t: State)
    requires (step.WatchRemove? || step.Decrease? || step.PurgeExit?) && step.id == id
    requires s.mapped <= s.store.Keys && (Kills(s, step, id) <==> id in s.mapped) && t.store.Keys == s.store.Keys
    requires forall x :: x in s.store && !(x == id && id in s.mapped) ==> t.store[x] == s.store[x]
    requires id in s.mapped ==> t.store[id] == s.store[id].Destroy()
    ensures forall x :: x in s.store ==> Becomes(s, step, x, t.store[x])
    ensures t.mapped == s.mapped - {id} ==>
              forall x :: x in s.store ==> (x in t.mapped <==> x in s.mapped && !Kills(s, step, x))
  {
  }

  lemma OnlyItsList(s: State, step: Step, p: PoolId, id: LeaseId, t: State)
    requires Heap(s.store, s.home, s.mapped, s.idle) && p in s.idle && id in s.home && s.home[id] == p
    requires (step.WatchRemove? || step.Decrease? || step.PurgeExit?) && step.id == id
    requires (Kills(s, step, id) <==> id in s.mapped) && p in t.idle && t.idle == s.idle[p := t.idle[p]]
    requires Loses(s.idle[p], id, t.idle[p]) && (id !in s.mapped ==> t.idle[p] == s.idle[p])
    ensures forall q :: q in s.idle ==> IdleBecomes(s, step, q, t.idle[q])
  {
    hide Loses, Kills;
    forall q | q in s.idle && q != p ensures Loses(s.idle[q], id, t.idle[q]) {
      assert id !in s.idle[q];
      LosesNothing(s.idle[q], id);
    }
  }

  lemma LosesNothing(s: seq<LeaseId>, id: LeaseId)
    requires id !in s
    ensures Loses(s, id, s)
  {
  }

  lemma WatchRemoveDoes(s: State, id: LeaseId)
    requires Structure(s) && id in s.home && s.home[id] in s.idle && s.mapped <= s.store.Keys
    ensures Does(s, WatchRemove(id), DoWatchRemove(s, id))
  {
    hide Heap, Directory, Requests, Does, Purge;
    Basics(s);
    PurgeDoes(s, WatchRemove(id), s.home[id], id, DoWatchRemove(s, id));
  }

  lemma DecreasePool(s: State, key: PoolKey, id: LeaseId)
    requires Reaches(s, key, id) && s.registry[key] in s.idle && s.mapped <= s.store.Keys
    ensures PoolIs(s, s.registry[key], Purge(View(s, s.registry[key]), {id}), DoDecrease(s, key, id))
  {
    hide Purge;
  }

  lemma DecreaseDoes(s: State, key: PoolKey, id: LeaseId)
    requires Structure(s) && (key in s.registry ==> s.registry[key] in s.idle) && s.mapped <= s.store.Keys
    ensures Does(s, Decrease(key, id), DoDecrease(s, key, id))
  {
    hide Heap, Directory, Requests, Does, Purge, PoolIs, Becomes;
    Basics(s);
    if Reaches(s, key, id) {
      DecreasePool(s, key, id);
      PurgeDoes(s, Decrease(key, id), s.registry[key], id, DoDecrease(s, key, id));
    } else {
      UnreachedDoes(s, key, id);
    }
  }

  lemma UnreachedDoes(s: State, key: PoolKey, id: LeaseId)
    requires !Reaches(s, key, id)
    ensures Does(s, Decrease(key, id), s)
  {
    hide Does, FirstClaimable;
    SameDoes(s, Decrease(key, id), s);
  }

  lemma PurgeExitDoes(s: State, id: LeaseId)
    requires Structure(s) && s.exits.Some? && s.mapped <= s.store.Keys && (id in s.index ==> s.index[id] in s.idle)
    ensures Does(s, PurgeExit(id), DoPurgeExit(s, id))
  {
    hide Heap, Directory, Requests, Does, Purge;
    Basics(s);
    if id in s.index {
      PurgeDoes(s, PurgeExit(id), s.index[id], id, DoPurgeExit(s, id));
    } else {
      UnindexedDoes(s, id);
    }
  }

  lemma UnindexedDoes(s: State, id: LeaseId)
    requires s.exits.Some? && s.mapped <= s.store.Keys && id !in s.index
    ensures Does(s, PurgeExit(id), DoPurgeExit(s, id))
  {
    hide Does, Purge;
    var t := DoPurgeExit(s, id);
    assert t == s.(global := t.global, exits := t.exits);
    SameDoes(s, PurgeExit(id), t);
  }

  // --- releases ---

  lemma ReleaseDoes(s: State, r: ReqId)
    requires Inv(s) && r in s.reqs && s.reqs[r].Releasing? && s.reqs[r].pool in s.idle && s.mapped <= s.store.Keys
    ensures Does(s, ReleaseApply(r), DoReleaseApply(s, r))
  {
    hide Heap, Directory, Requests, Exclusive, Tracked, Guarded, Release, WellFormed, Does;
    var Releasing(p, id, abnormal) := s.reqs[r];
    var v, t := Release(View(s, p), id, abnormal), DoReleaseApply(s, r);
    Basics(s);
    RequestBasics(s, r);
    OwnedIsNotIdle(s, r);
    HeapView(s.store, s.home, s.mapped, s.idle, p);
    ReleaseKeeps(View(s, p), id, abnormal);
    assert PoolIs(s, p, v, t);
    if id !in s.mapped {
      GoneDoes(s, r, t);
    } else if !abnormal && s.store[id].reusable {
      FreedDoes(s, r, v, t);
    } else {
      ReleaseLease(View(s, p), id, abnormal);
      KilledDoes(s, r, v, t);
    }
  }

  lemma ReleaseLease(p: Pool, id: LeaseId, abnormal: bool)
    requires p.mapped <= p.store.Keys && id in p.mapped && (abnormal || !p.store[id].reusable)
    ensures Dead(p.store[id], Release(p, id, abnormal).store[id])
  {
  }

  /** Releasing a lease that is in no leaseMap. */
  lemma GoneDoes(s: State, r: ReqId, t: State)
    requires r in s.reqs && s.reqs[r].Releasing? && s.reqs[r].pool in s.idle && s.reqs[r].lease !in s.mapped
    requires PoolIs(s, s.reqs[r].pool, View(s, s.reqs[r].pool), t)
    ensures Does(s, ReleaseApply(r), t)
  {
    hide FirstClaimable;
  }

  lemma FreedLease(s: State, r: ReqId, x: LeaseId)
    requires r in s.reqs && s.reqs[r].Releasing? && s.reqs[r].lease in s.mapped && s.mapped <= s.store.Keys
    requires !s.reqs[r].abnormal && s.store[s.reqs[r].lease].reusable && x in s.store
    ensures !Kills(s, ReleaseApply(r), x)
    ensures Becomes(s, ReleaseApply(r), x, if x == s.reqs[r].lease then s.store[x].Free() else s.store[x])
  {
    hide FirstClaimable, Dead;
  }

  lemma FreedList(s: State, r: ReqId, q: PoolId)
    requires r in s.reqs && s.reqs[r].Releasing? && s.reqs[r].lease in s.mapped && s.mapped <= s.store.Keys
    requires !s.reqs[r].abnormal && s.store[s.reqs[r].lease].reusable && q in s.idle
    ensures IdleBecomes(s, ReleaseApply(r), q,
                        if q == s.reqs[r].pool then s.idle[q] + [s.reqs[r].lease] else s.idle[q])
  {
    hide FirstClaimable, Loses;
  }

  lemma FreedDoes(s: State, r: ReqId, v: Pool, t: State)
    requires r in s.reqs && s.reqs[r].Releasing? && s.reqs[r].pool in s.idle && s.mapped <= s.store.Keys
    requires s.reqs[r].lease in s.mapped && v.store.Keys == s.store.Keys && PoolIs(s, s.reqs[r].pool, v, t)
    requires forall x :: x in s.store && x != s.reqs[r].lease ==> v.store[x] == s.store[x]
    requires var Releasing(p, id, abnormal) := s.reqs[r];
             && !abnormal && s.store[id].reusable && v.mapped == s.mapped && v.idle == s.idle[p] + [id]
             && v.store[id] == s.store[id].Free()
    ensures Does(s, ReleaseApply(r), t)
  {
    hide Becomes, IdleBecomes, Kills;
    forall x | x in s.store ensures Becomes(s, ReleaseApply(r), x, t.store[x]) && !Kills(s, ReleaseApply(r), x) {
      FreedLease(s, r, x);
    }
    forall q | q in s.idle ensures IdleBecomes(s, ReleaseApply(r), q, t.idle[q]) {
      FreedList(s, r, q);
    }
  }

  lemma KilledDoes(s: State, r: ReqId, v: Pool, t: State)
    requires r in s.reqs && s.reqs[r].Releasing? && s.reqs[r].pool in s.idle && s.mapped <= s.store.Keys
    requires s.reqs[r].lease in s.home && s.reqs[r].lease in s.mapped
    requires v.store.Keys == s.store.Keys && PoolIs(s, s.reqs[r].pool, v, t)
    requires forall x :: x in s.store && x != s.reqs[r].lease ==> v.store[x] == s.store[x]
    requires var Releasing(p, id, abnormal) := s.reqs[r];
             && (abnormal || !s.store[id].reusable) && v.mapped == s.mapped - {id} && v.idle == s.idle[p]
             && Dead(s.store[id], v.store[id])
    ensures Does(s, ReleaseApply(r), t)
  {
    hide FirstClaimable, Dead, Loses;
  }

  // --- the idle list ---

  lemma TryIdlePool(s: State, r: ReqId, sig: string)
    requires Structure(s) && r in s.reqs && s.reqs[r].Counted? && s.reqs[r].pool in s.idle
    requires forall id :: id in s.idle[s.reqs[r].pool] ==> id in s.store
    ensures PoolIs(s, s.reqs[r].pool, Traverse(View(s, s.reqs[r].pool), sig).0, DoTryIdle(s, r, sig))
  {
    hide Heap, Directory, Requests, Traverse;
    var p, t := s.reqs[r].pool, DoTryIdle(s, r, sig);
    var v := Traverse(View(s, p), sig).0;
    assert t == WithView(s, p, v).(reqs := t.reqs, inFlight := t.inFlight);
  }

  lemma TryIdleDoes(s: State, r: ReqId, sig: string)
    requires Structure(s) && r in s.reqs && s.reqs[r].Counted? && s.reqs[r].pool in s.idle
    requires forall id :: id in s.idle[s.reqs[r].pool] ==> id in s.store
    ensures Does(s, TryIdle(r, sig), DoTryIdle(s, r, sig))
  {
    hide Heap, Directory, Requests, Does, Traverse, DoTryIdle, StopIndex;
    Basics(s);
    var p := s.reqs[r].pool;
    TraverseTakesFirstClaimable(View(s, p), sig);
    TryIdlePool(s, r, sig);
    var k := StopIndex(View(s, p), sig);
    var t := DoTryIdle(s, r, sig);
    if k < |s.idle[p]| && s.store[s.idle[p][k]].sig == sig {
      ClaimDoes(s, r, sig, k, t);
    } else {
      EmptiesDoes(s, r, sig, k, t);
    }
  }

  lemma FirstIsUnique(s: State, p: PoolId, sig: string, k: nat, l: nat)
    requires FirstClaimable(s, p, sig, k) && FirstClaimable(s, p, sig, l)
    ensures k == l
  {
  }

  lemma ClaimDoes(s: State, r: ReqId, sig: string, k: nat, t: State)
    requires r in s.reqs && s.reqs[r].Counted? && s.reqs[r].pool in s.idle && s.store.Keys == s.home.Keys
    requires FirstClaimable(s, s.reqs[r].pool, sig, k) && s.home[s.idle[s.reqs[r].pool][k]] == s.reqs[r].pool
    requires var p := s.reqs[r].pool; var id := s.idle[p][k];
             t.store == s.store[id := s.store[id].Claim()] && t.mapped == s.mapped
             && t.idle == s.idle[p := s.idle[p][k + 1..]]
    ensures Does(s, TryIdle(r, sig), t)
  {
    var p, step := s.reqs[r].pool, TryIdle(r, sig);
    forall x | x in s.store ensures Takes(s, step, x) <==> x == s.idle[p][k] {
      if Takes(s, step, x) {
        var l: nat :| FirstClaimable(s, s.home[x], sig, l) && s.idle[s.home[x]][l] == x;
        FirstIsUnique(s, p, sig, k, l);
      }
    }
  }

  lemma EmptiesDoes(s: State, r: ReqId, sig: string, k: nat, t: State)
    requires r in s.reqs && s.reqs[r].Counted? && s.reqs[r].pool in s.idle && k <= |s.idle[s.reqs[r].pool]|
    requires forall id :: id in s.idle[s.reqs[r].pool] ==> id in s.store
    requires var idle := s.idle[s.reqs[r].pool];
             && (forall i :: 0 <= i < k ==> s.store[idle[i]].sig == sig && !s.store[idle[i]].available)
             && (k < |idle| ==> s.store[idle[k]].sig != sig)
    requires t.store == s.store && t.mapped == s.mapped && t.idle == s.idle[s.reqs[r].pool := []]
    ensures Does(s, TryIdle(r, sig), t)
  {
    forall l: nat ensures !FirstClaimable(s, s.reqs[r].pool, sig, l) {
    }
  }

  // --- all steps ---

  lemma RequestStepDoes(s: State, step: Step)
    requires Inv(s) && Enabled(s, step) && RequestStep(step)
    ensures Does(s, step, Apply(s, step))
  {
    hide Heap, Directory, Requests, Exclusive, Tracked, Guarded, Does, DoTryIdle, DoFetchOk, DoReleaseApply, DoPublish,
      DoLookup, DoReleaseBegin, DoReleaseLookup, DoCount, DoFetchFail, Clearable;
    if Aloof(step) {
      AloofRequest(s, step);
    } else {
      Basics(s);
      RequestBasics(s, step.r);
      match step
      case TryIdle(r, sig) => TryIdleDoes(s, r, sig);
      case FetchOk(r, id, reusable, sig, scheduler) => FetchOkDoes(s, r, id, reusable, sig, scheduler);
      case ReleaseApply(r) => ReleaseDoes(s, r);
    }
  }

  lemma BackgroundStepDoes(s: State, step: Step)
    requires Structure(s) && Enabled(s, step) && !RequestStep(step)
    ensures Does(s, step, Apply(s, step))
  {
    hide Heap, Directory, Requests, Does, Clearable, DoIdleTick, DoIdleTimer, DoWatchRemove, DoDecrease, DoRenew,
      DoPurgeExit;
    if Aloof(step) {
      AloofBackground(s, step);
    } else {
      Basics(s);
      match step
      case IdleTick(id) => IdleTickDoes(s, id);
      case IdleTimer(id) => IdleTimerDoes(s, id);
      case WatchRemove(id) => WatchRemoveDoes(s, id);
      case Decrease(key, id) => DecreaseDoes(s, key, id);
      case Renew(key, id, reacquire, scheduler) => RenewDoes(s, key, id, reacquire, scheduler);
      case PurgeExit(id) => PurgeExitDoes(s, id);
    }
  }

  /** Every step of every party: a lease is destroyed, freed, taken or written to by these steps and no other. */
  lemma StepDoes(s: State, step: Step)
    requires Inv(s) && Enabled(s, step)
    ensures Does(s, step, Apply(s, step))
  {
    hide Structure, Exclusive, Tracked, Guarded, Enabled, Does, ApplyRequest, ApplyBackground;
    if RequestStep(step) {
      RequestStepDoes(s, step);
    } else {
      BackgroundStepDoes(s, step);
    }
  }

  // ---------------------------------------------------------------------------------------
  // What a request gets
  // ---------------------------------------------------------------------------------------

  /** It gets the first claimable lease of its signature, and asks the scheduler exactly if there is none. */
  lemma RequestGetsTheFirst(s: State, r: ReqId, sig: string)
    requires Structure(s) && Enabled(s, TryIdle(r, sig))
    ensures var p, t := s.reqs[r].pool, Apply(s, TryIdle(r, sig));
            && r in t.reqs && t.reqs == s.reqs[r := t.reqs[r]]
            && (t.reqs[r] == Fetching(p) <==> forall k: nat :: !FirstClaimable(s, p, sig, k))
            && (t.reqs[r] != Fetching(p) ==>
                exists k: nat :: FirstClaimable(s, p, sig, k) && t.reqs[r] == Claimed(p, s.idle[p][k]))
  {
    hide Heap, Directory, Requests, Traverse, StopIndex;
    Basics(s);
    RequestBasics(s, r);
    var p := s.reqs[r].pool;
    TraverseTakesFirstClaimable(View(s, p), sig);
    var k := StopIndex(View(s, p), sig);
    if k < |s.idle[p]| && s.store[s.idle[p][k]].sig == sig {
      assert FirstClaimable(s, p, sig, k);
    } else {
      NoneClaimable(s, p, sig, k);
    }
  }

  lemma NoneClaimable(s: State, p: PoolId, sig: string, k: nat)
    requires p in s.idle && k <= |s.idle[p]| && forall id :: id in s.idle[p] ==> id in s.store
    requires forall i :: 0 <= i < k ==> s.store[s.idle[p][i]].sig == sig && !s.store[s.idle[p][i]].available
    requires k < |s.idle[p]| ==> s.store[s.idle[p][k]].sig != sig
    ensures forall l: nat :: !FirstClaimable(s, p, sig, l)
  {
    forall l: nat ensures !FirstClaimable(s, p, sig, l) {
    }
  }

  /** A lease that the scheduler issues is the request's: live, taken, with what was asked for and never used. */
  lemma IssuedLease(s: State, r: ReqId, id: LeaseId, reusable: bool, sig: string, scheduler: string)
    requires Structure(s) && Enabled(s, FetchOk(r, id, reusable, sig, scheduler))
    ensures var t := Apply(s, FetchOk(r, id, reusable, sig, scheduler)); var p := s.reqs[r].pool;
            && id in t.mapped && id in t.store && id in t.home && t.home[id] == p
            && t.reqs == s.reqs[r := Claimed(p, id)] && t.mapped == s.mapped + {id}
            && (id in t.watch <==> reusable) && (reusable ==> t.watch[id] == Watching)
            && var l := t.store[id];
               && !l.available && !l.exited && l.timed && l.reusable == reusable && l.sig == sig
               && l.served == 0 && !l.reacquire && l.scheduler == scheduler
  {
    hide Heap, Directory, Requests;
    Basics(s);
    RequestBasics(s, r);
  }
}
