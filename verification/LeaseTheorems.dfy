/** What holds in every reachable state, and over whole runs, of the lease protocol. */
module LeaseTheorems {
  import opened Sequences
  import opened LeaseModel
  import opened LeaseProtocol
  import opened LeaseSafety

  /** `steps` is a run from `s` to `t`. */
  ghost predicate Runs(s: State, steps: seq<Step>, t: State)
    decreases |steps|
  {
    if steps == [] then s == t
    else Structure(s) && Enabled(s, steps[0]) && Runs(Apply(s, steps[0]), steps[1..], t)
  }

  lemma InitHolds()
    ensures Inv(INIT)
  {
  }

  lemma {:induction false} RunKeeps(s: State, steps: seq<Step>, t: State)
    requires Inv(s) && Runs(s, steps, t)
    ensures Inv(t)
    decreases |steps|
  {
    hide Inv, Structure, Enabled, Apply;
    if steps != [] {
      StepKeeps(s, steps[0]);
      RunKeeps(Apply(s, steps[0]), steps[1..], t);
    }
  }

  lemma RunsPrepend(s: State, step: Step, steps: seq<Step>, t: State)
    requires Structure(s) && Enabled(s, step) && Runs(Apply(s, step), steps, t)
    ensures Runs(s, [step] + steps, t)
  {
    assert ([step] + steps)[1..] == steps;
  }

  /** The exclusive use of leases, in the words of the pool. */
  ghost predicate Safe(s: State) {
    // at most one request has a lease
    && (forall q, r :: (q in s.reqs && r in s.reqs && HasLease(s.reqs[q]) && HasLease(s.reqs[r])
          && s.reqs[q].lease == s.reqs[r].lease) ==> q == r)
    // a lease with a request is not available and in no idle list
    && (forall r :: r in s.reqs && HasLease(s.reqs[r]) ==>
          s.reqs[r].lease in s.store && !s.store[s.reqs[r].lease].available)
    && (forall r, p :: r in s.reqs && HasLease(s.reqs[r]) && p in s.idle ==> s.reqs[r].lease !in s.idle[p])
    // an idle list has no duplicates and only leases of its own pool's leaseMap
    && (forall p :: p in s.idle ==> Distinct(s.idle[p]))
    && (forall p, id :: p in s.idle && id in s.idle[p] ==> id in s.mapped && id in s.home && s.home[id] == p)
    // the two indexes agree, and a listed lease is exited exactly when its pool dropped it
    && s.global <= s.index.Keys
    && (forall id :: id in s.index ==> id in s.home && s.index[id] == s.home[id])
    && (forall id :: id in s.global ==> id in s.store && (s.store[id].exited <==> id !in s.mapped))
  }

  /** Every interleaving of acquire, release, idle expiry, retain and function deletion is safe. */
  lemma EveryReachableStateIsSafe(steps: seq<Step>, t: State)
    requires Runs(INIT, steps, t)
    ensures Safe(t)
  {
    InitHolds();
    RunKeeps(INIT, steps, t);
    InvImpliesSafe(t);
  }

  lemma InvImpliesSafe(t: State)
    requires Inv(t)
    ensures Safe(t)
  {
    hide Tracked, Guarded;
    Basics(t);
  }

  /** Idle expiry never takes a lease from a request. */
  lemma ExpirySparesHeldLeases(steps: seq<Step>, t: State, r: ReqId)
    requires Runs(INIT, steps, t)
    requires r in t.reqs && HasLease(t.reqs[r]) && Enabled(t, IdleTimer(t.reqs[r].lease)) && Structure(t)
    ensures Apply(t, IdleTimer(t.reqs[r].lease)) == t
  {
    hide Runs, Structure;
    EveryReachableStateIsSafe(steps, t);
  }

  /** The branch of releaseInstanceLease for a listed lease without a pool never runs. */
  lemma ListedLeaseHasPool(steps: seq<Step>, t: State, id: LeaseId)
    requires Runs(INIT, steps, t) && id in t.global
    ensures id in t.index && t.index[id] in t.idle
  {
    InitHolds();
    RunKeeps(INIT, steps, t);
    Basics(t);
  }

  /** A live lease is listed or about to be, and a reusable one has its expiry loop. */
  lemma LiveLeaseIsTracked(steps: seq<Step>, t: State, id: LeaseId)
    requires Runs(INIT, steps, t) && id in t.mapped
    ensures id in t.store && (id in t.global || BeingPublished(t.reqs, id))
    ensures t.store[id].reusable ==> id in t.watch
    ensures t.store[id].reusable && !t.detached && !Owned(t.reqs, id) && !t.store[id].available ==>
              t.watch[id].Condemned?
  {
    hide Heap, Directory, Requests, Exclusive, BeingPublished, Owned, Runs;
    InitHolds();
    RunKeeps(INIT, steps, t);
    Basics(t);
  }

  // ---------------------------------------------------------------------------------------
  // The books: what a request's step does outside the lease objects
  // ---------------------------------------------------------------------------------------

  /** Requests, directories and counters after a step of a request. */
  ghost predicate Ledger(s: State, step: Step, t: State) {
    && RequestStep(step) && t.exits == s.exits && t.detached == s.detached && t.ended == s.ended
    && t.purging == s.purging && t.stopped == s.stopped
    && (!step.Lookup? ==> step.r in s.reqs && t.registry == s.registry)
    && (!step.Publish? ==> t.index == s.index && t.global <= s.global)
    && (!step.FetchOk? ==> t.mapped <= s.mapped && t.home == s.home && t.watch == s.watch)
    && match step
       case Lookup(r, key, newPool) => Found(s, t, r, key, newPool)
       case Count(r) =>
         s.reqs[r].Looked? && Moves(s, t, r, Counted(s.reqs[r].pool), 1, 0)
       case TryIdle(r, _) => s.reqs[r].Counted? && Tried(s, t, r)
       case FetchFail(r) =>
         s.reqs[r].Fetching? && t.reqs == s.reqs - {r} && Counts(s, t, s.reqs[r].pool, -1, -1)
       case FetchOk(r, id, reusable, _, _) =>
         && s.reqs[r].Fetching? && id !in s.home && Moves(s, t, r, Claimed(s.reqs[r].pool, id), 0, -1)
         && t.mapped == s.mapped + {id} && t.home == s.home[id := s.reqs[r].pool]
         && t.watch == if reusable then s.watch[id := Watching] else s.watch
       case Publish(r) =>
         && s.reqs[r].Claimed? && Moves(s, t, r, Holding(s.reqs[r].lease), -1, 0)
         && t.index == s.index[s.reqs[r].lease := s.reqs[r].pool] && t.global == s.global + {s.reqs[r].lease}
       case ReleaseBegin(r, abnormal) =>
         && s.reqs[r].Holding? && t.pending == s.pending && t.inFlight == s.inFlight
         && t.reqs == if s.detached then s.reqs - {r} else s.reqs[r := Returning(s.reqs[r].lease, abnormal)]
       case ReleaseLookup(r) =>
         && s.reqs[r].Returning? && t.pending == s.pending && t.inFlight == s.inFlight
         && (if s.reqs[r].lease !in s.global || s.reqs[r].lease !in s.index then t.reqs == s.reqs - {r}
             else t.reqs == s.reqs[r := Releasing(s.index[s.reqs[r].lease], s.reqs[r].lease, s.reqs[r].abnormal)])
       case ReleaseApply(r) =>
         s.reqs[r].Releasing? && t.reqs == s.reqs - {r} && t.pending == s.pending && t.inFlight == s.inFlight
  }

  /** The request has the pool of its key, which is made if there was none. */
  ghost predicate Found(s: State, t: State, r: ReqId, key: PoolKey, newPool: PoolId) {
    && key in t.registry && t.reqs == s.reqs[r := Looked(t.registry[key])]
    && (if key in s.registry then t.registry == s.registry && t.pending == s.pending && t.inFlight == s.inFlight
        else t.registry == s.registry[key := newPool] && t.pending == s.pending[newPool := 0]
             && t.inFlight == s.inFlight[newPool := 0])
  }

  /** The request has claimed an idle lease of its pool or asks the scheduler. */
  ghost predicate Tried(s: State, t: State, r: ReqId) {
    && r in s.reqs && HasPool(s.reqs[r]) && r in t.reqs
    && (if t.reqs[r].Fetching? then Moves(s, t, r, Fetching(s.reqs[r].pool), 0, 1)
        else t.reqs[r].Claimed? && t.reqs[r].lease in s.mapped
             && Moves(s, t, r, Claimed(s.reqs[r].pool, t.reqs[r].lease), 0, 0))
  }

  /** pendingNum and inFlightCount of `p` change by `dp` and `df`. */
  ghost predicate Counts(s: State, t: State, p: PoolId, dp: int, df: int) {
    && p in s.pending && t.pending == s.pending[p := s.pending[p] + dp]
    && p in s.inFlight && t.inFlight == s.inFlight[p := s.inFlight[p] + df]
  }

  ghost predicate Moves(s: State, t: State, r: ReqId, ph: Phase, dp: int, df: int) {
    && r in s.reqs && HasPool(s.reqs[r]) && t.reqs == s.reqs[r := ph]
    && Counts(s, t, s.reqs[r].pool, dp, df)
  }

  /** Nothing outside the pool and the request changes but inFlightCount. */
  ghost predicate Elsewhere(s: State, t: State) {
    && t.registry == s.registry && t.index == s.index && t.global == s.global
    && t.mapped == s.mapped && t.home == s.home
    && t.exits == s.exits && t.detached == s.detached && t.ended == s.ended
    && t.purging == s.purging && t.stopped == s.stopped && t.watch == s.watch
  }

  lemma ClaimTried(s: State, r: ReqId, v: Pool, id: LeaseId)
    requires r in s.reqs && s.reqs[r].Counted? && v.mapped == s.mapped && id in s.mapped
    requires s.reqs[r].pool in s.pending && s.reqs[r].pool in s.inFlight
    ensures var t := WithView(s, s.reqs[r].pool, v).(reqs := s.reqs[r := Claimed(s.reqs[r].pool, id)]);
            Tried(s, t, r) && Elsewhere(s, t)
  {
    var p := s.reqs[r].pool;
    assert s.inFlight[p := s.inFlight[p] + 0] == s.inFlight && s.pending[p := s.pending[p] + 0] == s.pending;
  }

  lemma AskTried(s: State, r: ReqId, v: Pool)
    requires r in s.reqs && s.reqs[r].Counted? && v.mapped == s.mapped
    requires s.reqs[r].pool in s.pending && s.reqs[r].pool in s.inFlight
    ensures var p := s.reqs[r].pool;
            var t := WithView(s, p, v).(
              reqs := s.reqs[r := Fetching(p)], inFlight := s.inFlight[p := s.inFlight[p] + 1]);
            Tried(s, t, r) && Elsewhere(s, t)
  {
    var p := s.reqs[r].pool;
    assert s.pending[p := s.pending[p] + 0] == s.pending;
  }

  lemma IdleTried(s: State, r: ReqId, sig: string)
    requires Structure(s) && r in s.reqs && s.reqs[r].Counted? && s.reqs[r].pool in s.idle
    requires forall id :: id in s.idle[s.reqs[r].pool] ==> id in s.store
    ensures Tried(s, DoTryIdle(s, r, sig), r) && Elsewhere(s, DoTryIdle(s, r, sig))
  {
    hide Heap, Directory, Requests, Traverse, WellFormed, Tried, Elsewhere;
    var p := s.reqs[r].pool;
    HeapView(s.store, s.home, s.mapped, s.idle, p);
    TraverseKeeps(View(s, p), sig);
    var (v, got) := Traverse(View(s, p), sig);
    if got.Some? {
      ClaimTried(s, r, v, got.value);
    } else {
      AskTried(s, r, v);
    }
  }

  lemma TryIdleLedger(s: State, r: ReqId, sig: string)
    requires Structure(s) && r in s.reqs && s.reqs[r].Counted? && s.reqs[r].pool in s.idle
    requires forall id :: id in s.idle[s.reqs[r].pool] ==> id in s.store
    ensures Ledger(s, TryIdle(r, sig), DoTryIdle(s, r, sig))
  {
    hide Structure, DoTryIdle, Tried;
    IdleTried(s, r, sig);
  }

  lemma FetchOkLedger(s: State, r: ReqId, id: LeaseId, reusable: bool, sig: string, scheduler: string)
    requires r in s.reqs && s.reqs[r].Fetching? && s.reqs[r].pool in s.idle && id !in s.home
    requires s.pending.Keys == s.idle.Keys && s.inFlight.Keys == s.idle.Keys
    ensures Ledger(s, FetchOk(r, id, reusable, sig, scheduler), DoFetchOk(s, r, id, reusable, sig, scheduler))
  {
    var p := s.reqs[r].pool;
    assert s.pending[p := s.pending[p] + 0] == s.pending;
  }

  lemma LookupFound(s: State, r: ReqId, key: PoolKey, newPool: PoolId)
    ensures var t := DoLookup(s, r, key, newPool);
            && Found(s, t, r, key, newPool) && t.index == s.index && t.global == s.global && t.mapped == s.mapped
            && t.home == s.home && t.exits == s.exits && t.detached == s.detached && t.ended == s.ended
            && t.purging == s.purging && t.stopped == s.stopped && t.watch == s.watch
  {
    var t := DoLookup(s, r, key, newPool);
    if key in s.registry {
      assert t == s.(reqs := s.reqs[r := Looked(s.registry[key])]);
    } else {
      assert t == s.(idle := t.idle, registry := s.registry[key := newPool], pending := s.pending[newPool := 0],
                     inFlight := s.inFlight[newPool := 0], reqs := s.reqs[r := Looked(newPool)]);
    }
  }

  lemma LookupLedger(s: State, r: ReqId, key: PoolKey, newPool: PoolId)
    ensures Ledger(s, Lookup(r, key, newPool), DoLookup(s, r, key, newPool))
  {
    hide Found, DoLookup;
    LookupFound(s, r, key, newPool);
  }

  lemma CountLedger(s: State, r: ReqId)
    requires r in s.reqs && s.reqs[r].Looked? && s.reqs[r].pool in s.pending && s.reqs[r].pool in s.inFlight
    ensures Ledger(s, Count(r), DoCount(s, r))
  {
    var p := s.reqs[r].pool;
    assert s.inFlight[p := s.inFlight[p] + 0] == s.inFlight;
  }

  lemma FetchFailLedger(s: State, r: ReqId)
    requires r in s.reqs && s.reqs[r].Fetching? && s.reqs[r].pool in s.pending && s.reqs[r].pool in s.inFlight
    ensures Ledger(s, FetchFail(r), DoFetchFail(s, r))
  {
  }

  lemma PublishLedger(s: State, r: ReqId)
    requires r in s.reqs && s.reqs[r].Claimed? && s.reqs[r].pool in s.pending && s.reqs[r].pool in s.inFlight
    ensures Ledger(s, Publish(r), DoPublish(s, r))
  {
    var p := s.reqs[r].pool;
    assert s.inFlight[p := s.inFlight[p] + 0] == s.inFlight;
  }

  lemma ReleaseBeginLedger(s: State, r: ReqId, abnormal: bool)
    requires r in s.reqs && s.reqs[r].Holding?
    ensures Ledger(s, ReleaseBegin(r, abnormal), DoReleaseBegin(s, r, abnormal))
  {
  }

  lemma DropLedger(s: State, r: ReqId, global: set<LeaseId>)
    requires r in s.reqs && s.reqs[r].Returning? && global <= s.global
    requires s.reqs[r].lease !in s.global || s.reqs[r].lease !in s.index
    ensures Ledger(s, ReleaseLookup(r), Drop(s, r).(global := global))
  {
  }

  lemma ForwardLedger(s: State, r: ReqId)
    requires r in s.reqs && s.reqs[r].Returning?
    requires s.reqs[r].lease in s.global && s.reqs[r].lease in s.index
    ensures var Returning(id, abnormal) := s.reqs[r];
            Ledger(s, ReleaseLookup(r), s.(reqs := s.reqs[r := Releasing(s.index[id], id, abnormal)]))
  {
  }

  lemma ReleaseLookupLedger(s: State, r: ReqId)
    requires r in s.reqs && s.reqs[r].Returning?
    ensures Ledger(s, ReleaseLookup(r), DoReleaseLookup(s, r))
  {
    hide Ledger;
    var id := s.reqs[r].lease;
    if id !in s.global {
      DropLedger(s, r, s.global);
    } else if id !in s.index {
      DropLedger(s, r, s.global - {id});
    } else {
      ForwardLedger(s, r);
    }
  }

  lemma ReleaseApplyLedger(s: State, r: ReqId)
    requires r in s.reqs && s.reqs[r].Releasing? && s.reqs[r].pool in s.idle && s.mapped <= s.store.Keys
    ensures Ledger(s, ReleaseApply(r), DoReleaseApply(s, r))
  {
    assert DoReleaseApply(s, r).mapped <= s.mapped;
  }

  lemma AcquireLedger(s: State, step: Step)
    requires Structure(s) && Enabled(s, step)
    requires step.Count? || step.TryIdle? || step.FetchFail? || step.FetchOk? || step.Publish?
    ensures Ledger(s, step, ApplyRequest(s, step))
  {
    hide Heap, Directory, Requests, Ledger, DoTryIdle, DoFetchOk, DoReleaseApply, DoPublish, DoLookup, DoReleaseBegin,
      DoReleaseLookup, DoCount, DoFetchFail;
    Basics(s);
    RequestBasics(s, step.r);
    match step
    case Count(r) => CountLedger(s, r);
    case TryIdle(r, sig) => TryIdleLedger(s, r, sig);
    case FetchFail(r) => FetchFailLedger(s, r);
    case FetchOk(r, id, reusable, sig, scheduler) => FetchOkLedger(s, r, id, reusable, sig, scheduler);
    case Publish(r) => PublishLedger(s, r);
  }

  lemma ReleaseLedger(s: State, step: Step)
    requires Structure(s) && Enabled(s, step) && (step.ReleaseBegin? || step.ReleaseLookup? || step.ReleaseApply?)
    ensures Ledger(s, step, ApplyRequest(s, step))
  {
    hide Heap, Directory, Requests, Ledger, DoTryIdle, DoFetchOk, DoReleaseApply, DoPublish, DoLookup, DoReleaseBegin,
      DoReleaseLookup, DoCount, DoFetchFail;
    Basics(s);
    RequestBasics(s, step.r);
    match step
    case ReleaseBegin(r, abnormal) => ReleaseBeginLedger(s, r, abnormal);
    case ReleaseLookup(r) => ReleaseLookupLedger(s, r);
    case ReleaseApply(r) => ReleaseApplyLedger(s, r);
  }

  lemma RequestLedger(s: State, step: Step)
    requires Structure(s) && Enabled(s, step) && RequestStep(step)
    ensures Ledger(s, step, ApplyRequest(s, step))
  {
    hide Structure, Enabled, Ledger, DoLookup;
    if step.Lookup? {
      LookupLedger(s, step.r, step.key, step.newPool);
    } else if step.ReleaseBegin? || step.ReleaseLookup? || step.ReleaseApply? {
      ReleaseLedger(s, step);
    } else {
      AcquireLedger(s, step);
    }
  }

  /** A step of a request moves that request alone. */
  lemma OneRequestMoves(s: State, step: Step, t: State)
    requires Ledger(s, step, t)
    ensures t.reqs == s.reqs - {step.r} || (step.r in t.reqs && t.reqs == s.reqs[step.r := t.reqs[step.r]])
  {
    hide Counts;
  }

  // ---------------------------------------------------------------------------------------
  // Steps of one lease: its expiry loop and a scheduler's answer about it
  // ---------------------------------------------------------------------------------------

  predicate LeaseStep(step: Step) {
    step.IdleTick? || step.IdleTimer? || step.WatchStop? || step.WatchRemove? || step.Decrease? || step.Renew?
  }

  /** Nothing changes outside the lease objects and their pools, but that leases leave lists. */
  ghost predicate LeasesOnly(s: State, t: State) {
    && t.reqs == s.reqs && t.pending == s.pending && t.inFlight == s.inFlight && t.home == s.home
    && t.registry == s.registry && t.index == s.index && t.exits == s.exits && t.ended == s.ended
    && t.purging == s.purging
    && t.mapped <= s.mapped && t.global <= s.global
  }

  lemma SetLeaseOnly(s: State, id: LeaseId, lease: Lease, watch: map<LeaseId, Watch>)
    ensures LeasesOnly(s, SetLease(s, id, lease).(watch := watch))
  {
  }

  lemma SameOnly(s: State)
    ensures LeasesOnly(s, s)
  {
  }

  lemma PurgeOnly(s: State, p: PoolId, id: LeaseId, global: set<LeaseId>, watch: map<LeaseId, Watch>)
    requires p in s.idle && s.mapped <= s.store.Keys && global <= s.global
    ensures LeasesOnly(s, WithView(s, p, Purge(View(s, p), {id})).(global := global, watch := watch))
  {
  }

  lemma IdleTickOnly(s: State, id: LeaseId)
    requires id in s.store
    ensures LeasesOnly(s, DoIdleTick(s, id))
  {
    hide LeasesOnly;
    SetLeaseOnly(s, id, s.store[id].(beginRelease := s.store[id].available), s.watch);
  }

  lemma IdleTimerOnly(s: State, id: LeaseId)
    requires id in s.store
    ensures LeasesOnly(s, DoIdleTimer(s, id))
  {
    hide LeasesOnly;
    SameOnly(s);
    SetLeaseOnly(s, id, s.store[id].Claim(), s.watch[id := Condemned(true)]);
  }

  lemma WatchRemoveOnly(s: State, id: LeaseId)
    requires id in s.home && s.home[id] in s.idle && s.mapped <= s.store.Keys
    ensures LeasesOnly(s, DoWatchRemove(s, id))
  {
    hide LeasesOnly, Purge;
    PurgeOnly(s, s.home[id], id, s.global, s.watch - {id});
  }

  lemma DecreaseOnly(s: State, key: PoolKey, id: LeaseId)
    requires (key in s.registry ==> s.registry[key] in s.idle) && s.mapped <= s.store.Keys
    ensures LeasesOnly(s, DoDecrease(s, key, id))
  {
    hide LeasesOnly, Purge;
    SameOnly(s);
    if Reaches(s, key, id) {
      PurgeOnly(s, s.registry[key], id, s.global - {id}, s.watch);
    }
  }

  lemma RenewOnly(s: State, key: PoolKey, id: LeaseId, reacquire: bool, scheduler: string)
    requires s.mapped <= s.store.Keys
    ensures LeasesOnly(s, DoRenew(s, key, id, reacquire, scheduler))
  {
    hide LeasesOnly;
    SameOnly(s);
    if Reaches(s, key, id) {
      SetLeaseOnly(s, id, s.store[id].(reacquire := reacquire, scheduler := scheduler), s.watch);
    }
  }

  lemma IdleStepOnly(s: State, step: Step)
    requires Structure(s) && Enabled(s, step) && (step.IdleTick? || step.IdleTimer?)
    ensures LeasesOnly(s, ApplyBackground(s, step))
  {
    hide Heap, Directory, Requests, Clearable, LeasesOnly, DoIdleTick, DoIdleTimer, DoWatchRemove, DoDecrease, DoRenew;
    Basics(s);
    match step
    case IdleTick(id) => IdleTickOnly(s, id);
    case IdleTimer(id) => IdleTimerOnly(s, id);
  }

  lemma WatchStepOnly(s: State, step: Step)
    requires Structure(s) && Enabled(s, step) && (step.WatchStop? || step.WatchRemove?)
    ensures LeasesOnly(s, ApplyBackground(s, step))
  {
    hide Heap, Directory, Requests, Clearable, LeasesOnly, DoIdleTick, DoIdleTimer, DoWatchRemove, DoDecrease, DoRenew;
    Basics(s);
    match step
    case WatchStop(id) => WatchOnly(s, s.watch[id := Condemned(false)]);
    case WatchRemove(id) => WatchRemoveOnly(s, id);
  }

  lemma AnswerStepOnly(s: State, step: Step)
    requires Structure(s) && Enabled(s, step) && (step.Decrease? || step.Renew?)
    ensures LeasesOnly(s, ApplyBackground(s, step))
  {
    hide Heap, Directory, Requests, Clearable, LeasesOnly, DoIdleTick, DoIdleTimer, DoWatchRemove, DoDecrease, DoRenew;
    Basics(s);
    match step
    case Decrease(key, id) => DecreaseOnly(s, key, id);
    case Renew(key, id, reacquire, scheduler) => RenewOnly(s, key, id, reacquire, scheduler);
  }

  lemma LeaseStepOnly(s: State, step: Step)
    requires Structure(s) && Enabled(s, step) && LeaseStep(step)
    ensures LeasesOnly(s, ApplyBackground(s, step))
  {
    hide Structure, Enabled, LeasesOnly, ApplyBackground;
    if step.Decrease? || step.Renew? {
      AnswerStepOnly(s, step);
    } else if step.IdleTick? || step.IdleTimer? {
      IdleStepOnly(s, step);
    } else {
      WatchStepOnly(s, step);
    }
  }

  lemma WatchOnly(s: State, watch: map<LeaseId, Watch>)
    ensures LeasesOnly(s, s.(watch := watch))
  {
  }

  // ---------------------------------------------------------------------------------------
  // The removal of one lease by a retain pass
  // ---------------------------------------------------------------------------------------

  /** The lease leaves its pool, both indexes and the exits of the pass; nothing else changes outside its pool. */
  ghost predicate Removes(s: State, t: State, id: LeaseId) {
    && t.reqs == s.reqs && t.pending == s.pending && t.inFlight == s.inFlight && t.home == s.home
    && t.registry == s.registry && t.ended == s.ended && t.purging == s.purging
    && t.mapped == (if id in s.index then s.mapped - {id} else s.mapped)
    && t.index == s.index - {id} && t.global == s.global - {id}
    && s.exits.Some? && t.exits == Some(s.exits.value - {id})
  }

  lemma IndexedIsRemoved(s: State, id: LeaseId)
    requires s.exits.Some? && s.mapped <= s.store.Keys && id in s.index && s.index[id] in s.idle
    ensures Removes(s, DoPurgeExit(s, id), id)
  {
    var v := Purge(View(s, s.index[id]), {id});
    assert v.mapped == s.mapped - {id};
    assert DoPurgeExit(s, id) == s.(store := v.store, mapped := v.mapped, idle := s.idle[s.index[id] := v.idle],
      global := s.global - {id}, index := s.index - {id}, exits := Some(s.exits.value - {id}));
  }

  lemma UnindexedIsRemoved(s: State, id: LeaseId)
    requires s.exits.Some? && s.mapped <= s.store.Keys && id !in s.index
    ensures Removes(s, DoPurgeExit(s, id), id)
  {
    assert s.index - {id} == s.index;
    assert DoPurgeExit(s, id) == s.(global := s.global - {id}, exits := Some(s.exits.value - {id}));
  }

  lemma PurgeExitRemoves(s: State, id: LeaseId)
    requires Structure(s) && Enabled(s, PurgeExit(id))
    ensures Removes(s, ApplyBackground(s, PurgeExit(id)), id)
  {
    hide Heap, Directory, Requests, Removes, DoPurgeExit;
    Basics(s);
    if id in s.index {
      IndexedIsRemoved(s, id);
    } else {
      UnindexedIsRemoved(s, id);
    }
  }

  // ---------------------------------------------------------------------------------------
  // A retain pass
  // ---------------------------------------------------------------------------------------

  /** The pass has the lease still to remove, or it has removed it and nobody can list it again meanwhile. */
  ghost predicate InHand(s: State, id: LeaseId) {
    && id in s.home && s.exits.Some?
    && if id in s.exits.value then id in s.index
       else s.purging && id !in s.global && id !in s.index && id !in s.mapped
  }

  lemma RequestKeepsInHand(s: State, step: Step, id: LeaseId)
    requires Structure(s) && Enabled(s, step) && RequestStep(step) && InHand(s, id)
    ensures InHand(ApplyRequest(s, step), id)
  {
    hide Structure, ApplyRequest, Counts, Found, Tried;
    RequestLedger(s, step);
    LookupAddsNoLease(s, step, ApplyRequest(s, step));
  }

  lemma LookupAddsNoLease(s: State, step: Step, t: State)
    requires Ledger(s, step, t)
    ensures s.home.Keys <= t.home.Keys && s.index.Keys <= t.index.Keys
    ensures forall id :: id in t.mapped ==> id in s.mapped || id !in s.home
  {
    hide Counts, Found, Tried;
  }

  lemma PurgeKeepsInHand(s: State, gone: LeaseId, id: LeaseId)
    requires Structure(s) && Enabled(s, PurgeExit(gone)) && InHand(s, id)
    ensures InHand(ApplyBackground(s, PurgeExit(gone)), id)
  {
    hide Structure, DoPurgeExit, ApplyBackground;
    PurgeExitRemoves(s, gone);
  }

  lemma LoopKeepsInHand(s: State, step: Step, id: LeaseId)
    requires Structure(s) && Enabled(s, step) && !RequestStep(step) && !LeaseStep(step) && InHand(s, id)
    requires !step.PurgeExit? && !step.EndPurge?
    ensures InHand(ApplyBackground(s, step), id)
  {
    hide Heap, Directory, Requests, Clearable, DoIdleTick, DoIdleTimer, DoWatchRemove, DoDecrease, DoRenew, DoPurgeExit;
  }

  lemma StepKeepsInHand(s: State, step: Step, id: LeaseId)
    requires Structure(s) && Enabled(s, step) && InHand(s, id) && !step.EndPurge?
    ensures InHand(Apply(s, step), id)
  {
    hide Structure, ApplyRequest, ApplyBackground, Enabled;
    if RequestStep(step) {
      RequestKeepsInHand(s, step, id);
    } else if LeaseStep(step) {
      LeaseStepOnly(s, step);
    } else if step.PurgeExit? {
      PurgeKeepsInHand(s, step.id, id);
    } else {
      LoopKeepsInHand(s, step, id);
    }
  }

  lemma {:induction false} StaysInHand(s: State, steps: seq<Step>, t: State, id: LeaseId)
    requires Runs(s, steps, t) && InHand(s, id) && forall i :: 0 <= i < |steps| ==> !steps[i].EndPurge?
    ensures InHand(t, id)
    decreases |steps|
  {
    hide Structure, Enabled, Apply, InHand;
    if steps != [] {
      StepKeepsInHand(s, steps[0], id);
      StaysInHand(Apply(s, steps[0]), steps[1..], t, id);
    }
  }

  lemma CollectFacts(s: State, id: LeaseId)
    requires Inv(s) && Enabled(s, Collect)
    requires id in s.global && id in s.store && (s.store[id].exited || !s.store[id].reusable)
    ensures var c := Apply(s, Collect); Inv(c) && c.exits.Some? && id in c.exits.value && InHand(c, id) && !c.purging
  {
    hide Heap, Directory, Requests, Exclusive, Tracked, Guarded;
    Basics(s);
  }

  /**
   A retain pass collects at `s`, removes lease after lease while everybody else goes on, and ends:
   every lease that was listed and exited (or not reusable) at `s` has left both indexes and its pool.
   */
  lemma RetainPassForgetsExits(s: State, steps: seq<Step>, t: State, id: LeaseId)
    requires Inv(s) && Enabled(s, Collect) && Runs(Apply(s, Collect), steps, t)
    requires (forall i :: 0 <= i < |steps| ==> !steps[i].EndPurge?) && Enabled(t, EndPurge)
    requires id in s.global && id in s.store && (s.store[id].exited || !s.store[id].reusable)
    ensures Inv(t) && var u := Apply(t, EndPurge); id !in u.global && id !in u.index && id !in u.mapped
  {
    hide Apply, Structure, Exclusive, Tracked, Guarded, Runs;
    CollectFacts(s, id);
    StaysInHand(Apply(s, Collect), steps, t, id);
    RunKeeps(Apply(s, Collect), steps, t);
    EndPurgeOnly(t);
  }

  lemma EndPurgeOnly(t: State)
    requires Structure(t) && Enabled(t, EndPurge)
    ensures Apply(t, EndPurge) == t.(exits := None, purging := false)
  {
    hide Structure;
  }

  lemma PurgeForgets(t: State, id: LeaseId)
    requires Structure(t) && Enabled(t, PurgeExit(id)) && id in t.index
    ensures var u := Apply(t, PurgeExit(id)); id !in u.global && id !in u.index && id !in u.mapped
  {
    hide Structure, ApplyBackground;
    PurgeExitRemoves(t, id);
  }
}
