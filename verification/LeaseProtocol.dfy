/**
 The lease protocol of one function (FuncKeyLeasePools in lease_manager.go) as a state
 machine.  One step is one lock-protected section; requests, the expiry loop of each lease,
 the retain pass and the deletion of the function interleave freely.  The scheduler is an
 oracle that issues an ID it never issued before, so an ID names one lease object.
 */
module LeaseProtocol {
  import opened Sequences
  import opened LeaseModel

  type PoolId = nat
  type ReqId = nat
  type PoolKey = string

  /** Where a request stands between acquireInstance and releaseInstanceLease. */
  datatype Phase =
    | Looked(pool: PoolId)                    // has the pool, pendingNum not yet raised
    | Counted(pool: PoolId)                   // pendingNum raised
    | Fetching(pool: PoolId)                  // inFlightCount raised, the scheduler is asked
    | Claimed(pool: PoolId, lease: LeaseId)   // owns the lease, not yet in the two indexes
    | Holding(lease: LeaseId)                 // the allocation is with the caller
    | Returning(lease: LeaseId, abnormal: bool)   // the manager has found the function's pools
    | Releasing(pool: PoolId, lease: LeaseId, abnormal: bool)

  /** The expiry loop of a lease: still running, or on its way to removeLease. */
  datatype Watch = Watching | Condemned(claimed: bool)

  datatype State = State(
    store: map<LeaseId, Lease>,        // every lease object
    home: map<LeaseId, PoolId>,        // the pool it entered
    mapped: set<LeaseId>,              // in the leaseMap of that pool
    idle: map<PoolId, seq<LeaseId>>,   // the idle list of every pool object
    stopped: set<PoolId>,              // pools whose stopCh is closed
    registry: map<PoolKey, PoolId>,    // leasePools
    global: set<LeaseId>,              // the domain of globalLeaseList
    index: map<LeaseId, PoolId>,       // leaseIdToLeasePool
    reqs: map<ReqId, Phase>,
    watch: map<LeaseId, Watch>,
    pending: map<PoolId, int>,         // pendingNum
    inFlight: map<PoolId, int>,        // inFlightCount
    exits: Option<set<LeaseId>>,       // exitLeases of the retain pass under way, as far as not yet removed
    purging: bool,                     // the pass removes them and holds the function's lock
    detached: bool,                    // ClearFuncLeasePools removed the function
    ended: bool)                       // the loop of the retain passes has returned

  const INIT := State(map[], map[], {}, map[], {}, map[], {}, map[], map[], map[], map[], map[], None, false, false,
                      false)

  datatype Step =
    | Lookup(r: ReqId, key: PoolKey, newPool: PoolId)
    | Count(r: ReqId)
    | TryIdle(r: ReqId, sig: string)
    | FetchFail(r: ReqId)
    | FetchOk(r: ReqId, id: LeaseId, reusable: bool, sig: string, scheduler: string)
    | Publish(r: ReqId)
    | ReleaseBegin(r: ReqId, abnormal: bool)
    | ReleaseLookup(r: ReqId)
    | ReleaseApply(r: ReqId)
    | IdleTick(id: LeaseId)
    | IdleTimer(id: LeaseId)
    | WatchStop(id: LeaseId)
    | WatchRemove(id: LeaseId)
    | Decrease(key: PoolKey, id: LeaseId)
    | Renew(key: PoolKey, id: LeaseId, reacquire: bool, scheduler: string)
    | Collect
    | BeginPurge
    | PurgeExit(id: LeaseId)
    | EndPurge
    | ClearEmpty(key: PoolKey)
    | ClearFunction
    | EndLoop

  // ---------------------------------------------------------------------------------------
  // The invariant, one predicate per concern and each over the components it speaks of
  // ---------------------------------------------------------------------------------------

  predicate HasLease(ph: Phase) {
    ph.Claimed? || ph.Holding? || ph.Returning? || ph.Releasing?
  }

  predicate HasPool(ph: Phase) {
    !ph.Holding? && !ph.Returning?
  }

  /** Lease objects against leaseMap and the idle lists. */
  ghost predicate Heap(store: map<LeaseId, Lease>, home: map<LeaseId, PoolId>, mapped: set<LeaseId>,
                       idle: map<PoolId, seq<LeaseId>>)
  {
    && store.Keys == home.Keys && mapped <= store.Keys
    && (forall id :: id in home ==> home[id] in idle)
    && (forall id :: id in store ==> (store[id].exited <==> id !in mapped))
    && (forall id :: id in store && store[id].exited ==> !store[id].available)
    && (forall p :: p in idle ==> Distinct(idle[p]))
    && (forall p, id :: p in idle && id in idle[p] ==> id in mapped && home[id] == p && store[id].reusable)
  }

  /** leasePools and the two indexes name existing pools and leases. */
  ghost predicate Directory(home: map<LeaseId, PoolId>, pools: set<PoolId>, registry: map<PoolKey, PoolId>,
                            global: set<LeaseId>, index: map<LeaseId, PoolId>)
  {
    && (forall k :: k in registry ==> registry[k] in pools)
    && global <= index.Keys
    && (forall id :: id in index ==> id in home && index[id] == home[id])
  }

  /** Requests name existing pools and leases, and a lease together with its own pool. */
  ghost predicate Requests(home: map<LeaseId, PoolId>, pools: set<PoolId>, reqs: map<ReqId, Phase>) {
    && (forall r :: r in reqs && HasPool(reqs[r]) ==> reqs[r].pool in pools)
    && (forall r :: r in reqs && HasLease(reqs[r]) ==> reqs[r].lease in home)
    && (forall r :: r in reqs && HasLease(reqs[r]) && HasPool(reqs[r]) ==> reqs[r].pool == home[reqs[r].lease])
  }

  /** At most one request has a lease; a lease with a request is neither claimable nor idle. */
  ghost predicate Exclusive(store: map<LeaseId, Lease>, idle: map<PoolId, seq<LeaseId>>, reqs: map<ReqId, Phase>,
                            watch: map<LeaseId, Watch>)
  {
    && (forall q, r :: q in reqs && r in reqs && q != r && HasLease(reqs[q]) && HasLease(reqs[r]) ==>
          reqs[q].lease != reqs[r].lease)
    && (forall r :: r in reqs && HasLease(reqs[r]) ==>
          reqs[r].lease in store && !store[reqs[r].lease].available)
    && (forall r, p :: r in reqs && HasLease(reqs[r]) && p in idle ==> reqs[r].lease !in idle[p])
    && (forall r :: r in reqs && HasLease(reqs[r]) && reqs[r].lease in watch ==>
          watch[reqs[r].lease] != Condemned(true))
    && (forall id :: id in watch && watch[id] == Condemned(true) ==> id in store && !store[id].available)
  }

  /** Some request has `id`. */
  ghost predicate Owned(reqs: map<ReqId, Phase>, id: LeaseId) {
    exists r :: r in reqs && HasLease(reqs[r]) && reqs[r].lease == id
  }

  /** Some request has `id` and will put it into the indexes. */
  ghost predicate BeingPublished(reqs: map<ReqId, Phase>, id: LeaseId) {
    exists r :: r in reqs && reqs[r].Claimed? && reqs[r].lease == id
  }

  /** Every live lease is in the indexes or about to be. */
  ghost predicate Tracked(mapped: set<LeaseId>, global: set<LeaseId>, reqs: map<ReqId, Phase>) {
    forall id :: id in mapped && id !in global ==> BeingPublished(reqs, id)
  }

  /**
   Every live reusable lease has its expiry loop.  An idle lease is claimable unless that loop
   took it, and before the function is deleted nothing else keeps an unowned lease unclaimable.
   */
  ghost predicate Guarded(store: map<LeaseId, Lease>, mapped: set<LeaseId>, idle: map<PoolId, seq<LeaseId>>,
                          reqs: map<ReqId, Phase>, watch: map<LeaseId, Watch>, detached: bool)
  {
    && mapped <= store.Keys
    && (forall id :: id in mapped && store[id].reusable ==> id in watch)
    && (forall p, id :: p in idle && id in idle[p] && id in store && !store[id].available ==>
          id in watch && watch[id] == Condemned(true))
    && (forall id :: !detached && id in mapped && Unattended(store[id], watch, id) ==> Owned(reqs, id))
  }

  /** A reusable lease that cannot be claimed although its expiry loop only waits. */
  predicate Unattended(lease: Lease, watch: map<LeaseId, Watch>, id: LeaseId) {
    lease.reusable && !lease.available && id in watch && watch[id].Watching?
  }

  ghost predicate Structure(s: State) {
    && Heap(s.store, s.home, s.mapped, s.idle)
    && Directory(s.home, s.idle.Keys, s.registry, s.global, s.index)
    && Requests(s.home, s.idle.Keys, s.reqs)
    && s.watch.Keys <= s.home.Keys
    && s.pending.Keys == s.idle.Keys && s.inFlight.Keys == s.idle.Keys
    && (s.ended ==> s.exits.None?) && (s.purging ==> s.exits.Some?)
  }

  ghost predicate Inv(s: State) {
    && Structure(s)
    && Exclusive(s.store, s.idle, s.reqs, s.watch)
    && Tracked(s.mapped, s.global, s.reqs)
    && Guarded(s.store, s.mapped, s.idle, s.reqs, s.watch, s.detached)
  }

  // ---------------------------------------------------------------------------------------
  // The steps
  // ---------------------------------------------------------------------------------------

  /** Pool `p` as its lock-protected sections see it. */
  function View(s: State, p: PoolId): Pool
    requires p in s.idle
  {
    Pool(s.store, s.mapped, s.idle[p])
  }

  function WithView(s: State, p: PoolId, v: Pool): State {
    s.(store := v.store, mapped := v.mapped, idle := s.idle[p := v.idle])
  }

  function SetLease(s: State, id: LeaseId, lease: Lease): State {
    s.(store := s.store[id := lease])
  }

  function Drop(s: State, r: ReqId): State {
    s.(reqs := s.reqs - {r})
  }

  /** The registered pool that serves `key` holds `id` in its leaseMap. */
  predicate Reaches(s: State, key: PoolKey, id: LeaseId) {
    key in s.registry && id in s.mapped && id in s.home && s.home[id] == s.registry[key]
  }

  /** A section under the function's lock waits while a retain pass holds it. */
  ghost predicate Enabled(s: State, step: Step) {
    match step
    case Lookup(r, key, newPool) => !s.purging && r !in s.reqs && newPool !in s.idle
    case Count(r) => !s.purging && r in s.reqs && s.reqs[r].Looked?
    case TryIdle(r, sig) => r in s.reqs && s.reqs[r].Counted?
    case FetchFail(r) => r in s.reqs && s.reqs[r].Fetching?
    case FetchOk(r, id, _, _, _) => r in s.reqs && s.reqs[r].Fetching? && id !in s.home
    case Publish(r) => !s.purging && r in s.reqs && s.reqs[r].Claimed?
    case ReleaseBegin(r, _) => r in s.reqs && s.reqs[r].Holding?
    case ReleaseLookup(r) => !s.purging && r in s.reqs && s.reqs[r].Returning?
    case ReleaseApply(r) => r in s.reqs && s.reqs[r].Releasing?
    case IdleTick(id) => id in s.watch && s.watch[id].Watching?
    case IdleTimer(id) => id in s.watch && s.watch[id].Watching?
    case WatchStop(id) => id in s.watch && s.watch[id].Watching? && id in s.store && id in s.home
                          && (s.store[id].exited || s.home[id] in s.stopped)
    case WatchRemove(id) => id in s.watch && s.watch[id].Condemned?
    case Decrease(_, _) => !s.purging
    case Renew(_, _, _, _) => !s.purging
    case Collect => s.exits.None? && !s.ended
    case BeginPurge => s.exits.Some? && !s.purging
    case PurgeExit(id) => s.purging && s.exits.Some? && id in s.exits.value
    case EndPurge => s.purging && s.exits == Some({})
    case ClearEmpty(key) => !s.ended && !s.purging && key in s.registry && Clearable(s, s.registry[key])
    case ClearFunction => !s.purging
    case EndLoop => s.detached && s.exits.None?
  }

  /** clearEmptyLeasePool: no lease, nothing in flight, nobody counted. */
  predicate Clearable(s: State, p: PoolId) {
    && (forall id :: id in s.mapped && id in s.home ==> s.home[id] != p)
    && p in s.inFlight && s.inFlight[p] == 0
    && p in s.pending && s.pending[p] <= 0
  }

  // The steps of an acquiring request (acquireInstance, acquireInstanceLease).

  function DoLookup(s: State, r: ReqId, key: PoolKey, newPool: PoolId): State {
    if key in s.registry then s.(reqs := s.reqs[r := Looked(s.registry[key])])
    else s.(idle := s.idle[newPool := []], registry := s.registry[key := newPool],
            pending := s.pending[newPool := 0], inFlight := s.inFlight[newPool := 0],
            reqs := s.reqs[r := Looked(newPool)])
  }

  function DoCount(s: State, r: ReqId): State
    requires r in s.reqs && s.reqs[r].Looked? && s.reqs[r].pool in s.pending
  {
    var p := s.reqs[r].pool;
    s.(reqs := s.reqs[r := Counted(p)], pending := s.pending[p := s.pending[p] + 1])
  }

  ghost function DoTryIdle(s: State, r: ReqId, sig: string): State
    requires Structure(s) && r in s.reqs && s.reqs[r].Counted?
  {
    var p := s.reqs[r].pool;
    var (v, got) := Traverse(View(s, p), sig);
    if got.Some? then WithView(s, p, v).(reqs := s.reqs[r := Claimed(p, got.value)])
    else WithView(s, p, v).(reqs := s.reqs[r := Fetching(p)], inFlight := s.inFlight[p := s.inFlight[p] + 1])
  }

  function DoFetchFail(s: State, r: ReqId): State
    requires r in s.reqs && s.reqs[r].Fetching? && s.reqs[r].pool in s.pending && s.reqs[r].pool in s.inFlight
  {
    var p := s.reqs[r].pool;
    Drop(s, r).(inFlight := s.inFlight[p := s.inFlight[p] - 1], pending := s.pending[p := s.pending[p] - 1])
  }

  /** A lease as acquireHandler builds it and acquireInstanceLease claims it. */
  function NewLease(reusable: bool, sig: string, scheduler: string): Lease {
    Lease(true, false, false, false, reusable, sig, 0, false, scheduler).Claim()
  }

  function DoFetchOk(s: State, r: ReqId, id: LeaseId, reusable: bool, sig: string, scheduler: string): State
    requires r in s.reqs && s.reqs[r].Fetching? && s.reqs[r].pool in s.idle && s.reqs[r].pool in s.inFlight
  {
    var p := s.reqs[r].pool;
    WithView(s, p, Insert(View(s, p), id, NewLease(reusable, sig, scheduler))).(
      reqs := s.reqs[r := Claimed(p, id)], home := s.home[id := p],
      inFlight := s.inFlight[p := s.inFlight[p] - 1],
      watch := if reusable then s.watch[id := Watching] else s.watch)
  }

  function DoPublish(s: State, r: ReqId): State
    requires r in s.reqs && s.reqs[r].Claimed? && s.reqs[r].pool in s.pending
  {
    var p, id := s.reqs[r].pool, s.reqs[r].lease;
    s.(reqs := s.reqs[r := Holding(id)], global := s.global + {id}, index := s.index[id := p],
       pending := s.pending[p := s.pending[p] - 1])
  }

  // The three sections of a release: the manager looks the function up, its pools the lease, and the
  // pool takes the lease back.  The function may be deleted in between.

  function DoReleaseBegin(s: State, r: ReqId, abnormal: bool): State
    requires r in s.reqs && s.reqs[r].Holding?
  {
    if s.detached then Drop(s, r) else s.(reqs := s.reqs[r := Returning(s.reqs[r].lease, abnormal)])
  }

  function DoReleaseLookup(s: State, r: ReqId): State
    requires r in s.reqs && s.reqs[r].Returning?
  {
    var Returning(id, abnormal) := s.reqs[r];
    if id !in s.global then Drop(s, r)
    else if id !in s.index then Drop(s, r).(global := s.global - {id})
    else s.(reqs := s.reqs[r := Releasing(s.index[id], id, abnormal)])
  }

  function DoReleaseApply(s: State, r: ReqId): State
    requires r in s.reqs && s.reqs[r].Releasing? && s.reqs[r].pool in s.idle && s.mapped <= s.store.Keys
  {
    var Releasing(p, id, abnormal) := s.reqs[r];
    Drop(WithView(s, p, Release(View(s, p), id, abnormal)), r)
  }

  // The expiry loop of one lease (handleLeaseExpiredLoop, checkLeaseIdle).

  function DoIdleTick(s: State, id: LeaseId): State
    requires id in s.store
  {
    SetLease(s, id, s.store[id].(beginRelease := s.store[id].available))
  }

  function DoIdleTimer(s: State, id: LeaseId): State
    requires id in s.store
  {
    if s.store[id].available then SetLease(s, id, s.store[id].Claim()).(watch := s.watch[id := Condemned(true)])
    else s
  }

  function DoWatchRemove(s: State, id: LeaseId): State
    requires id in s.home && s.home[id] in s.idle && s.mapped <= s.store.Keys
  {
    WithView(s, s.home[id], Purge(View(s, s.home[id]), {id})).(watch := s.watch - {id})
  }

  // The retain pass and its responses.

  function DoDecrease(s: State, key: PoolKey, id: LeaseId): State
    requires key in s.registry ==> s.registry[key] in s.idle
    requires s.mapped <= s.store.Keys
  {
    if Reaches(s, key, id)
    then WithView(s, s.registry[key], Purge(View(s, s.registry[key]), {id})).(global := s.global - {id})
    else s
  }

  function DoRenew(s: State, key: PoolKey, id: LeaseId, reacquire: bool, scheduler: string): State
    requires s.mapped <= s.store.Keys
  {
    if Reaches(s, key, id) then SetLease(s, id, s.store[id].(reacquire := reacquire, scheduler := scheduler)) else s
  }

  function DoCollect(s: State): State
    requires s.global <= s.store.Keys
  {
    s.(exits := Some(set id | id in s.global && (!s.store[id].reusable || s.store[id].exited)))
  }

  /** processBatchLease, one lease: its pool destroys it, and the indexes forget it. */
  function DoPurgeExit(s: State, id: LeaseId): State
    requires s.exits.Some? && s.mapped <= s.store.Keys && (id in s.index ==> s.index[id] in s.idle)
  {
    var left := Some(s.exits.value - {id});
    if id in s.index then
      WithView(s, s.index[id], Purge(View(s, s.index[id]), {id})).(
        global := s.global - {id}, index := s.index - {id}, exits := left)
    else s.(global := s.global - {id}, exits := left)
  }

  predicate RequestStep(step: Step) {
    step.Lookup? || step.Count? || step.TryIdle? || step.FetchFail? || step.FetchOk? || step.Publish?
    || step.ReleaseBegin? || step.ReleaseLookup? || step.ReleaseApply?
  }

  ghost function ApplyRequest(s: State, step: Step): State
    requires RequestStep(step) && Structure(s) && Enabled(s, step)
  {
    match step
    case Lookup(r, key, newPool) => DoLookup(s, r, key, newPool)
    case Count(r) => DoCount(s, r)
    case TryIdle(r, sig) => DoTryIdle(s, r, sig)
    case FetchFail(r) => DoFetchFail(s, r)
    case FetchOk(r, id, reusable, sig, scheduler) => DoFetchOk(s, r, id, reusable, sig, scheduler)
    case Publish(r) => DoPublish(s, r)
    case ReleaseBegin(r, abnormal) => DoReleaseBegin(s, r, abnormal)
    case ReleaseLookup(r) => DoReleaseLookup(s, r)
    case ReleaseApply(r) => DoReleaseApply(s, r)
  }

  ghost function ApplyBackground(s: State, step: Step): State
    requires !RequestStep(step) && Structure(s) && Enabled(s, step)
  {
    match step
    case IdleTick(id) => DoIdleTick(s, id)
    case IdleTimer(id) => DoIdleTimer(s, id)
    case WatchStop(id) => s.(watch := s.watch[id := Condemned(false)])
    case WatchRemove(id) => DoWatchRemove(s, id)
    case Decrease(key, id) => DoDecrease(s, key, id)
    case Renew(key, id, reacquire, scheduler) => DoRenew(s, key, id, reacquire, scheduler)
    case Collect => DoCollect(s)
    case BeginPurge => s.(purging := true)
    case PurgeExit(id) => DoPurgeExit(s, id)
    case EndPurge => s.(exits := None, purging := false)
    case ClearEmpty(key) => s.(registry := s.registry - {key}, stopped := s.stopped + {s.registry[key]})
    case ClearFunction => s.(detached := true, stopped := s.stopped + s.registry.Values)
    case EndLoop => s.(ended := true, stopped := s.stopped + s.registry.Values)
  }

  /** One step of any party. */
  ghost function Apply(s: State, step: Step): State
    requires Structure(s) && Enabled(s, step)
  {
    if RequestStep(step) then ApplyRequest(s, step) else ApplyBackground(s, step)
  }
}
