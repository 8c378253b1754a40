/**
 Waiting for an instance (instancemanager/instance.go).  A waiter looks through the instance
 maps under the update mutex and, if it finds nothing, sleeps on the current update channel;
 a writer changes the maps without that mutex and only then takes it to close the channel and
 put a new one in its place.  One step is one lock-protected section, and everything else
 interleaves: in particular a writer may change a queue the waiter has already looked at.
 */
module InstanceWait {
  import opened Sequences

  type Thread = nat
  type Ref = nat
  type InstanceId = string
  type FuncKey = string
  type ResKey = string

  /** A place a waiter looks in and a writer announces. */
  datatype Place = InQueue(q: Ref) | InEvicting

  datatype Written = Written(place: Place, id: InstanceId)

  datatype Proc =
    // waitInstanceByID
    | Want(id: InstanceId, force: bool)                                     // before the mutex
    | Scan(id: InstanceId, force: bool, maps: set<Ref>, queues: set<Ref>)   // what is left to look at
    | ScanEvicting(id: InstanceId)
    | Parked(id: InstanceId, force: bool, ch: nat)
    | Done(found: bool)
    // addInstance: before the root, with the function map, with the queue
    | AddRoot(f: FuncKey, r: Option<ResKey>, id: InstanceId)
    | AddMap(f: FuncKey, r: Option<ResKey>, id: InstanceId, m: Ref)
    | AddQueue(f: FuncKey, r: Option<ResKey>, id: InstanceId, q: Ref)
    // delInstance, the same and then the removal of what is empty
    | DelRoot(f: FuncKey, r: Option<ResKey>, id: InstanceId)
    | DelMap(f: FuncKey, r: Option<ResKey>, id: InstanceId, m: Ref)
    | DelQueue(f: FuncKey, r: Option<ResKey>, id: InstanceId, m: Ref, q: Ref)
    | TrimQueue(f: FuncKey, r: Option<ResKey>, m: Ref, q: Ref)
    | TrimMap(f: FuncKey, m: Ref)
    // notifyInstanceUpdate: what was written before, and the function map a deletion trims after
    | Notify(wrote: Option<Written>, trim: Option<(FuncKey, Ref)>)

  datatype State = State(
    procs: map<Thread, Proc>,
    holder: Option<Thread>,              // of the update mutex, between two steps
    gen: nat,                            // the current channel; every smaller one is closed
    root: map<FuncKey, Ref>,             // instancesMap
    maps: map<Ref, map<ResKey, Ref>>,    // instanceQueues of every function map object
    queues: map<Ref, set<InstanceId>>,   // instances of every queue object
    evicting: set<InstanceId>,
    hints: set<InstanceId>)              // routeOnlyInstances

  const INIT := State(map[], None, 0, map[], map[], map[], {}, {})

  datatype Step =
    | BeginWait(t: Thread, id: InstanceId, force: bool)
    | Lock(t: Thread)
    | OpenMap(t: Thread, m: Ref)
    | ReadQueue(t: Thread, q: Ref)
    | ReadHint(t: Thread)
    | ReadEvicting(t: Thread)
    | Wake(t: Thread)
    | Cancel(t: Thread)
    | BeginAdd(t: Thread, f: FuncKey, r: Option<ResKey>, id: InstanceId)
    | AddFindMap(t: Thread, made: Ref)
    | AddFindQueue(t: Thread, made: Ref)
    | AddWrite(t: Thread)
    | BeginDelete(t: Thread, f: FuncKey, r: Option<ResKey>, id: InstanceId)
    | DelFindMap(t: Thread)
    | DelFindQueue(t: Thread)
    | DelErase(t: Thread)
    | DelTrimQueue(t: Thread)
    | DelTrimMap(t: Thread)
    | Announce(t: Thread)
    | StoreEvicting(t: Thread, id: InstanceId)
    | DropEvicting(t: Thread, id: InstanceId)
    | StoreHint(id: InstanceId)
    | DropHint(id: InstanceId)

  // ---------------------------------------------------------------------------------------
  // The steps
  // ---------------------------------------------------------------------------------------

  function SetProc(s: State, t: Thread, p: Proc): State {
    s.(procs := s.procs[t := p])
  }

  /** The update mutex is released as thread `t` goes on as `p`. */
  function Unlock(s: State, t: Thread, p: Proc): State {
    SetProc(s, t, p).(holder := None)
  }

  ghost predicate Enabled(s: State, step: Step) {
    match step
    case BeginWait(t, _, _) => t !in s.procs
    case Lock(t) => t in s.procs && s.procs[t].Want? && s.holder == None
    case OpenMap(t, m) => t in s.procs && s.procs[t].Scan? && m in s.procs[t].maps
    case ReadQueue(t, q) => t in s.procs && s.procs[t].Scan? && q in s.procs[t].queues
    case ReadHint(t) => t in s.procs && s.procs[t].Scan? && s.procs[t].maps == {} && s.procs[t].queues == {}
    case ReadEvicting(t) => t in s.procs && s.procs[t].ScanEvicting?
    case Wake(t) => t in s.procs && s.procs[t].Parked? && s.procs[t].ch < s.gen
    case Cancel(t) => t in s.procs && s.procs[t].Parked?
    case BeginAdd(t, _, _, id) => t !in s.procs && id != ""
    case AddFindMap(t, made) => t in s.procs && s.procs[t].AddRoot? && made !in s.maps
    case AddFindQueue(t, made) => t in s.procs && s.procs[t].AddMap? && made !in s.queues
    case AddWrite(t) => t in s.procs && s.procs[t].AddQueue?
    case BeginDelete(t, _, _, _) => t !in s.procs
    case DelFindMap(t) => t in s.procs && s.procs[t].DelRoot?
    case DelFindQueue(t) => t in s.procs && s.procs[t].DelMap?
    case DelErase(t) => t in s.procs && s.procs[t].DelQueue?
    case DelTrimQueue(t) => t in s.procs && s.procs[t].TrimQueue?
    case DelTrimMap(t) => t in s.procs && s.procs[t].TrimMap?
    case Announce(t) => t in s.procs && s.procs[t].Notify? && s.holder == None
    case StoreEvicting(t, id) => t !in s.procs && id != ""
    case DropEvicting(t, id) => t !in s.procs
    case StoreHint(id) => id != ""
    case DropHint(_) => true
  }

  /** The waiter's steps.  The empty ID is looked up nowhere but among the evicting instances. */
  function Wait(s: State, step: Step): State
    requires Enabled(s, step) && Refs(s)
    requires step.BeginWait? || step.Lock? || step.OpenMap? || step.ReadQueue? || step.ReadHint? || step.ReadEvicting?
             || step.Wake? || step.Cancel?
  {
    var t := step.t;
    match step
    case BeginWait(_, id, force) => SetProc(s, t, Want(id, force))
    case Lock(_) =>
      var p := s.procs[t];
      SetProc(s, t, Scan(p.id, p.force, if p.id == "" then {} else s.root.Values, {})).(holder := Some(t))
    case OpenMap(_, m) =>
      var p := s.procs[t];
      SetProc(s, t, p.(maps := p.maps - {m}, queues := p.queues + s.maps[m].Values))
    case ReadQueue(_, q) =>
      var p := s.procs[t];
      if p.id in s.queues[q] then Unlock(s, t, Done(true)) else SetProc(s, t, p.(queues := p.queues - {q}))
    case ReadHint(_) =>
      var p := s.procs[t];
      if p.id in s.hints then Unlock(s, t, Done(true))
      else if p.force then SetProc(s, t, ScanEvicting(p.id))
      else Unlock(s, t, Parked(p.id, false, s.gen))
    case ReadEvicting(_) =>
      var p := s.procs[t];
      Unlock(s, t, if p.id in s.evicting then Done(true) else Parked(p.id, true, s.gen))
    case Wake(_) => SetProc(s, t, Want(s.procs[t].id, s.procs[t].force))
    case Cancel(_) => SetProc(s, t, Done(false))
  }

  predicate AddStep(step: Step) {
    step.BeginAdd? || step.AddFindMap? || step.AddFindQueue? || step.AddWrite?
  }

  function Add(s: State, step: Step): State
    requires Enabled(s, step) && Refs(s) && AddStep(step)
  {
    var t := step.t;
    match step
    case BeginAdd(_, f, r, id) => SetProc(s, t, AddRoot(f, r, id))
    case AddFindMap(_, made) =>
      var p := s.procs[t];
      if p.f in s.root then SetProc(s, t, AddMap(p.f, p.r, p.id, s.root[p.f]))
      else SetProc(s, t, AddMap(p.f, p.r, p.id, made)).(root := s.root[p.f := made], maps := s.maps[made := map[]])
    case AddFindQueue(_, made) =>
      var p := s.procs[t];
      if p.r.None? then SetProc(s, t, Notify(None, None))
      else if p.r.value in s.maps[p.m] then SetProc(s, t, AddQueue(p.f, p.r, p.id, s.maps[p.m][p.r.value]))
      else
        var linked: map<ResKey, Ref> := s.maps[p.m][p.r.value := made];
        SetProc(s, t, AddQueue(p.f, p.r, p.id, made)).(maps := s.maps[p.m := linked], queues := s.queues[made := {}])
    case AddWrite(_) =>
      var p := s.procs[t];
      SetProc(s, t, Notify(Some(Written(InQueue(p.q), p.id)), None)).(queues := s.queues[p.q := s.queues[p.q] + {p.id}])
  }

  predicate DeleteStep(step: Step) {
    step.BeginDelete? || step.DelFindMap? || step.DelFindQueue? || step.DelErase? || step.DelTrimQueue?
    || step.DelTrimMap?
  }

  function Delete(s: State, step: Step): State
    requires Enabled(s, step) && Refs(s) && DeleteStep(step)
  {
    var t := step.t;
    match step
    case BeginDelete(_, f, r, id) => SetProc(s, t, DelRoot(f, r, id))
    case DelFindMap(_) =>
      var p := s.procs[t];
      SetProc(s, t, if p.f in s.root then DelMap(p.f, p.r, p.id, s.root[p.f]) else Done(false))
    case DelFindQueue(_) =>
      var p := s.procs[t];
      SetProc(s, t, if p.r.Some? && p.r.value in s.maps[p.m]
                    then DelQueue(p.f, p.r, p.id, p.m, s.maps[p.m][p.r.value])
                    else Notify(None, Some((p.f, p.m))))
    case DelErase(_) =>
      var p := s.procs[t];
      SetProc(s, t, TrimQueue(p.f, p.r, p.m, p.q)).(queues := s.queues[p.q := s.queues[p.q] - {p.id}])
    case DelTrimQueue(_) =>
      var p := s.procs[t];
      var s' := SetProc(s, t, Notify(None, Some((p.f, p.m))));
      if s.queues[p.q] == {} && p.r.Some? then s'.(maps := s.maps[p.m := s.maps[p.m] - {p.r.value}]) else s'
    case DelTrimMap(_) =>
      var p := s.procs[t];
      var s' := SetProc(s, t, Done(false));
      if s.maps[p.m] == map[] then s'.(root := s.root - {p.f}) else s'
  }

  predicate OtherStep(step: Step) {
    step.Announce? || step.StoreEvicting? || step.DropEvicting? || step.StoreHint? || step.DropHint?
  }

  function Other(s: State, step: Step): State
    requires Enabled(s, step) && OtherStep(step)
  {
    match step
    case Announce(t) =>
      var trim := s.procs[t].trim;
      SetProc(s, t, if trim.Some? then TrimMap(trim.value.0, trim.value.1) else Done(false)).(gen := s.gen + 1)
    case StoreEvicting(t, id) =>
      SetProc(s, t, Notify(Some(Written(InEvicting, id)), None)).(evicting := s.evicting + {id})
    case DropEvicting(t, id) =>
      if id in s.evicting then SetProc(s, t, Notify(None, None)).(evicting := s.evicting - {id})
      else SetProc(s, t, Done(false))
    case StoreHint(id) => s.(hints := s.hints + {id})
    case DropHint(id) => s.(hints := s.hints - {id})
  }

  function Apply(s: State, step: Step): State
    requires Enabled(s, step) && Refs(s)
  {
    if AddStep(step) then Add(s, step)
    else if DeleteStep(step) then Delete(s, step)
    else if OtherStep(step) then Other(s, step)
    else Wait(s, step)
  }

  // ---------------------------------------------------------------------------------------
  // The invariant
  // ---------------------------------------------------------------------------------------

  /** References lead to objects. */
  predicate ProcRefs(p: Proc, maps: set<Ref>, queues: set<Ref>) {
    match p
    case Scan(_, _, ms, qs) => ms <= maps && qs <= queues
    case AddMap(_, _, id, m) => m in maps && id != ""
    case AddQueue(_, r, id, q) => q in queues && r.Some? && id != ""
    case AddRoot(_, _, id) => id != ""
    case DelMap(_, _, _, m) => m in maps
    case DelQueue(_, r, _, m, q) => m in maps && q in queues
    case TrimQueue(_, _, m, q) => m in maps && q in queues
    case TrimMap(_, m) => m in maps
    case Notify(_, trim) => trim.Some? ==> trim.value.1 in maps
    case _ => true
  }

  predicate HeapRefs(root: map<FuncKey, Ref>, maps: map<Ref, map<ResKey, Ref>>, queues: set<Ref>) {
    root.Values <= maps.Keys && forall m :: m in maps ==> maps[m].Values <= queues
  }

  predicate Refs(s: State) {
    && HeapRefs(s.root, s.maps, s.queues.Keys)
    && (forall t :: t in s.procs ==> ProcRefs(s.procs[t], s.maps.Keys, s.queues.Keys))
  }

  /** A writer has put `id` into `place` and has not yet closed the channel. */
  ghost predicate Pending(procs: map<Thread, Proc>, w: Written) {
    exists t :: t in procs && procs[t].Notify? && procs[t].wrote == Some(w)
  }

  /** `id` is in queue `q`, which resource key `r` names in function map `m`, which `f` names. */
  predicate Holds(s: State, f: FuncKey, r: ResKey, m: Ref, q: Ref, id: InstanceId) {
    && f in s.root && s.root[f] == m && m in s.maps
    && r in s.maps[m] && s.maps[m][r] == q && q in s.queues && id in s.queues[q]
  }

  /** Wherever `id` is, the waiter will still look there or its writer will still announce it. */
  ghost predicate Covered(s: State, id: InstanceId, ms: set<Ref>, qs: set<Ref>) {
    forall f, r, m, q :: Holds(s, f, r, m, q, id) ==> m in ms || q in qs || Pending(s.procs, Written(InQueue(q), id))
  }

  ghost predicate Watched(s: State, p: Proc) {
    match p
    case Scan(id, _, ms, qs) => Covered(s, id, ms, qs)
    case ScanEvicting(id) => Covered(s, id, {}, {})
    case Parked(id, force, ch) =>
      ch <= s.gen && (ch == s.gen ==> Covered(s, id, {}, {}) && (force ==> EvictingCovered(s, id)))
    case _ => true
  }

  ghost predicate EvictingCovered(s: State, id: InstanceId) {
    id in s.evicting ==> Pending(s.procs, Written(InEvicting, id))
  }

  /** The mutex is held by the one waiter that looks, if any. */
  ghost predicate Locked(s: State) {
    forall t :: t in s.procs && (s.procs[t].Scan? || s.procs[t].ScanEvicting?) ==> s.holder == Some(t)
  }

  /** The empty ID is nowhere recorded. */
  predicate Named(s: State) {
    "" !in s.evicting && forall q :: q in s.queues ==> "" !in s.queues[q]
  }

  ghost predicate Inv(s: State) {
    Refs(s) && Named(s) && Locked(s) && forall t :: t in s.procs ==> Watched(s, s.procs[t])
  }

  /** A step that announces nothing: whatever it makes findable has a pending announcement. */
  ghost predicate Quiet(s: State, s': State) {
    && s'.gen == s.gen
    && (forall w :: Pending(s.procs, w) ==> Pending(s'.procs, w))
    && (forall f, r, m, q, id :: Holds(s', f, r, m, q, id) ==>
          Holds(s, f, r, m, q, id) || Pending(s'.procs, Written(InQueue(q), id)))
    && (forall id :: id in s'.evicting ==> id in s.evicting || Pending(s'.procs, Written(InEvicting, id)))
  }

  lemma QuietKeepsWatched(s: State, s': State, p: Proc)
    requires Quiet(s, s') && Watched(s, p)
    ensures Watched(s', p)
  {
    hide Holds, Pending;
  }

  /** Replacing the process of a thread that has nothing to announce loses no announcement. */
  lemma PendingKeeps(procs: map<Thread, Proc>, t: Thread, p: Proc)
    requires t in procs && procs[t].Notify? ==> procs[t].wrote == None
    ensures forall w :: Pending(procs, w) ==> Pending(procs[t := p], w)
  {
    forall w | Pending(procs, w) ensures Pending(procs[t := p], w) {
      var u :| u in procs && procs[u].Notify? && procs[u].wrote == Some(w);
      assert procs[t := p][u] == procs[u];
    }
  }

  predicate WaitStep(step: Step) {
    !AddStep(step) && !DeleteStep(step) && !OtherStep(step)
  }

  ghost predicate Basics(s: State) {
    Refs(s) && Named(s) && Locked(s)
  }

  predicate Looking(p: Proc) {
    p.Scan? || p.ScanEvicting?
  }

  lemma ProcRefsGrow(p: Proc, maps: set<Ref>, queues: set<Ref>, maps': set<Ref>, queues': set<Ref>)
    requires ProcRefs(p, maps, queues) && maps <= maps' && queues <= queues'
    ensures ProcRefs(p, maps', queues')
  {
  }

  /** One thread moves; objects do not vanish, and the mutex passes only by its hand. */
  ghost predicate Moves(s: State, s': State, t: Thread) {
    && t in s'.procs && s'.procs == s.procs[t := s'.procs[t]]
    && s.maps.Keys <= s'.maps.Keys && s.queues.Keys <= s'.queues.Keys
    && HeapRefs(s'.root, s'.maps, s'.queues.Keys) && ProcRefs(s'.procs[t], s'.maps.Keys, s'.queues.Keys)
    && (s'.holder == s.holder || s.holder == None || s.holder == Some(t))
    && (Looking(s'.procs[t]) ==> s'.holder == Some(t))
  }

  lemma MovesKeepsRefs(s: State, s': State, t: Thread)
    requires Refs(s) && Moves(s, s', t)
    ensures Refs(s')
  {
    hide ProcRefs, HeapRefs, Looking;
    forall u | u in s.procs && u != t ensures ProcRefs(s'.procs[u], s'.maps.Keys, s'.queues.Keys) {
      ProcRefsGrow(s.procs[u], s.maps.Keys, s.queues.Keys, s'.maps.Keys, s'.queues.Keys);
    }
  }

  lemma MovesKeepsLocked(s: State, s': State, t: Thread)
    requires Locked(s) && Moves(s, s', t)
    ensures Locked(s')
  {
    hide ProcRefs, HeapRefs;
  }

  lemma MovesKeepsBasics(s: State, s': State, t: Thread)
    requires Basics(s) && Moves(s, s', t) && Named(s')
    ensures Basics(s')
  {
    hide Refs, Locked, Named, Moves;
    MovesKeepsRefs(s, s', t);
    MovesKeepsLocked(s, s', t);
  }

  lemma WaitMoves(s: State, step: Step)
    requires Refs(s) && Locked(s) && Enabled(s, step) && WaitStep(step)
    ensures Moves(s, Wait(s, step), step.t)
  {
    assert step.t in s.procs ==> ProcRefs(s.procs[step.t], s.maps.Keys, s.queues.Keys);
  }

  lemma WaitBasics(s: State, step: Step)
    requires Basics(s) && Enabled(s, step) && WaitStep(step)
    ensures Basics(Wait(s, step))
  {
    hide Refs, Moves, Locked;
    WaitMoves(s, step);
    MovesKeepsBasics(s, Wait(s, step), step.t);
  }

  lemma NewQueueRefs(root: map<FuncKey, Ref>, maps: map<Ref, map<ResKey, Ref>>, queues: set<Ref>, m: Ref, r: ResKey,
                     q: Ref,
                     linked: map<ResKey, Ref>)
    requires HeapRefs(root, maps, queues) && m in maps && linked == maps[m][r := q]
    ensures HeapRefs(root, maps[m := linked], queues + {q})
  {
  }

  lemma NewMapRefs(root: map<FuncKey, Ref>, maps: map<Ref, map<ResKey, Ref>>, queues: set<Ref>, f: FuncKey, m: Ref)
    requires HeapRefs(root, maps, queues)
    ensures HeapRefs(root[f := m], maps[m := map[]], queues)
  {
  }

  lemma AddFindMapMoves(s: State, t: Thread, made: Ref)
    requires Refs(s) && Enabled(s, AddFindMap(t, made))
    ensures Moves(s, Add(s, AddFindMap(t, made)), t)
  {
    hide HeapRefs;
    assert ProcRefs(s.procs[t], s.maps.Keys, s.queues.Keys);
    NamedRefs(s);
    NewMapRefs(s.root, s.maps, s.queues.Keys, s.procs[t].f, made);
  }

  lemma AddFindQueueMoves(s: State, t: Thread, made: Ref)
    requires Refs(s) && Enabled(s, AddFindQueue(t, made))
    ensures Moves(s, Add(s, AddFindQueue(t, made)), t)
  {
    hide HeapRefs;
    var p, s' := s.procs[t], Add(s, AddFindQueue(t, made));
    assert ProcRefs(p, s.maps.Keys, s.queues.Keys);
    NamedRefs(s);
    if s'.queues != s.queues {
      NewQueueRefs(s.root, s.maps, s.queues.Keys, p.m, p.r.value, made, s'.maps[p.m]);
      assert s'.queues.Keys == s.queues.Keys + {made};
    }
  }

  lemma AddWriteMoves(s: State, t: Thread)
    requires Refs(s) && Enabled(s, AddWrite(t))
    ensures Moves(s, Add(s, AddWrite(t)), t)
  {
    hide HeapRefs;
    assert ProcRefs(s.procs[t], s.maps.Keys, s.queues.Keys);
    assert Add(s, AddWrite(t)).queues.Keys == s.queues.Keys;
  }

  lemma AddMoves(s: State, step: Step)
    requires Refs(s) && Enabled(s, step) && AddStep(step)
    ensures Moves(s, Add(s, step), step.t)
  {
    match step
    case AddFindMap(t, made) => AddFindMapMoves(s, t, made);
    case AddFindQueue(t, made) => AddFindQueueMoves(s, t, made);
    case AddWrite(t) => AddWriteMoves(s, t);
    case BeginAdd(_, _, _, _) =>
  }

  /** What a key names is an object. */
  lemma NamedRefs(s: State)
    requires Refs(s)
    ensures forall f :: f in s.root ==> s.root[f] in s.maps
    ensures forall m, r :: m in s.maps && r in s.maps[m] ==> s.maps[m][r] in s.queues
  {
    assert forall f :: f in s.root ==> s.root[f] in s.root.Values;
    assert forall m, r :: m in s.maps && r in s.maps[m] ==> s.maps[m][r] in s.maps[m].Values;
  }

  lemma AddRefs(s: State, step: Step)
    requires Refs(s) && Enabled(s, step) && AddStep(step)
    ensures Refs(Add(s, step))
  {
    hide Refs, Moves;
    AddMoves(s, step);
    MovesKeepsRefs(s, Add(s, step), step.t);
  }

  lemma AddNamed(s: State, step: Step)
    requires Refs(s) && Named(s) && Enabled(s, step) && AddStep(step)
    ensures Named(Add(s, step))
  {
    hide HeapRefs;
    assert step.t in s.procs ==> ProcRefs(s.procs[step.t], s.maps.Keys, s.queues.Keys);
  }

  lemma AddBasics(s: State, step: Step)
    requires Basics(s) && Enabled(s, step) && AddStep(step)
    ensures Basics(Add(s, step))
  {
    hide Refs, Moves, Locked, Named;
    AddMoves(s, step);
    AddNamed(s, step);
    MovesKeepsBasics(s, Add(s, step), step.t);
  }

  lemma TrimmedRefs(root: map<FuncKey, Ref>, maps: map<Ref, map<ResKey, Ref>>, queues: set<Ref>, m: Ref, r: ResKey)
    requires HeapRefs(root, maps, queues) && m in maps
    ensures HeapRefs(root, maps[m := maps[m] - {r}], queues)
  {
    assert (maps[m] - {r}).Values <= maps[m].Values;
  }

  lemma UnrootedRefs(root: map<FuncKey, Ref>, maps: map<Ref, map<ResKey, Ref>>, queues: set<Ref>, f: FuncKey)
    requires HeapRefs(root, maps, queues)
    ensures HeapRefs(root - {f}, maps, queues)
  {
    assert (root - {f}).Values <= root.Values;
  }

  lemma DelFindMoves(s: State, t: Thread, step: Step)
    requires Refs(s) && Enabled(s, step) && (step == DelFindMap(t) || step == DelFindQueue(t))
    ensures Moves(s, Delete(s, step), t)
  {
    hide HeapRefs;
    assert ProcRefs(s.procs[t], s.maps.Keys, s.queues.Keys);
    NamedRefs(s);
  }

  lemma DelEraseMoves(s: State, t: Thread)
    requires Refs(s) && Enabled(s, DelErase(t))
    ensures Moves(s, Delete(s, DelErase(t)), t)
  {
    hide HeapRefs;
    assert ProcRefs(s.procs[t], s.maps.Keys, s.queues.Keys);
    assert Delete(s, DelErase(t)).queues.Keys == s.queues.Keys;
  }

  lemma DelTrimQueueMoves(s: State, t: Thread)
    requires Refs(s) && Enabled(s, DelTrimQueue(t))
    ensures Moves(s, Delete(s, DelTrimQueue(t)), t)
  {
    hide HeapRefs;
    assert ProcRefs(s.procs[t], s.maps.Keys, s.queues.Keys);
    if s.procs[t].r.Some? {
      TrimmedRefs(s.root, s.maps, s.queues.Keys, s.procs[t].m, s.procs[t].r.value);
    }
  }

  lemma DelTrimMapMoves(s: State, t: Thread)
    requires Refs(s) && Enabled(s, DelTrimMap(t))
    ensures Moves(s, Delete(s, DelTrimMap(t)), t)
  {
    hide HeapRefs;
    assert ProcRefs(s.procs[t], s.maps.Keys, s.queues.Keys);
    UnrootedRefs(s.root, s.maps, s.queues.Keys, s.procs[t].f);
  }

  lemma DeleteMoves(s: State, step: Step)
    requires Refs(s) && Enabled(s, step) && DeleteStep(step)
    ensures Moves(s, Delete(s, step), step.t)
  {
    match step
    case DelFindMap(t) => DelFindMoves(s, t, step);
    case DelFindQueue(t) => DelFindMoves(s, t, step);
    case DelErase(t) => DelEraseMoves(s, t);
    case DelTrimQueue(t) => DelTrimQueueMoves(s, t);
    case DelTrimMap(t) => DelTrimMapMoves(s, t);
    case BeginDelete(_, _, _, _) =>
  }

  lemma DeleteNamed(s: State, step: Step)
    requires Refs(s) && Named(s) && Enabled(s, step) && DeleteStep(step)
    ensures Named(Delete(s, step))
  {
    hide HeapRefs;
  }

  lemma DeleteBasics(s: State, step: Step)
    requires Basics(s) && Enabled(s, step) && DeleteStep(step)
    ensures Basics(Delete(s, step))
  {
    hide Refs, Moves, Locked, Named;
    DeleteMoves(s, step);
    DeleteNamed(s, step);
    MovesKeepsBasics(s, Delete(s, step), step.t);
  }

  lemma OtherMoves(s: State, step: Step)
    requires Refs(s) && Enabled(s, step) && OtherStep(step) && !step.StoreHint? && !step.DropHint?
    ensures Moves(s, Other(s, step), step.t)
  {
    hide HeapRefs;
    assert step.t in s.procs ==> ProcRefs(s.procs[step.t], s.maps.Keys, s.queues.Keys);
  }

  lemma OtherBasics(s: State, step: Step)
    requires Basics(s) && Enabled(s, step) && OtherStep(step)
    ensures Basics(Other(s, step))
  {
    hide HeapRefs, ProcRefs, Moves;
    if !step.StoreHint? && !step.DropHint? {
      OtherMoves(s, step);
      MovesKeepsBasics(s, Other(s, step), step.t);
    }
  }

  lemma WaitQuiet(s: State, step: Step)
    requires Refs(s) && Enabled(s, step) && WaitStep(step)
    ensures Quiet(s, Wait(s, step))
  {
    PendingKeeps(s.procs, step.t, Wait(s, step).procs[step.t]);
  }

  lemma AddQuiet(s: State, step: Step)
    requires Refs(s) && Enabled(s, step) && AddStep(step)
    ensures Quiet(s, Add(s, step))
  {
    PendingKeeps(s.procs, step.t, Add(s, step).procs[step.t]);
  }

  lemma DeleteQuiet(s: State, step: Step)
    requires Refs(s) && Enabled(s, step) && DeleteStep(step)
    ensures Quiet(s, Delete(s, step))
  {
    PendingKeeps(s.procs, step.t, Delete(s, step).procs[step.t]);
  }

  lemma OtherQuiet(s: State, step: Step)
    requires Enabled(s, step) && OtherStep(step) && !step.Announce?
    ensures Quiet(s, Other(s, step))
  {
    if !step.StoreHint? && !step.DropHint? {
      PendingKeeps(s.procs, step.t, Other(s, step).procs[step.t]);
    }
  }

  /** What a waiter finds covers what it still has to look at; when nothing is left it parks. */
  lemma WaitOwn(s: State, step: Step)
    requires Inv(s) && Enabled(s, step) && WaitStep(step)
    ensures Watched(Wait(s, step), Wait(s, step).procs[step.t])
  {
    WaitQuiet(s, step);
    var s', t := Wait(s, step), step.t;
    if step.Lock? {
      if s.procs[t].id != "" {
        assert forall f, r, m, q, id :: Holds(s', f, r, m, q, id) ==> m in s.root.Values;
      }
    } else if t in s.procs {
      QuietKeepsWatched(s, s', s.procs[t]);
    }
  }

  /** A step that announces nothing keeps the invariant if it does so for the thread that moves. */
  lemma QuietKeeps(s: State, s': State, t: Thread)
    requires Inv(s) && Basics(s') && Quiet(s, s')
    requires forall u :: u in s'.procs && u != t ==> u in s.procs && s'.procs[u] == s.procs[u]
    requires t in s'.procs ==> Watched(s', s'.procs[t])
    ensures Inv(s')
  {
    hide Quiet, Watched, Locked, Refs, Named;
    forall u | u in s'.procs && u != t ensures Watched(s', s'.procs[u]) {
      QuietKeepsWatched(s, s', s.procs[u]);
    }
  }

  /** Closing the channel wakes everybody that sleeps, and nobody is looking meanwhile. */
  lemma AnnounceKeeps(s: State, t: Thread)
    requires Inv(s) && Enabled(s, Announce(t))
    ensures Inv(Other(s, Announce(t)))
  {
    OtherBasics(s, Announce(t));
    hide Covered, EvictingCovered, Refs, Named;
  }

  lemma StepKeeps(s: State, step: Step)
    requires Inv(s) && Enabled(s, step)
    ensures Inv(Apply(s, step))
  {
    if WaitStep(step) {
      WaitKeeps(s, step);
    } else if AddStep(step) {
      AddKeeps(s, step);
    } else if DeleteStep(step) {
      DeleteKeeps(s, step);
    } else {
      OtherKeeps(s, step);
    }
  }

  lemma WaitKeeps(s: State, step: Step)
    requires Inv(s) && Enabled(s, step) && WaitStep(step)
    ensures Inv(Wait(s, step))
  {
    WaitBasics(s, step);
    WaitQuiet(s, step);
    WaitOwn(s, step);
    hide Quiet, Watched, Locked, Named;
    QuietKeeps(s, Wait(s, step), step.t);
  }

  /** A thread that does not wait has nothing to be covered. */
  predicate Waiting(p: Proc) {
    Looking(p) || p.Parked?
  }

  /** A quiet move of a thread that does not wait keeps the invariant. */
  lemma WriterKeeps(s: State, s': State, t: Thread)
    requires Inv(s) && Basics(s') && Quiet(s, s') && Moves(s, s', t) && !Waiting(s'.procs[t])
    ensures Inv(s')
  {
    hide Quiet, Locked, Named, Refs, Covered, EvictingCovered, HeapRefs, ProcRefs;
    QuietKeeps(s, s', t);
  }

  lemma AddKeeps(s: State, step: Step)
    requires Inv(s) && Enabled(s, step) && AddStep(step)
    ensures Inv(Add(s, step))
  {
    hide Quiet, Refs, Named, Locked, Watched, Moves;
    AddBasics(s, step);
    AddQuiet(s, step);
    AddMoves(s, step);
    WriterKeeps(s, Add(s, step), step.t);
  }

  lemma DeleteKeeps(s: State, step: Step)
    requires Inv(s) && Enabled(s, step) && DeleteStep(step)
    ensures Inv(Delete(s, step))
  {
    hide Quiet, Refs, Named, Locked, Watched, Moves;
    DeleteBasics(s, step);
    DeleteQuiet(s, step);
    DeleteMoves(s, step);
    WriterKeeps(s, Delete(s, step), step.t);
  }

  lemma OtherKeeps(s: State, step: Step)
    requires Inv(s) && Enabled(s, step) && OtherStep(step)
    ensures Inv(Other(s, step))
  {
    if step.Announce? {
      AnnounceKeeps(s, step.t);
    } else {
      OtherBasics(s, step);
      OtherQuiet(s, step);
      var s' := Other(s, step);
      if step.StoreHint? || step.DropHint? {
        forall u | u in s'.procs ensures Watched(s', s'.procs[u]) {
          QuietKeepsWatched(s, s', s.procs[u]);
        }
      } else {
        QuietKeeps(s, s', step.t);
      }
    }
  }
}
