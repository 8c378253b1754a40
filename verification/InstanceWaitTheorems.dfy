/** What the waiting protocol guarantees over whole runs, and where it does not. */
module InstanceWaitTheorems {
  import opened Sequences
  import opened InstanceWait

  // ---------------------------------------------------------------------------------------
  // Runs
  // ---------------------------------------------------------------------------------------

  ghost predicate Runs(s: State, steps: seq<Step>, s': State)
    decreases |steps|
  {
    if steps == [] then s == s'
    else Refs(s) && Enabled(s, steps[0]) && Runs(Apply(s, steps[0]), steps[1..], s')
  }

  lemma {:induction false} RunKeeps(s: State, steps: seq<Step>, s': State)
    requires Inv(s) && Runs(s, steps, s')
    ensures Inv(s')
    decreases |steps|
  {
    if steps != [] {
      StepKeeps(s, steps[0]);
      RunKeeps(Apply(s, steps[0]), steps[1..], s');
    }
  }

  /** `id` is in the watcher-backed maps or, for a forced invocation, among the evicting instances. */
  ghost predicate Present(s: State, id: InstanceId, force: bool) {
    || (exists f, r, m, q :: Holds(s, f, r, m, q, id))
    || (force && id in s.evicting)
  }

  /** No writer that recorded `id` still has to announce it. */
  ghost predicate Announced(s: State, id: InstanceId) {
    forall place :: !Pending(s.procs, Written(place, id))
  }

  ghost predicate Asleep(s: State, t: Thread, id: InstanceId, force: bool) {
    t in s.procs && s.procs[t] == Parked(id, force, s.gen)
  }

  /** No lost wakeup, in every reachable state of every interleaving. */
  lemma NoLostWakeup(steps: seq<Step>, s: State, t: Thread, id: InstanceId, force: bool)
    requires Runs(INIT, steps, s) && Asleep(s, t, id, force)
    ensures Present(s, id, force) ==> !Announced(s, id)
  {
    RunKeeps(INIT, steps, s);
    assert Watched(s, s.procs[t]);
    if f, r, m, q :| Holds(s, f, r, m, q, id) {
      assert Pending(s.procs, Written(InQueue(q), id));
    }
  }

  /** A waiter that looks cannot run past a present and announced instance. */
  lemma ScanCannotMiss(steps: seq<Step>, s: State, t: Thread, f: FuncKey, r: ResKey, m: Ref, q: Ref)
    requires Runs(INIT, steps, s) && t in s.procs && s.procs[t].Scan?
    requires Holds(s, f, r, m, q, s.procs[t].id) && Announced(s, s.procs[t].id)
    ensures m in s.procs[t].maps || q in s.procs[t].queues
  {
    RunKeeps(INIT, steps, s);
    assert Watched(s, s.procs[t]);
    assert !Pending(s.procs, Written(InQueue(q), s.procs[t].id));
  }

  // ---------------------------------------------------------------------------------------
  // Route-only records are outside the guarantee: a waiter finds one that is already there,
  // but storing one wakes nobody
  // ---------------------------------------------------------------------------------------

  lemma HintWakesNobody(s: State, t: Thread, id: InstanceId, force: bool)
    requires Refs(s) && Asleep(s, t, id, force) && id != ""
    ensures var s' := Apply(s, StoreHint(id)); id in s'.hints && Asleep(s', t, id, force) && s'.procs == s.procs
  {
  }

  const LOOKING := INIT.(procs := map[0 := Scan("i", false, {}, {})], holder := Some(0))
  const ASLEEP := INIT.(procs := map[0 := Parked("i", false, 0)])

  lemma StartsLooking()
    ensures Runs(INIT, [BeginWait(0, "i", false), Lock(0)], LOOKING)
  {
    var s1 := INIT.(procs := map[0 := Want("i", false)]);
    assert s1.root.Values == {};
    WaitNext(INIT, BeginWait(0, "i", false), s1);
    WaitNext(s1, Lock(0), LOOKING);
    RunOf([INIT, s1, LOOKING], [BeginWait(0, "i", false), Lock(0)]);
  }

  lemma FallsAsleep()
    ensures Runs(LOOKING, [ReadHint(0)], ASLEEP)
  {
    WaitNext(LOOKING, ReadHint(0), ASLEEP);
    RunOf([LOOKING, ASLEEP], [ReadHint(0)]);
  }

  lemma HintIsStored()
    ensures Runs(ASLEEP, [StoreHint("i")], ASLEEP.(hints := {"i"}))
  {
    assert Next(ASLEEP, StoreHint("i"), ASLEEP.(hints := {"i"}));
    RunOf([ASLEEP, ASLEEP.(hints := {"i"})], [StoreHint("i")]);
  }

  lemma HintCanBeSleptThrough()
    ensures exists steps, s :: Runs(INIT, steps, s) && Asleep(s, 0, "i", false) && "i" in s.hints && Announced(s, "i")
  {
    hide Runs;
    StartsLooking();
    FallsAsleep();
    HintIsStored();
    var a := [BeginWait(0, "i", false), Lock(0)];
    RunsConcat(INIT, a, LOOKING, [ReadHint(0)], ASLEEP);
    RunsConcat(INIT, a + [ReadHint(0)], ASLEEP, [StoreHint("i")], ASLEEP.(hints := {"i"}));
  }

  lemma WaitNext(s: State, step: Step, s': State)
    requires Refs(s) && Enabled(s, step) && WaitStep(step) && Wait(s, step) == s'
    ensures Next(s, step, s')
  {
    hide Delete, Add, Wait, Other;
  }

  ghost predicate Next(s: State, step: Step, s': State) {
    Refs(s) && Enabled(s, step) && Apply(s, step) == s'
  }

  lemma {:induction false} RunOf(states: seq<State>, steps: seq<Step>)
    requires |states| == |steps| + 1
    requires forall i :: 0 <= i < |steps| ==> Next(states[i], steps[i], states[i + 1])
    ensures Runs(states[0], steps, states[|steps|])
    decreases |steps|
  {
    hide Refs, Enabled, Apply;
    if steps != [] {
      assert Next(states[0], steps[0], states[1]);
      RunOf(states[1..], steps[1..]);
    }
  }

  // ---------------------------------------------------------------------------------------
  // The maps themselves.  While writers follow one another, as the events of one watcher do,
  // the nested maps hold exactly what was added and not deleted since
  // ---------------------------------------------------------------------------------------

  type Record = (FuncKey, ResKey, InstanceId)

  predicate MapWriter(p: Proc) {
    p.AddRoot? || p.AddMap? || p.AddQueue? || p.DelRoot? || p.DelMap? || p.DelQueue? || p.TrimQueue? || p.TrimMap?
    || (p.Notify? && p.trim.Some?)
  }

  ghost predicate Idle(procs: map<Thread, Proc>) {
    forall t :: t in procs ==> !MapWriter(procs[t])
  }

  ghost predicate SerialEnabled(s: State, step: Step) {
    Enabled(s, step) && (step.BeginAdd? || step.BeginDelete? ==> Idle(s.procs))
  }

  predicate NamesMap(root: map<FuncKey, Ref>, f: FuncKey, m: Ref) {
    f in root && root[f] == m
  }

  predicate NamesQueue(maps: map<Ref, map<ResKey, Ref>>, m: Ref, r: Option<ResKey>, q: Ref) {
    r.Some? && m in maps && r.value in maps[m] && maps[m][r.value] == q
  }

  /** The objects a writer has in hand are the ones their keys name. */
  predicate Attached(root: map<FuncKey, Ref>, maps: map<Ref, map<ResKey, Ref>>, p: Proc) {
    match p
    case AddMap(f, _, _, m) => NamesMap(root, f, m)
    case AddQueue(f, r, _, q) => f in root && NamesQueue(maps, root[f], r, q)
    case DelMap(f, _, _, m) => NamesMap(root, f, m)
    case DelQueue(f, r, _, m, q) => NamesMap(root, f, m) && NamesQueue(maps, m, r, q)
    case TrimQueue(f, r, m, q) => NamesMap(root, f, m) && NamesQueue(maps, m, r, q)
    case TrimMap(f, m) => NamesMap(root, f, m)
    case Notify(_, trim) => trim.Some? ==> NamesMap(root, trim.value.0, trim.value.1)
    case _ => true
  }

  ghost predicate Serial(s: State) {
    && Refs(s)
    && (forall t, u :: t in s.procs && u in s.procs && MapWriter(s.procs[t]) && MapWriter(s.procs[u]) ==> t == u)
    && (forall t :: t in s.procs ==> Attached(s.root, s.maps, s.procs[t]))
    && NoAlias(s.root, s.maps)
  }

  /** No map object has two names, and no queue object either. */
  ghost predicate NoAlias(root: map<FuncKey, Ref>, maps: map<Ref, map<ResKey, Ref>>) {
    && (forall f, g :: f in root && g in root && root[f] == root[g] ==> f == g)
    && (forall m, n, r, x :: m in maps && n in maps && r in maps[m] && x in maps[n] && maps[m][r] == maps[n][x] ==>
          m == n && r == x)
  }

  predicate Findable(s: State, rec: Record) {
    && rec.0 in s.root && s.root[rec.0] in s.maps && rec.1 in s.maps[s.root[rec.0]]
    && s.maps[s.root[rec.0]][rec.1] in s.queues && rec.2 in s.queues[s.maps[s.root[rec.0]][rec.1]]
  }

  /** The records as the events say: an addition writes one, a deletion erases one, whatever path it takes. */
  function Ledger(s: State, step: Step, records: set<Record>): set<Record>
    requires Refs(s) && Enabled(s, step)
  {
    match step
    case AddWrite(t) => records + {(s.procs[t].f, s.procs[t].r.value, s.procs[t].id)}
    case DelFindMap(t) =>
      if s.procs[t].f in s.root || s.procs[t].r.None? then records
      else records - {(s.procs[t].f, s.procs[t].r.value, s.procs[t].id)}
    case DelFindQueue(t) =>
      if s.procs[t].r.None? || s.procs[t].r.value in s.maps[s.procs[t].m] then records
      else records - {(s.procs[t].f, s.procs[t].r.value, s.procs[t].id)}
    case DelErase(t) =>
      if s.procs[t].r.None? then records else records - {(s.procs[t].f, s.procs[t].r.value, s.procs[t].id)}
    case _ => records
  }

  ghost predicate Exact(s: State, records: set<Record>) {
    forall rec :: rec in records <==> Findable(s, rec)
  }

  /** One writer moves, from `p` to `p'`: the others have nothing in hand. */
  lemma OneWriter(s: State, s': State, t: Thread)
    requires Serial(s) && Refs(s') && NoAlias(s'.root, s'.maps)
    requires t in s'.procs && s'.procs == s.procs[t := s'.procs[t]] && Attached(s'.root, s'.maps, s'.procs[t])
    requires Idle(s.procs) || (t in s.procs && MapWriter(s.procs[t]))
    ensures Serial(s')
  {
    hide Refs, NoAlias;
    forall u | u in s.procs && u != t ensures Attached(s'.root, s'.maps, s.procs[u]) {
      assert !MapWriter(s.procs[u]);
    }
  }

  lemma AddSerial(s: State, step: Step)
    requires Serial(s) && SerialEnabled(s, step) && AddStep(step)
    ensures Serial(Add(s, step))
  {
    hide Attached, NoAlias, HeapRefs, ProcRefs;
    AddRefs(s, step);
    AddNoAlias(s, step);
    AddAttached(s, step);
    OneWriter(s, Add(s, step), step.t);
  }

  lemma AddAttached(s: State, step: Step)
    requires Serial(s) && SerialEnabled(s, step) && AddStep(step)
    ensures var s' := Add(s, step); Attached(s'.root, s'.maps, s'.procs[step.t])
  {
    hide NoAlias;
    assert step.t in s.procs ==> Attached(s.root, s.maps, s.procs[step.t]);
  }

  lemma NewMapNoAlias(root: map<FuncKey, Ref>, maps: map<Ref, map<ResKey, Ref>>, f: FuncKey, m: Ref)
    requires NoAlias(root, maps) && root.Values <= maps.Keys && m !in maps
    ensures NoAlias(root[f := m], maps[m := map[]])
  {
    assert forall g :: g in root ==> root[g] in root.Values;
  }

  lemma NewQueueNoAlias(root: map<FuncKey, Ref>, maps: map<Ref, map<ResKey, Ref>>, m: Ref, r: ResKey, q: Ref,
                        linked: map<ResKey, Ref>)
    requires NoAlias(root, maps) && m in maps && linked == maps[m][r := q]
    requires forall n :: n in maps ==> q !in maps[n].Values
    ensures NoAlias(root, maps[m := linked])
  {
    assert forall n, x :: n in maps && x in maps[n] ==> maps[n][x] in maps[n].Values;
  }

  lemma AddNoAlias(s: State, step: Step)
    requires Refs(s) && NoAlias(s.root, s.maps) && Enabled(s, step) && AddStep(step)
    ensures NoAlias(Add(s, step).root, Add(s, step).maps)
  {
    hide NoAlias;
    if step.AddFindMap? {
      NewMapNoAlias(s.root, s.maps, s.procs[step.t].f, step.made);
    } else if step.AddFindQueue? && s.procs[step.t].r.Some? {
      var p, s' := s.procs[step.t], Add(s, step);
      if s'.maps != s.maps {
        NewQueueNoAlias(s.root, s.maps, p.m, p.r.value, step.made, s'.maps[p.m]);
      }
    }
  }

  lemma DeleteSerial(s: State, step: Step)
    requires Serial(s) && SerialEnabled(s, step) && DeleteStep(step) && Refs(Delete(s, step))
    ensures Serial(Delete(s, step))
  {
    hide Attached, NoAlias, HeapRefs, ProcRefs;
    DeleteNoAlias(s, step);
    DeleteAttached(s, step);
    OneWriter(s, Delete(s, step), step.t);
  }

  lemma DeleteAttached(s: State, step: Step)
    requires Serial(s) && SerialEnabled(s, step) && DeleteStep(step)
    ensures var s' := Delete(s, step); Attached(s'.root, s'.maps, s'.procs[step.t])
  {
    hide NoAlias;
    assert step.t in s.procs ==> Attached(s.root, s.maps, s.procs[step.t]);
  }

  lemma TrimmedNoAlias(root: map<FuncKey, Ref>, maps: map<Ref, map<ResKey, Ref>>, m: Ref, r: ResKey)
    requires NoAlias(root, maps) && m in maps
    ensures NoAlias(root, maps[m := maps[m] - {r}])
  {
  }

  lemma UnrootedNoAlias(root: map<FuncKey, Ref>, maps: map<Ref, map<ResKey, Ref>>, f: FuncKey)
    requires NoAlias(root, maps)
    ensures NoAlias(root - {f}, maps)
  {
  }

  lemma DeleteNoAlias(s: State, step: Step)
    requires Refs(s) && NoAlias(s.root, s.maps) && Enabled(s, step) && DeleteStep(step)
    ensures NoAlias(Delete(s, step).root, Delete(s, step).maps)
  {
    hide NoAlias, HeapRefs;
    if step.DelTrimQueue? && s.procs[step.t].r.Some? {
      TrimmedNoAlias(s.root, s.maps, s.procs[step.t].m, s.procs[step.t].r.value);
    } else if step.DelTrimMap? {
      UnrootedNoAlias(s.root, s.maps, s.procs[step.t].f);
    }
  }

  /** What becomes findable or stops being findable when one queue object changes. */
  lemma QueueUpdate(s: State, s': State, rec: Record, content: set<InstanceId>)
    requires Refs(s) && NoAlias(s.root, s.maps) && s'.root == s.root && s'.maps == s.maps
    requires rec.0 in s.root && rec.1 in s.maps[s.root[rec.0]]
    requires s'.queues == s.queues[s.maps[s.root[rec.0]][rec.1] := content]
    ensures forall x: Record :: Findable(s', x) <==>
                if x.0 == rec.0 && x.1 == rec.1 then x.2 in content else Findable(s, x)
  {
  }

  lemma AddExact(s: State, step: Step, records: set<Record>)
    requires Serial(s) && SerialEnabled(s, step) && AddStep(step) && Exact(s, records)
    ensures Exact(Add(s, step), Ledger(s, step, records))
  {
    hide NoAlias;
    if step.AddWrite? {
      var p := s.procs[step.t];
      assert Attached(s.root, s.maps, p);
      QueueUpdate(s, Add(s, step), (p.f, p.r.value, p.id), s.queues[p.q] + {p.id});
    }
  }

  /** Removing an empty queue, or an empty function map, hides no record. */
  lemma TrimQueueExact(s: State, s': State, m: Ref, r: ResKey)
    requires Refs(s) && s'.root == s.root && s'.queues == s.queues
    requires m in s.maps && r in s.maps[m] && s.queues[s.maps[m][r]] == {} && s'.maps == s.maps[m := s.maps[m] - {r}]
    ensures forall x: Record :: Findable(s', x) <==> Findable(s, x)
  {
    assert s.maps[m][r] in s.maps[m].Values;
  }

  lemma TrimMapExact(s: State, s': State, f: FuncKey)
    requires Refs(s) && s'.queues == s.queues && s'.maps == s.maps
    requires f in s.root && s.maps[s.root[f]] == map[] && s'.root == s.root - {f}
    ensures forall x: Record :: Findable(s', x) <==> Findable(s, x)
  {
  }

  lemma EraseExact(s: State, t: Thread, records: set<Record>)
    requires Serial(s) && Enabled(s, DelErase(t)) && Exact(s, records)
    ensures Exact(Delete(s, DelErase(t)), Ledger(s, DelErase(t), records))
  {
    hide NoAlias, Refs;
    var p := s.procs[t];
    assert Attached(s.root, s.maps, p);
    NamedRefs(s);
    QueueUpdate(s, Delete(s, DelErase(t)), (p.f, p.r.value, p.id), s.queues[p.q] - {p.id});
  }

  lemma TrimExact(s: State, t: Thread, step: Step, records: set<Record>)
    requires Serial(s) && Enabled(s, step) && (step == DelTrimQueue(t) || step == DelTrimMap(t)) && Exact(s, records)
    ensures Exact(Delete(s, step), Ledger(s, step, records))
  {
    hide NoAlias, HeapRefs;
    var s' := Delete(s, step);
    assert Attached(s.root, s.maps, s.procs[t]);
    if s'.maps != s.maps {
      TrimQueueExact(s, s', s.procs[t].m, s.procs[t].r.value);
    } else if s'.root != s.root {
      TrimMapExact(s, s', s.procs[t].f);
    } else {
      assert forall x: Record :: Findable(s', x) <==> Findable(s, x);
    }
  }

  lemma FindExact(s: State, step: Step, records: set<Record>)
    requires Serial(s) && Enabled(s, step) && (step.BeginDelete? || step.DelFindMap? || step.DelFindQueue?)
    requires Exact(s, records)
    ensures Exact(Delete(s, step), Ledger(s, step, records))
  {
    hide NoAlias, HeapRefs;
    assert step.t in s.procs ==> Attached(s.root, s.maps, s.procs[step.t]);
    assert forall x: Record :: Findable(Delete(s, step), x) <==> Findable(s, x);
  }

  lemma DeleteExact(s: State, step: Step, records: set<Record>)
    requires Serial(s) && SerialEnabled(s, step) && DeleteStep(step) && Exact(s, records)
    ensures Exact(Delete(s, step), Ledger(s, step, records))
  {
    hide Serial, Exact, Delete, Ledger;
    match step
    case DelErase(t) => EraseExact(s, t, records);
    case DelTrimQueue(t) => TrimExact(s, t, step, records);
    case DelTrimMap(t) => TrimExact(s, t, step, records);
    case _ => FindExact(s, step, records);
  }

  /** Waiters and announcements leave the maps alone. */
  lemma SameMaps(s: State, s': State, t: Thread, records: set<Record>)
    requires Serial(s) && Refs(s') && s'.root == s.root && s'.maps == s.maps && s'.queues == s.queues
    requires t in s'.procs && s'.procs == s.procs[t := s'.procs[t]] && Attached(s.root, s.maps, s'.procs[t])
    requires MapWriter(s'.procs[t]) ==> t in s.procs && MapWriter(s.procs[t])
    requires Exact(s, records)
    ensures Serial(s') && Exact(s', records)
  {
    hide NoAlias, Refs;
    assert forall x: Record :: Findable(s', x) <==> Findable(s, x);
  }

  /** A step of a writer changes no process but its own. */
  lemma AddMovesOne(s: State, step: Step)
    requires Refs(s) && Enabled(s, step) && AddStep(step)
    ensures var s', t := Add(s, step), step.t; t in s'.procs && s'.procs == s.procs[t := s'.procs[t]]
  {
    hide HeapRefs;
  }

  lemma DeleteMovesOne(s: State, step: Step)
    requires Refs(s) && Enabled(s, step) && DeleteStep(step)
    ensures var s', t := Delete(s, step), step.t; t in s'.procs && s'.procs == s.procs[t := s'.procs[t]]
  {
    hide HeapRefs;
  }

  /** A waiter changes its own process and the mutex, and never becomes a writer. */
  lemma WaiterMoves(s: State, step: Step)
    requires Refs(s) && Enabled(s, step) && WaitStep(step)
    ensures var s' := Wait(s, step);
            && step.t in s'.procs && s' == s.(procs := s.procs[step.t := s'.procs[step.t]], holder := s'.holder)
  {
    hide HeapRefs;
  }

  lemma WaiterWaits(s: State, step: Step)
    requires Refs(s) && Enabled(s, step) && WaitStep(step)
    ensures step.t in Wait(s, step).procs
    ensures var p := Wait(s, step).procs[step.t]; p.Want? || p.Scan? || p.ScanEvicting? || p.Parked? || p.Done?
  {
    hide HeapRefs;
  }

  lemma WaitLeavesMaps(s: State, step: Step)
    requires Refs(s) && Enabled(s, step) && WaitStep(step)
    ensures var s' := Wait(s, step);
            && s'.root == s.root && s'.maps == s.maps && s'.queues == s.queues
            && step.t in s'.procs && s'.procs == s.procs[step.t := s'.procs[step.t]] && !MapWriter(s'.procs[step.t])
            && Attached(s.root, s.maps, s'.procs[step.t])
  {
    hide Refs, Wait;
    WaiterMoves(s, step);
    WaiterWaits(s, step);
  }

  lemma WaitSerial(s: State, step: Step, records: set<Record>)
    requires Serial(s) && Refs(s) && Enabled(s, step) && WaitStep(step) && Exact(s, records) && Refs(Wait(s, step))
    ensures Serial(Wait(s, step)) && Exact(Wait(s, step), records)
  {
    hide Refs, Serial, Exact, MapWriter, Attached, Wait;
    WaitLeavesMaps(s, step);
    SameMaps(s, Wait(s, step), step.t, records);
  }

  lemma OtherLeavesMaps(s: State, step: Step)
    requires Serial(s) && Enabled(s, step) && OtherStep(step) && !step.StoreHint? && !step.DropHint?
    ensures var s' := Other(s, step);
            && s'.root == s.root && s'.maps == s.maps && s'.queues == s.queues
            && step.t in s'.procs && s'.procs == s.procs[step.t := s'.procs[step.t]]
            && (MapWriter(s'.procs[step.t]) ==> step.t in s.procs && MapWriter(s.procs[step.t]))
            && Attached(s.root, s.maps, s'.procs[step.t])
  {
    hide Refs, NoAlias;
    assert step.t in s.procs ==> Attached(s.root, s.maps, s.procs[step.t]);
  }

  lemma HintLeavesMaps(s: State, s': State, records: set<Record>)
    requires Serial(s) && Exact(s, records) && Refs(s') && exists hints :: s' == s.(hints := hints)
    ensures Serial(s') && Exact(s', records)
  {
    hide NoAlias, Refs;
    assert forall x: Record :: Findable(s', x) <==> Findable(s, x);
  }

  lemma OtherSerial(s: State, step: Step, records: set<Record>)
    requires Serial(s) && Enabled(s, step) && OtherStep(step) && Exact(s, records) && Refs(Other(s, step))
    ensures Serial(Other(s, step)) && Exact(Other(s, step), records)
  {
    hide Serial, Exact, MapWriter, Attached, Refs;
    var s' := Other(s, step);
    if step.StoreHint? || step.DropHint? {
      assert s' == s.(hints := s'.hints);
      HintLeavesMaps(s, s', records);
    } else {
      OtherLeavesMaps(s, step);
      SameMaps(s, s', step.t, records);
    }
  }

  // ---------------------------------------------------------------------------------------

  ghost predicate SerialRuns(s: State, records: set<Record>, steps: seq<Step>, s': State, records': set<Record>)
    decreases |steps|
  {
    if steps == [] then s == s' && records == records'
    else Refs(s) && SerialEnabled(s, steps[0])
         && SerialRuns(Apply(s, steps[0]), Ledger(s, steps[0], records), steps[1..], s', records')
  }

  lemma SerialStep(s: State, step: Step, records: set<Record>)
    requires Serial(s) && Inv(s) && SerialEnabled(s, step) && Exact(s, records)
    ensures Serial(Apply(s, step)) && Inv(Apply(s, step)) && Exact(Apply(s, step), Ledger(s, step, records))
  {
    hide NoAlias, Exact, Findable;
    StepKeeps(s, step);
    if AddStep(step) {
      AddSerial(s, step);
      AddExact(s, step, records);
    } else if DeleteStep(step) {
      DeleteSerial(s, step);
      DeleteExact(s, step, records);
    } else if OtherStep(step) {
      OtherSerial(s, step, records);
    } else {
      WaitSerial(s, step, records);
    }
  }

  lemma {:induction false} SerialRunKeeps(s: State, records: set<Record>, steps: seq<Step>, s': State,
                                          records': set<Record>)
    requires SerialRuns(s, records, steps, s', records') && Serial(s) && Inv(s) && Exact(s, records)
    ensures Serial(s') && Inv(s') && Exact(s', records')
    decreases |steps|
  {
    hide Serial, Inv, Exact;
    if steps != [] {
      SerialStep(s, steps[0], records);
      SerialRunKeeps(Apply(s, steps[0]), Ledger(s, steps[0], records), steps[1..], s', records');
    }
  }

  /** While writers follow one another the maps hold exactly the recorded instances. */
  lemma MapsAreExact(steps: seq<Step>, s: State, records: set<Record>)
    requires SerialRuns(INIT, {}, steps, s, records)
    ensures forall rec: Record :: rec in records <==> Findable(s, rec)
  {
    SerialRunKeeps(INIT, {}, steps, s, records);
  }

  lemma SleeperIsCovered(s: State, t: Thread, force: bool, f: FuncKey, r: ResKey, m: Ref, q: Ref, id: InstanceId)
    requires Inv(s) && Holds(s, f, r, m, q, id) && !Pending(s.procs, Written(InQueue(q), id))
    ensures !Asleep(s, t, id, force)
  {
    hide Refs, Named, Locked, Holds, Pending, EvictingCovered;
    assert t in s.procs ==> Watched(s, s.procs[t]);
  }

  /** ... and once announced, a recorded instance leaves nobody asleep. */
  lemma NobodySleepsOnARecord(steps: seq<Step>, s: State, records: set<Record>, rec: Record, t: Thread, force: bool)
    requires SerialRuns(INIT, {}, steps, s, records) && rec in records && Announced(s, rec.2)
    ensures !Asleep(s, t, rec.2, force)
  {
    InitSerial();
    hide Inv, Serial, Asleep, Pending, SerialRuns;
    SerialRunKeeps(INIT, {}, steps, s, records);
    assert Findable(s, rec);
    var m := s.root[rec.0];
    var q := s.maps[m][rec.1];
    SleeperIsCovered(s, t, force, rec.0, rec.1, m, q, rec.2);
  }

  lemma InitSerial()
    ensures Serial(INIT) && Inv(INIT) && Exact(INIT, {})
  {
  }

  // ---------------------------------------------------------------------------------------
  // Overlapping writers: a deletion can remove the queue another writer is about to fill, and
  // the instance is then added, announced and in no map
  // ---------------------------------------------------------------------------------------

  /** Some key names queue `q`. */
  ghost predicate Linked(s: State, q: Ref) {
    exists f, r :: f in s.root && NamesQueue(s.maps, s.root[f], Some(r), q)
  }

  /** An addition makes its instance findable exactly if the queue it writes is still linked. */
  lemma AddPublishesExactlyIfLinked(s: State, t: Thread)
    requires Refs(s) && Enabled(s, AddWrite(t)) && !Present(s, s.procs[t].id, false)
    ensures Present(Apply(s, AddWrite(t)), s.procs[t].id, false) <==> Linked(s, s.procs[t].q)
  {
    var p, s' := s.procs[t], Apply(s, AddWrite(t));
    if f, r :| f in s.root && NamesQueue(s.maps, s.root[f], Some(r), p.q) {
      assert Holds(s', f, r, s.root[f], p.q, p.id);
    }
    if f, r, m, q :| Holds(s', f, r, m, q, p.id) {
      assert q != p.q ==> Holds(s, f, r, m, q, p.id);
      assert q == p.q ==> NamesQueue(s.maps, s.root[f], Some(r), q);
    }
  }

  /** Removing an empty queue unlinks it, whoever still has it in hand. */
  lemma TrimUnlinks(s: State, t: Thread)
    requires Refs(s) && NoAlias(s.root, s.maps) && Enabled(s, DelTrimQueue(t))
    requires var p := s.procs[t]; NamesQueue(s.maps, p.m, p.r, p.q) && s.queues[p.q] == {}
    ensures !Linked(Apply(s, DelTrimQueue(t)), s.procs[t].q)
  {
  }

  const RACE := State(
    map[0 := AddQueue("f", Some("r"), "i", 0)], None, 0, map["f" := 0], map[0 := map["r" := 0]], map[0 := {}], {}, {})
  const RACE_MAP :=
    INIT.(procs := map[0 := AddMap("f", Some("r"), "i", 0)], root := map["f" := 0], maps := map[0 := map[]])
  const RACE_DELETE := RACE.(procs := RACE.procs[1 := DelMap("f", Some("r"), "j", 0)])
  const RACE_ERASE := RACE.(procs := RACE.procs[1 := DelQueue("f", Some("r"), "j", 0, 0)])
  const RACE_TRIM := RACE.(procs := RACE.procs[1 := TrimQueue("f", Some("r"), 0, 0)])
  const RACE_LOST := RACE.(procs := RACE.procs[1 := Notify(None, Some(("f", 0)))], maps := map[0 := map[]])

  lemma RaceAdds()
    ensures Runs(INIT, [BeginAdd(0, "f", Some("r"), "i"), AddFindMap(0, 0)], RACE_MAP)
  {
    var s1 := INIT.(procs := map[0 := AddRoot("f", Some("r"), "i")]);
    assert Next(INIT, BeginAdd(0, "f", Some("r"), "i"), s1);
    assert Next(s1, AddFindMap(0, 0), RACE_MAP);
    RunOf([INIT, s1, RACE_MAP], [BeginAdd(0, "f", Some("r"), "i"), AddFindMap(0, 0)]);
  }

  lemma RaceFindsQueue()
    ensures Runs(RACE_MAP, [AddFindQueue(0, 0)], RACE)
  {
    assert Next(RACE_MAP, AddFindQueue(0, 0), RACE);
    RunOf([RACE_MAP, RACE], [AddFindQueue(0, 0)]);
  }

  lemma RaceDeletes()
    ensures Runs(RACE, [BeginDelete(1, "f", Some("r"), "j"), DelFindMap(1)], RACE_DELETE)
  {
    hide Apply, Next;
    var s1 := RACE.(procs := RACE.procs[1 := DelRoot("f", Some("r"), "j")]);
    DeleteNext(RACE, BeginDelete(1, "f", Some("r"), "j"), s1);
    DeleteNext(s1, DelFindMap(1), RACE_DELETE);
    RunOf([RACE, s1, RACE_DELETE], [BeginDelete(1, "f", Some("r"), "j"), DelFindMap(1)]);
  }

  lemma DeleteNext(s: State, step: Step, s': State)
    requires Refs(s) && Enabled(s, step) && DeleteStep(step) && Delete(s, step) == s'
    ensures Next(s, step, s')
  {
    hide Delete, Add, Wait, Other;
  }

  lemma RaceFinds()
    ensures Runs(RACE_DELETE, [DelFindQueue(1)], RACE_ERASE)
  {
    hide Apply, Next;
    DeleteNext(RACE_DELETE, DelFindQueue(1), RACE_ERASE);
    RunOf([RACE_DELETE, RACE_ERASE], [DelFindQueue(1)]);
  }

  lemma RaceErases()
    ensures Runs(RACE_ERASE, [DelErase(1)], RACE_TRIM)
  {
    hide Apply, Next;
    assert RACE_ERASE.queues[0] - {"j"} == {};
    DeleteNext(RACE_ERASE, DelErase(1), RACE_TRIM);
    RunOf([RACE_ERASE, RACE_TRIM], [DelErase(1)]);
  }

  lemma RaceTrims()
    ensures Runs(RACE_TRIM, [DelTrimQueue(1)], RACE_LOST)
  {
    hide Apply, Next;
    DeleteNext(RACE_TRIM, DelTrimQueue(1), RACE_LOST);
    RunOf([RACE_TRIM, RACE_LOST], [DelTrimQueue(1)]);
  }

  lemma {:induction false} RunsConcat(s: State, a: seq<Step>, m: State, b: seq<Step>, s': State)
    requires Runs(s, a, m) && Runs(m, b, s')
    ensures Runs(s, a + b, s')
    decreases |a|
  {
    hide Refs, Enabled, Apply;
    if a == [] {
      assert a + b == b;
    } else {
      assert (a + b)[1..] == a[1..] + b;
      RunsConcat(Apply(s, a[0]), a[1..], m, b, s');
    }
  }

  /** Adding "i" while another instance "j" is deleted: the queue in hand is no longer linked. */
  lemma OverlapCanUnlinkTheQueueInHand()
    ensures exists steps, s :: Runs(INIT, steps, s) && 0 in s.procs && s.procs[0].AddQueue? && !Linked(s, s.procs[0].q)
  {
    hide Runs;
    RaceAdds();
    RaceFindsQueue();
    RaceDeletes();
    RaceFinds();
    RaceErases();
    RaceTrims();
    var a := [BeginAdd(0, "f", Some("r"), "i"), AddFindMap(0, 0)];
    var b := [BeginDelete(1, "f", Some("r"), "j"), DelFindMap(1)];
    RunsConcat(INIT, a, RACE_MAP, [AddFindQueue(0, 0)], RACE);
    RunsConcat(RACE, b, RACE_DELETE, [DelFindQueue(1)], RACE_ERASE);
    RunsConcat(RACE_ERASE, [DelErase(1)], RACE_TRIM, [DelTrimQueue(1)], RACE_LOST);
    RunsConcat(RACE, b + [DelFindQueue(1)], RACE_ERASE, [DelErase(1)] + [DelTrimQueue(1)], RACE_LOST);
    RunsConcat(INIT, a + [AddFindQueue(0, 0)], RACE, b + [DelFindQueue(1)] + ([DelErase(1)] + [DelTrimQueue(1)]),
               RACE_LOST);
    assert RACE_LOST.procs[0].AddQueue? && !Linked(RACE_LOST, 0);
  }
}
