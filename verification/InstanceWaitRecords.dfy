/**
 The other records of instances, and what is left of the maps.  Evicting and route-only records are
 what was stored and not dropped since; and while writers follow one another nothing empty stays linked,
 but for the map that an addition makes whose resource key cannot be read.
 */
module InstanceWaitRecords {
  import opened Sequences
  import opened InstanceWait
  import opened InstanceWaitTheorems

  // ---------------------------------------------------------------------------------------
  // Evicting and route-only records
  // ---------------------------------------------------------------------------------------

  /** Whether `id` is recorded as evicting after the steps, if it `was` before: the last one about it decides. */
  function Evicting(steps: seq<Step>, id: InstanceId, was: bool): bool {
    if steps == [] then was
    else
      var last := steps[|steps| - 1];
      if last.StoreEvicting? && last.id == id then true
      else if last.DropEvicting? && last.id == id then false
      else Evicting(steps[..|steps| - 1], id, was)
  }

  function Hinted(steps: seq<Step>, id: InstanceId, was: bool): bool {
    if steps == [] then was
    else
      var last := steps[|steps| - 1];
      if last == StoreHint(id) then true
      else if last == DropHint(id) then false
      else Hinted(steps[..|steps| - 1], id, was)
  }

  lemma WritersKeepRecords(s: State, step: Step)
    requires Refs(s) && Enabled(s, step) && !OtherStep(step)
    ensures Apply(s, step).evicting == s.evicting && Apply(s, step).hints == s.hints
  {
    hide HeapRefs;
    if AddStep(step) {
    } else if DeleteStep(step) {
    } else {
      WaiterMoves(s, step);
    }
  }

  lemma StepRecords(s: State, step: Step, id: InstanceId)
    requires Refs(s) && Enabled(s, step)
    ensures id in Apply(s, step).evicting <==> Evicting([step], id, id in s.evicting)
    ensures id in Apply(s, step).hints <==> Hinted([step], id, id in s.hints)
  {
    assert [step][..0] == [];
    assert Evicting([step][..0], id, id in s.evicting) == (id in s.evicting);
    assert Hinted([step][..0], id, id in s.hints) == (id in s.hints);
    if !OtherStep(step) {
      hide Apply, Refs, Enabled;
      WritersKeepRecords(s, step);
    }
  }

  lemma {:induction false} EvictingAfter(step: Step, steps: seq<Step>, id: InstanceId, was: bool)
    ensures Evicting([step] + steps, id, was) == Evicting(steps, id, Evicting([step], id, was))
    ensures Hinted([step] + steps, id, was) == Hinted(steps, id, Hinted([step], id, was))
  {
    if steps == [] {
      assert [step] + steps == [step];
    } else {
      var n := |steps| - 1;
      assert ([step] + steps)[..|[step] + steps| - 1] == [step] + steps[..n];
      EvictingAfter(step, steps[..n], id, was);
    }
  }

  /** After every run, the last record stored or dropped for an instance decides what is found. */
  lemma {:induction false} LastRecordDecides(s: State, steps: seq<Step>, s': State, id: InstanceId)
    requires Runs(s, steps, s')
    ensures id in s'.evicting <==> Evicting(steps, id, id in s.evicting)
    ensures id in s'.hints <==> Hinted(steps, id, id in s.hints)
    decreases |steps|
  {
    hide Refs, Enabled, Apply;
    if steps != [] {
      StepRecords(s, steps[0], id);
      LastRecordDecides(Apply(s, steps[0]), steps[1..], s', id);
      EvictingAfter(steps[0], steps[1..], id, id in s.evicting);
      EvictingAfter(steps[0], steps[1..], id, id in s.hints);
      assert steps == [steps[0]] + steps[1..];
    }
  }

  // ---------------------------------------------------------------------------------------
  // Nothing empty is left
  // ---------------------------------------------------------------------------------------

  /** A writer is about to fill or to unlink the queue of `f` and `r`. */
  predicate HasQueue(p: Proc, f: FuncKey, r: ResKey) {
    (p.AddQueue? || p.TrimQueue?) && p.f == f && p.r == Some(r)
  }

  /** A writer is about to give the map of `f` a queue or to unlink it. */
  predicate HasMap(p: Proc, f: FuncKey) {
    ((p.AddMap? || p.TrimMap?) && p.f == f) || (p.Notify? && p.trim.Some? && p.trim.value.0 == f)
  }

  predicate Bare(s: State, f: FuncKey) {
    f in s.root && s.root[f] in s.maps && s.maps[s.root[f]] == map[]
  }

  predicate Empty(s: State, f: FuncKey, r: ResKey) {
    && f in s.root && s.root[f] in s.maps && r in s.maps[s.root[f]]
    && s.maps[s.root[f]][r] in s.queues && s.queues[s.maps[s.root[f]][r]] == {}
  }

  ghost predicate QueueInHand(procs: map<Thread, Proc>, f: FuncKey, r: ResKey) {
    exists t :: t in procs && HasQueue(procs[t], f, r)
  }

  ghost predicate MapInHand(procs: map<Thread, Proc>, f: FuncKey) {
    exists t :: t in procs && HasMap(procs[t], f)
  }

  /** Whatever is empty is in a writer's hand. */
  ghost predicate Tidy(s: State) {
    && (forall f, r :: Empty(s, f, r) ==> QueueInHand(s.procs, f, r))
    && (forall f :: Bare(s, f) ==> MapInHand(s.procs, f))
  }

  /** An addition that cannot read its resource key turns away from a function map without queues. */
  predicate Sloppy(s: State, step: Step) {
    step.AddFindQueue? && step.t in s.procs && s.procs[step.t].AddMap? && s.procs[step.t].r.None?
    && s.procs[step.t].m in s.maps && s.maps[s.procs[step.t].m] == map[]
  }

  /** A thread that has nothing in hand may change as it likes. */
  lemma HandsStay(procs: map<Thread, Proc>, t: Thread, p: Proc, f: FuncKey, r: ResKey)
    ensures (t in procs ==> !HasQueue(procs[t], f, r)) && QueueInHand(procs, f, r) ==> QueueInHand(procs[t := p], f, r)
    ensures (t in procs ==> !HasMap(procs[t], f)) && MapInHand(procs, f) ==> MapInHand(procs[t := p], f)
    ensures HasQueue(p, f, r) ==> QueueInHand(procs[t := p], f, r)
    ensures HasMap(p, f) ==> MapInHand(procs[t := p], f)
  {
    var procs' := procs[t := p];
    assert t in procs' && procs'[t] == p;
    if QueueInHand(procs, f, r) && (t in procs ==> !HasQueue(procs[t], f, r)) {
      var u :| u in procs && HasQueue(procs[u], f, r);
      assert u in procs' && HasQueue(procs'[u], f, r);
    }
    if MapInHand(procs, f) && (t in procs ==> !HasMap(procs[t], f)) {
      var u :| u in procs && HasMap(procs[u], f);
      assert u in procs' && HasMap(procs'[u], f);
    }
  }

  /** A step of `t` that changes its process from `was` keeps everything tidy if it lets go of nothing empty. */
  lemma MoveKeepsTidy(s: State, s': State, t: Thread)
    requires Tidy(s) && t in s'.procs && s'.procs == s.procs[t := s'.procs[t]]
    requires forall f, r :: Empty(s', f, r) ==>
               || HasQueue(s'.procs[t], f, r)
               || (Empty(s, f, r) && (t in s.procs ==> !HasQueue(s.procs[t], f, r)))
    requires forall f :: Bare(s', f) ==>
               HasMap(s'.procs[t], f) || (Bare(s, f) && (t in s.procs ==> !HasMap(s.procs[t], f)))
    ensures Tidy(s')
  {
    hide Empty, Bare, HasQueue, HasMap, QueueInHand, MapInHand;
    forall f, r | Empty(s', f, r) ensures QueueInHand(s'.procs, f, r) {
      HandsStay(s.procs, t, s'.procs[t], f, r);
    }
    forall f | Bare(s', f) ensures MapInHand(s'.procs, f) {
      HandsStay(s.procs, t, s'.procs[t], f, "");
    }
  }

  lemma AddTidy(s: State, step: Step)
    requires Serial(s) && Tidy(s) && Enabled(s, step) && AddStep(step) && !Sloppy(s, step)
    ensures Tidy(Add(s, step))
  {
    hide Tidy, HeapRefs;
    AddMovesOne(s, step);
    AddLetsQueuesGo(s, step);
    AddLetsMapsGo(s, step);
    MoveKeepsTidy(s, Add(s, step), step.t);
  }

  /** The step of `t` lets go of no empty queue. */
  ghost predicate QueuesKept(s: State, s': State, t: Thread) {
    && t in s'.procs
    && forall f, r :: Empty(s', f, r) ==>
         || HasQueue(s'.procs[t], f, r)
         || (Empty(s, f, r) && (t in s.procs ==> !HasQueue(s.procs[t], f, r)))
  }

  /** Nor of an empty function map. */
  ghost predicate MapsKept(s: State, s': State, t: Thread) {
    && t in s'.procs
    && forall f :: Bare(s', f) ==>
         HasMap(s'.procs[t], f) || (Bare(s, f) && (t in s.procs ==> !HasMap(s.procs[t], f)))
  }

  lemma WriteLetsGo(s: State, t: Thread)
    requires Serial(s) && Enabled(s, AddWrite(t))
    ensures QueuesKept(s, Add(s, AddWrite(t)), t)
  {
    hide MapWriter;
    var p := s.procs[t];
    assert Attached(s.root, s.maps, p);
    assert p.id in Add(s, AddWrite(t)).queues[p.q];
  }

  lemma AddLetsQueuesGo(s: State, step: Step)
    requires Serial(s) && Enabled(s, step) && AddStep(step)
    ensures QueuesKept(s, Add(s, step), step.t)
  {
    if step.AddWrite? {
      WriteLetsGo(s, step.t);
    } else {
      hide MapWriter;
      assert step.t in s.procs ==> Attached(s.root, s.maps, s.procs[step.t]);
    }
  }

  lemma FindQueueLetsMapsGo(s: State, t: Thread, made: Ref)
    requires Serial(s) && Enabled(s, AddFindQueue(t, made)) && !Sloppy(s, AddFindQueue(t, made))
    ensures MapsKept(s, Add(s, AddFindQueue(t, made)), t)
  {
    hide MapWriter, HeapRefs;
    var p, s' := s.procs[t], Add(s, AddFindQueue(t, made));
    assert Attached(s.root, s.maps, p);
    if p.r.Some? {
      assert p.r.value in s'.maps[p.m];
    }
    assert s'.maps[p.m] != map[];
    assert forall m :: m in s.maps && m != p.m ==> m in s'.maps && s'.maps[m] == s.maps[m];
  }

  lemma AddLetsMapsGo(s: State, step: Step)
    requires Serial(s) && Enabled(s, step) && AddStep(step) && !Sloppy(s, step)
    ensures MapsKept(s, Add(s, step), step.t)
  {
    if step.AddFindQueue? {
      FindQueueLetsMapsGo(s, step.t, step.made);
    } else {
      hide MapWriter, NoAlias;
    }
  }

  lemma DeleteTidy(s: State, step: Step)
    requires Serial(s) && Tidy(s) && Enabled(s, step) && DeleteStep(step)
    ensures Tidy(Delete(s, step))
  {
    hide Tidy, HeapRefs;
    DeleteMovesOne(s, step);
    DeleteLetsQueuesGo(s, step);
    DeleteLetsMapsGo(s, step);
    MoveKeepsTidy(s, Delete(s, step), step.t);
  }

  lemma EraseLetsGo(s: State, t: Thread)
    requires Serial(s) && Enabled(s, DelErase(t))
    ensures QueuesKept(s, Delete(s, DelErase(t)), t)
  {
    hide HeapRefs, MapWriter;
    assert Attached(s.root, s.maps, s.procs[t]);
  }

  lemma TrimLetsGo(s: State, t: Thread)
    requires Serial(s) && Enabled(s, DelTrimQueue(t))
    ensures QueuesKept(s, Delete(s, DelTrimQueue(t)), t)
  {
    hide MapWriter;
    assert Attached(s.root, s.maps, s.procs[t]);
  }

  lemma DeleteLetsQueuesGo(s: State, step: Step)
    requires Serial(s) && Enabled(s, step) && DeleteStep(step)
    ensures QueuesKept(s, Delete(s, step), step.t)
  {
    if step.DelErase? {
      EraseLetsGo(s, step.t);
    } else if step.DelTrimQueue? {
      TrimLetsGo(s, step.t);
    } else {
      hide HeapRefs, MapWriter, NoAlias, Attached;
    }
  }

  lemma TrimQueueLetsMapsGo(s: State, t: Thread)
    requires Serial(s) && Enabled(s, DelTrimQueue(t))
    ensures MapsKept(s, Delete(s, DelTrimQueue(t)), t)
  {
    hide MapWriter, HeapRefs;
    assert Attached(s.root, s.maps, s.procs[t]);
  }

  lemma TrimMapLetsGo(s: State, t: Thread)
    requires Serial(s) && Enabled(s, DelTrimMap(t))
    ensures MapsKept(s, Delete(s, DelTrimMap(t)), t)
  {
    hide MapWriter, HeapRefs;
    assert Attached(s.root, s.maps, s.procs[t]);
  }

  lemma DeleteLetsMapsGo(s: State, step: Step)
    requires Serial(s) && Enabled(s, step) && DeleteStep(step)
    ensures MapsKept(s, Delete(s, step), step.t)
  {
    if step.DelTrimQueue? {
      TrimQueueLetsMapsGo(s, step.t);
    } else if step.DelTrimMap? {
      TrimMapLetsGo(s, step.t);
    } else {
      hide HeapRefs, MapWriter, NoAlias, Attached;
    }
  }

  /** With the maps unchanged it is enough that the thread keeps what it has in hand. */
  lemma SameMapsTidy(s: State, s': State, t: Thread)
    requires Tidy(s) && t in s'.procs && s'.procs == s.procs[t := s'.procs[t]]
    requires s'.root == s.root && s'.maps == s.maps && s'.queues == s.queues
    requires forall f, r :: t in s.procs && HasQueue(s.procs[t], f, r) ==> HasQueue(s'.procs[t], f, r)
    requires forall f :: t in s.procs && HasMap(s.procs[t], f) ==> HasMap(s'.procs[t], f)
    ensures Tidy(s')
  {
    hide Tidy, HasQueue, HasMap;
    MoveKeepsTidy(s, s', t);
  }

  lemma WaitTidy(s: State, step: Step)
    requires Refs(s) && Tidy(s) && Enabled(s, step) && WaitStep(step)
    ensures Tidy(Wait(s, step))
  {
    hide Tidy, HeapRefs, Wait;
    WaitLeavesMaps(s, step);
    SameMapsTidy(s, Wait(s, step), step.t);
  }

  lemma OtherTidy(s: State, step: Step)
    requires Serial(s) && Tidy(s) && Enabled(s, step) && OtherStep(step)
    ensures Tidy(Other(s, step))
  {
    if step.StoreHint? || step.DropHint? {
      HintTidy(s, Other(s, step).hints);
    } else {
      hide Tidy, HeapRefs, NoAlias;
      OtherLeavesMaps(s, step);
      SameMapsTidy(s, Other(s, step), step.t);
    }
  }

  lemma HintTidy(s: State, hints: set<InstanceId>)
    requires Tidy(s)
    ensures Tidy(s.(hints := hints))
  {
    var s' := s.(hints := hints);
    assert forall f, r :: Empty(s', f, r) ==> Empty(s, f, r);
    assert forall f :: Bare(s', f) ==> Bare(s, f);
  }

  lemma StepTidy(s: State, step: Step)
    requires Serial(s) && Tidy(s) && Enabled(s, step) && !Sloppy(s, step)
    ensures Tidy(Apply(s, step))
  {
    hide Tidy, NoAlias, HeapRefs, Enabled, Add, Delete, Other, Wait;
    if AddStep(step) {
      AddTidy(s, step);
    } else if DeleteStep(step) {
      DeleteTidy(s, step);
    } else if OtherStep(step) {
      OtherTidy(s, step);
    } else {
      WaitTidy(s, step);
    }
  }

  /** A step leaves something empty that nobody has in hand if and only if it is such an addition. */
  lemma LeavesEmptyExactlyIfSloppy(s: State, step: Step)
    requires Serial(s) && Tidy(s) && Enabled(s, step)
    ensures Tidy(Apply(s, step)) <==> !Sloppy(s, step)
  {
    if Sloppy(s, step) {
      SloppyIsUntidy(s, step.t, step.made);
    } else {
      hide Serial, Tidy, Enabled, Apply, Sloppy;
      StepTidy(s, step);
    }
  }

  lemma SloppyIsUntidy(s: State, t: Thread, made: Ref)
    requires Serial(s) && Enabled(s, AddFindQueue(t, made)) && Sloppy(s, AddFindQueue(t, made))
    ensures !Tidy(Apply(s, AddFindQueue(t, made)))
  {
    hide HeapRefs, NoAlias;
    var s', f := Apply(s, AddFindQueue(t, made)), s.procs[t].f;
    assert s' == SetProc(s, t, Notify(None, None));
    assert Attached(s.root, s.maps, s.procs[t]);
    assert Bare(s', f);
    forall u | u in s'.procs ensures !HasMap(s'.procs[u], f) {
      assert u != t ==> !MapWriter(s.procs[u]);
    }
  }

  ghost predicate NeverSloppy(s: State, steps: seq<Step>)
    decreases |steps|
  {
    steps != [] && Refs(s) && Enabled(s, steps[0]) ==>
      !Sloppy(s, steps[0]) && NeverSloppy(Apply(s, steps[0]), steps[1..])
  }

  lemma {:induction false} RunTidy(s: State, records: set<Record>, steps: seq<Step>, s': State, records': set<Record>)
    requires SerialRuns(s, records, steps, s', records') && Serial(s) && Inv(s) && Exact(s, records) && Tidy(s)
    requires NeverSloppy(s, steps)
    ensures Refs(s') && Tidy(s')
    decreases |steps|
  {
    hide Inv, Exact, Tidy, Apply, Ledger, NoAlias, Sloppy;
    if steps != [] {
      SerialStep(s, steps[0], records);
      StepTidy(s, steps[0]);
      RunTidy(Apply(s, steps[0]), Ledger(s, steps[0], records), steps[1..], s', records');
    }
  }

  /** When no writer is at work, every linked function has a queue and every linked queue an instance. */
  lemma NothingEmptyIsLeft(steps: seq<Step>, s: State, records: set<Record>)
    requires SerialRuns(INIT, {}, steps, s, records) && NeverSloppy(INIT, steps) && Idle(s.procs)
    ensures forall f :: f in s.root ==>
              && s.root[f] in s.maps && s.maps[s.root[f]] != map[]
              && forall r :: r in s.maps[s.root[f]] ==>
                   s.maps[s.root[f]][r] in s.queues && s.queues[s.maps[s.root[f]][r]] != {}
  {
    InitSerial();
    hide SerialRuns, Inv, Serial, Exact, NeverSloppy;
    RunTidy(INIT, {}, steps, s, records);
    forall f | f in s.root
      ensures s.root[f] in s.maps && s.maps[s.root[f]] != map[]
      ensures forall r :: r in s.maps[s.root[f]] ==>
                s.maps[s.root[f]][r] in s.queues && s.queues[s.maps[s.root[f]][r]] != {}
    {
      assert s.root[f] in s.root.Values;
      assert !Bare(s, f);
      forall r | r in s.maps[s.root[f]]
        ensures s.maps[s.root[f]][r] in s.queues && s.queues[s.maps[s.root[f]][r]] != {}
      {
        assert s.maps[s.root[f]][r] in s.maps[s.root[f]].Values;
        assert !Empty(s, f, r);
      }
    }
  }

  const KEYLESS := INIT.(procs := map[0 := AddMap("f", None, "i", 0)], root := map["f" := 0], maps := map[0 := map[]])
  const TURNED := KEYLESS.(procs := map[0 := Notify(None, None)])
  const LEFT := KEYLESS.(procs := map[0 := Done(false)], gen := 1)

  lemma KeylessAdds()
    ensures Runs(INIT, [BeginAdd(0, "f", None, "i"), AddFindMap(0, 0)], KEYLESS)
  {
    var s1 := INIT.(procs := map[0 := AddRoot("f", None, "i")]);
    assert Next(INIT, BeginAdd(0, "f", None, "i"), s1);
    assert Next(s1, AddFindMap(0, 0), KEYLESS);
    RunOf([INIT, s1, KEYLESS], [BeginAdd(0, "f", None, "i"), AddFindMap(0, 0)]);
  }

  lemma KeylessTurnsAway()
    ensures Runs(KEYLESS, [AddFindQueue(0, 0)], TURNED)
  {
    assert Next(KEYLESS, AddFindQueue(0, 0), TURNED);
    RunOf([KEYLESS, TURNED], [AddFindQueue(0, 0)]);
  }

  lemma KeylessAnnounces()
    ensures Runs(TURNED, [Announce(0)], LEFT)
  {
    assert Next(TURNED, Announce(0), LEFT);
    RunOf([TURNED, LEFT], [Announce(0)]);
  }

  /** It can happen: one such addition, and an empty function map is left with nobody at work. */
  lemma EmptyMapCanBeLeft()
    ensures exists steps, s :: Runs(INIT, steps, s) && Idle(s.procs) && Bare(s, "f")
  {
    hide Runs;
    KeylessAdds();
    KeylessTurnsAway();
    KeylessAnnounces();
    var a := [BeginAdd(0, "f", None, "i"), AddFindMap(0, 0)];
    RunsConcat(INIT, a, KEYLESS, [AddFindQueue(0, 0)], TURNED);
    RunsConcat(INIT, a + [AddFindQueue(0, 0)], TURNED, [Announce(0)], LEFT);
    assert Bare(LEFT, "f") && Idle(LEFT.procs);
  }
}
