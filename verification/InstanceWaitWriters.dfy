/**
 Writers from call to return: an addition writes the record it was called with and a deletion erases
 it, they can always finish when the mutex is free, and the maps then differ by exactly that record.
 */
module InstanceWaitWriters {
  import opened Sequences
  import opened InstanceWait
  import opened InstanceWaitTheorems
  import opened InstanceWaitAnswers

  // ---------------------------------------------------------------------------------------
  // A writer keeps to its call
  // ---------------------------------------------------------------------------------------

  /** The process of an addition (or else a deletion) that was called with `f`, `r` and `id`. */
  predicate Serves(p: Proc, adding: bool, f: FuncKey, r: Option<ResKey>, id: InstanceId) {
    match p
    case AddRoot(g, x, i) => adding && g == f && x == r && i == id
    case AddMap(g, x, i, _) => adding && g == f && x == r && i == id
    case AddQueue(g, x, i, _) => adding && g == f && x == r && i == id
    case DelRoot(g, x, i) => !adding && g == f && x == r && i == id
    case DelMap(g, x, i, _) => !adding && g == f && x == r && i == id
    case DelQueue(g, x, i, _, _) => !adding && g == f && x == r && i == id
    case TrimQueue(g, x, _, _) => !adding && g == f && x == r
    case TrimMap(g, _) => !adding && g == f
    case Notify(wrote, trim) =>
      && (wrote.Some? ==> adding && wrote.value.place.InQueue? && wrote.value.id == id)
      && (if adding then trim.None? else trim.Some? && trim.value.0 == f)
    case Done(found) => !found
    case _ => false
  }

  lemma AddServes(s: State, step: Step, f: FuncKey, r: Option<ResKey>, id: InstanceId)
    requires Refs(s) && Enabled(s, step) && AddStep(step) && step.t in s.procs
    requires Serves(s.procs[step.t], true, f, r, id)
    ensures step.t in Add(s, step).procs && Serves(Add(s, step).procs[step.t], true, f, r, id)
  {
    hide HeapRefs;
  }

  lemma DeleteServes(s: State, step: Step, f: FuncKey, r: Option<ResKey>, id: InstanceId)
    requires Refs(s) && Enabled(s, step) && DeleteStep(step) && step.t in s.procs
    requires Serves(s.procs[step.t], false, f, r, id)
    ensures step.t in Delete(s, step).procs && Serves(Delete(s, step).procs[step.t], false, f, r, id)
  {
    hide HeapRefs;
  }

  lemma OwnStepServes(s: State, step: Step, adding: bool, f: FuncKey, r: Option<ResKey>, id: InstanceId)
    requires Refs(s) && Enabled(s, step) && Mover(step).Some? && step.t in s.procs
    requires Serves(s.procs[step.t], adding, f, r, id)
    ensures step.t in Apply(s, step).procs && Serves(Apply(s, step).procs[step.t], adding, f, r, id)
  {
    hide Refs, Add, Delete, Wait;
    if AddStep(step) {
      AddServes(s, step, f, r, id);
    } else if DeleteStep(step) {
      DeleteServes(s, step, f, r, id);
    }
  }

  lemma {:induction false} RunServes(s: State, steps: seq<Step>, s': State, t: Thread, adding: bool, f: FuncKey,
                                     r: Option<ResKey>, id: InstanceId)
    requires Runs(s, steps, s') && t in s.procs && Serves(s.procs[t], adding, f, r, id)
    ensures t in s'.procs && Serves(s'.procs[t], adding, f, r, id)
    decreases |steps|
  {
    hide Refs, Enabled, Apply, Serves;
    if steps != [] {
      if Mover(steps[0]) == Some(t) {
        OwnStepServes(s, steps[0], adding, f, r, id);
      } else {
        OthersStay(s, steps[0], t);
      }
      RunServes(Apply(s, steps[0]), steps[1..], s', t, adding, f, r, id);
    }
  }

  /** Whatever runs after the call of an addition, what it writes is what it was called with. */
  lemma AdditionKeepsToItsCall(s: State, t: Thread, f: FuncKey, r: Option<ResKey>, id: InstanceId, steps: seq<Step>,
                               s': State)
    requires Refs(s) && Enabled(s, BeginAdd(t, f, r, id)) && Runs(Apply(s, BeginAdd(t, f, r, id)), steps, s')
    ensures t in s'.procs && Serves(s'.procs[t], true, f, r, id)
    ensures Enabled(s', AddWrite(t)) ==> s'.procs[t].f == f && s'.procs[t].r == r && s'.procs[t].id == id
  {
    hide Runs, HeapRefs;
    RunServes(Apply(s, BeginAdd(t, f, r, id)), steps, s', t, true, f, r, id);
  }

  /** And what a deletion erases. */
  lemma DeletionKeepsToItsCall(s: State, t: Thread, f: FuncKey, r: Option<ResKey>, id: InstanceId, steps: seq<Step>,
                               s': State)
    requires Refs(s) && Enabled(s, BeginDelete(t, f, r, id)) && Runs(Apply(s, BeginDelete(t, f, r, id)), steps, s')
    ensures t in s'.procs && Serves(s'.procs[t], false, f, r, id)
    ensures Enabled(s', DelErase(t)) ==> s'.procs[t].f == f && s'.procs[t].r == r && s'.procs[t].id == id
  {
    hide Runs, HeapRefs;
    RunServes(Apply(s, BeginDelete(t, f, r, id)), steps, s', t, false, f, r, id);
  }

  /** A waiter likewise waits for the instance, and in the mode, that it was called with. */
  lemma WaiterKeepsToItsCall(s: State, t: Thread, id: InstanceId, force: bool, steps: seq<Step>, s': State)
    requires Refs(s) && Enabled(s, BeginWait(t, id, force)) && Runs(Apply(s, BeginWait(t, id, force)), steps, s')
    ensures t in s'.procs
    ensures s'.procs[t] == Done(true) ==> SeesIn(Apply(s, BeginWait(t, id, force)), steps, t, id, force)
    ensures s'.procs[t] == Done(false) ==> Cancel(t) in steps
    ensures !s'.procs[t].Done? ==> StillWaits(s'.procs[t]) && s'.procs[t].id == id && Forced(s'.procs[t]) == force
  {
    hide Runs, HeapRefs, SeesIn;
    AnswerIsJustified(Apply(s, BeginWait(t, id, force)), steps, s', t);
  }

  // ---------------------------------------------------------------------------------------
  // A writer can finish
  // ---------------------------------------------------------------------------------------

  function Rank(p: Proc): nat {
    match p
    case AddRoot(_, _, _) => 5
    case AddMap(_, _, _, _) => 4
    case AddQueue(_, _, _, _) => 3
    case DelRoot(_, _, _) => 6
    case DelMap(_, _, _, _) => 5
    case DelQueue(_, _, _, _, _) => 4
    case TrimQueue(_, _, _, _) => 3
    case Notify(_, _) => 2
    case TrimMap(_, _) => 1
    case _ => 0
  }

  /** The record a writer has still to write or to erase. */
  function Owes(p: Proc): Option<Record> {
    if (p.AddRoot? || p.AddMap? || p.AddQueue? || p.DelRoot? || p.DelMap? || p.DelQueue?) && p.r.Some?
    then Some((p.f, p.r.value, p.id)) else None
  }

  /** The records once the writer is through. */
  function Settled(p: Proc, records: set<Record>): set<Record> {
    if Owes(p).None? then records
    else if p.AddRoot? || p.AddMap? || p.AddQueue? then records + {Owes(p).value}
    else records - {Owes(p).value}
  }

  lemma NextWrite(s: State, t: Thread) returns (step: Step)
    requires t in s.procs && Rank(s.procs[t]) > 0 && s.holder == None
    ensures Enabled(s, step) && Mover(step) == Some(t) && !WaitStep(step) && !step.BeginAdd? && !step.BeginDelete?
  {
    match s.procs[t]
    case AddRoot(_, _, _) =>
      var m := Unused(s.maps.Keys, 0);
      step := AddFindMap(t, m);
    case AddMap(_, _, _, _) =>
      var q := Unused(s.queues.Keys, 0);
      step := AddFindQueue(t, q);
    case AddQueue(_, _, _, _) => step := AddWrite(t);
    case DelRoot(_, _, _) => step := DelFindMap(t);
    case DelMap(_, _, _, _) => step := DelFindQueue(t);
    case DelQueue(_, _, _, _, _) => step := DelErase(t);
    case TrimQueue(_, _, _, _) => step := DelTrimQueue(t);
    case Notify(_, _) => step := Announce(t);
    case TrimMap(_, _) => step := DelTrimMap(t);
  }

  /** The step of writer `t` brings it nearer to its end and settles what it settles. */
  ghost predicate MovesOn(s: State, s': State, t: Thread, records: set<Record>, records': set<Record>)
    requires t in s.procs
  {
    && t in s'.procs && Rank(s'.procs[t]) < Rank(s.procs[t]) && s'.holder == s.holder
    && (Rank(s'.procs[t]) == 0 ==> s'.procs[t] == Done(false))
    && Settled(s'.procs[t], records') == Settled(s.procs[t], records)
  }

  lemma AddMovesOn(s: State, step: Step, records: set<Record>)
    requires Refs(s) && Enabled(s, step) && AddStep(step) && step.t in s.procs
    ensures MovesOn(s, Add(s, step), step.t, records, Ledger(s, step, records))
  {
    hide HeapRefs;
  }

  lemma FindMovesOn(s: State, step: Step, records: set<Record>)
    requires Refs(s) && Enabled(s, step) && (step.DelFindMap? || step.DelFindQueue?)
    ensures MovesOn(s, Delete(s, step), step.t, records, Ledger(s, step, records))
  {
    hide HeapRefs;
  }

  lemma EraseMovesOn(s: State, t: Thread, records: set<Record>)
    requires Refs(s) && Enabled(s, DelErase(t))
    ensures MovesOn(s, Delete(s, DelErase(t)), t, records, Ledger(s, DelErase(t), records))
  {
    hide HeapRefs;
  }

  lemma TrimMovesOn(s: State, step: Step, records: set<Record>)
    requires Refs(s) && Enabled(s, step) && (step.DelTrimQueue? || step.DelTrimMap?)
    ensures MovesOn(s, Delete(s, step), step.t, records, Ledger(s, step, records))
  {
    hide HeapRefs;
  }

  lemma DeleteMovesOn(s: State, step: Step, records: set<Record>)
    requires Refs(s) && Enabled(s, step) && DeleteStep(step) && step.t in s.procs
    ensures MovesOn(s, Delete(s, step), step.t, records, Ledger(s, step, records))
  {
    hide Refs, Delete, MovesOn, Ledger;
    if step.DelErase? {
      EraseMovesOn(s, step.t, records);
    } else if step.DelTrimQueue? || step.DelTrimMap? {
      TrimMovesOn(s, step, records);
    } else {
      FindMovesOn(s, step, records);
    }
  }

  lemma AnnounceMovesOn(s: State, t: Thread, records: set<Record>)
    requires Refs(s) && Enabled(s, Announce(t))
    ensures MovesOn(s, Other(s, Announce(t)), t, records, Ledger(s, Announce(t), records))
  {
    hide HeapRefs;
  }

  lemma WriteMovesOn(s: State, step: Step, records: set<Record>)
    requires Refs(s) && Enabled(s, step) && Mover(step).Some? && !WaitStep(step) && step.t in s.procs
    ensures MovesOn(s, Apply(s, step), step.t, records, Ledger(s, step, records))
  {
    hide Refs, Add, Delete, Other, Wait, MovesOn, Ledger;
    if AddStep(step) {
      AddMovesOn(s, step, records);
    } else if DeleteStep(step) {
      DeleteMovesOn(s, step, records);
    } else {
      AnnounceMovesOn(s, step.t, records);
    }
  }

  /** Let run while nobody looks, a writer finishes, and the records are settled as its call says. */
  lemma {:induction false} FinishesAlone(s: State, records: set<Record>, t: Thread)
    returns (steps: seq<Step>, s': State, records': set<Record>)
    requires Serial(s) && Inv(s) && Exact(s, records) && t in s.procs && Rank(s.procs[t]) > 0 && s.holder == None
    ensures SerialRuns(s, records, steps, s', records') && t in s'.procs && s'.procs[t] == Done(false)
    ensures records' == Settled(s.procs[t], records) && Serial(s') && Inv(s') && Exact(s', records')
    decreases Rank(s.procs[t])
  {
    hide Serial, Inv, Exact, Enabled, Apply, Ledger, Settled, Findable;
    var step := NextWrite(s, t);
    SerialIsRefs(s);
    WriteMovesOn(s, step, records);
    SerialStep(s, step, records);
    var m, settled := Apply(s, step), Ledger(s, step, records);
    if Rank(m.procs[t]) == 0 {
      NothingOwed(m.procs[t], settled);
      assert SerialRuns(m, settled, [], m, settled);
      steps, s', records' := [step], m, settled;
      assert [step][1..] == [];
    } else {
      var rest;
      rest, s', records' := FinishesAlone(m, settled, t);
      steps := [step] + rest;
      assert steps[1..] == rest;
    }
  }

  lemma SerialIsRefs(s: State)
    requires Serial(s)
    ensures Refs(s)
  {
  }

  lemma NothingOwed(p: Proc, records: set<Record>)
    requires Rank(p) == 0
    ensures Settled(p, records) == records
  {
  }

  lemma CallStarts(s: State, step: Step, records: set<Record>)
    requires Serial(s) && Enabled(s, step) && (step.BeginAdd? || step.BeginDelete?)
    ensures var s' := Apply(s, step); step.t in s'.procs && s'.holder == s.holder && Rank(s'.procs[step.t]) > 0
    ensures Ledger(s, step, records) == records
    ensures Apply(s, step).procs[step.t] ==
            if step.BeginAdd? then AddRoot(step.f, step.r, step.id) else DelRoot(step.f, step.r, step.id)
  {
    hide NoAlias, HeapRefs, Attached;
  }

  /** An addition that is let run makes exactly its own record findable, if its resource key can be read. */
  lemma AdditionRecords(s: State, records: set<Record>, t: Thread, f: FuncKey, r: Option<ResKey>, id: InstanceId)
    returns (steps: seq<Step>, s': State)
    requires Serial(s) && Inv(s) && Exact(s, records) && Idle(s.procs) && s.holder == None
    requires Enabled(s, BeginAdd(t, f, r, id))
    ensures Runs(Apply(s, BeginAdd(t, f, r, id)), steps, s') && t in s'.procs && s'.procs[t] == Done(false)
    ensures forall x: Record :: Findable(s', x) <==> Findable(s, x) || (r.Some? && x == (f, r.value, id))
  {
    hide Serial, Inv, Findable, Runs, SerialRuns;
    SerialIsRefs(s);
    var step := BeginAdd(t, f, r, id);
    SerialStep(s, step, records);
    CallStarts(s, step, records);
    var after;
    steps, s', after := FinishesAlone(Apply(s, step), records, t);
    SerialRunIsRun(Apply(s, step), records, steps, s', after);
  }

  /** A deletion that is let run makes exactly its own record unfindable. */
  lemma DeletionErases(s: State, records: set<Record>, t: Thread, f: FuncKey, r: Option<ResKey>, id: InstanceId)
    returns (steps: seq<Step>, s': State)
    requires Serial(s) && Inv(s) && Exact(s, records) && Idle(s.procs) && s.holder == None
    requires Enabled(s, BeginDelete(t, f, r, id))
    ensures Runs(Apply(s, BeginDelete(t, f, r, id)), steps, s') && t in s'.procs && s'.procs[t] == Done(false)
    ensures forall x: Record :: Findable(s', x) <==> Findable(s, x) && !(r.Some? && x == (f, r.value, id))
  {
    hide Serial, Inv, Findable, Runs, SerialRuns;
    SerialIsRefs(s);
    var step := BeginDelete(t, f, r, id);
    SerialStep(s, step, records);
    CallStarts(s, step, records);
    var after;
    steps, s', after := FinishesAlone(Apply(s, step), records, t);
    SerialRunIsRun(Apply(s, step), records, steps, s', after);
  }

  lemma {:induction false} SerialRunIsRun(s: State, records: set<Record>, steps: seq<Step>, s': State,
                                          records': set<Record>)
    requires SerialRuns(s, records, steps, s', records')
    ensures Runs(s, steps, s')
    decreases |steps|
  {
    hide Refs, Enabled, Apply, Ledger;
    if steps != [] {
      SerialRunIsRun(Apply(s, steps[0]), Ledger(s, steps[0], records), steps[1..], s', records');
    }
  }
}
