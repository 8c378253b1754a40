/**
 Assembling the batches of a retain pass (lease_manager.go): the leases of one scheduler, in the
 order of the snapshot, cut into batches that hold at most MAX_BATCH_SIZE infos.
 */
module RetainBatches {
  import opened Sequences
  import opened Text

  type LeaseId = string
  type SchedulerId = string

  const MAX_BATCH_SIZE := 1000

  /** A snapshot lease: its scheduler if one was resolved, and its info, missing if it has no pool. */
  datatype Snapshot = Snapshot(leaseId: LeaseId, scheduler: Option<SchedulerId>, address: string, info: Option<string>)

  datatype Batch = Batch(targetName: string, infos: map<LeaseId, string>, address: string)

  function AssembleTargetName(target: string, leaseId: LeaseId): string {
    if target == "" then leaseId else target + "," + leaseId
  }

  // ---------------------------------------------------------------------------------------
  // What the batches should be
  // ---------------------------------------------------------------------------------------

  /** The snapshots whose scheduler is `s`, in order. */
  function OfScheduler(snaps: seq<Snapshot>, s: SchedulerId): seq<Snapshot> {
    if snaps == [] then []
    else
      var n := |snaps| - 1;
      if snaps[n].scheduler == Some(s) then OfScheduler(snaps[..n], s) + [snaps[n]] else OfScheduler(snaps[..n], s)
  }

  function IdsOf(snaps: seq<Snapshot>): (ids: seq<LeaseId>)
    ensures |ids| == |snaps| && forall i :: 0 <= i < |snaps| ==> ids[i] == snaps[i].leaseId
  {
    if snaps == [] then [] else IdsOf(snaps[..|snaps| - 1]) + [snaps[|snaps| - 1].leaseId]
  }

  function InfosOf(snaps: seq<Snapshot>): map<LeaseId, string> {
    if snaps == [] then map[]
    else
      var n := |snaps| - 1;
      if snaps[n].info.None? then InfosOf(snaps[..n]) else InfosOf(snaps[..n])[snaps[n].leaseId := snaps[n].info.value]
  }

  function Target(ids: seq<LeaseId>): string {
    if ids == [] then "" else AssembleTargetName(Target(ids[..|ids| - 1]), ids[|ids| - 1])
  }

  function BatchOf(chunk: seq<Snapshot>): Batch {
    Batch(Target(IdsOf(chunk)), InfosOf(chunk), if chunk == [] then "" else chunk[0].address)
  }

  /** Snapshots in chunks: the next one opens a chunk when the last is full. */
  function Chunks(snaps: seq<Snapshot>): seq<seq<Snapshot>> {
    if snaps == [] then []
    else
      var n := |snaps| - 1;
      var before := Chunks(snaps[..n]);
      if before == [] || |InfosOf(before[|before| - 1])| >= MAX_BATCH_SIZE then before + [[snaps[n]]]
      else before[..|before| - 1] + [before[|before| - 1] + [snaps[n]]]
  }

  function BatchesOf(chunks: seq<seq<Snapshot>>): (r: seq<Batch>)
    ensures |r| == |chunks| && forall i :: 0 <= i < |chunks| ==> r[i] == BatchOf(chunks[i])
  {
    if chunks == [] then [] else BatchesOf(chunks[..|chunks| - 1]) + [BatchOf(chunks[|chunks| - 1])]
  }

  // ---------------------------------------------------------------------------------------
  // The table that the pass fills
  // ---------------------------------------------------------------------------------------

  class BatchTable {
    var batches: map<SchedulerId, seq<Batch>>

    constructor ()
      ensures batches == map[]
    {
      batches := map[];
    }

    /** appendRetainInfo */
    method AppendRetainInfo(s: SchedulerId, address: string, leaseId: LeaseId, info: Option<string>)
      requires s in batches ==> batches[s] != []
      modifies this
      ensures var was := if s in old(batches) then old(batches)[s] else [];
              batches == old(batches)[s := Appended(was, address, leaseId, info)]
    {
      var arr := if s in batches then batches[s] else [];
      var last := |arr| - 1;
      if s !in batches || |arr[last].infos| >= MAX_BATCH_SIZE {
        arr := arr + [Batch("", map[], address)];
        last := |arr| - 1;
      }
      var target := AssembleTargetName(arr[last].targetName, leaseId);
      arr := arr[last := arr[last].(targetName := target)];
      if info.Some? {
        arr := arr[last := arr[last].(infos := arr[last].infos[leaseId := info.value])];
      }
      assert arr == Appended(if s in batches then batches[s] else [], address, leaseId, info);
      batches := batches[s := arr];
    }

    /** assembleRetainBatches: for every scheduler, the batches of its chunks. */
    method AssembleRetainBatches(snaps: seq<Snapshot>)
      modifies this
      ensures forall s :: s in batches <==> OfScheduler(snaps, s) != []
      ensures forall s :: s in batches ==> batches[s] == BatchesOf(Chunks(OfScheduler(snaps, s)))
    {
      hide OfScheduler, Chunks, BatchesOf;
      batches := map[];
      Nothing();
      assert snaps[..0] == [];
      for i := 0 to |snaps|
        invariant Assembled(batches, snaps[..i])
      {
        var snap := snaps[i];
        assert snaps[..i + 1] == snaps[..i] + [snap];
        AssembledNext(batches, snaps[..i], snap);
        if snap.scheduler.None? {
          continue;
        }
        AppendRetainInfo(snap.scheduler.value, snap.address, snap.leaseId, snap.info);
      }
      assert snaps[..|snaps|] == snaps;
    }
  }

  function Extended(b: Batch, leaseId: LeaseId, info: Option<string>): Batch {
    Batch(AssembleTargetName(b.targetName, leaseId),
          if info.Some? then b.infos[leaseId := info.value] else b.infos, b.address)
  }

  /** The batches of a scheduler with one more lease: in the last batch, or in a new one if that is full. */
  function Appended(was: seq<Batch>, address: string, leaseId: LeaseId, info: Option<string>): (r: seq<Batch>)
    ensures r != []
  {
    if was == [] || |was[|was| - 1].infos| >= MAX_BATCH_SIZE
    then was + [Extended(Batch("", map[], address), leaseId, info)]
    else was[..|was| - 1] + [Extended(was[|was| - 1], leaseId, info)]
  }

  ghost predicate Assembled(batches: map<SchedulerId, seq<Batch>>, snaps: seq<Snapshot>) {
    && (forall s :: s in batches <==> OfScheduler(snaps, s) != [])
    && (forall s :: s in batches ==> batches[s] == BatchesOf(Chunks(OfScheduler(snaps, s))) && batches[s] != [])
  }

  lemma Nothing()
    ensures forall s :: OfScheduler([], s) == []
  {
  }

  lemma OfSchedulerSnoc(snaps: seq<Snapshot>, x: Snapshot, s: SchedulerId)
    ensures OfScheduler(snaps + [x], s) ==
            if x.scheduler == Some(s) then OfScheduler(snaps, s) + [x] else OfScheduler(snaps, s)
  {
    assert (snaps + [x])[..|snaps|] == snaps;
  }

  lemma BatchSnoc(chunk: seq<Snapshot>, x: Snapshot)
    ensures BatchOf(chunk + [x]) ==
            Extended(if chunk == [] then Batch("", map[], x.address) else BatchOf(chunk), x.leaseId, x.info)
  {
    assert (chunk + [x])[..|chunk|] == chunk;
    var ids := IdsOf(chunk + [x]);
    assert ids == IdsOf(chunk) + [x.leaseId] && ids[..|ids| - 1] == IdsOf(chunk);
    assert Target(ids) == AssembleTargetName(Target(IdsOf(chunk)), x.leaseId);
    assert chunk == [] ==> IdsOf(chunk) == [] && InfosOf(chunk) == map[];
  }

  /** One more lease of a scheduler, on the batches of its chunks. */
  lemma ChunksSnoc(snaps: seq<Snapshot>, x: Snapshot)
    ensures BatchesOf(Chunks(snaps + [x])) == Appended(BatchesOf(Chunks(snaps)), x.address, x.leaseId, x.info)
  {
    ChunksNonempty(snaps);
    hide BatchOf, InfosOf;
    assert (snaps + [x])[..|snaps|] == snaps;
    var cs := Chunks(snaps);
    var was := BatchesOf(cs);
    assert cs != [] ==> |was[|was| - 1].infos| == |InfosOf(cs[|cs| - 1])| by {
      assert forall c :: BatchOf(c).infos == InfosOf(c) by {
        forall c ensures BatchOf(c).infos == InfosOf(c) {
          InfosOfBatch(c);
        }
      }
    }
    if cs == [] || |InfosOf(cs[|cs| - 1])| >= MAX_BATCH_SIZE {
      BatchSnoc([], x);
      assert [] + [x] == [x];
    } else {
      BatchSnoc(cs[|cs| - 1], x);
    }
  }

  lemma InfosOfBatch(c: seq<Snapshot>)
    ensures BatchOf(c).infos == InfosOf(c)
  {
  }

  ghost predicate NoneEmpty(chunks: seq<seq<Snapshot>>) {
    forall i :: 0 <= i < |chunks| ==> chunks[i] != []
  }

  lemma NoneEmptySnoc(chunks: seq<seq<Snapshot>>, c: seq<Snapshot>)
    requires NoneEmpty(chunks) && c != []
    ensures NoneEmpty(chunks + [c])
  {
  }

  lemma {:induction false} ChunksNonempty(snaps: seq<Snapshot>)
    ensures snaps == [] <==> Chunks(snaps) == []
    ensures NoneEmpty(Chunks(snaps))
  {
    hide InfosOf;
    if snaps != [] {
      var n := |snaps| - 1;
      ChunksNonempty(snaps[..n]);
      var before := Chunks(snaps[..n]);
      if before == [] || |InfosOf(before[|before| - 1])| >= MAX_BATCH_SIZE {
        NoneEmptySnoc(before, [snaps[n]]);
      } else {
        NoneEmptySnoc(before[..|before| - 1], before[|before| - 1] + [snaps[n]]);
      }
    }
  }

  lemma AssembledNext(batches: map<SchedulerId, seq<Batch>>, snaps: seq<Snapshot>, x: Snapshot)
    requires Assembled(batches, snaps)
    ensures x.scheduler.None? ==> Assembled(batches, snaps + [x])
    ensures x.scheduler.Some? ==>
              var s := x.scheduler.value;
              var was := if s in batches then batches[s] else [];
              Assembled(batches[s := Appended(was, x.address, x.leaseId, x.info)], snaps + [x])
  {
    hide OfScheduler, Chunks, BatchesOf, Appended;
    forall s
      ensures OfScheduler(snaps + [x], s) ==
              if x.scheduler == Some(s) then OfScheduler(snaps, s) + [x] else OfScheduler(snaps, s)
    {
      OfSchedulerSnoc(snaps, x, s);
    }
    if x.scheduler.Some? {
      var s := x.scheduler.value;
      ChunksSnoc(OfScheduler(snaps, s), x);
      if s !in batches {
        NoChunks();
      }
    }
  }

  lemma NoChunks()
    ensures BatchesOf(Chunks([])) == []
  {
  }

  // ---------------------------------------------------------------------------------------
  // The batches partition the leases
  // ---------------------------------------------------------------------------------------

  function Flatten(chunks: seq<seq<Snapshot>>): seq<Snapshot> {
    if chunks == [] then [] else Flatten(chunks[..|chunks| - 1]) + chunks[|chunks| - 1]
  }

  lemma {:induction false} InfosGrowByOne(chunk: seq<Snapshot>, x: Snapshot)
    ensures |InfosOf(chunk)| <= |InfosOf(chunk + [x])| <= |InfosOf(chunk)| + 1
  {
    assert (chunk + [x])[..|chunk|] == chunk;
    if x.info.Some? {
      var m := InfosOf(chunk);
      assert m[x.leaseId := x.info.value].Keys == m.Keys + {x.leaseId};
      assert |m.Keys| == |m| && |m.Keys + {x.leaseId}| == |m[x.leaseId := x.info.value]|;
    }
  }

  /** Every lease of the scheduler is in one chunk, in order; no chunk is too big and all but the last are full. */
  lemma {:induction false} ChunksPartition(snaps: seq<Snapshot>)
    ensures Partition(Chunks(snaps), snaps)
  {
    if snaps != [] {
      var n := |snaps| - 1;
      ChunksPartition(snaps[..n]);
      var before, x := Chunks(snaps[..n]), snaps[n];
      assert snaps == snaps[..n] + [x];
      if before == [] || |InfosOf(before[|before| - 1])| >= MAX_BATCH_SIZE {
        OpenChunk(before, x);
      } else {
        assert before == before[..|before| - 1] + [before[|before| - 1]];
        ExtendChunk(before[..|before| - 1], before[|before| - 1], x);
      }
    }
  }

  predicate FitChunk(c: seq<Snapshot>) {
    c != [] && |InfosOf(c)| <= MAX_BATCH_SIZE
  }

  predicate FullChunk(c: seq<Snapshot>) {
    |InfosOf(c)| == MAX_BATCH_SIZE
  }

  ghost predicate Partition(cs: seq<seq<Snapshot>>, snaps: seq<Snapshot>) {
    && Flatten(cs) == snaps
    && (forall i :: 0 <= i < |cs| ==> FitChunk(cs[i]))
    && (forall i :: 0 <= i < |cs| - 1 ==> FullChunk(cs[i]))
  }

  lemma OneChunk(x: Snapshot)
    ensures FitChunk([x])
  {
    InfosGrowByOne([], x);
    NoInfos();
    assert [] + [x] == [x];
  }

  lemma OpenChunk(before: seq<seq<Snapshot>>, x: Snapshot)
    requires Partition(before, Flatten(before)) && (before == [] || FullChunk(before[|before| - 1]))
    ensures Partition(before + [[x]], Flatten(before) + [x])
  {
    hide FitChunk, FullChunk;
    OneChunk(x);
    assert (before + [[x]])[..|before|] == before;
  }

  lemma LongerChunk(c: seq<Snapshot>, x: Snapshot)
    requires FitChunk(c) && !FullChunk(c)
    ensures FitChunk(c + [x])
  {
    InfosGrowByOne(c, x);
  }

  lemma FlattenSnoc(cs: seq<seq<Snapshot>>, c: seq<Snapshot>)
    ensures Flatten(cs + [c]) == Flatten(cs) + c
  {
    assert (cs + [c])[..|cs|] == cs;
  }

  lemma ExtendChunk(init: seq<seq<Snapshot>>, last: seq<Snapshot>, x: Snapshot)
    requires Partition(init + [last], Flatten(init + [last])) && !FullChunk(last)
    ensures Partition(init + [last + [x]], Flatten(init + [last]) + [x])
  {
    hide FitChunk, FullChunk, Flatten;
    FlattenSnoc(init, last);
    FlattenSnoc(init, last + [x]);
    assert FitChunk((init + [last])[|init|]);
    LongerChunk(last, x);
    var cs := init + [last + [x]];
    assert forall i :: 0 <= i < |init| ==> cs[i] == (init + [last])[i];
  }

  lemma NoInfos()
    ensures |InfosOf([])| == 0
  {
  }

  // ---------------------------------------------------------------------------------------
  // Every lease is in one batch
  // ---------------------------------------------------------------------------------------

  ghost predicate DistinctIds(snaps: seq<Snapshot>) {
    forall i, j :: 0 <= i < j < |snaps| ==> snaps[i].leaseId != snaps[j].leaseId
  }

  /** `own` is what `snaps` has at `places`, which are those of scheduler `s`, in order. */
  ghost predicate PlacedAt(own: seq<Snapshot>, snaps: seq<Snapshot>, s: SchedulerId, places: seq<int>) {
    && |places| == |own| && (forall x, y :: 0 <= x < y < |places| ==> places[x] < places[y])
    && (forall x :: 0 <= x < |places| ==> 0 <= places[x] < |snaps| && own[x] == snaps[places[x]])
    && (forall k :: 0 <= k < |snaps| ==> (k in places <==> snaps[k].scheduler == Some(s)))
  }

  lemma PlacedSnoc(own: seq<Snapshot>, snaps: seq<Snapshot>, s: SchedulerId, places: seq<int>, y: Snapshot)
    requires PlacedAt(own, snaps, s, places)
    ensures y.scheduler == Some(s) ==> PlacedAt(own + [y], snaps + [y], s, places + [|snaps|])
    ensures y.scheduler != Some(s) ==> PlacedAt(own, snaps + [y], s, places)
  {
    assert |snaps| !in places;
  }

  /** The leases of a scheduler are those it was resolved for, in the order of the snapshot. */
  lemma {:induction false} OfSchedulerPlaces(snaps: seq<Snapshot>, s: SchedulerId) returns (places: seq<int>)
    ensures PlacedAt(OfScheduler(snaps, s), snaps, s, places)
  {
    if snaps == [] {
      places := [];
    } else {
      hide PlacedAt;
      var n := |snaps| - 1;
      places := OfSchedulerPlaces(snaps[..n], s);
      assert snaps[..n] + [snaps[n]] == snaps;
      PlacedSnoc(OfScheduler(snaps[..n], s), snaps[..n], s, places, snaps[n]);
      if snaps[n].scheduler == Some(s) {
        places := places + [n];
      }
    }
  }

  lemma {:induction false} FlattenMembers(cs: seq<seq<Snapshot>>, x: Snapshot)
    ensures x in Flatten(cs) <==> exists i :: 0 <= i < |cs| && x in cs[i]
  {
    if cs != [] {
      var n := |cs| - 1;
      FlattenMembers(cs[..n], x);
      assert forall i :: 0 <= i < n ==> cs[..n][i] == cs[i];
    }
  }

  lemma SharedIsRepeated(a: seq<Snapshot>, b: seq<Snapshot>, x: Snapshot)
    requires x in a && x in b
    ensures !Distinct(a + b)
  {
    var i :| 0 <= i < |a| && a[i] == x;
    var j :| 0 <= j < |b| && b[j] == x;
    assert (a + b)[i] == (a + b)[|a| + j];
  }

  lemma {:induction false} FlattenApart(cs: seq<seq<Snapshot>>, i: nat, j: nat, x: Snapshot)
    requires Distinct(Flatten(cs)) && i < j < |cs|
    ensures !(x in cs[i] && x in cs[j])
  {
    var n := |cs| - 1;
    var init := cs[..n];
    assert Flatten(cs) == Flatten(init) + cs[n];
    if j == n {
      assert init[i] == cs[i];
      FlattenMembers(init, x);
      if x in cs[i] && x in cs[n] {
        SharedIsRepeated(Flatten(init), cs[n], x);
      }
    } else {
      assert Distinct(Flatten(init)) by {
        assert forall k :: 0 <= k < |Flatten(init)| ==> Flatten(init)[k] == Flatten(cs)[k];
      }
      FlattenApart(init, i, j, x);
    }
  }

  ghost predicate InChunk(cs: seq<seq<Snapshot>>, i: int, x: Snapshot) {
    0 <= i < |cs| && x in cs[i]
  }

  lemma InOneChunk(cs: seq<seq<Snapshot>>, x: Snapshot)
    requires Distinct(Flatten(cs)) && x in Flatten(cs)
    ensures exists i :: InChunk(cs, i, x) && forall j :: InChunk(cs, j, x) ==> j == i
  {
    hide Flatten, Distinct;
    FlattenMembers(cs, x);
    var i: nat :| i < |cs| && x in cs[i];
    forall j | InChunk(cs, j, x) ensures j == i {
      if i < j {
        FlattenApart(cs, i, j, x);
      } else if j < i {
        FlattenApart(cs, j, i, x);
      }
    }
    assert InChunk(cs, i, x);
  }

  /** A lease whose scheduler was resolved is in exactly one batch of that scheduler, and no other lease is. */
  lemma EachLeaseInOneBatch(snaps: seq<Snapshot>, s: SchedulerId, x: Snapshot)
    requires DistinctIds(snaps)
    ensures var cs := Chunks(OfScheduler(snaps, s));
            if x in snaps && x.scheduler == Some(s)
            then exists i :: InChunk(cs, i, x) && forall j :: InChunk(cs, j, x) ==> j == i
            else forall j :: !InChunk(cs, j, x)
  {
    hide Chunks, Flatten, OfScheduler, FitChunk, FullChunk;
    var own := OfScheduler(snaps, s);
    ChunksPartition(own);
    OwnLeases(snaps, s, x);
    if x in own {
      InOneChunk(Chunks(own), x);
    } else {
      FlattenMembers(Chunks(own), x);
    }
  }

  lemma OwnLeases(snaps: seq<Snapshot>, s: SchedulerId, x: Snapshot)
    requires DistinctIds(snaps)
    ensures Distinct(OfScheduler(snaps, s)) && (x in OfScheduler(snaps, s) <==> x in snaps && x.scheduler == Some(s))
  {
    hide OfScheduler;
    var own := OfScheduler(snaps, s);
    var places := OfSchedulerPlaces(snaps, s);
    assert forall a, b :: 0 <= a < b < |own| ==> snaps[places[a]].leaseId != snaps[places[b]].leaseId;
    if x in snaps && x.scheduler == Some(s) {
      var k :| 0 <= k < |snaps| && snaps[k] == x;
      var y :| 0 <= y < |places| && places[y] == k;
      assert own[y] == x;
    }
    if x in own {
      var y :| 0 <= y < |own| && own[y] == x;
      assert snaps[places[y]] == x && places[y] in places;
    }
  }

  /** A batch holds the info of every lease of its chunk that has one. */
  lemma {:induction false} InfoAt(chunk: seq<Snapshot>, i: nat)
    requires DistinctIds(chunk) && i < |chunk| && chunk[i].info.Some?
    ensures chunk[i].leaseId in InfosOf(chunk) && InfosOf(chunk)[chunk[i].leaseId] == chunk[i].info.value
  {
    if i < |chunk| - 1 {
      InfoAt(chunk[..|chunk| - 1], i);
    }
  }

  /** And of no other. */
  lemma {:induction false} InfoFrom(chunk: seq<Snapshot>, id: LeaseId)
    requires id in InfosOf(chunk)
    ensures exists i :: 0 <= i < |chunk| && chunk[i].leaseId == id && chunk[i].info.Some?
  {
    var n := |chunk| - 1;
    if id in InfosOf(chunk[..n]) {
      InfoFrom(chunk[..n], id);
      var i :| 0 <= i < n && chunk[..n][i].leaseId == id && chunk[..n][i].info.Some?;
      assert chunk[i] == chunk[..n][i];
    } else {
      assert chunk[n].leaseId == id && chunk[n].info.Some?;
    }
  }

  lemma {:induction false} InfoCount(chunk: seq<Snapshot>)
    requires DistinctIds(chunk) && forall i :: 0 <= i < |chunk| ==> chunk[i].info.Some?
    ensures |InfosOf(chunk)| == |chunk|
  {
    if chunk != [] {
      var n := |chunk| - 1;
      InfoCount(chunk[..n]);
      if chunk[n].leaseId in InfosOf(chunk[..n]) {
        InfoFrom(chunk[..n], chunk[n].leaseId);
      }
      NewInfo(chunk[..n], chunk[n]);
    }
  }

  /** A batch, lease by lease: exactly the infos of its leases, under all their IDs, for their scheduler's address. */
  lemma BatchContents(chunk: seq<Snapshot>, id: LeaseId, info: string)
    requires DistinctIds(chunk) && chunk != []
    ensures id in BatchOf(chunk).infos && BatchOf(chunk).infos[id] == info <==>
            exists i :: 0 <= i < |chunk| && chunk[i].leaseId == id && chunk[i].info == Some(info)
    ensures |chunk| == 1 || chunk[0].leaseId != "" ==> BatchOf(chunk).targetName == Join(IdsOf(chunk), ',')
    ensures BatchOf(chunk).address == chunk[0].address
  {
    hide InfosOf, Target, Join;
    TargetIsJoin(IdsOf(chunk));
    if id in InfosOf(chunk) {
      InfoFrom(chunk, id);
      var i :| 0 <= i < |chunk| && chunk[i].leaseId == id && chunk[i].info.Some?;
      InfoAt(chunk, i);
    }
    if i :| 0 <= i < |chunk| && chunk[i].leaseId == id && chunk[i].info == Some(info) {
      InfoAt(chunk, i);
    }
  }

  lemma NewInfo(chunk: seq<Snapshot>, x: Snapshot)
    requires x.info.Some? && x.leaseId !in InfosOf(chunk)
    ensures |InfosOf(chunk)[x.leaseId := x.info.value]| == |InfosOf(chunk)| + 1
  {
    var m := InfosOf(chunk);
    assert m[x.leaseId := x.info.value].Keys == m.Keys + {x.leaseId};
    assert |m.Keys| == |m| && |m.Keys + {x.leaseId}| == |m[x.leaseId := x.info.value]|;
  }

  /** If all leases have infos, every batch but the last holds a thousand leases and the last no more. */
  lemma BatchesHoldAThousand(snaps: seq<Snapshot>, i: nat)
    requires DistinctIds(snaps) && (forall k :: 0 <= k < |snaps| ==> snaps[k].info.Some?) && i < |Chunks(snaps)|
    ensures var cs := Chunks(snaps); 0 < |cs[i]| <= 1000 && (i < |cs| - 1 ==> |cs[i]| == 1000)
  {
    hide Chunks, Flatten, InfosOf;
    var cs := Chunks(snaps);
    ChunksPartition(snaps);
    assert FitChunk(cs[i]);
    ChunkIsASlice(cs, i);
    InfoCount(cs[i]);
  }

  lemma {:induction false} ChunkIsASlice(cs: seq<seq<Snapshot>>, i: nat)
    requires i < |cs| && DistinctIds(Flatten(cs)) && forall k :: 0 <= k < |Flatten(cs)| ==> Flatten(cs)[k].info.Some?
    ensures DistinctIds(cs[i]) && forall k :: 0 <= k < |cs[i]| ==> cs[i][k].info.Some?
  {
    var n := |cs| - 1;
    var init := cs[..n];
    var all := Flatten(cs);
    assert all == Flatten(init) + cs[n];
    assert forall k :: 0 <= k < |cs[n]| ==> cs[n][k] == all[|Flatten(init)| + k];
    if i < n {
      assert forall k :: 0 <= k < |Flatten(init)| ==> Flatten(init)[k] == all[k];
      ChunkIsASlice(init, i);
    }
  }

  /**
   The target is the comma-separated list of the IDs exactly if it has one at most or does not begin with
   an empty one.
   */
  lemma {:induction false} TargetIsJoin(ids: seq<LeaseId>)
    ensures Target(ids) == Join(ids, ',') <==> |ids| <= 1 || ids[0] != ""
    ensures |ids| > 0 && ids[0] != "" ==> Target(ids) != ""
    ensures |Target(ids)| <= |Join(ids, ',')|
    ensures |ids| > 1 && ids[0] == "" ==> |Target(ids)| < |Join(ids, ',')|
  {
    if |ids| == 1 {
      assert ids[..0] == [];
    } else if |ids| > 1 {
      var n := |ids| - 1;
      TargetIsJoin(ids[..n]);
      JoinSnoc(ids[..n], ids[n]);
      assert ids == ids[..n] + [ids[n]];
    }
  }

  lemma {:induction false} JoinSnoc(ids: seq<LeaseId>, id: LeaseId)
    requires ids != []
    ensures Join(ids + [id], ',') == Join(ids, ',') + "," + id
  {
    if |ids| == 1 {
      assert (ids + [id])[1..] == [id];
    } else {
      assert (ids + [id])[1..] == ids[1..] + [id];
      JoinSnoc(ids[1..], id);
    }
  }
}
