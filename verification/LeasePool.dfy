/**
 InstanceLease (lease.go) and LeasePool (lease_manager.go) as objects updated in place.  Every
 method is one lock-protected section and is proved to do what LeaseModel says of the values.
 */
module LeasePools {
  import opened Sequences
  import opened LeaseModel

  class InstanceLease {
    const threadId: LeaseId
    const funcSig: string
    const leaseInterval: int
    var available: bool
    var exited: bool
    var timed: bool          // claimTime is not the zero time
    var beginRelease: bool
    var served: nat
    var reacquire: bool
    var scheduler: string

    function View(): (v: Lease)
      reads this
      ensures v.reusable == (leaseInterval > 0) && v.available == available && v.exited == exited
    {
      Lease(available, exited, timed, beginRelease, leaseInterval > 0, funcSig, served, reacquire, scheduler)
    }

    constructor (threadId: LeaseId, funcSig: string, leaseInterval: int, scheduler: string)
      ensures View() == Lease(true, false, false, false, leaseInterval > 0, funcSig, 0, false, scheduler)
      ensures this.threadId == threadId
    {
      this.threadId, this.funcSig, this.leaseInterval := threadId, funcSig, leaseInterval;
      available, exited, timed, beginRelease, served := true, false, false, false, 0;
      reacquire, this.scheduler := false, scheduler;
    }

    method Claim() returns (ok: bool)
      modifies this
      ensures ok == old(available) && View() == old(View()).Claim()
    {
      if !available {
        return false;
      }
      available, beginRelease, timed := false, false, true;
      return true;
    }

    method Free(abnormal: bool)
      modifies this
      ensures View() == if abnormal then old(View()).Destroy() else old(View()).Free()
    {
      if abnormal {
        Destroy();
        return;
      }
      available := true;
      if timed {
        timed := false;
        served := served + 1;
      }
    }

    method Destroy()
      modifies this
      ensures View() == old(View()).Destroy()
    {
      exited, available := true, false;
    }
  }

  /** The IDs of a list of leases. */
  function Ids(leases: seq<InstanceLease>): (ids: seq<LeaseId>)
    ensures |ids| == |leases| && forall i :: 0 <= i < |leases| ==> ids[i] == leases[i].threadId
  {
    if leases == [] then [] else [leases[0].threadId] + Ids(leases[1..])
  }

  /** The idle list after DelByID(id). */
  function DelById(leases: seq<InstanceLease>, id: LeaseId): (r: seq<InstanceLease>)
    ensures forall l :: l in r ==> l in leases && l.threadId != id
    ensures Ids(r) == Without(Ids(leases), {id})
  {
    if leases == [] then [] else
      assert Ids(leases)[1..] == Ids(leases[1..]);
      (if leases[0].threadId == id then [] else [leases[0]]) + DelById(leases[1..], id)
  }

  /** An ID names one object, and the idle list holds mapped leases without duplicates. */
  ghost predicate Lists(leaseMap: map<LeaseId, InstanceLease>, idle: seq<InstanceLease>) {
    && (forall id :: id in leaseMap ==> leaseMap[id].threadId == id)
    && (forall l :: l in idle ==> l.threadId in leaseMap && leaseMap[l.threadId] == l)
    && Distinct(Ids(idle))
  }

  lemma ListsRemove(leaseMap: map<LeaseId, InstanceLease>, idle: seq<InstanceLease>, id: LeaseId)
    requires Lists(leaseMap, idle)
    ensures Lists(leaseMap - {id}, DelById(idle, id))
  {
    hide DelById, Ids;
    WithoutMembers(Ids(idle), {id});
  }

  lemma ListsAbsent(leaseMap: map<LeaseId, InstanceLease>, idle: seq<InstanceLease>, id: LeaseId)
    requires Lists(leaseMap, idle) && id !in leaseMap
    ensures id !in Ids(idle) && DelById(idle, id) == idle && leaseMap - {id} == leaseMap
  {
    hide Distinct;
    assert forall i :: 0 <= i < |idle| ==> Ids(idle)[i] == idle[i].threadId && idle[i] in idle;
    DelByIdAbsent(idle, id);
  }

  lemma IdsSnoc(idle: seq<InstanceLease>, lease: InstanceLease)
    ensures Ids(idle + [lease]) == Ids(idle) + [lease.threadId]
  {
    var ids := Ids(idle + [lease]);
    assert forall i :: 0 <= i < |idle| ==> ids[i] == Ids(idle)[i];
  }

  lemma ListsPush(leaseMap: map<LeaseId, InstanceLease>, idle: seq<InstanceLease>, lease: InstanceLease)
    requires Lists(leaseMap, idle) && lease.threadId in leaseMap && leaseMap[lease.threadId] == lease
    ensures Lists(leaseMap, idle + [lease]) <==> lease.threadId !in Ids(idle)
  {
    hide Distinct, Ids;
    IdsSnoc(idle, lease);
    DistinctSnoc(Ids(idle), lease.threadId);
  }

  lemma ListsDrop(leaseMap: map<LeaseId, InstanceLease>, idle: seq<InstanceLease>, k: nat)
    requires Lists(leaseMap, idle) && k <= |idle|
    ensures Lists(leaseMap, idle[k..])
  {
    assert forall i :: 0 <= i < |idle| - k ==> Ids(idle[k..])[i] == Ids(idle)[k + i];
  }

  lemma {:induction false} DelByIdAbsent(leases: seq<InstanceLease>, id: LeaseId)
    requires id !in Ids(leases)
    ensures DelById(leases, id) == leases
  {
    if leases != [] {
      assert leases[0].threadId == Ids(leases)[0];
      assert Ids(leases)[1..] == Ids(leases[1..]);
      DelByIdAbsent(leases[1..], id);
    }
  }

  class LeasePool {
    var leaseMap: map<LeaseId, InstanceLease>
    var idleLeaseList: seq<InstanceLease>

    ghost predicate Valid()
      reads this
    {
      Lists(leaseMap, idleLeaseList)
    }

    /** What a section on `id` may write. */
    ghost function Target(id: LeaseId): set<object>
      reads this
    {
      if id in leaseMap then {this, leaseMap[id]} else {this}
    }

    constructor ()
      ensures Valid() && leaseMap == map[] && idleLeaseList == []
    {
      leaseMap, idleLeaseList := map[], [];
    }

    /** acquireInstanceLease with the lease that acquireHandler built: claim it, map it unless its ID is taken. */
    method AddAcquired(lease: InstanceLease) returns (ok: bool)
      requires Valid()
      modifies this, lease
      ensures Valid() && ok == (lease.threadId !in old(leaseMap)) && idleLeaseList == old(idleLeaseList)
      ensures leaseMap == if ok then old(leaseMap)[lease.threadId := lease] else old(leaseMap)
      ensures lease.View() == old(lease.View()).Claim()
    {
      var _ := lease.Claim();
      if lease.threadId in leaseMap {
        return false;
      }
      leaseMap := leaseMap[lease.threadId := lease];
      return true;
    }

    /** removeLease: the lease is destroyed and leaves both lists; nothing else is written. */
    method RemoveLease(leaseId: LeaseId)
      requires Valid()
      modifies Target(leaseId)
      ensures Valid() && leaseMap == old(leaseMap) - {leaseId}
      ensures idleLeaseList == DelById(old(idleLeaseList), leaseId)
      ensures leaseId in old(leaseMap) ==> old(leaseMap)[leaseId].View() == old(leaseMap[leaseId].View()).Destroy()
    {
      hide Lists, DelById, Ids;
      if leaseId !in leaseMap {
        ListsAbsent(leaseMap, idleLeaseList, leaseId);
        return;
      }
      ListsRemove(leaseMap, idleLeaseList, leaseId);
      leaseMap[leaseId].Destroy();
      leaseMap := leaseMap - {leaseId};
      idleLeaseList := DelById(idleLeaseList, leaseId);
    }

    /**
     releaseInstanceLease: a reusable lease is freed and goes to the back of the idle list, any
     other is destroyed and leaves both lists.  The lists stay well formed exactly when a lease
     that goes back was not idle already, that is, when a hold is released once.
     */
    method ReleaseInstanceLease(leaseId: LeaseId, abnormal: bool)
      requires Valid()
      modifies Target(leaseId)
      ensures leaseId !in old(leaseMap) ==> leaseMap == old(leaseMap) && idleLeaseList == old(idleLeaseList)
      ensures leaseId in old(leaseMap) ==>
                var lease, was := old(leaseMap)[leaseId], old(leaseMap[leaseId].View());
                if !abnormal && was.reusable
                then leaseMap == old(leaseMap) && idleLeaseList == old(idleLeaseList) + [lease]
                     && lease.View() == was.Free()
                else leaseMap == old(leaseMap) - {leaseId} && idleLeaseList == DelById(old(idleLeaseList), leaseId)
                     && lease.View() == (if abnormal then was else was.Free()).Destroy()
      ensures !Valid() <==> leaseId in old(leaseMap) && !abnormal && old(leaseMap[leaseId].View()).reusable
                            && leaseId in old(Ids(idleLeaseList))
    {
      if leaseId !in leaseMap {
        return;
      }
      var lease := leaseMap[leaseId];
      assert lease.threadId == leaseId;
      hide Lists, DelById, Ids;
      lease.Free(abnormal);
      if !abnormal && lease.leaseInterval > 0 {
        ListsPush(leaseMap, idleLeaseList, lease);
        idleLeaseList := idleLeaseList + [lease];
      } else {
        lease.Destroy();
        ListsRemove(leaseMap, idleLeaseList, leaseId);
        leaseMap := leaseMap - {leaseId};
        idleLeaseList := DelById(idleLeaseList, leaseId);
      }
    }

    /**
     traverseIdleLeaseList.  `k` is where it stops: everything before is of the wanted signature
     and taken; the lease at `k` is claimed if it has the signature, and otherwise (or at the
     end) the list is emptied.
     */
    method TraverseIdleLeaseList(sig: string) returns (lease: InstanceLease?, ghost k: nat)
      requires Valid()
      modifies this, idleLeaseList
      ensures Valid() && leaseMap == old(leaseMap) && k <= |old(idleLeaseList)|
      ensures forall j :: 0 <= j < k ==>
                old(idleLeaseList)[j].funcSig == sig && !old(idleLeaseList[j].available)
      ensures lease != null ==>
                && k < |old(idleLeaseList)| && lease == old(idleLeaseList)[k] && lease.funcSig == sig
                && old(idleLeaseList[k].available) && lease.View() == old(idleLeaseList[k].View()).Claim()
                && idleLeaseList == old(idleLeaseList)[k + 1..]
      ensures lease == null ==>
                idleLeaseList == [] && (k < |old(idleLeaseList)| ==> old(idleLeaseList)[k].funcSig != sig)
      ensures forall l :: l in old(idleLeaseList) && l != lease ==> l.View() == old(l.View())
    {
      hide Lists, Ids;
      lease, k := null, 0;
      while idleLeaseList != []
        invariant Valid() && leaseMap == old(leaseMap) && lease == null
        invariant k <= |old(idleLeaseList)| && idleLeaseList == old(idleLeaseList)[k..]
        invariant forall j :: 0 <= j < k ==> old(idleLeaseList)[j].funcSig == sig && !old(idleLeaseList[j].available)
        invariant forall l :: l in old(idleLeaseList) ==> l.View() == old(l.View())
        decreases |idleLeaseList|
      {
        var l := idleLeaseList[0];
        assert l == old(idleLeaseList)[k];
        if l.funcSig != sig {
          while idleLeaseList != []
            invariant Valid() && leaseMap == old(leaseMap)
            invariant forall l :: l in old(idleLeaseList) ==> l.View() == old(l.View())
            decreases |idleLeaseList|
          {
            ListsDrop(leaseMap, idleLeaseList, 1);
            idleLeaseList := idleLeaseList[1..];
          }
          break;
        }
        ListsDrop(leaseMap, idleLeaseList, 1);
        idleLeaseList := idleLeaseList[1..];
        var ok := l.Claim();
        if ok {
          lease := l;
          break;
        }
        k := k + 1;
      }
    }
  }
}
