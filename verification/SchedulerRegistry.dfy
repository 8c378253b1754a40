/**
 The registry of schedulers (schedulerproxy/schedulereventhandler.go and proxy.go): two streams of
 etcd events, lease keys and instance infos, joined into the set of schedulers that requests may
 be routed to.  Events are handled one at a time; time is a number with the zero time at 0.
 */
module SchedulerRegistry {
  import opened Sequences
  import opened Text

  type Name = string
  type LeaseKey = string

  datatype Info = Info(name: Name, instanceId: string, address: string, exclusivity: string)

  datatype NodeInfo = NodeInfo(info: Info, updateTime: nat)

  /** SchedulerKeyPrefixType: module mode asks for a lease as well as an info. */
  datatype Mode = ModuleMode | DefaultMode

  /** A key that neither parser accepts, or a put without a readable value, is ignored. */
  datatype Event =
    | LeasePut(name: Name, lease: LeaseKey, now: nat)
    | LeaseDelete(name: Name, lease: LeaseKey)
    | InfoPut(info: Info)
    | InfoDelete(name: Name)
    | Ignored

  type Leases = map<Name, map<LeaseKey, nat>>
  type Infos = map<Name, Info>

  // ---------------------------------------------------------------------------------------
  // The proxy manager
  // ---------------------------------------------------------------------------------------

  class ProxyManager {
    var faasSchedulers: map<Name, NodeInfo>
    var exclusivitySchedulers: map<string, Name>
    var loadBalance: set<Name>

    constructor ()
      ensures faasSchedulers == map[] && exclusivitySchedulers == map[] && loadBalance == {}
    {
      faasSchedulers, exclusivitySchedulers, loadBalance := map[], map[], {};
    }

    method Add(node: NodeInfo)
      modifies this
      ensures faasSchedulers == old(faasSchedulers)[node.info.name := node]
      ensures exclusivitySchedulers == old(exclusivitySchedulers)[node.info.exclusivity := node.info.name]
      ensures loadBalance == old(loadBalance) + if node.info.exclusivity == "" then {node.info.name} else {}
    {
      faasSchedulers := faasSchedulers[node.info.name := node];
      exclusivitySchedulers := exclusivitySchedulers[node.info.exclusivity := node.info.name];
      if node.info.exclusivity != "" {
        return;
      }
      loadBalance := loadBalance + {node.info.name};
    }

    method Remove(info: Info)
      modifies this
      ensures info.name !in old(faasSchedulers) ==> unchanged(this)
      ensures info.name in old(faasSchedulers) ==>
                && faasSchedulers == old(faasSchedulers) - {info.name} && loadBalance == old(loadBalance) - {info.name}
                && exclusivitySchedulers == Unassigned(old(exclusivitySchedulers), info.name)
    {
      if info.name !in faasSchedulers {
        return;
      }
      faasSchedulers := faasSchedulers - {info.name};
      exclusivitySchedulers := Unassigned(exclusivitySchedulers, info.name);
      loadBalance := loadBalance - {info.name};
    }

    /**
     getWithoutUnexpectedSchedulerInfosByKey.  Without schedulers to avoid it is the plain lookup in
     the load balancer; otherwise a hash over the candidates.  Either yields any member of its names,
     here chosen by `pick`, and a blank or unregistered name is not routed to.
     */
    method GetWithoutUnexpected(unexpected: seq<NodeInfo>, pick: set<Name> -> Name) returns (r: Option<NodeInfo>)
      requires forall names: set<Name> :: names != {} ==> pick(names) in names
      requires forall n :: n in faasSchedulers ==> faasSchedulers[n].info.name == n && faasSchedulers[n].updateTime == 0
      ensures var names := if unexpected == [] then loadBalance else Candidates(faasSchedulers, unexpected);
              r.None? <==> names == {} || TrimSpace(pick(names)) == "" || pick(names) !in faasSchedulers
      ensures r.Some? ==> r.value.info.name in faasSchedulers && faasSchedulers[r.value.info.name] == r.value
      ensures r.Some? && unexpected == [] ==> r.value.info.name in loadBalance
      ensures r.Some? ==> forall i :: 0 <= i < |unexpected| ==> unexpected[i].info.instanceId != r.value.info.instanceId
    {
      var names := if unexpected == [] then loadBalance else Candidates(faasSchedulers, unexpected);
      if names == {} {
        return None;
      }
      var name := pick(names);
      if TrimSpace(name) == "" || name !in faasSchedulers {
        return None;
      }
      return Some(faasSchedulers[name]);
    }
  }

  function Candidates(schedulers: map<Name, NodeInfo>, unexpected: seq<NodeInfo>): (names: set<Name>)
    ensures forall n :: n in names <==> n in schedulers && !Avoided(schedulers[n], unexpected)
  {
    set n | n in schedulers && !Avoided(schedulers[n], unexpected)
  }

  function Unassigned(m: map<string, Name>, name: Name): (r: map<string, Name>)
    ensures forall k :: k in r <==> k in m && m[k] != name
    ensures forall k :: k in r ==> r[k] == m[k]
  {
    map k | k in m && m[k] != name :: m[k]
  }

  /** The same instance is to be avoided unless this record of it is newer. */
  predicate Avoided(node: NodeInfo, unexpected: seq<NodeInfo>) {
    exists i :: 0 <= i < |unexpected| && node.info.instanceId == unexpected[i].info.instanceId
                && node.updateTime - unexpected[i].updateTime <= 0
  }

  // ---------------------------------------------------------------------------------------
  // What the history of events says
  // ---------------------------------------------------------------------------------------

  /** The last event of the lease key put it. */
  predicate HasLease(history: seq<Event>, name: Name, lease: LeaseKey) {
    if history == [] then false
    else
      var e := history[|history| - 1];
      if e.LeasePut? && e.name == name && e.lease == lease then true
      else if e.LeaseDelete? && e.name == name && e.lease == lease then false
      else HasLease(history[..|history| - 1], name, lease)
  }

  /** The info last put for the name and not deleted since. */
  function LastInfo(history: seq<Event>, name: Name): Option<Info> {
    if history == [] then None
    else
      var e := history[|history| - 1];
      if e.InfoPut? && e.info.name == name then Some(e.info)
      else if e.InfoDelete? && e.name == name then None
      else LastInfo(history[..|history| - 1], name)
  }

  /** Routable, by the history alone. */
  ghost predicate ShouldRoute(mode: Mode, history: seq<Event>, name: Name) {
    LastInfo(history, name).Some? && (mode.ModuleMode? ==> exists l :: HasLease(history, name, l))
  }

  // ---------------------------------------------------------------------------------------
  // The joined state
  // ---------------------------------------------------------------------------------------

  ghost predicate Tracks(leases: Leases, infos: Infos, history: seq<Event>) {
    && (forall n :: n in leases ==> leases[n] != map[])
    && (forall n, l :: HasLease(history, n, l) <==> n in leases && l in leases[n])
    && (forall n :: LastInfo(history, n) == if n in infos then Some(infos[n]) else None)
    && (forall n :: n in infos ==> infos[n].name == n)
  }

  predicate Joined(mode: Mode, leases: Leases, infos: Infos, n: Name) {
    n in infos && (mode.ModuleMode? ==> n in leases)
  }

  ghost predicate Mirrors(mode: Mode, leases: Leases, infos: Infos, schedulers: map<Name, NodeInfo>,
                          exclusivity: map<string, Name>, balanced: set<Name>)
  {
    && (forall n :: n in schedulers <==> Joined(mode, leases, infos, n))
    && (forall n :: n in schedulers ==> schedulers[n] == NodeInfo(infos[n], 0))
    && exclusivity.Values <= schedulers.Keys && balanced <= schedulers.Keys
    && (forall n :: n in schedulers && infos[n].exclusivity == "" ==> n in balanced)
  }

  lemma HasLeaseSnoc(history: seq<Event>, e: Event, n: Name, l: LeaseKey)
    ensures HasLease(history + [e], n, l) ==
            if e.LeasePut? && e.name == n && e.lease == l then true
            else if e.LeaseDelete? && e.name == n && e.lease == l then false
            else HasLease(history, n, l)
  {
    assert (history + [e])[..|history|] == history;
  }

  lemma LastInfoSnoc(history: seq<Event>, e: Event, n: Name)
    ensures LastInfo(history + [e], n) ==
            if e.InfoPut? && e.info.name == n then Some(e.info)
            else if e.InfoDelete? && e.name == n then None
            else LastInfo(history, n)
  {
    assert (history + [e])[..|history|] == history;
  }

  /** The state after one more event of the history. */
  lemma TracksNext(leases: Leases, infos: Infos, history: seq<Event>, e: Event)
    requires Tracks(leases, infos, history)
    ensures Tracks(NextLeases(leases, e), NextInfos(infos, e), history + [e])
  {
    hide HasLease, LastInfo;
    forall n, l ensures HasLease(history + [e], n, l) <==> n in NextLeases(leases, e) && l in NextLeases(leases, e)[n] {
      HasLeaseSnoc(history, e, n, l);
    }
    forall n
      ensures LastInfo(history + [e], n) == if n in NextInfos(infos, e) then Some(NextInfos(infos, e)[n]) else None
    {
      LastInfoSnoc(history, e, n);
    }
  }

  function NextLeases(leases: Leases, e: Event): Leases {
    if e.LeasePut? then WithLease(leases, e.name, e.lease, e.now)
    else if e.LeaseDelete? then WithoutLease(leases, e.name, e.lease)
    else leases
  }

  function WithLease(leases: Leases, n: Name, l: LeaseKey, now: nat): (r: Leases)
    ensures n in r && l in r[n]
  {
    var own: map<LeaseKey, nat> := if n in leases then leases[n][l := now] else map[l := now];
    leases[n := own]
  }

  function WithoutLease(leases: Leases, n: Name, l: LeaseKey): Leases {
    if n !in leases then leases
    else if leases[n] - {l} == map[] then leases - {n}
    else leases[n := leases[n] - {l}]
  }

  function NextInfos(infos: Infos, e: Event): Infos {
    if e.InfoPut? then infos[e.info.name := e.info] else if e.InfoDelete? then infos - {e.name} else infos
  }

  /** The oldest lease time, as the loop computes it: nothing is before the zero time it starts from. */
  method UpdateTime(leases: map<LeaseKey, nat>) returns (t: nat)
    ensures t == 0
  {
    t := 0;
    var rest := leases.Keys;
    while rest != {}
      invariant rest <= leases.Keys && t == 0
      decreases |rest|
    {
      var l :| l in rest;
      var v := leases[l];
      if t > v {
        t := v;
      }
      rest := rest - {l};
    }
  }

  /** Only the entries of `n` differ. */
  ghost predicate OnlyAt(n: Name, leases: Leases, infos: Infos, leases': Leases, infos': Infos) {
    forall k :: k != n ==> (k in leases' <==> k in leases) && (k in infos' <==> k in infos)
                           && (k in infos ==> infos'[k] == infos[k])
  }

  lemma MirrorsAdd(mode: Mode, leases: Leases, infos: Infos, leases': Leases, infos': Infos, n: Name,
                   schedulers: map<Name, NodeInfo>, exclusivity: map<string, Name>, balanced: set<Name>)
    requires Mirrors(mode, leases, infos, schedulers, exclusivity, balanced)
    requires OnlyAt(n, leases, infos, leases', infos')
    requires Joined(mode, leases', infos', n)
    ensures Mirrors(mode, leases', infos', schedulers[n := NodeInfo(infos'[n], 0)],
                    exclusivity[infos'[n].exclusivity := n],
                    balanced + if infos'[n].exclusivity == "" then {n} else {})
  {
  }

  lemma MirrorsSame(mode: Mode, leases: Leases, infos: Infos, leases': Leases, infos': Infos, n: Name,
                    schedulers: map<Name, NodeInfo>, exclusivity: map<string, Name>, balanced: set<Name>)
    requires Mirrors(mode, leases, infos, schedulers, exclusivity, balanced)
    requires OnlyAt(n, leases, infos, leases', infos')
    requires Joined(mode, leases', infos', n) <==> Joined(mode, leases, infos, n)
    requires Joined(mode, leases, infos, n) ==> infos'[n] == infos[n]
    ensures Mirrors(mode, leases', infos', schedulers, exclusivity, balanced)
  {
  }

  lemma MirrorsRemove(mode: Mode, leases: Leases, infos: Infos, leases': Leases, infos': Infos, n: Name,
                      schedulers: map<Name, NodeInfo>, exclusivity: map<string, Name>, balanced: set<Name>)
    requires Mirrors(mode, leases, infos, schedulers, exclusivity, balanced)
    requires OnlyAt(n, leases, infos, leases', infos')
    requires !Joined(mode, leases', infos', n)
    ensures Mirrors(mode, leases', infos', schedulers - {n}, Unassigned(exclusivity, n), balanced - {n})
  {
  }

  lemma MirrorsMember(mode: Mode, leases: Leases, infos: Infos, schedulers: map<Name, NodeInfo>,
                      exclusivity: map<string, Name>, balanced: set<Name>, n: Name)
    requires Mirrors(mode, leases, infos, schedulers, exclusivity, balanced)
    ensures n in schedulers <==> Joined(mode, leases, infos, n)
  {
  }

  class EventManager {
    var leaseIds: Leases
    var schedulerInfos: Infos
    const proxy: ProxyManager
    const mode: Mode
    ghost var history: seq<Event>

    ghost predicate Valid()
      reads this, proxy
    {
      && Tracks(leaseIds, schedulerInfos, history)
      && Mirrors(mode, leaseIds, schedulerInfos, proxy.faasSchedulers, proxy.exclusivitySchedulers, proxy.loadBalance)
    }

    constructor (mode: Mode)
      ensures Valid() && history == [] && fresh(proxy) && this.mode == mode
    {
      leaseIds, schedulerInfos, this.mode := map[], map[], mode;
      proxy := new ProxyManager();
      history := [];
    }

    /** ProcessUpdate, for the events it is called with. */
    method ProcessUpdate(e: Event)
      requires Valid() && (e.LeasePut? || e.InfoPut? || e.Ignored?)
      modifies this, proxy
      ensures Valid() && history == old(history) + [e]
    {
      hide Tracks, Mirrors;
      TracksNext(leaseIds, schedulerInfos, history, e);
      history := history + [e];
      if e.Ignored? {
        return;
      }
      var name: Name;
      if e.LeasePut? {
        name := e.name;
        leaseIds := WithLease(leaseIds, e.name, e.lease, e.now);
      } else {
        name := e.info.name;
        schedulerInfos := schedulerInfos[name := e.info];
      }
      var updateTime := 0;
      if name in leaseIds {
        updateTime := UpdateTime(leaseIds[name]);
      }
      var needUpdate := if mode.ModuleMode? then name in leaseIds && name in schedulerInfos else name in schedulerInfos;
      if needUpdate {
        InfoNamed(leaseIds, schedulerInfos, history, name);
        MirrorsAdd(mode, old(leaseIds), old(schedulerInfos), leaseIds, schedulerInfos, name,
                   proxy.faasSchedulers, proxy.exclusivitySchedulers, proxy.loadBalance);
        proxy.Add(NodeInfo(schedulerInfos[name], updateTime));
      } else {
        MirrorsSame(mode, old(leaseIds), old(schedulerInfos), leaseIds, schedulerInfos, name,
                    proxy.faasSchedulers, proxy.exclusivitySchedulers, proxy.loadBalance);
      }
    }

    /** ProcessDelete, for the events it is called with. */
    method ProcessDelete(e: Event)
      requires Valid() && (e.LeaseDelete? || e.InfoDelete? || e.Ignored?)
      modifies this, proxy
      ensures Valid() && history == old(history) + [e]
    {
      hide Tracks, Mirrors;
      TracksNext(leaseIds, schedulerInfos, history, e);
      history := history + [e];
      if e.Ignored? {
        return;
      }
      var name, isLeaseKey := e.name, e.LeaseDelete?;
      var info := if name in schedulerInfos then Some(schedulerInfos[name]) else None;
      if info.Some? {
        InfoNamed(leaseIds, schedulerInfos, old(history), name);
      }
      MirrorsMember(mode, leaseIds, schedulerInfos, proxy.faasSchedulers, proxy.exclusivitySchedulers,
                    proxy.loadBalance, name);
      if isLeaseKey {
        leaseIds := WithoutLease(leaseIds, name, e.lease);
      } else {
        schedulerInfos := schedulerInfos - {name};
      }
      var existLease, existInfo := name in leaseIds, name in schedulerInfos;
      var needRemove := if mode.ModuleMode? then existLease != existInfo else !existInfo && !isLeaseKey;
      if needRemove && info.Some? && info.value.name in proxy.faasSchedulers {
        MirrorsRemove(mode, old(leaseIds), old(schedulerInfos), leaseIds, schedulerInfos, name,
                      proxy.faasSchedulers, proxy.exclusivitySchedulers, proxy.loadBalance);
        proxy.Remove(info.value);
      } else {
        MirrorsSame(mode, old(leaseIds), old(schedulerInfos), leaseIds, schedulerInfos, name,
                    proxy.faasSchedulers, proxy.exclusivitySchedulers, proxy.loadBalance);
      }
    }
  }

  /** Since every record carries the zero time, a scheduler is avoided exactly by its instance ID. */
  lemma AvoidedIsById(m: EventManager, n: Name, unexpected: seq<NodeInfo>)
    requires m.Valid() && n in m.proxy.faasSchedulers
    ensures Avoided(m.proxy.faasSchedulers[n], unexpected) <==>
            exists i :: 0 <= i < |unexpected|
                        && unexpected[i].info.instanceId == m.proxy.faasSchedulers[n].info.instanceId
  {
  }

  lemma InfoNamed(leases: Leases, infos: Infos, history: seq<Event>, n: Name)
    requires Tracks(leases, infos, history) && n in infos
    ensures infos[n].name == n
  {
  }

  /** In every state the event manager reaches, the routable schedulers are exactly those the history asks for. */
  lemma RegistryIsExact(m: EventManager, n: Name)
    requires m.Valid()
    ensures n in m.proxy.faasSchedulers <==> ShouldRoute(m.mode, m.history, n)
    ensures n in m.proxy.faasSchedulers ==> Some(m.proxy.faasSchedulers[n].info) == LastInfo(m.history, n)
    ensures n in m.proxy.loadBalance || n in m.proxy.exclusivitySchedulers.Values ==> n in m.proxy.faasSchedulers
    ensures n in m.proxy.faasSchedulers && m.proxy.faasSchedulers[n].info.exclusivity == "" ==> n in m.proxy.loadBalance
  {
    assert LastInfo(m.history, n) == if n in m.schedulerInfos then Some(m.schedulerInfos[n]) else None;
    if n in m.leaseIds {
      var l :| l in m.leaseIds[n];
      assert HasLease(m.history, n, l);
    }
  }
}
