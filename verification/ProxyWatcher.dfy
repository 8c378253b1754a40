/**
 The watcher that feeds the proxy cache (watcher/frontend_proxy_endpoint.go): a registration is
 parsed and cached under the node it names, a deletion removes the node its key names.
 */
module ProxyWatcher {
  import opened Sequences
  import opened Discovery
  import opened DiscoveryTheorems
  import opened DiscoveryAnswers
  import opened ProxyRouting

  datatype Registration = Registration(node: Node, grpc: Address, tunnel: Address, capabilities: seq<string>,
                                       version: string, health: string)

  const PREFIX := "/yr/busproxy/business/yrk/tenant/0/node/"

  /** frontendProxyNodeID: the one path element behind the prefix, or nothing. */
  function NodeOfKey(key: string): (node: Node)
    ensures node != "" <==> PREFIX < key && '/' !in key[|PREFIX|..]
    ensures node != "" ==> key == PREFIX + node
  {
    if !(PREFIX <= key) then ""
    else
      var rest := key[|PREFIX|..];
      if rest == "" || '/' in rest then "" else rest
  }

  /** The node a registration under key node `node` is cached for. */
  function NamedNode(node: Node, r: Registration): Node {
    if r.node != "" then r.node else node
  }

  predicate Acceptable(node: Node, r: Registration) {
    NamedNode(node, r) != "" && (r.grpc != "" || r.tunnel != "") && EqualFold(r.health, "healthy")
    && exists c :: c in r.capabilities && c != ""
  }

  /** parseFrontendProxyEndpoint; undecodable JSON is no registration. */
  method Parse(node: Node, value: Option<Registration>) returns (r: Option<Endpoint>)
    ensures r.Some? <==> value.Some? && Acceptable(node, value.value)
    ensures r.Some? ==> Healthy(r.value) && r.value.node == NamedNode(node, value.value) && r.value.revision == 0
    ensures r.Some? ==> r.value.grpc == value.value.grpc && r.value.tunnel == value.value.tunnel
    ensures r.Some? ==> forall c :: Offers(r.value, c) <==> c != "" && c in value.value.capabilities
    ensures r == ParseSpec(node, value)
  {
    if value.None? {
      return None;
    }
    var service := value.value;
    var nodeId := NamedNode(node, service);
    if nodeId == "" || (service.grpc == "" && service.tunnel == "") || !EqualFold(service.health, "healthy") {
      return None;
    }
    var capabilities: map<Capability, bool> := map[];
    for i := 0 to |service.capabilities|
      invariant capabilities == map c | c in service.capabilities[..i] && c != "" :: true
    {
      assert service.capabilities[..i + 1] == service.capabilities[..i] + [service.capabilities[i]];
      if service.capabilities[i] != "" {
        capabilities := capabilities[service.capabilities[i] := true];
      }
    }
    assert service.capabilities[..|service.capabilities|] == service.capabilities;
    if |capabilities| == 0 {
      assert forall c :: c in service.capabilities && c != "" ==> c in capabilities;
      return None;
    }
    var some :| some in capabilities;
    return Some(Endpoint(nodeId, service.grpc, service.tunnel, service.version, capabilities, service.health, 0));
  }

  function ParseSpec(node: Node, value: Option<Registration>): Option<Endpoint> {
    if value.None? || !Acceptable(node, value.value) then None
    else
      var v := value.value;
      Some(Endpoint(NamedNode(node, v), v.grpc, v.tunnel, v.version,
                    map c | c in v.capabilities && c != "" :: true, v.health, 0))
  }

  /** Every registration the parser accepts passes the test that Upsert applies. */
  lemma ParsedIsHealthy(node: Node, value: Option<Registration>)
    ensures ParseSpec(node, value).Some? ==> Healthy(ParseSpec(node, value).value)
  {
    if value.Some? && Acceptable(node, value.value) {
      var c :| c in value.value.capabilities && c != "";
      assert c in ParseSpec(node, value).value.capabilities;
    }
  }

  // ---------------------------------------------------------------------------------------
  // Events
  // ---------------------------------------------------------------------------------------

  datatype Event = PutEvent(node: Node, value: Option<Registration>, rev: int) | DeleteEvent(node: Node, rev: int)

  /** What the handler asks of the cache. */
  function ChangeOf(ev: Event): Change {
    if ev.DeleteEvent? then Drop(ev.node, ev.rev)
    else
      var parsed := ParseSpec(ev.node, ev.value);
      if parsed.None? then Drop(ev.node, ev.rev) else Put(parsed.value.(revision := ev.rev))
  }

  method Handle(discovery: MemoryDiscovery, ev: Event)
    requires WellFormed(discovery.View())
    modifies discovery
    ensures WellFormed(discovery.View()) && discovery.View() == Apply(old(discovery.View()), ChangeOf(ev))
  {
    match ev
    case PutEvent(node, value, rev) =>
      var parsed := Parse(node, value);
      if parsed.None? {
        discovery.Delete(node, rev);
      } else {
        discovery.Upsert(parsed.value.(revision := rev));
      }
    case DeleteEvent(node, rev) =>
      discovery.Delete(node, rev);
  }

  function Changes(events: seq<Event>): (chs: seq<Change>)
    ensures |chs| == |events| && forall i :: 0 <= i < |events| ==> chs[i] == ChangeOf(events[i])
  {
    if events == [] then [] else [ChangeOf(events[0])] + Changes(events[1..])
  }

  /** A registration that names the node of its own key, or none. */
  predicate OwnNamed(ev: Event) {
    ev.PutEvent? && ev.value.Some? ==> ev.value.value.node == "" || ev.value.value.node == ev.node
  }

  /** Own-named events with distinct positive revisions are changes of the node their key names. */
  lemma OwnNamedIsProper(ev: Event)
    requires OwnNamed(ev) && ev.node != "" && ev.rev > 0
    ensures Proper(ChangeOf(ev)) && NodeOf(ChangeOf(ev)) == ev.node && RevOf(ChangeOf(ev)) == ev.rev
  {
    hide EqualFold;
    if ev.PutEvent? {
      ParsedIsHealthy(ev.node, ev.value);
    }
  }

  /** However etcd's events of a key are delivered, the cache ends with what the newest of them says. */
  lemma WatchConverges(c: Cache, events: seq<Event>, k: nat)
    requires k < |events| && RevisionOf(c, events[k].node) <= events[k].rev
    requires forall i :: 0 <= i < |events| ==> OwnNamed(events[i]) && events[i].node != "" && events[i].rev > 0
    requires forall i :: 0 <= i < |events| && i != k && events[i].node == events[k].node ==>
               events[i].rev < events[k].rev
    ensures Cached(ApplyAll(c, Changes(events)), events[k].node) == Outcome(ChangeOf(events[k]))
  {
    hide ChangeOf, Proper;
    forall i | 0 <= i < |events|
      ensures Proper(Changes(events)[i]) && NodeOf(Changes(events)[i]) == events[i].node
      ensures RevOf(Changes(events)[i]) == events[i].rev
    {
      OwnNamedIsProper(events[i]);
    }
    NewestDecides(c, Changes(events), events[k].node, k);
  }

  /** A registration with an address, good health and a capability that has a name. */
  ghost predicate Worthy(r: Registration) {
    && !(r.grpc == "" && r.tunnel == "") && SpellsHealthy(r.health)
    && exists i :: 0 <= i < |r.capabilities| && r.capabilities[i] != ""
  }

  /** The endpoint is the registration's, field by field, at revision `rev`. */
  ghost predicate Registered(e: Endpoint, node: Node, r: Registration, rev: int) {
    && e.node == node && e.grpc == r.grpc && e.tunnel == r.tunnel && e.version == r.version
    && e.health == r.health && e.revision == rev
    && (forall c :: c in e.capabilities <==> c != "" && c in r.capabilities)
    && (forall c :: c in e.capabilities ==> e.capabilities[c])
  }

  lemma HealthInAnyCase(h: string)
    ensures EqualFold(h, "healthy") <==> SpellsHealthy(h)
  {
    HealthyIsPresentable(Plain("n", "c").(health := h));
  }

  lemma ChangeIsRegistered(ev: Event)
    requires OwnNamed(ev) && ev.node != ""
    ensures var kept := Outcome(ChangeOf(ev));
            && (kept.Some? <==> ev.PutEvent? && ev.value.Some? && Worthy(ev.value.value))
            && (kept.Some? ==> Registered(kept.value, ev.node, ev.value.value, ev.rev))
  {
    if ev.PutEvent? && ev.value.Some? {
      hide EqualFold, SpellsHealthy;
      var r := ev.value.value;
      HealthInAnyCase(r.health);
      if c :| c in r.capabilities && c != "" {
        var i :| 0 <= i < |r.capabilities| && r.capabilities[i] == c;
        assert r.capabilities[i] != "";
      } else {
        assert forall i :: 0 <= i < |r.capabilities| ==> r.capabilities[i] in r.capabilities;
      }
    }
  }

  /**
   So the cache ends with the newest registration of a key, field by field, exactly if that is worthy, and
   with nothing if it is not or if the newest event deletes the key.
   */
  lemma WatchCachesTheNewest(c: Cache, events: seq<Event>, k: nat)
    requires k < |events| && RevisionOf(c, events[k].node) <= events[k].rev
    requires forall i :: 0 <= i < |events| ==> OwnNamed(events[i]) && events[i].node != "" && events[i].rev > 0
    requires forall i :: 0 <= i < |events| && i != k && events[i].node == events[k].node ==>
               events[i].rev < events[k].rev
    ensures var ev, after := events[k], ApplyAll(c, Changes(events)).endpoints;
            && (ev.node in after <==> ev.PutEvent? && ev.value.Some? && Worthy(ev.value.value))
            && (ev.node in after ==> Registered(after[ev.node], ev.node, ev.value.value, ev.rev))
  {
    hide ChangeOf, Outcome, OwnNamed, Worthy, Registered, ApplyAll, Changes;
    WatchConverges(c, events, k);
    ChangeIsRegistered(events[k]);
  }

  /**
   A registration may name another node than its key.  Then the deletion of the key, however new,
   leaves the endpoint in the cache: it removes it exactly if the two names agree.
   */
  lemma DeletionRemovesExactlyOwnNames(c: Cache, node: Node, r: Registration, rev: int, later: int)
    requires node != "" && 0 < rev < later && Acceptable(node, r)
    requires RevisionOf(c, node) <= rev && RevisionOf(c, NamedNode(node, r)) <= rev
    ensures var named := if r.node == "" then node else r.node;
            var c' := Apply(Apply(c, ChangeOf(PutEvent(node, Some(r), rev))), ChangeOf(DeleteEvent(node, later)));
            Cached(c', named) == None <==> r.node == "" || r.node == node
  {
    hide EqualFold, Apply, Cached, RevisionOf;
    ParsedIsHealthy(node, Some(r));
    var put, drop := ChangeOf(PutEvent(node, Some(r), rev)), ChangeOf(DeleteEvent(node, later));
    assert put.Put? && NodeOf(put) == NamedNode(node, r) && Outcome(put).Some?;
    ApplyOwn(c, put);
    ApplyOwn(Apply(c, put), drop);
    if NamedNode(node, r) != node {
      ApplyOther(Apply(c, put), drop, NamedNode(node, r));
    }
  }
}
