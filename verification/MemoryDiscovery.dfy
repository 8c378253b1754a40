/**
 The proxy cache as the object that the watcher and the routers share (proxyrouting/discovery.go).
 Every method does what Discovery says of the values; the clock and the routability of an address
 are arguments.
 */
module ProxyRouting {
  import opened Sequences
  import opened Discovery

  class MemoryDiscovery {
    var endpoints: map<Node, Endpoint>
    var order: seq<Node>
    var next: nat
    var suspectUntil: map<Address, int>
    var revisions: map<Node, int>

    function View(): Cache
      reads this
    {
      Cache(endpoints, order, next, suspectUntil, revisions)
    }

    constructor ()
      ensures View() == EMPTY_CACHE && WellFormed(View())
    {
      endpoints, order, next, suspectUntil, revisions := map[], [], 0, map[], map[];
    }

    method ReplaceSnapshot(snapshot: seq<Endpoint>)
      modifies this
      ensures View() == Discovery.ReplaceSnapshot(old(View()), snapshot) && WellFormed(View())
    {
      hide Healthy;
      var cached, addresses, newOrder, newRevisions := map[], {}, [], map[];
      for i := 0 to |snapshot|
        invariant Cache(cached, newOrder, 0, map[], newRevisions) == Snapshot(snapshot, i)
        invariant addresses == Addresses(snapshot[..i])
        invariant unchanged(this)
      {
        var endpoint := snapshot[i];
        assert snapshot[..i + 1] == snapshot[..i] + [endpoint];
        if !Healthy(endpoint) {
          continue;
        }
        if endpoint.node !in cached {
          newOrder := newOrder + [endpoint.node];
        }
        cached := cached[endpoint.node := endpoint];
        addresses := addresses + {endpoint.grpc, endpoint.tunnel};
        newRevisions := newRevisions[endpoint.node := endpoint.revision];
      }
      assert snapshot[..|snapshot|] == snapshot;
      endpoints, order, revisions, next := cached, newOrder, newRevisions, 0;
      suspectUntil := map a | a in suspectUntil && a in addresses :: suspectUntil[a];
      ReplaceWellFormed(old(View()), snapshot);
    }

    method Upsert(endpoint: Endpoint)
      requires WellFormed(View())
      modifies this
      ensures View() == Discovery.Upsert(old(View()), endpoint) && WellFormed(View())
    {
      hide Healthy;
      UpsertWellFormed(View(), endpoint);
      if !Healthy(endpoint) {
        return;
      }
      var current := if endpoint.node in revisions then revisions[endpoint.node] else 0;
      if endpoint.revision > 0 && current > endpoint.revision {
        return;
      }
      if endpoint.node !in endpoints {
        order := order + [endpoint.node];
      }
      endpoints := endpoints[endpoint.node := endpoint];
      if endpoint.revision > 0 {
        revisions := revisions[endpoint.node := endpoint.revision];
      }
    }

    method Delete(node: Node, revision: int)
      requires WellFormed(View())
      modifies this
      ensures View() == Discovery.Delete(old(View()), node, revision) && WellFormed(View())
    {
      hide Healthy;
      DeleteWellFormed(View(), node, revision);
      if node == "" {
        return;
      }
      var current := if node in revisions then revisions[node] else 0;
      if revision > 0 && current > revision {
        return;
      }
      if revision > 0 {
        revisions := revisions[node := revision];
      }
      if node !in endpoints {
        return;
      }
      var endpoint := endpoints[node];
      endpoints := endpoints - {node};
      suspectUntil := suspectUntil - {endpoint.grpc, endpoint.tunnel};
      RemoveNode(node);
      if |order| == 0 {
        next := 0;
      } else {
        next := next % |order|;
      }
    }

    /** Delete's loop over the order. */
    method RemoveNode(node: Node)
      modifies this`order
      ensures order == RemoveFirst(old(order), node)
    {
      for i := 0 to |order|
        invariant order == old(order) && RemoveFirst(order, node) == order[..i] + RemoveFirst(order[i..], node)
      {
        if order[i] == node {
          order := order[..i] + order[i + 1..];
          return;
        }
        assert order[..i] + [order[i]] == order[..i + 1];
      }
      assert order[|order|..] == [] && order[..|order|] == order;
    }

    method IsSuspectLocked(address: Address, now: int) returns (suspect: bool)
      modifies this`suspectUntil
      ensures suspect == old(Suspect(View(), address, now))
      ensures View() == CheckSuspect(old(View()), address, now, true)
    {
      if address !in suspectUntil {
        return false;
      }
      if now < suspectUntil[address] {
        return true;
      }
      suspectUntil := suspectUntil - {address};
      return false;
    }

    method GetNext(capability: Capability, excluded: set<Address>, now: int, routable: Address -> bool)
      returns (endpoint: Endpoint, ok: bool)
      requires WellFormed(View())
      modifies this
      ensures var (c', r) := Discovery.GetNext(old(View()), Ask(capability, excluded, now, routable), true);
              WellFormed(View()) && View() == c' && ok == r.Some? && (ok ==> endpoint == r.value)
    {
      hide Healthy, WellFormed;
      var ask := Ask(capability, excluded, now, routable);
      endpoint, ok := Endpoint("", "", "", "", map[], "", 0), false;
      for i := 0 to |order|
        invariant WellFormed(View()) && order == old(order) && endpoints == old(endpoints)
        invariant Discovery.GetNext(old(View()), ask, true) == Advance(View(), ask, true, |order| - i)
        invariant !ok
      {
        ghost var before := View();
        VisitWellFormed(before, ask, true);
        var idx := next % |order|;
        next := (next + 1) % WORD;
        var node := order[idx];
        if node !in endpoints || !Offers(endpoints[node], capability) {
          continue;
        }
        var address := AddressOf(endpoints[node], capability);
        if address in excluded {
          continue;
        }
        var suspect := IsSuspectLocked(address, now);
        if suspect || !routable(address) {
          continue;
        }
        endpoint, ok := endpoints[node], true;
        return;
      }
    }

    method GetByNode(node: Node, capability: Capability, now: int, routable: Address -> bool)
      returns (endpoint: Option<Endpoint>)
      modifies this`suspectUntil
      ensures (View(), endpoint) == Discovery.GetByNode(old(View()), node, capability, now, routable, true)
    {
      if node == "" || node !in endpoints || (capability != "" && !Offers(endpoints[node], capability)) {
        return None;
      }
      var address := AddressOf(endpoints[node], capability);
      var suspect := IsSuspectLocked(address, now);
      if suspect || !routable(address) {
        return None;
      }
      return Some(endpoints[node]);
    }

    method MarkSuspectAddress(address: Address, now: int, ttl: int)
      modifies this`suspectUntil
      ensures View() == MarkSuspect(old(View()), address, now, ttl)
      ensures address != "" && ttl > 0 ==> forall t :: Suspect(View(), address, t) <==> t < now + ttl
      ensures forall a, t :: a != address || a == "" || ttl <= 0 ==>
                (Suspect(View(), a, t) <==> old(Suspect(View(), a, t)))
    {
      if address == "" || ttl <= 0 {
        return;
      }
      suspectUntil := suspectUntil[address := now + ttl];
    }
  }
}
