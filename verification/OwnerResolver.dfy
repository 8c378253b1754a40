/**
 Routing to the proxy that owns an instance (proxyrouting/owner_resolver.go).  The polling loop
 meets one cache and clock per round, and maybe a newer record of the instance; that the context
 ends is that the rounds do.
 */
module OwnerResolver {
  import opened Sequences
  import opened Text
  import opened Discovery
  import opened DiscoveryAnswers

  datatype Instance = Instance(id: string, proxyId: string)

  datatype Transport = GRPC | TCPTunnel | Unsupported(number: int)

  datatype Route = Route(instance: Instance, owner: Node, endpoint: Endpoint, address: Address)

  datatype Refusal = NoCapability | NoProxyId | ProxyIdIsAddress | NotPublished | BadTransport
                   | NotRoutable | ContextDone

  datatype Resolved = Routed(route: Route) | Refused(why: Refusal)

  /** The tests of an address: net.SplitHostPort and net.ParseIP are not part of this model. */
  datatype Net = Net(routable: Address -> bool, hostPort: Address -> bool)

  /** One poll: the cache and the clock it meets, and the record of the instance it finds afterwards. */
  datatype Poll = Poll(cache: Cache, now: int, current: Option<Instance>)

  function ResolveFromInstance(instance: Instance, capability: Capability, transport: Transport, cache: Cache,
                               now: int, net: Net)
    : Resolved
  {
    if capability == "" then Refused(NoCapability)
    else
      var owner := TrimSpace(instance.proxyId);
      if owner == "" then Refused(NoProxyId)
      else if net.hostPort(owner) then Refused(ProxyIdIsAddress)
      else if !FoundByNode(cache, owner, capability, now, net.routable) then Refused(NotPublished)
      else if transport.Unsupported? then Refused(BadTransport)
      else
        var endpoint := cache.endpoints[owner];
        var address := if transport.TCPTunnel? then endpoint.tunnel else endpoint.grpc;
        if !net.routable(address) then Refused(NotRoutable) else Routed(Route(instance, owner, endpoint, address))
  }

  /** The record a poll leaves the loop with. */
  function Latest(first: Instance, polls: seq<Poll>, n: nat): Instance
    requires n <= |polls|
  {
    if n == 0 then first
    else if polls[n - 1].current.Some? then polls[n - 1].current.value
    else Latest(first, polls, n - 1)
  }

  /** `wait` after the instance was found: the first poll that can be routed decides. */
  method Wait(first: Instance, capability: Capability, transport: Transport, polls: seq<Poll>, net: Net)
    returns (r: Resolved, ghost k: nat)
    ensures k <= |polls| && forall i :: 0 <= i < k ==>
              ResolveFromInstance(Latest(first, polls, i), capability, transport, polls[i].cache, polls[i].now,
                                  net).Refused?
    ensures r.Refused? ==> k == |polls| && r.why == ContextDone
    ensures r.Routed? ==>
              k < |polls| && r ==
                ResolveFromInstance(Latest(first, polls, k), capability, transport, polls[k].cache, polls[k].now, net)
  {
    hide ResolveFromInstance;
    var instance, n := first, 0;
    while n < |polls|
      invariant n <= |polls| && instance == Latest(first, polls, n)
      invariant forall i :: 0 <= i < n ==>
        ResolveFromInstance(Latest(first, polls, i), capability, transport, polls[i].cache, polls[i].now, net).Refused?
    {
      r := ResolveFromInstance(instance, capability, transport, polls[n].cache, polls[n].now, net);
      if r.Routed? {
        k := n;
        return;
      }
      if polls[n].current.Some? {
        instance := polls[n].current.value;
      }
      n := n + 1;
    }
    r, k := Refused(ContextDone), n;
  }

  // ---------------------------------------------------------------------------------------
  // What a route promises
  // ---------------------------------------------------------------------------------------

  /** The transport uses the address that the lookup of the capability checks. */
  predicate Matching(capability: Capability, transport: Transport) {
    (capability == TCP_TUNNEL && transport.TCPTunnel?) || (capability != TCP_TUNNEL && transport.GRPC?)
  }

  /** The proxy of the instance, cached under its own name, reachable and not suspect when looked up. */
  ghost predicate Trustworthy(route: Route, capability: Capability, cache: Cache, now: int, net: Net) {
    && route.owner == TrimSpace(route.instance.proxyId) && route.owner != ""
    && route.owner in cache.endpoints && cache.endpoints[route.owner] == route.endpoint
    && route.endpoint.node == route.owner && Offers(route.endpoint, capability)
    && net.routable(route.address) && !Suspect(cache, route.address, now)
  }

  lemma RouteIsTrustworthy(instance: Instance, capability: Capability, transport: Transport, cache: Cache, now: int,
                           net: Net)
    requires WellFormed(cache) && Matching(capability, transport)
    ensures var r := ResolveFromInstance(instance, capability, transport, cache, now, net);
            r.Routed? ==> r.route.instance == instance && Trustworthy(r.route, capability, cache, now, net)
  {
  }

  /**
   For a matching pair there is a route exactly if the trimmed proxy ID names a cached proxy, is no address
   itself, and the proxy offers the capability by an address that is routable and not marked.
   */
  lemma RouteExactly(instance: Instance, capability: Capability, transport: Transport, cache: Cache, now: int, net: Net)
    requires WellFormed(cache) && Matching(capability, transport)
    ensures var owner := TrimSpace(instance.proxyId);
            ResolveFromInstance(instance, capability, transport, cache, now, net).Routed? <==>
              capability != "" && !net.hostPort(owner) && Usable(cache, owner, capability, now, net.routable)
    ensures var r := ResolveFromInstance(instance, capability, transport, cache, now, net);
            r.Routed? ==> r.route.address == Via(r.route.endpoint, capability)
  {
    hide Healthy, TrimSpace;
    var owner := TrimSpace(instance.proxyId);
    if owner in cache.endpoints {
      HealthyHasAName(cache.endpoints[owner]);
    }
  }

  /** A transport that is not supported has no route, and neither has a matching pair without a capability. */
  lemma NoRouteWithout(instance: Instance, capability: Capability, transport: Transport, cache: Cache, now: int,
                       net: Net)
    requires capability == "" || transport.Unsupported?
    ensures ResolveFromInstance(instance, capability, transport, cache, now, net).Refused?
  {
  }

  /** The record in use is the one found last, or the first if none was found since. */
  lemma {:induction false} LatestIsTheLast(first: Instance, polls: seq<Poll>, n: nat, i: int)
    requires -1 <= i < n <= |polls| && forall j :: i < j < n ==> polls[j].current.None?
    requires i >= 0 ==> polls[i].current.Some?
    ensures Latest(first, polls, n) == if i < 0 then first else polls[i].current.value
  {
    if i < n - 1 {
      LatestIsTheLast(first, polls, n - 1, i);
    }
  }

  /** Every route the polling loop returns is trustworthy for the poll that returned it. */
  method WaitForRoute(first: Instance, capability: Capability, transport: Transport, polls: seq<Poll>, net: Net)
    returns (r: Resolved, ghost k: nat)
    requires Matching(capability, transport) && forall i :: 0 <= i < |polls| ==> WellFormed(polls[i].cache)
    ensures r.Routed? ==> k < |polls| && r.route.instance == Latest(first, polls, k)
                          && Trustworthy(r.route, capability, polls[k].cache, polls[k].now, net)
  {
    hide Trustworthy, ResolveFromInstance;
    r, k := Wait(first, capability, transport, polls, net);
    if r.Routed? {
      RouteIsTrustworthy(Latest(first, polls, k), capability, transport, polls[k].cache, polls[k].now, net);
    }
  }

  /** For any other pair of capability and supported transport the address can be suspect. */
  lemma MismatchCanBeSuspect(capability: Capability, transport: Transport, now: int)
    requires capability != "" && !Matching(capability, transport) && !transport.Unsupported?
    ensures exists instance, cache, net :: WellFormed(cache)
              && var r := ResolveFromInstance(instance, capability, transport, cache, now, net);
                 r.Routed? && Suspect(cache, r.route.address, now)
  {
    var endpoint := Endpoint("p", "g", "t", "", map[capability := true], "healthy", 1);
    assert capability in endpoint.capabilities;
    var bad := if transport.TCPTunnel? then "t" else "g";
    var cache := Cache(map["p" := endpoint], ["p"], 0, map[bad := now + 1], map[]);
    var net := Net(_ => true, _ => false);
    var instance := Instance("i", "p");
    assert WellFormed(cache);
    assert TrimSpace("p") == "p";
    assert ResolveFromInstance(instance, capability, transport, cache, now, net)
       == Routed(Route(instance, "p", endpoint, bad));
  }
}
