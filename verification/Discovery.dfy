/**
 The cache of function proxies (proxyrouting/discovery.go) as a value: what each operation makes
 of it.  `prune` says whether a lookup drops the suspect entries it finds expired, as the source
 does, or leaves them; routability of an address is a parameter.
 */
module Discovery {
  import opened Sequences

  type Address = string
  type Node = string
  type Capability = string

  const TCP_TUNNEL: Capability := "tcp.tunnel"
  const WORD: nat := 0x1_0000_0000_0000_0000

  datatype Endpoint = Endpoint(node: Node, grpc: Address, tunnel: Address, version: string,
                               capabilities: map<Capability, bool>, health: string, revision: int)

  datatype Cache = Cache(
    endpoints: map<Node, Endpoint>,
    order: seq<Node>,
    next: nat,                      // a uint64
    suspects: map<Address, int>,    // suspectUntil
    revisions: map<Node, int>)

  const EMPTY_CACHE := Cache(map[], [], 0, map[], map[])

  // ---------------------------------------------------------------------------------------
  // Health
  // ---------------------------------------------------------------------------------------

  function ToLower(c: char): char {
    if 'A' <= c <= 'Z' then (c as int + 32) as char else c
  }

  /** strings.EqualFold on ASCII text. */
  predicate EqualFold(a: string, b: string) {
    |a| == |b| && forall i :: 0 <= i < |a| ==> ToLower(a[i]) == ToLower(b[i])
  }

  predicate Healthy(e: Endpoint) {
    e.node != "" && (e.grpc != "" || e.tunnel != "") && EqualFold(e.health, "healthy") && e.capabilities != map[]
  }

  function AddressOf(e: Endpoint, capability: Capability): Address {
    if capability == TCP_TUNNEL then e.tunnel else e.grpc
  }

  predicate Offers(e: Endpoint, capability: Capability) {
    capability in e.capabilities && e.capabilities[capability]
  }

  // ---------------------------------------------------------------------------------------
  // Updates
  // ---------------------------------------------------------------------------------------

  function RevisionOf(c: Cache, node: Node): int {
    if node in c.revisions then c.revisions[node] else 0
  }

  predicate Stale(c: Cache, node: Node, revision: int) {
    revision > 0 && RevisionOf(c, node) > revision
  }

  function Recorded(revisions: map<Node, int>, node: Node, revision: int): map<Node, int> {
    if revision > 0 then revisions[node := revision] else revisions
  }

  function Upsert(c: Cache, e: Endpoint): Cache {
    if !Healthy(e) || Stale(c, e.node, e.revision) then c
    else c.(endpoints := c.endpoints[e.node := e],
            order := if e.node in c.endpoints then c.order else c.order + [e.node],
            revisions := Recorded(c.revisions, e.node, e.revision))
  }

  function Delete(c: Cache, node: Node, revision: int): Cache {
    if node == "" || Stale(c, node, revision) then c
    else
      var c' := c.(revisions := Recorded(c.revisions, node, revision));
      if node !in c.endpoints then c'
      else
        var order := RemoveFirst(c.order, node);
        c'.(endpoints := c.endpoints - {node}, order := order,
            suspects := c.suspects - {c.endpoints[node].grpc, c.endpoints[node].tunnel},
            next := if order == [] then 0 else c.next % |order|)
  }

  function RemoveFirst(s: seq<Node>, x: Node): seq<Node> {
    if s == [] then [] else if s[0] == x then s[1..] else [s[0]] + RemoveFirst(s[1..], x)
  }

  /** ReplaceSnapshot over the first `n` of the given endpoints, before the suspects are filtered. */
  function Snapshot(endpoints: seq<Endpoint>, n: nat): Cache
    requires n <= |endpoints|
  {
    if n == 0 then EMPTY_CACHE
    else
      var c, e := Snapshot(endpoints, n - 1), endpoints[n - 1];
      if !Healthy(e) then c
      else c.(endpoints := c.endpoints[e.node := e],
              order := if e.node in c.endpoints then c.order else c.order + [e.node],
              revisions := c.revisions[e.node := e.revision])
  }

  function Addresses(endpoints: seq<Endpoint>): set<Address> {
    (set e | e in endpoints && Healthy(e) :: e.grpc) + (set e | e in endpoints && Healthy(e) :: e.tunnel)
  }

  function ReplaceSnapshot(c: Cache, endpoints: seq<Endpoint>): Cache {
    Snapshot(endpoints, |endpoints|).(
      suspects := map a | a in c.suspects && a in Addresses(endpoints) :: c.suspects[a])
  }

  // ---------------------------------------------------------------------------------------
  // Lookups
  // ---------------------------------------------------------------------------------------

  predicate Suspect(c: Cache, address: Address, now: int) {
    address in c.suspects && now < c.suspects[address]
  }

  /** isSuspectAddressLocked */
  function CheckSuspect(c: Cache, address: Address, now: int, prune: bool): Cache {
    if prune && address in c.suspects && now >= c.suspects[address] then c.(suspects := c.suspects - {address}) else c
  }

  function MarkSuspect(c: Cache, address: Address, now: int, ttl: int): Cache {
    if address == "" || ttl <= 0 then c else c.(suspects := c.suspects[address := now + ttl])
  }

  /** What a caller of GetNext asks for. */
  datatype Ask = Ask(capability: Capability, excluded: set<Address>, now: int, routable: Address -> bool)

  /** The endpoint of `node` may be returned. */
  predicate Eligible(c: Cache, ask: Ask, node: Node) {
    node in c.endpoints && Offers(c.endpoints[node], ask.capability)
    && var address := AddressOf(c.endpoints[node], ask.capability);
       address !in ask.excluded && !Suspect(c, address, ask.now) && ask.routable(address)
  }

  /** One round of GetNext's loop: the cursor moves, and the node it was on may be found suspect no longer. */
  function Visit(c: Cache, ask: Ask, prune: bool): Cache
    requires c.order != []
  {
    var node := c.order[c.next % |c.order|];
    var c' := c.(next := (c.next + 1) % WORD);
    if node in c.endpoints && Offers(c.endpoints[node], ask.capability)
       && AddressOf(c.endpoints[node], ask.capability) !in ask.excluded
    then CheckSuspect(c', AddressOf(c.endpoints[node], ask.capability), ask.now, prune)
    else c'
  }

  /** GetNext, with `rounds` rounds left. */
  function Advance(c: Cache, ask: Ask, prune: bool, rounds: nat): (Cache, Option<Endpoint>)
    decreases rounds
  {
    if rounds == 0 || c.order == [] then (c, None)
    else
      var node := c.order[c.next % |c.order|];
      if Eligible(c, ask, node) then (Visit(c, ask, prune), Some(c.endpoints[node]))
      else Advance(Visit(c, ask, prune), ask, prune, rounds - 1)
  }

  function GetNext(c: Cache, ask: Ask, prune: bool): (Cache, Option<Endpoint>) {
    Advance(c, ask, prune, |c.order|)
  }

  predicate FoundByNode(c: Cache, node: Node, capability: Capability, now: int, routable: Address -> bool) {
    node != "" && node in c.endpoints && (capability == "" || Offers(c.endpoints[node], capability))
    && !Suspect(c, AddressOf(c.endpoints[node], capability), now) && routable(AddressOf(c.endpoints[node], capability))
  }

  function GetByNode(c: Cache, node: Node, capability: Capability, now: int, routable: Address -> bool, prune: bool)
    : (Cache, Option<Endpoint>)
  {
    if node == "" || node !in c.endpoints || !(capability == "" || Offers(c.endpoints[node], capability)) then (c, None)
    else
      (CheckSuspect(c, AddressOf(c.endpoints[node], capability), now, prune),
       if FoundByNode(c, node, capability, now, routable) then Some(c.endpoints[node]) else None)
  }

  // ---------------------------------------------------------------------------------------
  // The order enumerates the cached nodes
  // ---------------------------------------------------------------------------------------

  ghost predicate WellFormed(c: Cache) {
    && Distinct(c.order)
    && (forall n :: n in c.order <==> n in c.endpoints)
    && (forall n :: n in c.endpoints ==> c.endpoints[n].node == n && Healthy(c.endpoints[n]))
    && c.next < WORD
  }

  lemma {:induction false} RemoveFirstMembers(s: seq<Node>, x: Node)
    requires Distinct(s)
    ensures Distinct(RemoveFirst(s, x)) && forall y :: y in RemoveFirst(s, x) <==> y in s && y != x
    ensures |RemoveFirst(s, x)| <= |s|
  {
    if s != [] {
      RemoveFirstMembers(s[1..], x);
      assert forall y :: y in s <==> y == s[0] || y in s[1..];
      assert s[0] !in s[1..];
    }
  }

  lemma UpsertWellFormed(c: Cache, e: Endpoint)
    requires WellFormed(c)
    ensures WellFormed(Upsert(c, e))
  {
    hide Healthy;
  }

  lemma DeleteWellFormed(c: Cache, node: Node, revision: int)
    requires WellFormed(c)
    ensures WellFormed(Delete(c, node, revision))
  {
    hide Healthy, RemoveFirst;
    RemoveFirstMembers(c.order, node);
  }

  lemma {:induction false} SnapshotWellFormed(endpoints: seq<Endpoint>, n: nat)
    requires n <= |endpoints|
    ensures WellFormed(Snapshot(endpoints, n))
  {
    hide Healthy;
    if n > 0 {
      SnapshotWellFormed(endpoints, n - 1);
    }
  }

  lemma ReplaceWellFormed(c: Cache, endpoints: seq<Endpoint>)
    ensures WellFormed(ReplaceSnapshot(c, endpoints))
  {
    SnapshotWellFormed(endpoints, |endpoints|);
  }

  /** A snapshot caches the last healthy endpoint of a node, with its revision. */
  lemma {:induction false} SnapshotHoldsTheLast(endpoints: seq<Endpoint>, n: nat, k: nat)
    requires k < n <= |endpoints| && Healthy(endpoints[k])
    requires forall j :: k < j < n && endpoints[j].node == endpoints[k].node ==> !Healthy(endpoints[j])
    ensures var c, node := Snapshot(endpoints, n), endpoints[k].node;
            node in c.endpoints && c.endpoints[node] == endpoints[k] && RevisionOf(c, node) == endpoints[k].revision
  {
    hide Healthy;
    if k < n - 1 {
      SnapshotHoldsTheLast(endpoints, n - 1, k);
    }
  }

  /** And it caches nothing else. */
  lemma {:induction false} SnapshotHoldsNothingElse(endpoints: seq<Endpoint>, n: nat, node: Node)
    requires n <= |endpoints| && forall j :: 0 <= j < n && endpoints[j].node == node ==> !Healthy(endpoints[j])
    ensures node !in Snapshot(endpoints, n).endpoints && node !in Snapshot(endpoints, n).revisions
  {
    hide Healthy;
    if n > 0 {
      SnapshotHoldsNothingElse(endpoints, n - 1, node);
    }
  }

  /** A deletion that is not stale leaves nothing of the node: not its place, nor the suspicion of its addresses. */
  lemma DeletionForgets(c: Cache, node: Node, revision: int, address: Address, now: int)
    requires WellFormed(c) && node in c.endpoints && !Stale(c, node, revision)
    ensures var c' := Delete(c, node, revision);
            && node !in c'.endpoints && node !in c'.order && (c'.order != [] ==> c'.next < |c'.order|)
            && (Suspect(c', address, now) <==> Suspect(c, address, now)
                                               && address != c.endpoints[node].grpc
                                               && address != c.endpoints[node].tunnel)
            && forall x :: x != node ==> (x in c'.order <==> x in c.order)
  {
    hide Healthy, RemoveFirst;
    assert node != "" by {
      HealthyHasAName(c.endpoints[node]);
    }
    RemoveFirstMembers(c.order, node);
  }

  lemma HealthyHasAName(e: Endpoint)
    ensures Healthy(e) ==> e.node != ""
  {
  }

  lemma VisitWellFormed(c: Cache, ask: Ask, prune: bool)
    requires WellFormed(c) && c.order != []
    ensures WellFormed(Visit(c, ask, prune))
    ensures Visit(c, ask, prune).endpoints == c.endpoints && Visit(c, ask, prune).order == c.order
    ensures Visit(c, ask, prune).next == (c.next + 1) % WORD
  {
    hide Healthy;
  }
}
