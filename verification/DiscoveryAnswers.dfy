/**
 What the proxy cache answers and keeps, said of the plain fields: which endpoint a lookup may return,
 how long a mark lasts and whom it shuts out, what an update lets in, and where it puts it.
 */
module DiscoveryAnswers {
  import opened Sequences
  import opened Discovery
  import opened DiscoveryTheorems

  // ---------------------------------------------------------------------------------------
  // Plain words
  // ---------------------------------------------------------------------------------------

  /** The address a capability is reached by. */
  function Via(e: Endpoint, capability: Capability): Address {
    if capability == "tcp.tunnel" then e.tunnel else e.grpc
  }

  /** The address is marked and the mark has not run out. */
  predicate Marked(c: Cache, address: Address, now: int) {
    address in c.suspects && c.suspects[address] > now
  }

  /** The endpoint of `node` can serve the capability by an address that may be used. */
  predicate Usable(c: Cache, node: Node, capability: Capability, now: int, routable: Address -> bool) {
    && node in c.endpoints
    && capability in c.endpoints[node].capabilities && c.endpoints[node].capabilities[capability]
    && routable(Via(c.endpoints[node], capability)) && !Marked(c, Via(c.endpoints[node], capability), now)
  }

  /** "healthy", in whatever case. */
  predicate SpellsHealthy(h: string) {
    && |h| == 7 && h[0] in "hH" && h[1] in "eE" && h[2] in "aA" && h[3] in "lL" && h[4] in "tT"
    && h[5] in "hH" && h[6] in "yY"
  }

  /** An endpoint with a name, an address, a capability and good health. */
  predicate Presentable(e: Endpoint) {
    e.node != "" && !(e.grpc == "" && e.tunnel == "") && |e.capabilities| > 0 && SpellsHealthy(e.health)
  }

  /** A change with revision `rev` comes too late for `node`. */
  predicate Outdated(c: Cache, node: Node, rev: int) {
    rev > 0 && node in c.revisions && c.revisions[node] > rev
  }

  lemma Letter(c: char, lower: char, upper: char)
    requires 'a' <= lower <= 'z' && upper as int == lower as int - 32
    ensures ToLower(c) == ToLower(lower) <==> c == lower || c == upper
  {
  }

  lemma HealthyIsPresentable(e: Endpoint)
    ensures Healthy(e) <==> Presentable(e)
  {
    var h, w := e.health, "healthy";
    if |h| == 7 {
      Letter(h[0], 'h', 'H');
      Letter(h[1], 'e', 'E');
      Letter(h[2], 'a', 'A');
      Letter(h[3], 'l', 'L');
      Letter(h[4], 't', 'T');
      Letter(h[5], 'h', 'H');
      Letter(h[6], 'y', 'Y');
      assert EqualFold(h, w) <==> forall i :: 0 <= i < 7 ==> ToLower(h[i]) == ToLower(w[i]);
    }
    assert e.capabilities != map[] <==> |e.capabilities| > 0;
  }

  // ---------------------------------------------------------------------------------------
  // Lookups
  // ---------------------------------------------------------------------------------------

  lemma EligibleIsUsable(c: Cache, ask: Ask, node: Node)
    ensures Eligible(c, ask, node) <==>
            Usable(c, node, ask.capability, ask.now, ask.routable)
            && Via(c.endpoints[node], ask.capability) !in ask.excluded
  {
  }

  /** GetNext returns a usable endpoint by an address that is not excluded, and fails only if there is none. */
  lemma GetNextAnswers(c: Cache, ask: Ask, prune: bool)
    requires WellFormed(c)
    ensures var r := GetNext(c, ask, prune).1;
            r.Some? ==> && r.value.node in c.endpoints && c.endpoints[r.value.node] == r.value
                        && Usable(c, r.value.node, ask.capability, ask.now, ask.routable)
                        && Via(r.value, ask.capability) !in ask.excluded
    ensures (c.order != [] ==> Smooth(c.next, |c.order|, |c.order|)) && GetNext(c, ask, prune).1.None? ==>
              forall n :: Usable(c, n, ask.capability, ask.now, ask.routable) ==>
                            Via(c.endpoints[n], ask.capability) in ask.excluded
  {
    hide Eligible, WellFormed, Advance, Smooth, Usable;
    GetNextIsSound(c, ask, prune, |c.order|);
    var r := GetNext(c, ask, prune).1;
    if r.Some? {
      EligibleIsUsable(c, ask, r.value.node);
    } else if c.order != [] ==> Smooth(c.next, |c.order|, |c.order|) {
      GetNextIsComplete(c, ask, prune);
      forall n | Usable(c, n, ask.capability, ask.now, ask.routable)
        ensures n in c.endpoints && Via(c.endpoints[n], ask.capability) in ask.excluded
      {
        UsableIsCached(c, n, ask);
        EligibleIsUsable(c, ask, n);
      }
    }
  }

  lemma UsableIsCached(c: Cache, n: Node, ask: Ask)
    requires Usable(c, n, ask.capability, ask.now, ask.routable)
    ensures n in c.endpoints
  {
  }

  /** The lookup of one node, when its endpoint may be returned. */
  predicate Available(c: Cache, node: Node, capability: Capability, now: int, routable: Address -> bool) {
    && node in c.endpoints && node != ""
    && (capability != "" ==>
          capability in c.endpoints[node].capabilities && c.endpoints[node].capabilities[capability])
    && routable(Via(c.endpoints[node], capability)) && !Marked(c, Via(c.endpoints[node], capability), now)
  }

  /** Nothing is different but marks that have run out. */
  ghost predicate OnlyPruned(c: Cache, c': Cache, now: int) {
    && c'.endpoints == c.endpoints && c'.order == c.order && c'.next == c.next && c'.revisions == c.revisions
    && forall a, t :: t >= now ==> (Marked(c', a, t) <==> Marked(c, a, t))
  }

  /** GetByNode returns the endpoint of the node exactly if it is available, and changes nothing that matters. */
  lemma GetByNodeAnswers(c: Cache, node: Node, capability: Capability, now: int, routable: Address -> bool, prune: bool)
    ensures var (c', r) := GetByNode(c, node, capability, now, routable, prune);
            && (r.Some? <==> Available(c, node, capability, now, routable))
            && (r.Some? ==> r.value == c.endpoints[node]) && OnlyPruned(c, c', now)
  {
  }

  // ---------------------------------------------------------------------------------------
  // Marks
  // ---------------------------------------------------------------------------------------

  /** A mark shuts exactly its own address out, exactly for its time; an empty address or time marks nothing. */
  lemma MarkLasts(c: Cache, a: Address, now: int, ttl: int, x: Address, t: int)
    ensures var c' := MarkSuspect(c, a, now, ttl);
            && (if x == a && a != "" && ttl > 0 then Suspect(c', x, t) <==> t < now + ttl
                else Suspect(c', x, t) <==> Suspect(c, x, t))
            && c'.endpoints == c.endpoints && c'.order == c.order && c'.next == c.next && c'.revisions == c.revisions
  {
  }

  lemma SuspectIsMarked(c: Cache, a: Address, t: int)
    ensures Suspect(c, a, t) <==> Marked(c, a, t)
  {
  }

  /** Until then no lookup returns an endpoint by that address. */
  lemma MarkedIsAvoided(c: Cache, a: Address, now: int, ttl: int, ask: Ask, node: Node, prune: bool)
    requires WellFormed(c) && a != "" && ttl > 0 && ask.now < now + ttl
    ensures var r := GetNext(MarkSuspect(c, a, now, ttl), ask, prune).1; r.Some? ==> Via(r.value, ask.capability) != a
    ensures var r := GetByNode(MarkSuspect(c, a, now, ttl), node, ask.capability, ask.now, ask.routable, prune).1;
            r.Some? ==> Via(r.value, ask.capability) != a
  {
    hide Advance, MarkSuspect, GetByNode;
    var c' := MarkSuspect(c, a, now, ttl);
    MarkLasts(c, a, now, ttl, a, ask.now);
    SuspectIsMarked(c', a, ask.now);
    GetNextAnswers(c', ask, prune);
    GetByNodeAnswers(c', node, ask.capability, ask.now, ask.routable, prune);
  }

  /** From then on the mark makes no difference to a lookup. */
  lemma MarkRunsOut(c: Cache, a: Address, now: int, ttl: int, ask: Ask, node: Node)
    requires a != "" && ttl > 0 && ask.now >= now + ttl
    requires node in c.endpoints && Via(c.endpoints[node], ask.capability) == a
    ensures var c' := MarkSuspect(c, a, now, ttl); var caps := c.endpoints[node].capabilities;
            && (Usable(c', node, ask.capability, ask.now, ask.routable) <==>
                ask.capability in caps && caps[ask.capability] && ask.routable(a))
            && (Available(c', node, ask.capability, ask.now, ask.routable) <==>
                node != "" && ask.routable(a)
                && (ask.capability == "" || (ask.capability in caps && caps[ask.capability])))
  {
  }

  /** The mark of `a` until `until` stands. */
  predicate MarkStands(c: Cache, a: Address, until: int) {
    a in c.suspects && c.suspects[a] == until
  }

  lemma {:induction false} AdvanceKeepsMark(c: Cache, ask: Ask, prune: bool, rounds: nat, a: Address, until: int)
    requires MarkStands(c, a, until) && ask.now < until
    ensures MarkStands(Advance(c, ask, prune, rounds).0, a, until)
    decreases rounds
  {
    hide Eligible, Offers, AddressOf;
    if rounds > 0 && c.order != [] {
      var node := c.order[c.next % |c.order|];
      assert MarkStands(Visit(c, ask, prune), a, until);
      if !Eligible(c, ask, node) {
        AdvanceKeepsMark(Visit(c, ask, prune), ask, prune, rounds - 1, a, until);
      } else {
        EligibleHere(c, ask, node);
      }
    }
  }

  /** Operations that may take a mark away: a deletion, a snapshot, another mark of the same address. */
  predicate MayUnmark(op: Op, a: Address) {
    op.OpDelete? || op.OpReplace? || (op.OpMark? && op.address == a)
  }

  lemma ExecKeepsMark(c: Cache, op: Op, prune: bool, a: Address, until: int)
    requires MarkStands(c, a, until) && !MayUnmark(op, a) && (TimeOf(op).Some? ==> TimeOf(op).value < until)
    ensures MarkStands(Exec(c, op, prune).0, a, until)
  {
    hide Advance, Healthy, Offers, AddressOf;
    if op.OpNext? {
      AdvanceKeepsMark(c, op.ask, prune, |c.order|, a, until);
    }
  }

  function After(c: Cache, ops: seq<Op>, prune: bool): Cache
    decreases |ops|
  {
    if ops == [] then c else After(Exec(c, ops[0], prune).0, ops[1..], prune)
  }

  lemma ExecWellFormed(c: Cache, op: Op, prune: bool)
    requires WellFormed(c)
    ensures WellFormed(Exec(c, op, prune).0)
  {
    hide Advance, Healthy, Upsert, Delete, ReplaceSnapshot, Offers, AddressOf;
    match op
    case OpReplace(endpoints) => ReplaceWellFormed(c, endpoints);
    case OpUpsert(endpoint) => UpsertWellFormed(c, endpoint);
    case OpDelete(node, revision) => DeleteWellFormed(c, node, revision);
    case OpNext(ask) =>
      AdvanceKeeps(c, ask, prune, |c.order|, ask, set n | n in c.order && !Eligible(c, ask, n));
    case _ =>
  }

  lemma {:induction false} AfterWellFormed(c: Cache, ops: seq<Op>, prune: bool)
    requires WellFormed(c)
    ensures WellFormed(After(c, ops, prune))
    decreases |ops|
  {
    hide Exec, WellFormed;
    if ops != [] {
      ExecWellFormed(c, ops[0], prune);
      AfterWellFormed(Exec(c, ops[0], prune).0, ops[1..], prune);
    }
  }

  lemma {:induction false} MarkStandsAfter(c: Cache, ops: seq<Op>, prune: bool, a: Address, until: int)
    requires MarkStands(c, a, until)
    requires forall i :: 0 <= i < |ops| ==>
               !MayUnmark(ops[i], a) && (TimeOf(ops[i]).Some? ==> TimeOf(ops[i]).value < until)
    ensures MarkStands(After(c, ops, prune), a, until)
    decreases |ops|
  {
    hide Exec, MarkStands;
    if ops != [] {
      ExecKeepsMark(c, ops[0], prune, a, until);
      MarkStandsAfter(Exec(c, ops[0], prune).0, ops[1..], prune, a, until);
    }
  }

  /** Whatever is looked up and put in meanwhile, the marked address is not returned before the mark runs out. */
  lemma MarkOutlivesLookups(c: Cache, a: Address, now: int, ttl: int, ops: seq<Op>, prune: bool, ask: Ask)
    requires WellFormed(c) && a != "" && ttl > 0 && ask.now < now + ttl
    requires forall i :: 0 <= i < |ops| ==>
               !MayUnmark(ops[i], a) && (TimeOf(ops[i]).Some? ==> TimeOf(ops[i]).value < now + ttl)
    ensures var r := GetNext(After(MarkSuspect(c, a, now, ttl), ops, prune), ask, prune).1;
            r.Some? ==> Via(r.value, ask.capability) != a
  {
    hide Advance, After, Healthy;
    AfterWellFormed(MarkSuspect(c, a, now, ttl), ops, prune);
    MarkStandsAfter(MarkSuspect(c, a, now, ttl), ops, prune, a, now + ttl);
    GetNextAnswers(After(MarkSuspect(c, a, now, ttl), ops, prune), ask, prune);
  }

  // ---------------------------------------------------------------------------------------
  // Updates
  // ---------------------------------------------------------------------------------------

  /** An upsert is let in exactly if it is presentable and not outdated; a new node goes to the end of the order. */
  lemma UpsertLetsIn(c: Cache, e: Endpoint)
    ensures var c' := Upsert(c, e);
            if !Presentable(e) || Outdated(c, e.node, e.revision) then c' == c
            else
              && c'.endpoints == c.endpoints[e.node := e] && c'.next == c.next && c'.suspects == c.suspects
              && c'.order == c.order + (if e.node in c.endpoints then [] else [e.node])
              && c'.revisions == if e.revision > 0 then c.revisions[e.node := e.revision] else c.revisions
  {
    hide Healthy, Presentable;
    HealthyIsPresentable(e);
    assert c.order + [] == c.order;
  }

  lemma {:induction false} RemoveFirstKeepsOrder(s: seq<Node>, x: Node) returns (a: seq<Node>, b: seq<Node>)
    requires x in s
    ensures s == a + [x] + b && x !in a && RemoveFirst(s, x) == a + b
  {
    if s[0] == x {
      a, b := [], s[1..];
    } else {
      a, b := RemoveFirstKeepsOrder(s[1..], x);
      a := [s[0]] + a;
      assert s == [s[0]] + s[1..];
    }
  }

  /** A deletion that is not outdated takes the node out of the order and leaves the others in their places. */
  lemma DeleteTakesOut(c: Cache, node: Node, rev: int)
    requires WellFormed(c) && node in c.endpoints
    ensures var c' := Delete(c, node, rev);
            if Outdated(c, node, rev) then c' == c
            else
              && c'.endpoints == c.endpoints - {node}
              && (exists a, b :: c.order == a + [node] + b && c'.order == a + b)
              && (c'.order == [] ==> c'.next == 0) && (c'.order != [] ==> c'.next == c.next % |c'.order|)
              && c'.revisions == if rev > 0 then c.revisions[node := rev] else c.revisions
  {
    hide Healthy, RemoveFirst;
    HealthyHasAName(c.endpoints[node]);
    var a, b := RemoveFirstKeepsOrder(c.order, node);
    assert c.order == a + [node] + b;
  }

  /** Deleting a node that is not cached leaves a tombstone, which later changes are measured against. */
  lemma DeleteLeavesATombstone(c: Cache, node: Node, rev: int)
    requires node !in c.endpoints
    ensures Delete(c, node, rev) ==
            if node == "" || rev <= 0 || Outdated(c, node, rev) then c else c.(revisions := c.revisions[node := rev])
  {
  }

  /** A snapshot keeps a mark exactly if it has a presentable endpoint with that address. */
  lemma SnapshotKeepsMarks(c: Cache, endpoints: seq<Endpoint>, a: Address, t: int)
    ensures Suspect(ReplaceSnapshot(c, endpoints), a, t) <==>
            && Suspect(c, a, t)
            && exists i :: 0 <= i < |endpoints| && Presentable(endpoints[i])
                           && (endpoints[i].grpc == a || endpoints[i].tunnel == a)
  {
    hide Healthy, Presentable, Snapshot;
    forall e ensures Healthy(e) <==> Presentable(e) {
      HealthyIsPresentable(e);
    }
    assert a in Addresses(endpoints) <==>
           exists e :: e in endpoints && Healthy(e) && (e.grpc == a || e.tunnel == a);
    if e :| e in endpoints && Healthy(e) && (e.grpc == a || e.tunnel == a) {
      var i :| 0 <= i < |endpoints| && endpoints[i] == e;
      assert Presentable(endpoints[i]);
    }
  }

  /** The first place of a node in a snapshot. */
  ghost predicate FirstPlace(endpoints: seq<Endpoint>, k: int, node: Node) {
    && 0 <= k < |endpoints| && Healthy(endpoints[k]) && endpoints[k].node == node
    && forall j :: 0 <= j < k && endpoints[j].node == node ==> !Healthy(endpoints[j])
  }

  ghost predicate InPlaces(order: seq<Node>, endpoints: seq<Endpoint>, places: seq<int>, n: nat) {
    && |places| == |order| && (forall x, y :: 0 <= x < y < |places| ==> places[x] < places[y])
    && forall x :: 0 <= x < |places| ==> places[x] < n && FirstPlace(endpoints, places[x], order[x])
  }

  lemma {:induction false} SnapshotPlaces(endpoints: seq<Endpoint>, n: nat) returns (places: seq<int>)
    requires n <= |endpoints|
    ensures InPlaces(Snapshot(endpoints, n).order, endpoints, places, n)
  {
    hide Healthy;
    if n == 0 {
      places := [];
    } else {
      places := SnapshotPlaces(endpoints, n - 1);
      var c, e := Snapshot(endpoints, n - 1), endpoints[n - 1];
      if Healthy(e) && e.node !in c.endpoints {
        forall j | 0 <= j < n - 1 && endpoints[j].node == e.node ensures !Healthy(endpoints[j]) {
          if Healthy(endpoints[j]) {
            HealthyIsCached(endpoints, n - 1, j);
          }
        }
        places := places + [n - 1];
      }
    }
  }

  lemma {:induction false} HealthyIsCached(endpoints: seq<Endpoint>, n: nat, j: nat)
    requires j < n <= |endpoints| && Healthy(endpoints[j])
    ensures endpoints[j].node in Snapshot(endpoints, n).endpoints
  {
    hide Healthy;
    if j < n - 1 {
      HealthyIsCached(endpoints, n - 1, j);
    }
  }

  /** After a snapshot the cursor is at the start and the nodes are in the order in which they first appear. */
  lemma SnapshotOrder(c: Cache, endpoints: seq<Endpoint>)
    ensures ReplaceSnapshot(c, endpoints).next == 0
    ensures exists places :: InPlaces(ReplaceSnapshot(c, endpoints).order, endpoints, places, |endpoints|)
  {
    var places := SnapshotPlaces(endpoints, |endpoints|);
    CursorAtStart(endpoints, |endpoints|);
  }

  lemma {:induction false} CursorAtStart(endpoints: seq<Endpoint>, n: nat)
    requires n <= |endpoints|
    ensures Snapshot(endpoints, n).next == 0
  {
    if n > 0 {
      CursorAtStart(endpoints, n - 1);
    }
  }
}
