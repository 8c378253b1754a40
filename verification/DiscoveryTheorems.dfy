/** Convergence, round-robin fairness and the invisibility of pruning, for the proxy cache. */
module DiscoveryTheorems {
  import opened Sequences
  import opened Discovery

  // ---------------------------------------------------------------------------------------
  // Convergence: whatever the order of delivery, the newest change of a node decides
  // ---------------------------------------------------------------------------------------

  datatype Change = Put(endpoint: Endpoint) | Drop(dropped: Node, rev: int)

  function NodeOf(ch: Change): Node {
    if ch.Put? then ch.endpoint.node else ch.dropped
  }

  function RevOf(ch: Change): int {
    if ch.Put? then ch.endpoint.revision else ch.rev
  }

  predicate Proper(ch: Change) {
    NodeOf(ch) != "" && RevOf(ch) > 0 && (ch.Put? ==> Healthy(ch.endpoint))
  }

  function Apply(c: Cache, ch: Change): Cache {
    if ch.Put? then Upsert(c, ch.endpoint) else Delete(c, ch.dropped, ch.rev)
  }

  function ApplyAll(c: Cache, chs: seq<Change>): Cache {
    if chs == [] then c else Apply(ApplyAll(c, chs[..|chs| - 1]), chs[|chs| - 1])
  }

  function Cached(c: Cache, node: Node): Option<Endpoint> {
    if node in c.endpoints then Some(c.endpoints[node]) else None
  }

  function Outcome(ch: Change): Option<Endpoint> {
    if ch.Put? then Some(ch.endpoint) else None
  }

  ghost predicate AllProper(chs: seq<Change>) {
    forall i :: 0 <= i < |chs| ==> Proper(chs[i])
  }

  /** No two changes of a node have the same revision. */
  ghost predicate DistinctRevs(chs: seq<Change>) {
    forall i, j :: 0 <= i < j < |chs| && NodeOf(chs[i]) == NodeOf(chs[j]) ==> RevOf(chs[i]) != RevOf(chs[j])
  }

  ghost predicate Newest(chs: seq<Change>, node: Node, k: nat) {
    && k < |chs| && NodeOf(chs[k]) == node
    && forall j :: 0 <= j < |chs| && j != k && NodeOf(chs[j]) == node ==> RevOf(chs[j]) < RevOf(chs[k])
  }

  lemma ApplyOther(c: Cache, ch: Change, node: Node)
    requires NodeOf(ch) != node
    ensures Cached(Apply(c, ch), node) == Cached(c, node) && RevisionOf(Apply(c, ch), node) == RevisionOf(c, node)
  {
    hide Healthy, RemoveFirst;
  }

  lemma ApplyOwn(c: Cache, ch: Change)
    requires Proper(ch)
    ensures var c', node := Apply(c, ch), NodeOf(ch);
            if RevisionOf(c, node) > RevOf(ch)
            then Cached(c', node) == Cached(c, node) && RevisionOf(c', node) == RevisionOf(c, node)
            else Cached(c', node) == Outcome(ch) && RevisionOf(c', node) == RevOf(ch)
  {
    hide Healthy, RemoveFirst;
  }

  /** The newest change of a node decides, unless the cache was already ahead of it. */
  lemma {:induction false} NewestDecides(c: Cache, chs: seq<Change>, node: Node, k: nat)
    requires AllProper(chs) && Newest(chs, node, k)
    ensures var c' := ApplyAll(c, chs);
            if RevisionOf(c, node) > RevOf(chs[k])
            then Cached(c', node) == Cached(c, node) && RevisionOf(c', node) == RevisionOf(c, node)
            else Cached(c', node) == Outcome(chs[k]) && RevisionOf(c', node) == RevOf(chs[k])
    decreases |chs|
  {
    hide Apply, Cached, Outcome, Proper, RevisionOf;
    var n := |chs| - 1;
    var before, last := ApplyAll(c, chs[..n]), chs[n];
    assert Proper(last);
    if k == n {
      OlderStay(c, chs[..n], node, RevOf(last));
      ApplyOwn(before, last);
    } else {
      NewestDecides(c, chs[..n], node, k);
      if NodeOf(last) == node {
        ApplyOwn(before, last);
      } else {
        ApplyOther(before, last, node);
      }
    }
  }

  /** Changes older than `bound` keep a cache that is ahead as it is, and no cache gets to `bound` by them. */
  lemma {:induction false} OlderStay(c: Cache, chs: seq<Change>, node: Node, bound: int)
    requires AllProper(chs)
    requires forall j :: 0 <= j < |chs| && NodeOf(chs[j]) == node ==> RevOf(chs[j]) < bound
    ensures var c' := ApplyAll(c, chs);
            if RevisionOf(c, node) > bound
            then Cached(c', node) == Cached(c, node) && RevisionOf(c', node) == RevisionOf(c, node)
            else RevisionOf(c', node) <= bound
    decreases |chs|
  {
    hide Apply, Cached, Outcome, Proper, RevisionOf;
    if chs != [] {
      var n := |chs| - 1;
      OlderStay(c, chs[..n], node, bound);
      assert Proper(chs[n]);
      if NodeOf(chs[n]) == node {
        ApplyOwn(ApplyAll(c, chs[..n]), chs[n]);
      } else {
        ApplyOther(ApplyAll(c, chs[..n]), chs[n], node);
      }
    }
  }

  lemma {:induction false} UnmentionedStays(c: Cache, chs: seq<Change>, node: Node)
    requires forall j :: 0 <= j < |chs| ==> NodeOf(chs[j]) != node
    ensures Cached(ApplyAll(c, chs), node) == Cached(c, node)
    decreases |chs|
  {
    hide Apply, Cached;
    if chs != [] {
      UnmentionedStays(c, chs[..|chs| - 1], node);
      ApplyOther(ApplyAll(c, chs[..|chs| - 1]), chs[|chs| - 1], node);
    }
  }

  /** With distinct revisions a mentioned node has a newest change. */
  lemma {:induction false} NewestExists(chs: seq<Change>, node: Node, i: nat) returns (k: nat)
    requires DistinctRevs(chs) && i < |chs| && NodeOf(chs[i]) == node
    ensures Newest(chs, node, k)
    decreases |chs|
  {
    var n := |chs| - 1;
    var mentioned := exists j :: 0 <= j < n && NodeOf(chs[j]) == node;
    if mentioned {
      var j :| 0 <= j < n && NodeOf(chs[j]) == node;
      k := NewestExists(chs[..n], node, j);
      if NodeOf(chs[n]) == node && RevOf(chs[n]) > RevOf(chs[k]) {
        k := n;
      }
    } else {
      k := n;
    }
  }

  lemma RevsStayDistinct(a: seq<Change>, b: seq<Change>)
    requires DistinctRevs(a) && multiset(a) == multiset(b)
    ensures DistinctRevs(b)
  {
    DistinctPermutation(a, b);
    forall i, j | 0 <= i < j < |b| && NodeOf(b[i]) == NodeOf(b[j]) ensures RevOf(b[i]) != RevOf(b[j]) {
      assert b[i] in multiset(a) && b[j] in multiset(a);
      assert b[i] != b[j];
    }
  }

  /** Every order of delivery of the same changes leaves every node in the same state. */
  lemma DeliveryOrderIsIrrelevant(c: Cache, a: seq<Change>, b: seq<Change>, node: Node)
    requires AllProper(a) && DistinctRevs(a) && multiset(a) == multiset(b)
    ensures Cached(ApplyAll(c, a), node) == Cached(ApplyAll(c, b), node)
  {
    hide Apply, ApplyAll, Cached, Proper;
    RevsStayDistinct(a, b);
    assert forall ch :: ch in a <==> ch in multiset(a);
    assert forall ch :: ch in b <==> ch in multiset(b);
    forall i | 0 <= i < |b| ensures Proper(b[i]) {
      assert b[i] in a;
    }
    if i :| 0 <= i < |a| && NodeOf(a[i]) == node {
      var k := NewestExists(a, node, i);
      assert a[k] in b;
      var l :| 0 <= l < |b| && b[l] == a[k];
      forall j | 0 <= j < |b| && j != l && NodeOf(b[j]) == node ensures RevOf(b[j]) < RevOf(b[l]) {
        assert b[j] in a;
        assert RevOf(b[j]) != RevOf(b[l]);
      }
      assert Newest(b, node, l);
      NewestDecides(c, a, node, k);
      NewestDecides(c, b, node, l);
    } else {
      forall j | 0 <= j < |b| ensures NodeOf(b[j]) != node {
        assert b[j] in a;
      }
      UnmentionedStays(c, a, node);
      UnmentionedStays(c, b, node);
    }
  }

  // ---------------------------------------------------------------------------------------
  // The round robin.  `bad` are the cached nodes that may not be returned
  // ---------------------------------------------------------------------------------------

  /** The returnable nodes under the `m` cursor positions from `n` on. */
  function Walk(order: seq<Node>, bad: set<Node>, n: nat, m: nat): seq<Node>
    requires order != []
    decreases m
  {
    if m == 0 then []
    else (if order[n % |order|] in bad then [] else [order[n % |order|]]) + Walk(order, bad, n + 1, m - 1)
  }

  /** `bad` is exactly what `ask` finds unreturnable. */
  ghost predicate Rejects(c: Cache, ask: Ask, bad: set<Node>) {
    forall n :: n in c.order ==> (n in bad <==> !Eligible(c, ask, n))
  }

  /** A lookup's pruning changes nothing for a lookup at the same time or later. */
  lemma VisitKeepsEligible(c: Cache, ask: Ask, prune: bool, later: Ask, bad: set<Node>)
    requires c.order != [] && ask.now <= later.now && Rejects(c, later, bad)
    ensures Rejects(Visit(c, ask, prune), later, bad)
  {
    hide Offers, AddressOf;
  }

  lemma {:induction false} AdvanceKeeps(c: Cache, ask: Ask, prune: bool, rounds: nat, later: Ask, bad: set<Node>)
    requires WellFormed(c) && ask.now <= later.now && Rejects(c, later, bad)
    ensures var c' := Advance(c, ask, prune, rounds).0;
            c'.order == c.order && c'.endpoints == c.endpoints && WellFormed(c') && Rejects(c', later, bad)
    decreases rounds
  {
    hide Eligible;
    if rounds > 0 && c.order != [] {
      VisitKeepsEligible(c, ask, prune, later, bad);
      VisitWellFormed(c, ask, prune);
      AdvanceKeeps(Visit(c, ask, prune), ask, prune, rounds - 1, later, bad);
    }
  }

  /** The next `m` positions of a cursor at `next` go round an order of length `l` without a jump. */
  predicate Smooth(next: nat, m: nat, l: nat)
    requires l > 0
  {
    next + m <= WORD || WORD % l == 0
  }

  lemma {:induction false} WalkPeriodic(order: seq<Node>, bad: set<Node>, n: nat, n': nat, m: nat)
    requires order != [] && n % |order| == n' % |order|
    ensures Walk(order, bad, n, m) == Walk(order, bad, n', m)
    decreases m
  {
    if m > 0 {
      ModStep(n, |order|);
      ModStep(n', |order|);
      WalkPeriodic(order, bad, n + 1, n' + 1, m - 1);
    }
  }

  lemma ModAdd(k: nat, n: nat, l: nat)
    requires l > 0 && k % l == 0
    ensures (k + n) % l == n % l
  {
    var q, p := k / l, n / l;
    assert k == l * q && n == l * p + n % l;
    assert l * (q + p) == l * q + l * p;
    ModUnique(k + n, l, q + p, n % l);
  }

  /** A cursor that wraps at a multiple of the length meets the same nodes. */
  lemma WalkWraps(order: seq<Node>, bad: set<Node>, n: nat, m: nat)
    requires order != [] && WORD % |order| == 0
    ensures Walk(order, bad, WORD + n, m) == Walk(order, bad, n, m)
  {
    hide Walk;
    ModAdd(WORD, n, |order|);
    WalkPeriodic(order, bad, WORD + n, n, m);
  }

  /** One position on, with the cursor wrapped, the walk is the same from any distance `d`. */
  lemma WalkOn(order: seq<Node>, bad: set<Node>, next: nat, m: nat, d: nat)
    requires order != [] && next < WORD && m > 0 && Smooth(next, m, |order|) && d < m
    ensures Smooth((next + 1) % WORD, m - 1, |order|)
    ensures Walk(order, bad, (next + 1) % WORD + d, m - 1 - d) == Walk(order, bad, next + 1 + d, m - 1 - d)
    ensures ((next + 1) % WORD + d) % WORD == (next + 1 + d) % WORD
  {
    hide Walk;
    if next + 1 == WORD {
      ModAdd(WORD, d, WORD);
      if m > 1 {
        WalkWraps(order, bad, d, m - 1 - d);
      } else {
        WalkNothing(order, bad, WORD + d, d);
      }
    }
  }

  lemma WalkNothing(order: seq<Node>, bad: set<Node>, n: nat, n': nat)
    requires order != []
    ensures Walk(order, bad, n, 0) == Walk(order, bad, n', 0)
  {
  }

  /** The cursor stops behind the first returnable node that is within `m` positions, `d` of them on. */
  lemma {:induction false} AdvanceFindsFirst(c: Cache, ask: Ask, prune: bool, rounds: nat, bad: set<Node>,
                                             m: nat) returns (d: nat)
    requires WellFormed(c) && c.order != [] && Rejects(c, ask, bad)
    requires m <= rounds && Smooth(c.next, m, |c.order|) && Walk(c.order, bad, c.next, m) != []
    ensures 1 <= d <= m
    ensures var (c', r) := Advance(c, ask, prune, rounds);
            && r.Some? && c'.next == (c.next + d) % WORD
            && Walk(c.order, bad, c.next, m) == [r.value.node] + Walk(c.order, bad, c.next + d, m - d)
    decreases rounds
  {
    hide Eligible, WellFormed, Visit, Rejects, Smooth, Walk;
    var node := c.order[c.next % |c.order|];
    WalkStep(c.order, bad, c.next, m);
    VisitWellFormed(c, ask, prune);
    CursorInWord(c);
    UnderCursor(c, ask, bad);
    if node in bad {
      VisitKeepsEligible(c, ask, prune, ask, bad);
      WalkOn(c.order, bad, c.next, m, 0);
      var d' := AdvanceFindsFirst(Visit(c, ask, prune), ask, prune, rounds - 1, bad, m - 1);
      WalkOn(c.order, bad, c.next, m, d');
      d := d' + 1;
    } else {
      d := 1;
    }
  }

  lemma WalkStep(order: seq<Node>, bad: set<Node>, n: nat, m: nat)
    requires order != []
    ensures m == 0 ==> Walk(order, bad, n, m) == []
    ensures m > 0 && order[n % |order|] in bad ==> Walk(order, bad, n, m) == Walk(order, bad, n + 1, m - 1)
    ensures m > 0 && order[n % |order|] !in bad ==>
              Walk(order, bad, n, m) == [order[n % |order|]] + Walk(order, bad, n + 1, m - 1)
  {
  }

  lemma UnderCursor(c: Cache, ask: Ask, bad: set<Node>)
    requires WellFormed(c) && c.order != [] && Rejects(c, ask, bad)
    ensures var node := c.order[c.next % |c.order|];
            && (node in bad <==> !Eligible(c, ask, node))
            && (node !in bad ==> node in c.endpoints && c.endpoints[node].node == node)
  {
    hide Offers, AddressOf, Healthy;
  }

  lemma DivisorInWord(l: nat)
    requires l > 0 && WORD % l == 0
    ensures l <= WORD
  {
    if l > WORD {
      ModUnique(WORD, l, 0, WORD);
    }
  }

  lemma CursorInWord(c: Cache)
    requires WellFormed(c)
    ensures c.next < WORD
  {
  }

  lemma EligibleCached(c: Cache, ask: Ask, node: Node)
    requires WellFormed(c)
    ensures Eligible(c, ask, node) ==> node in c.endpoints && c.endpoints[node].node == node
  {
  }

  /** Whatever GetNext returns was returnable. */
  lemma {:induction false} GetNextIsSound(c: Cache, ask: Ask, prune: bool, rounds: nat)
    requires WellFormed(c)
    ensures var r := Advance(c, ask, prune, rounds).1;
            r.Some? ==>
              r.value.node in c.endpoints && c.endpoints[r.value.node] == r.value && Eligible(c, ask, r.value.node)
    decreases rounds
  {
    if rounds > 0 && c.order != [] {
      var node := c.order[c.next % |c.order|];
      if !Eligible(c, ask, node) {
        var c' := Visit(c, ask, prune);
        VisitWellFormed(c, ask, prune);
        GetNextIsSound(c', ask, prune, rounds - 1);
        SoundBack(c, ask, prune, Advance(c', ask, prune, rounds - 1).1);
      }
    }
  }

  lemma SoundBack(c: Cache, ask: Ask, prune: bool, r: Option<Endpoint>)
    requires c.order != []
    ensures r.Some? && Eligible(Visit(c, ask, prune), ask, r.value.node) ==> Eligible(c, ask, r.value.node)
  {
    hide Offers, AddressOf;
  }

  // --- the positions from the cursor on are a rotation of the order ---

  lemma ModStep(n: nat, l: nat)
    requires l > 0
    ensures (n + 1) % l == if n % l == l - 1 then 0 else n % l + 1
  {
    var q, r := n / l, n % l;
    assert n == l * q + r;
    if r == l - 1 {
      assert n + 1 == l * (q + 1);
      ModUnique(n + 1, l, q + 1, 0);
    } else {
      ModUnique(n + 1, l, q, r + 1);
    }
  }

  lemma ModUnique(n: nat, l: nat, q: nat, r: nat)
    requires l > 0 && n == l * q + r && r < l
    ensures n % l == r
  {
    var q' := n / l;
    assert l * (q - q') == l * q - l * q' == n % l - r;
    NoSmallMultiple(l, q - q');
  }

  lemma NoSmallMultiple(l: int, k: int)
    requires l > 0 && -l < l * k < l
    ensures k == 0
  {
    assert k >= 1 ==> l * (k - 1) >= 0;
    assert k <= -1 ==> l * (-k - 1) >= 0;
  }

  lemma {:induction false} WalkStraight(order: seq<Node>, bad: set<Node>, n: nat, m: nat)
    requires order != [] && n % |order| + m <= |order|
    ensures Walk(order, bad, n, m) == Without(order[n % |order|..n % |order| + m], bad)
    decreases m
  {
    var r := n % |order|;
    if m > 0 {
      ModStep(n, |order|);
      if m == 1 {
        assert order[r..r + 1] == [order[r]];
        assert Walk(order, bad, n + 1, 0) == [];
      } else {
        WalkStraight(order, bad, n + 1, m - 1);
        assert order[r..r + m] == [order[r]] + order[r + 1..r + m];
      }
    }
  }

  lemma {:induction false} WalkSplit(order: seq<Node>, bad: set<Node>, n: nat, a: nat, b: nat)
    requires order != []
    ensures Walk(order, bad, n, a + b) == Walk(order, bad, n, a) + Walk(order, bad, n + a, b)
    decreases a
  {
    if a > 0 {
      WalkSplit(order, bad, n + 1, a - 1, b);
    }
  }

  lemma WrapAround(n: nat, l: nat)
    requires l > 0
    ensures (n + (l - n % l)) % l == 0
  {
    assert n + (l - n % l) == l * (n / l + 1);
    ModUnique(n + (l - n % l), l, n / l + 1, 0);
  }

  /** A full turn from position `n` on is the order, turned, without the bad nodes. */
  lemma WalkIsRotation(order: seq<Node>, bad: set<Node>, n: nat)
    requires order != []
    ensures var r := n % |order|; Walk(order, bad, n, |order|) == Without(order[r..] + order[..r], bad)
  {
    hide Walk, Without;
    var l, r := |order|, n % |order|;
    WalkSplit(order, bad, n, l - r, r);
    WalkStraight(order, bad, n, l - r);
    WrapAround(n, l);
    WalkStraight(order, bad, n + (l - r), r);
    assert order[r..r + (l - r)] == order[r..] && order[0..0 + r] == order[..r];
    WithoutConcat(order[r..], order[..r], bad);
  }

  lemma TurnedMembers(order: seq<Node>, r: nat)
    requires Distinct(order) && r <= |order|
    ensures var turned := order[r..] + order[..r]; Distinct(turned) && forall x :: x in turned <==> x in order
  {
    var turned := order[r..] + order[..r];
    forall x ensures x in turned <==> x in order {
      assert order == order[..r] + order[r..];
    }
  }

  /** A full turn meets every returnable node once. */
  lemma FullTurn(order: seq<Node>, bad: set<Node>, n: nat)
    requires order != [] && Distinct(order)
    ensures var w := Walk(order, bad, n, |order|);
            Distinct(w) && forall x :: x in w <==> x in order && x !in bad
  {
    hide Walk, Without, Distinct;
    var r := n % |order|;
    WalkIsRotation(order, bad, n);
    TurnedMembers(order, r);
    WithoutMembers(order[r..] + order[..r], bad);
  }

  /** While the cursor goes round smoothly, GetNext fails only if no node may be returned. */
  lemma GetNextIsComplete(c: Cache, ask: Ask, prune: bool)
    requires WellFormed(c) && (c.order != [] ==> Smooth(c.next, |c.order|, |c.order|))
    ensures GetNext(c, ask, prune).1.None? <==> forall n :: n in c.endpoints ==> !Eligible(c, ask, n)
  {
    hide Eligible;
    GetNextIsSound(c, ask, prune, |c.order|);
    if n :| n in c.endpoints && Eligible(c, ask, n) {
      var bad := set x | x in c.order && !Eligible(c, ask, x);
      FullTurn(c.order, bad, c.next);
      assert n in Walk(c.order, bad, c.next, |c.order|);
      var _ := AdvanceFindsFirst(c, ask, prune, |c.order|, bad, |c.order|);
    }
  }

  /** The nodes that successive calls return. */
  function Calls(c: Cache, asks: seq<Ask>, prune: bool): seq<Option<Node>>
    decreases |asks|
  {
    if asks == [] then []
    else
      var (c', r) := GetNext(c, asks[0], prune);
      [if r.Some? then Some(r.value.node) else None] + Calls(c', asks[1..], prune)
  }

  ghost predicate SameAsks(c: Cache, asks: seq<Ask>, bad: set<Node>) {
    && (forall i, j :: 0 <= i < j < |asks| ==> asks[i].now <= asks[j].now)
    && (forall i :: 0 <= i < |asks| ==> Rejects(c, asks[i], bad))
  }

  function Somes(s: seq<Node>): seq<Option<Node>> {
    if s == [] then [] else [Some(s[0])] + Somes(s[1..])
  }

  lemma {:induction false} CallsWalk(c: Cache, asks: seq<Ask>, prune: bool, bad: set<Node>, m: nat)
    requires WellFormed(c) && c.order != [] && SameAsks(c, asks, bad)
    requires m <= |c.order| && Smooth(c.next, m, |c.order|) && |asks| == |Walk(c.order, bad, c.next, m)|
    ensures Calls(c, asks, prune) == Somes(Walk(c.order, bad, c.next, m))
    decreases |asks|
  {
    hide Rejects, WellFormed, Advance;
    if asks != [] {
      var d := AdvanceFindsFirst(c, asks[0], prune, |c.order|, bad, m);
      var (c', r) := GetNext(c, asks[0], prune);
      forall i | 0 <= i < |asks| - 1 ensures Rejects(c', asks[1..][i], bad) {
        AdvanceKeeps(c, asks[0], prune, |c.order|, asks[i + 1], bad);
      }
      AdvanceKeeps(c, asks[0], prune, |c.order|, asks[0], bad);
      var rest := Walk(c.order, bad, c.next + d, m - d);
      assert Walk(c.order, bad, c.next, m)[1..] == rest;
      CursorInWord(c);
      if c.next + d < WORD {
        CallsWalk(c', asks[1..], prune, bad, m - d);
      } else if rest == [] {
        assert asks[1..] == [];
      } else {
        WalkWraps(c.order, bad, c.next + d - WORD, m - d);
        DivisorInWord(|c.order|);
        assert (c.next + d) % WORD == c.next + d - WORD;
        CallsWalk(c', asks[1..], prune, bad, m - d);
      }
    }
  }

  /** With k returnable nodes, any k successive calls return each of them exactly once. */
  lemma GetNextIsFair(c: Cache, asks: seq<Ask>, prune: bool, bad: set<Node>)
    requires WellFormed(c) && c.order != [] && SameAsks(c, asks, bad) && Smooth(c.next, |c.order|, |c.order|)
    requires |asks| == |set n | n in c.endpoints && n !in bad|
    ensures exists nodes :: Calls(c, asks, prune) == Somes(nodes) && Distinct(nodes) && |nodes| == |asks|
                            && forall n :: n in nodes <==> n in c.endpoints && n !in bad
  {
    var walk := Walk(c.order, bad, c.next, |c.order|);
    FullTurn(c.order, bad, c.next);
    DistinctCount(walk, set n | n in c.endpoints && n !in bad);
    CallsWalk(c, asks, prune, bad, |c.order|);
  }

  function Plain(node: Node, capability: Capability): (e: Endpoint)
    requires node != ""
    ensures Healthy(e)
  {
    assert capability in map[capability := true];
    Endpoint(node, "h:1", "", "", map[capability := true], "healthy", 1)
  }

  /** A cache in which only the node at place `x` offers "invoke". */
  ghost function Lonely(order: seq<Node>, next: nat, x: nat): Cache
    requires x < |order| && "" !in order
  {
    Cache(map n | n in order :: Plain(n, if n == order[x] then "invoke" else "other"), order, next, map[], map[])
  }

  lemma LonelyFacts(order: seq<Node>, next: nat, x: nat, ask: Ask)
    requires x < |order| && "" !in order && Distinct(order) && next < WORD
    requires ask.capability == "invoke" && ask.excluded == {} && forall a :: ask.routable(a)
    ensures WellFormed(Lonely(order, next, x))
    ensures forall n :: n in order ==> (Eligible(Lonely(order, next, x), ask, n) <==> n == order[x])
  {
    hide Healthy;
  }

  /** The place of a node that a jumping cursor does not come by: the first after the jump or the last before it. */
  function Missed(next: nat, l: nat): nat
    requires l > 0 && next + l > WORD
  {
    if WORD % l >= next + l - WORD then WORD % l else next + l - WORD
  }

  lemma NeverVisited(next: nat, l: nat, i: nat)
    requires 0 < l <= WORD && next < WORD && !Smooth(next, l, l) && i < l
    ensures Missed(next, l) < l && (next + i) % WORD % l != Missed(next, l)
  {
    if next + i < WORD {
      SmallMod(next + i, WORD);
      BeforeTheJump(next, l, i);
    } else {
      OnceAround(next + i, WORD);
      SmallMod(next + i - WORD, l);
    }
  }

  lemma SmallMod(n: nat, l: nat)
    requires n < l
    ensures n % l == n
  {
    ModUnique(n, l, 0, n);
  }

  lemma OnceAround(n: nat, l: nat)
    requires l <= n < 2 * l
    ensures n % l == n - l
  {
    ModUnique(n, l, 1, n - l);
  }

  lemma BeforeTheJump(next: nat, l: nat, i: nat)
    requires 0 < l && next < WORD && next + l > WORD && WORD % l != 0 && next + i < WORD
    ensures (next + i) % l != Missed(next, l)
  {
    var x, w := Missed(next, l), WORD % l;
    if (next + i) % l == x {
      var q, p := WORD / l, (next + i) / l;
      assert WORD == l * q + w && next + i == l * p + x;
      assert l * (q - p) == l * q - l * p;
      assert 1 <= l * (q - p) < l;
      NoSmallMultiple(l, q - p);
    }
  }

  /** The node under the cursor `i` rounds on. */
  function Under(order: seq<Node>, next: nat, i: nat): Node
    requires order != []
  {
    order[(next + i) % WORD % |order|]
  }

  lemma UnderNext(order: seq<Node>, next: nat, i: nat)
    requires order != [] && next < WORD
    ensures Under(order, (next + 1) % WORD, i) == Under(order, next, i + 1)
    ensures Under(order, next, 0) == order[next % |order|]
  {
    SmallMod(next, WORD);
    if next + 1 == WORD {
      ModAdd(WORD, i, WORD);
    } else {
      SmallMod(next + 1, WORD);
    }
  }

  lemma VisitUnsuspecting(c: Cache, ask: Ask)
    requires c.order != [] && c.suspects == map[]
    ensures Visit(c, ask, true) == c.(next := (c.next + 1) % WORD)
    ensures forall n :: Eligible(Visit(c, ask, true), ask, n) <==> Eligible(c, ask, n)
  {
    hide Offers, AddressOf;
  }

  lemma {:induction false} AdvanceFails(c: Cache, ask: Ask, rounds: nat)
    requires c.order != [] && c.suspects == map[] && c.next < WORD
    requires forall i :: 0 <= i < rounds ==> !Eligible(c, ask, Under(c.order, c.next, i))
    ensures Advance(c, ask, true, rounds).1.None?
    decreases rounds
  {
    hide Eligible, Visit, Under;
    if rounds > 0 {
      VisitUnsuspecting(c, ask);
      UnderNext(c.order, c.next, 0);
      assert !Eligible(c, ask, Under(c.order, c.next, 0));
      var c' := Visit(c, ask, true);
      forall i | 0 <= i < rounds - 1 ensures !Eligible(c', ask, Under(c'.order, c'.next, i)) {
        UnderNext(c.order, c.next, i);
      }
      AdvanceFails(c', ask, rounds - 1);
    }
  }

  /**
   A cursor that jumps within the next round can pass over a returnable node: with this order
   and cursor GetNext is complete for every cache exactly if the cursor goes round smoothly.
   */
  lemma JumpingCursorMissesANode(order: seq<Node>, next: nat)
    requires order != [] && Distinct(order) && "" !in order && |order| <= WORD && next < WORD
    requires !Smooth(next, |order|, |order|)
    ensures exists c, ask, n :: WellFormed(c) && c.order == order && c.next == next
                                && GetNext(c, ask, true).1.None? && n in c.endpoints && Eligible(c, ask, n)
  {
    hide WellFormed, Eligible, Missed, Advance;
    NeverVisited(next, |order|, 0);
    var x, ask := Missed(next, |order|), Ask("invoke", {}, 0, _ => true);
    var c := Lonely(order, next, x);
    LonelyFacts(order, next, x, ask);
    forall i | 0 <= i < |order| ensures !Eligible(c, ask, Under(order, next, i)) {
      NeverVisited(next, |order|, i);
      var y := (next + i) % WORD % |order|;
      assert order[y] in order && order[y] != order[x];
    }
    AdvanceFails(c, ask, |order|);
    assert order[x] in c.endpoints && Eligible(c, ask, order[x]);
  }

  // ---------------------------------------------------------------------------------------
  // Pruning expired suspects on lookup is invisible while the clock does not go back
  // ---------------------------------------------------------------------------------------

  datatype Op =
    | OpReplace(endpoints: seq<Endpoint>)
    | OpUpsert(endpoint: Endpoint)
    | OpDelete(node: Node, revision: int)
    | OpNext(ask: Ask)
    | OpByNode(node: Node, capability: Capability, now: int, routable: Address -> bool)
    | OpMark(address: Address, now: int, ttl: int)
    | OpCheck(address: Address, now: int)

  datatype Reply = Done | Found(endpoint: Option<Endpoint>) | IsSuspect(suspect: bool)

  /** The time an operation reads, if it does. */
  function TimeOf(op: Op): Option<int> {
    match op
    case OpNext(ask) => Some(ask.now)
    case OpByNode(_, _, now, _) => Some(now)
    case OpMark(_, now, _) => Some(now)
    case OpCheck(_, now) => Some(now)
    case _ => None
  }

  function Exec(c: Cache, op: Op, prune: bool): (Cache, Reply) {
    match op
    case OpReplace(endpoints) => (ReplaceSnapshot(c, endpoints), Done)
    case OpUpsert(endpoint) => (Upsert(c, endpoint), Done)
    case OpDelete(node, revision) => (Delete(c, node, revision), Done)
    case OpNext(ask) => var (c', r) := GetNext(c, ask, prune); (c', Found(r))
    case OpByNode(node, capability, now, routable) =>
      var (c', r) := GetByNode(c, node, capability, now, routable, prune); (c', Found(r))
    case OpMark(address, now, ttl) => (MarkSuspect(c, address, now, ttl), Done)
    case OpCheck(address, now) =>
      if address == "" then (c, IsSuspect(false))
      else (CheckSuspect(c, address, now, prune), IsSuspect(Suspect(c, address, now)))
  }

  function Replies(c: Cache, ops: seq<Op>, prune: bool): seq<Reply>
    decreases |ops|
  {
    if ops == [] then []
    else var (c', r) := Exec(c, ops[0], prune); [r] + Replies(c', ops[1..], prune)
  }

  /** Equal but for suspect entries that have expired at `now`. */
  ghost predicate Alike(c: Cache, d: Cache, now: int) {
    && c.endpoints == d.endpoints && c.order == d.order && c.next == d.next && c.revisions == d.revisions
    && forall a :: (a in c.suspects && now < c.suspects[a]) || (a in d.suspects && now < d.suspects[a]) ==>
                     a in c.suspects && a in d.suspects && c.suspects[a] == d.suspects[a]
  }

  lemma AlikeLater(c: Cache, d: Cache, now: int, later: int)
    requires Alike(c, d, now) && now <= later
    ensures Alike(c, d, later) && forall a :: Suspect(c, a, later) <==> Suspect(d, a, later)
  {
  }

  lemma AlikeEligible(c: Cache, d: Cache, ask: Ask, node: Node)
    requires Alike(c, d, ask.now)
    ensures Eligible(c, ask, node) <==> Eligible(d, ask, node)
  {
    AlikeLater(c, d, ask.now, ask.now);
    hide Suspect, Alike;
    assert c.endpoints == d.endpoints by {
      AlikeParts(c, d, ask.now);
    }
  }

  lemma AlikeParts(c: Cache, d: Cache, now: int)
    requires Alike(c, d, now)
    ensures c.endpoints == d.endpoints && c.order == d.order && c.next == d.next && c.revisions == d.revisions
  {
  }

  lemma AlikeVisit(c: Cache, d: Cache, ask: Ask)
    requires Alike(c, d, ask.now) && c.order != []
    ensures Alike(Visit(c, ask, true), Visit(d, ask, false), ask.now)
  {
    hide Offers, AddressOf;
  }

  lemma {:induction false} AlikeAdvance(c: Cache, d: Cache, ask: Ask, rounds: nat)
    requires Alike(c, d, ask.now)
    ensures var (c', r), (d', r') := Advance(c, ask, true, rounds), Advance(d, ask, false, rounds);
            Alike(c', d', ask.now) && r == r'
    decreases rounds
  {
    hide Eligible, Visit, Alike;
    AlikeParts(c, d, ask.now);
    if rounds > 0 && c.order != [] {
      AlikeEligible(c, d, ask, c.order[c.next % |c.order|]);
      AlikeVisit(c, d, ask);
      EligibleHere(c, ask, c.order[c.next % |c.order|]);
      AlikeAdvance(Visit(c, ask, true), Visit(d, ask, false), ask, rounds - 1);
    }
  }

  lemma EligibleHere(c: Cache, ask: Ask, node: Node)
    ensures Eligible(c, ask, node) ==> node in c.endpoints
  {
  }

  lemma AlikeReplace(c: Cache, d: Cache, endpoints: seq<Endpoint>, now: int)
    requires Alike(c, d, now)
    ensures Alike(ReplaceSnapshot(c, endpoints), ReplaceSnapshot(d, endpoints), now)
  {
    hide Addresses, Snapshot;
  }

  lemma AlikeUpdates(c: Cache, d: Cache, now: int, endpoint: Endpoint, node: Node, revision: int)
    requires Alike(c, d, now)
    ensures Alike(Upsert(c, endpoint), Upsert(d, endpoint), now)
    ensures Alike(Delete(c, node, revision), Delete(d, node, revision), now)
  {
    hide Healthy, RemoveFirst;
  }

  lemma AlikeByNode(c: Cache, d: Cache, now: int, node: Node, capability: Capability, routable: Address -> bool)
    requires Alike(c, d, now)
    ensures var (c', r), (d', r') := GetByNode(c, node, capability, now, routable, true),
                                     GetByNode(d, node, capability, now, routable, false);
            Alike(c', d', now) && r == r'
  {
    hide AddressOf, Offers;
    AlikeLater(c, d, now, now);
  }

  lemma AlikeExec(c: Cache, d: Cache, op: Op, now: int)
    requires Alike(c, d, now) && (TimeOf(op).Some? ==> TimeOf(op).value == now)
    ensures Alike(Exec(c, op, true).0, Exec(d, op, false).0, now) && Exec(c, op, true).1 == Exec(d, op, false).1
  {
    hide Advance, Upsert, Delete, GetByNode;
    match op
    case OpReplace(endpoints) => AlikeReplace(c, d, endpoints, now);
    case OpUpsert(endpoint) => AlikeUpdates(c, d, now, endpoint, "", 0);
    case OpDelete(node, revision) => AlikeUpdates(c, d, now, Endpoint("", "", "", "", map[], "", 0), node, revision);
    case OpNext(ask) => AlikeAdvance(c, d, ask, |c.order|);
    case OpByNode(node, capability, _, routable) => AlikeByNode(c, d, now, node, capability, routable);
    case _ => AlikeLater(c, d, now, now);
  }

  /** The times the operations read never go back, and start at `now` or later. */
  ghost predicate ClockRuns(ops: seq<Op>, now: int)
    decreases |ops|
  {
    ops == []
    || (var t := TimeOf(ops[0]);
        (t.Some? ==> now <= t.value) && ClockRuns(ops[1..], if t.Some? then t.value else now))
  }

  /** No sequence of operations can tell the pruning cache from one that never prunes on lookup. */
  lemma {:induction false} PruningIsInvisible(c: Cache, d: Cache, ops: seq<Op>, now: int)
    requires Alike(c, d, now) && ClockRuns(ops, now)
    ensures Replies(c, ops, true) == Replies(d, ops, false)
    decreases |ops|
  {
    hide Alike, Exec;
    if ops != [] {
      var t := TimeOf(ops[0]);
      var now' := if t.Some? then t.value else now;
      AlikeLater(c, d, now, now');
      AlikeExec(c, d, ops[0], now');
      PruningIsInvisible(Exec(c, ops[0], true).0, Exec(d, ops[0], false).0, ops[1..], now');
    }
  }
}
