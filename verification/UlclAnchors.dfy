/** internal/context/ue_defaultPath.go: the anchor UPFs of an uplink-classifier topology, found
    by a breadth-first walk over named nodes. */
module UlclAnchors {
  import opened Topology
  import opened Wrappers

  predicate Adjacent(topology: seq<UPLink>, n: string, m: string) {
    UPLink(n, m) in topology || UPLink(m, n) in topology
  }

  function Names(topology: seq<UPLink>): set<string> {
    (set i | 0 <= i < |topology| :: topology[i].a) + set i | 0 <= i < |topology| :: topology[i].b
  }

  ghost predicate Distinct(s: seq<string>) {
    forall i, j :: 0 <= i < j < |s| ==> s[i] != s[j]
  }

  /** A path of neighbours from `source` to `n`. */
  ghost predicate Path(topology: seq<UPLink>, p: seq<string>, source: string, n: string) {
    p != [] && p[0] == source && p[|p| - 1] == n && forall i :: 0 <= i < |p| - 1 ==> Adjacent(topology, p[i], p[i + 1])
  }

  /** A breadth-first order: `order` starts at the source, and every later node has a neighbour
      before it. */
  ghost predicate WalkOrder(topology: seq<UPLink>, order: seq<string>, source: string) {
    && Distinct(order) && order != [] && order[0] == source
    && forall i :: 1 <= i < |order| ==> HasEarlier(topology, order, i)
  }

  ghost predicate HasEarlier(topology: seq<UPLink>, order: seq<string>, i: nat)
    requires i < |order|
  {
    exists j :: 0 <= j < i && Adjacent(topology, order[j], order[i])
  }

  /** All neighbours of the k-th node were taken out of the queue before it. */
  ghost predicate LeafAt(topology: seq<UPLink>, order: seq<string>, k: nat)
    requires k < |order|
  {
    forall m :: Adjacent(topology, order[k], m) ==> m in order[..k]
  }

  // Every node of the order can be reached.
  lemma {:induction false} OrderReached(topology: seq<UPLink>, order: seq<string>, source: string, k: nat)
    returns (p: seq<string>)
    requires WalkOrder(topology, order, source) && k < |order|
    ensures Path(topology, p, source, order[k])
  {
    if k == 0 {
      p := [source];
    } else {
      assert HasEarlier(topology, order, k);
      var j :| 0 <= j < k && Adjacent(topology, order[j], order[k]);
      var front := OrderReached(topology, order, source, j);
      p := front + [order[k]];
    }
  }

  // A path cannot leave a set that is closed under neighbours.
  lemma {:induction false} PathStays(topology: seq<UPLink>, p: seq<string>, source: string, n: string,
                                     closed: set<string>)
    requires Path(topology, p, source, n) && source in closed
    requires forall a, b :: a in closed && Adjacent(topology, a, b) ==> b in closed
    ensures n in closed
    decreases |p|
  {
    if |p| > 1 { PathStays(topology, p[1..], p[1], n, closed); }
  }

  /** Two leaves are never neighbours: each would have to be taken out before the other. */
  lemma LeavesNotAdjacent(topology: seq<UPLink>, order: seq<string>, i: nat, j: nat)
    requires Distinct(order) && i < |order| && j < |order|
    requires LeafAt(topology, order, i) && LeafAt(topology, order, j)
    ensures !Adjacent(topology, order[i], order[j])
  {
    var n, m, beforeN, beforeM := order[i], order[j], order[..i], order[..j];
    assert Adjacent(topology, n, m) ==> m in beforeN && n in beforeM;
  }

  // A neighbour of an earlier node may join the order at its end.
  lemma Enqueued(topology: seq<UPLink>, order: seq<string>, source: string, k: nat, m: string)
    requires WalkOrder(topology, order, source) && k < |order| && Adjacent(topology, order[k], m) && m !in order
    ensures WalkOrder(topology, order + [m], source)
  {
    var out := order + [m];
    forall i | 1 <= i < |out| ensures HasEarlier(topology, out, i) {
      if i == |order| {
        assert Adjacent(topology, out[k], out[i]);
      } else {
        assert HasEarlier(topology, order, i);
        var j :| 0 <= j < i && Adjacent(topology, order[j], order[i]);
        assert Adjacent(topology, out[j], out[i]);
      }
    }
  }

  // One end of a link whose other end is the k-th node. `all` is every node queued so far, in order.
  method Offer(m: string, queue: seq<string>, queued: set<string>, visited: set<string>, found: bool,
               topology: seq<UPLink>, source: string, ghost all: seq<string>, ghost k: nat)
    returns (queue': seq<string>, queued': set<string>, found': bool, ghost all': seq<string>)
    requires WalkOrder(topology, all, source) && k < |all| && Adjacent(topology, all[k], m)
    requires queue == all[k + 1..] && (forall n :: n in all <==> n in queued) && visited <= queued
    ensures WalkOrder(topology, all', source) && all <= all'
    ensures queue' == all'[k + 1..] && (forall n :: n in all' <==> n in queued') && queued' == queued + {m}
    ensures found' <==> found || m !in visited
  {
    queue', queued', found', all' := queue, queued, found, all;
    if m !in queued {
      Enqueued(topology, all, source, k, m);
      queue', queued', found', all' := queue + [m], queued + {m}, true, all + [m];
    }
    if m !in visited { found' := true; }
  }

  predicate OtherEnd(link: UPLink, n: string, m: string) {
    link == UPLink(n, m) || link == UPLink(m, n)
  }

  // One link of the topology: each of its ends is offered when the other end is the k-th node.
  method OfferLink(node: string, link: UPLink, queue: seq<string>, queued: set<string>, visited: set<string>,
                   found: bool,
                   topology: seq<UPLink>, source: string, ghost all: seq<string>, ghost k: nat)
    returns (queue': seq<string>, queued': set<string>, found': bool, ghost all': seq<string>)
    requires WalkOrder(topology, all, source) && k < |all| && all[k] == node && link in topology
    requires queue == all[k + 1..] && (forall n :: n in all <==> n in queued) && visited <= queued
    requires queued <= Names(topology) + {source}
    ensures WalkOrder(topology, all', source) && all <= all'
    ensures queue' == all'[k + 1..] && (forall n :: n in all' <==> n in queued')
    ensures queued <= queued' <= Names(topology) + {source}
    ensures forall m :: OtherEnd(link, node, m) ==> m in queued'
    ensures found' <==> found || exists m :: OtherEnd(link, node, m) && m !in visited
  {
    assert link.a in Names(topology) && link.b in Names(topology);
    queue', queued', found', all' := queue, queued, found, all;
    if link.a == node {
      queue', queued', found', all' := Offer(link.b, queue', queued', visited, found', topology, source, all', k);
      assert OtherEnd(link, node, link.b);
    }
    if link.b == node {
      queue', queued', found', all' := Offer(link.a, queue', queued', visited, found', topology, source, all', k);
      assert OtherEnd(link, node, link.a);
    }
  }

  // All links for the k-th node: is there a neighbour that was not yet taken out of the queue?
  method OfferNeighbours(node: string, queue: seq<string>, queued: set<string>, visited: set<string>,
                         topology: seq<UPLink>, source: string, ghost all: seq<string>, ghost k: nat)
    returns (queue': seq<string>, queued': set<string>, findNewLink: bool, ghost all': seq<string>)
    requires WalkOrder(topology, all, source) && k < |all| && all[k] == node
    requires queue == all[k + 1..] && (forall n :: n in all <==> n in queued) && visited <= queued
    requires queued <= Names(topology) + {source}
    ensures WalkOrder(topology, all', source) && all <= all'
    ensures queue' == all'[k + 1..] && (forall n :: n in all' <==> n in queued')
    ensures queued <= queued' <= Names(topology) + {source}
    ensures forall m :: Adjacent(topology, node, m) ==> m in queued'
    ensures findNewLink <==> exists m :: Adjacent(topology, node, m) && m !in visited
  {
    queue', queued', findNewLink, all' := queue, queued, false, all;
    for i := 0 to |topology|
      invariant WalkOrder(topology, all', source) && all <= all' && queue' == all'[k + 1..]
      invariant forall n :: n in all' <==> n in queued'
      invariant queued <= queued' <= Names(topology) + {source}
      invariant forall m :: Adjacent(topology[..i], node, m) ==> m in queued'
      invariant findNewLink <==> exists m :: Adjacent(topology[..i], node, m) && m !in visited
    {
      NeighboursStep(topology, i, node);
      queue', queued', findNewLink, all' :=
        OfferLink(node, topology[i], queue', queued', visited, findNewLink, topology, source, all', k);
    }
    assert topology[..|topology|] == topology;
  }

  lemma NeighboursStep(topology: seq<UPLink>, i: nat, node: string)
    requires i < |topology|
    ensures forall m :: Adjacent(topology[..i + 1], node, m) <==>
              Adjacent(topology[..i], node, m) || OtherEnd(topology[i], node, m)
  {
    assert topology[..i + 1] == topology[..i] + [topology[i]];
  }

  /** The leaves among the first k nodes of an order. */
  ghost function Leaves(topology: seq<UPLink>, order: seq<string>, k: nat): seq<string>
    requires k <= |order|
  {
    if k == 0 then []
    else Leaves(topology, order, k - 1) + if LeafAt(topology, order, k - 1) then [order[k - 1]] else []
  }

  lemma {:induction false} LeavesExact(topology: seq<UPLink>, order: seq<string>, k: nat)
    requires k <= |order| && Distinct(order)
    ensures forall n ::
              n in Leaves(topology, order, k) <==> exists j :: 0 <= j < k && order[j] == n && LeafAt(topology, order, j)
    ensures Distinct(Leaves(topology, order, k))
  {
    if k > 0 {
      LeavesExact(topology, order, k - 1);
      var rest := Leaves(topology, order, k - 1);
      forall i | 0 <= i < |rest| ensures rest[i] != order[k - 1] {
        assert rest[i] in rest;
      }
    }
  }

  lemma {:induction false} LeavesOfPrefix(topology: seq<UPLink>, order: seq<string>, more: seq<string>, k: nat)
    requires k <= |order| && order <= more
    ensures Leaves(topology, order, k) == Leaves(topology, more, k)
  {
    if k > 0 {
      LeavesOfPrefix(topology, order, more, k - 1);
      assert order[..k - 1] == more[..k - 1];
    }
  }

  /** extractAnchorUPFForULCL before sorting: the nodes, in the order they leave the queue, and
      among them the anchors. */
  method WalkAnchors(source: string, topology: seq<UPLink>) returns (upList: seq<string>, ghost order: seq<string>)
    ensures WalkOrder(topology, order, source)
    ensures forall n, m :: n in order && Adjacent(topology, n, m) ==> m in order
    ensures upList == Leaves(topology, order, |order|)
  {
    upList, order := [], [source];
    var visited: set<string> := {};
    var queue, queued := [source], {source};
    ghost var k := 0;
    while true
      invariant WalkOrder(topology, order, source) && k < |order| && queue == order[k..]
      invariant (forall n :: n in order <==> n in queued) && visited <= queued
      invariant queued <= Names(topology) + {source}
      invariant forall n :: n in order[..k] <==> n in visited
      invariant forall n, m :: n in visited && Adjacent(topology, n, m) ==> m in queued
      invariant upList == Leaves(topology, order, k)
      decreases Names(topology) + {source} - visited
    {
      var node := queue[0];
      ghost var was := order;
      var findNewLink;
      queue, queued, findNewLink,
          order := OfferNeighbours(node, queue[1..], queued, visited, topology, source, order, k);
      LeavesOfPrefix(topology, was, order, k);
      assert order[..k] == was[..k] && order[..k + 1] == order[..k] + [node];
      visited := visited + {node};
      if !findNewLink { upList := upList + [node]; }
      k := k + 1;
      if |queue| == 0 { break; }
    }
  }

  // ----- sort.Strings -----

  predicate LessEq(a: string, b: string) {
    a == [] || (b != [] && (a[0] < b[0] || (a[0] == b[0] && LessEq(a[1..], b[1..]))))
  }

  ghost predicate Sorted(s: seq<string>) {
    forall i, j :: 0 <= i < j < |s| ==> LessEq(s[i], s[j])
  }

  lemma {:induction false} LessEqTotal(a: string, b: string)
    ensures LessEq(a, b) || LessEq(b, a)
  {
    if a != [] && b != [] { LessEqTotal(a[1..], b[1..]); }
  }

  lemma {:induction false} LessEqTransitive(a: string, b: string, c: string)
    requires LessEq(a, b) && LessEq(b, c)
    ensures LessEq(a, c)
  {
    if a != [] && a[0] == b[0] == c[0] { LessEqTransitive(a[1..], b[1..], c[1..]); }
  }

  function Insert(x: string, s: seq<string>): (r: seq<string>)
    ensures multiset(r) == multiset(s) + multiset{x}
  {
    if s == [] then [x]
    else if LessEq(x, s[0]) then [x] + s
    else
      assert s == [s[0]] + s[1..];
      [s[0]] + Insert(x, s[1..])
  }

  function Sort(s: seq<string>): (r: seq<string>)
    ensures multiset(r) == multiset(s)
  {
    if s == [] then []
    else
      assert s == [s[0]] + s[1..];
      Insert(s[0], Sort(s[1..]))
  }

  lemma {:induction false} InsertSorted(x: string, s: seq<string>)
    requires Sorted(s)
    ensures Sorted(Insert(x, s))
  {
    if s != [] {
      var rest, out := s[1..], Insert(x, s);
      if LessEq(x, s[0]) {
        assert out == [x] + s;
        forall j | 0 <= j < |s| ensures LessEq(x, s[j]) {
          if j > 0 { LessEqTransitive(x, s[0], s[j]); }
        }
      } else {
        LessEqTotal(x, s[0]);
        InsertSorted(x, rest);
        var tail := Insert(x, rest);
        assert out == [s[0]] + tail;
        forall j | 0 <= j < |tail| ensures LessEq(s[0], tail[j]) {
          assert tail[j] in multiset(tail);
          if tail[j] != x {
            assert tail[j] in rest;
            var k :| 0 <= k < |rest| && rest[k] == tail[j];
            assert s[k + 1] == tail[j];
          }
        }
      }
    }
  }

  lemma {:induction false} SortSorted(s: seq<string>)
    ensures Sorted(Sort(s))
  {
    if s != [] {
      SortSorted(s[1..]);
      InsertSorted(s[0], Sort(s[1..]));
    }
  }

  /** Reachable along links in either direction. */
  ghost predicate Reachable(topology: seq<UPLink>, source: string, n: string) {
    exists p :: Path(topology, p, source, n)
  }

  /** The walk takes out exactly the reachable nodes. */
  lemma OrderIsReachable(topology: seq<UPLink>, order: seq<string>, source: string, n: string)
    requires WalkOrder(topology, order, source)
    requires forall a, b :: a in order && Adjacent(topology, a, b) ==> b in order
    ensures n in order <==> Reachable(topology, source, n)
  {
    if n in order {
      var k :| 0 <= k < |order| && order[k] == n;
      var p := OrderReached(topology, order, source, k);
    }
    if p :| Path(topology, p, source, n) {
      PathStays(topology, p, source, n, set m | m in order);
    }
  }

  lemma {:induction false} HasLeaves(topology: seq<UPLink>, order: seq<string>, k: nat)
    requires k <= |order|
    ensures Leaves(topology, order, k) != [] <==> exists j :: 0 <= j < k && LeafAt(topology, order, j)
  {
    if k > 0 { HasLeaves(topology, order, k - 1); }
  }

  lemma LastIsLeaf(topology: seq<UPLink>, order: seq<string>, source: string)
    requires WalkOrder(topology, order, source)
    requires forall n, m :: n in order && Adjacent(topology, n, m) ==> m in order
    ensures (forall n :: !Adjacent(topology, n, n)) ==> LeafAt(topology, order, |order| - 1)
  {
    var last := |order| - 1;
    assert order == order[..last] + [order[last]];
  }

  /** extractAnchorUPFForULCL; None stands for the error. The anchors are, sorted, exactly the
      reachable nodes whose neighbours were all taken out of the queue before them. */
  method ExtractAnchorUPFForULCL(source: string, topology: seq<UPLink>)
    returns (anchors: Option<seq<string>>, ghost order: seq<string>)
    ensures WalkOrder(topology, order, source)
    ensures forall n :: n in order <==> Reachable(topology, source, n)
    ensures anchors.None? <==> forall k :: 0 <= k < |order| ==> !LeafAt(topology, order, k)
    ensures anchors.Some? ==>
              Sorted(anchors.value) && multiset(anchors.value) == multiset(Leaves(topology, order, |order|))
              && anchors.value != []
    // without a self link there is an anchor: the node that was taken out last
    ensures (forall n :: !Adjacent(topology, n, n)) ==> anchors.Some?
  {
    var upList;
    upList, order := WalkAnchors(source, topology);
    forall n ensures n in order <==> Reachable(topology, source, n) {
      OrderIsReachable(topology, order, source, n);
    }
    HasLeaves(topology, order, |order|);
    LastIsLeaf(topology, order, source);
    if |upList| == 0 { return None, order; }
    SortSorted(upList);
    assert multiset(Sort(upList)) == multiset(upList);
    return Some(Sort(upList)), order;
  }

  /** What the caller gets: distinct nodes, reachable from the source, and no two of them linked. */
  lemma AnchorsMeaning(source: string, topology: seq<UPLink>, order: seq<string>, anchors: seq<string>)
    requires WalkOrder(topology, order, source)
    requires multiset(anchors) == multiset(Leaves(topology, order, |order|))
    ensures Distinct(anchors)
    ensures forall n <- anchors :: Reachable(topology, source, n)
    ensures forall n <- anchors, m <- anchors :: !Adjacent(topology, n, m)
  {
    var leaves := Leaves(topology, order, |order|);
    LeavesExact(topology, order, |order|);
    assert forall n :: n in anchors ==> n in multiset(anchors);
    forall n <- anchors ensures Reachable(topology, source, n) {
      assert n in leaves;
      var k :| 0 <= k < |order| && order[k] == n;
      var p := OrderReached(topology, order, source, k);
    }
    forall n <- anchors, m <- anchors ensures !Adjacent(topology, n, m) {
      assert n in leaves && m in leaves;
      var i :| 0 <= i < |order| && order[i] == n && LeafAt(topology, order, i);
      var j :| 0 <= j < |order| && order[j] == m && LeafAt(topology, order, j);
      LeavesNotAdjacent(topology, order, i, j);
    }
    SamePermutationDistinct(anchors, leaves);
  }

  lemma SamePermutationDistinct(a: seq<string>, b: seq<string>)
    requires multiset(a) == multiset(b) && Distinct(b)
    ensures Distinct(a)
  {
    forall x ensures multiset(b)[x] <= 1 { DistinctCount(b, x); }
    forall i, j | 0 <= i < j < |a| ensures a[i] != a[j] {
      CountedTwice(a, i, j);
    }
  }

  lemma CountedTwice(s: seq<string>, i: nat, j: nat)
    requires i < j < |s|
    ensures s[i] == s[j] ==> multiset(s)[s[i]] >= 2
  {
    assert s == s[..i] + [s[i]] + s[i + 1..j] + [s[j]] + s[j + 1..];
  }

  lemma {:induction false} DistinctCount(s: seq<string>, x: string)
    requires Distinct(s)
    ensures multiset(s)[x] <= 1
  {
    if s != [] {
      DistinctCount(s[1..], x);
      assert s == [s[0]] + s[1..];
      if x == s[0] { assert x !in s[1..]; assert x !in multiset(s[1..]); }
    }
  }
}
