/** internal/context/user_plane_information.go: selectAnchorUPF, the search for the anchor UPFs
    of a session. A node may be queued several times, so termination is not obvious. */
module AnchorSelection {
  import opened Topology

  /** MatchedSelection: an empty DNAI in the selection matches every DNAI list. */
  predicate Matched(upf: UPF, selection: Selection) {
    exists i, j ::
      && 0 <= i < |upf.sNssaiInfos| && 0 <= j < |upf.sNssaiInfos[i].dnnList|
      && upf.sNssaiInfos[i].sNssai == selection.sNssai
      && upf.sNssaiInfos[i].dnnList[j].dnn == selection.dnn
      && (selection.dnai == "" || selection.dnai in upf.sNssaiInfos[i].dnnList[j].dnaiList)
  }

  predicate NodeMatched(n: UPNode, selection: Selection) {
    n.upf.Some? && Matched(n.upf.value, selection)
  }

  /** A walk along links from `source` whose later nodes all match the selection. */
  ghost predicate MatchedWalk(p: seq<UPNode>, source: UPNode, n: UPNode, selection: Selection)
    reads p
  {
    && p != [] && p[0] == source && p[|p| - 1] == n && Linked(p)
    && forall i :: 1 <= i < |p| ==> NodeMatched(p[i], selection)
  }

  function Elements(nodes: seq<UPNode>): set<UPNode> {
    set n <- nodes
  }

  /** The links that match and have not been visited, in order. */
  function Unvisited(links: seq<UPNode>, seen: set<UPNode>, selection: Selection): (r: seq<UPNode>)
    ensures forall n <- r :: n in links && NodeMatched(n, selection) && n !in seen
    ensures forall m <- links :: NodeMatched(m, selection) ==> m in seen || m in r
  {
    if links == [] then []
    else
      var rest, last := Unvisited(links[..|links| - 1], seen, selection), links[|links| - 1];
      if last !in seen && NodeMatched(last, selection) then rest + [last] else rest
  }

  /** What the last of the nodes taken out of the queue so far puts in. */
  ghost function New(order: seq<UPNode>, selection: Selection): seq<UPNode>
    requires order != []
    reads order
  {
    Unvisited(order[|order| - 1].links, Elements(order), selection)
  }

  /** Everything that they have put in. */
  ghost function Queued(order: seq<UPNode>, selection: Selection): seq<UPNode>
    reads order
  {
    if order == [] then [] else Queued(order[..|order| - 1], selection) + New(order, selection)
  }

  /** Those that put nothing in and match the whole selection. */
  ghost function Picked(order: seq<UPNode>, selectionForIUPF: Selection, selection: Selection): seq<UPNode>
    reads order
  {
    if order == [] then []
    else
      var rest, last := Picked(order[..|order| - 1], selectionForIUPF, selection), order[|order| - 1];
      if New(order, selectionForIUPF) == [] && last.nodeType == UPFNode && NodeMatched(last, selection)
          then rest + [last] else rest
  }

  /** The nodes have been taken out of the queue in this order, and these are left. */
  ghost predicate InOrder(order: seq<UPNode>, queue: seq<UPNode>, source: UPNode, selection: Selection)
    reads order
  {
    order + queue == [source] + Queued(order, selection)
  }

  lemma NextInOrder(order: seq<UPNode>, node: UPNode, rest: seq<UPNode>, source: UPNode, selection: Selection)
    requires InOrder(order, [node] + rest, source, selection)
    ensures InOrder(order + [node], rest + New(order + [node], selection), source, selection)
  {
    var more := order + [node];
    assert more[..|more| - 1] == order;
    assert more + (rest + New(more, selection)) == order + ([node] + rest) + New(more, selection);
    assert [source] + Queued(order, selection) + New(more, selection) == [source] + Queued(more, selection);
  }

  /** Every matching neighbour of a visited node has been visited or queued. */
  ghost predicate Frontier(seen: set<UPNode>, queue: seq<UPNode>, selection: Selection)
    reads seen
  {
    forall a <- seen, b <- a.links :: NodeMatched(b, selection) ==> b in seen || b in queue
  }

  lemma FrontierAdvances(seen: set<UPNode>, node: UPNode, rest: seq<UPNode>, added: seq<UPNode>, selection: Selection)
    requires Frontier(seen, [node] + rest, selection)
    requires forall m <- node.links :: NodeMatched(m, selection) ==> m in seen + {node} || m in added
    ensures Frontier(seen + {node}, rest + added, selection)
  {
    forall a <- seen + {node}, b <- a.links | NodeMatched(b, selection) && b !in seen + {node}
      ensures b in rest + added
    {
      if a in seen { assert b in [node] + rest; assert b in rest; }
    }
  }

  // A walk cannot leave a set that is closed under links to matching nodes.
  lemma {:induction false} WalkStays(p: seq<UPNode>, source: UPNode, n: UPNode, selection: Selection, seen: set<UPNode>,
                                     i: nat)
    requires MatchedWalk(p, source, n, selection) && source in seen && i < |p|
    requires Frontier(seen, [], selection)
    ensures p[i] in seen
  {
    if i > 0 { WalkStays(p, source, n, selection, seen, i - 1); }
  }

  /** How many entries of the queue have been visited already. */
  function VisitedIn(queue: seq<UPNode>, visited: set<UPNode>): nat {
    if queue == [] then 0 else (if queue[0] in visited then 1 else 0) + VisitedIn(queue[1..], visited)
  }

  lemma {:induction false} VisitedInConcat(a: seq<UPNode>, b: seq<UPNode>, visited: set<UPNode>)
    requires forall n <- b :: n !in visited
    ensures VisitedIn(a + b, visited) == VisitedIn(a, visited)
    decreases |a| + |b|
  {
    if a != [] {
      assert (a + b)[1..] == a[1..] + b;
      VisitedInConcat(a[1..], b, visited);
    } else if b != [] {
      assert a + b == b;
      VisitedInConcat([], b[1..], visited);
      assert [] + b[1..] == b[1..];
    }
  }

  /** A matched walk to every key. */
  ghost predicate Walks(walks: map<UPNode, seq<UPNode>>, source: UPNode, selection: Selection, graph: set<UPNode>)
    reads graph
  {
    forall n <- walks :: (forall m <- walks[n] :: m in graph) && MatchedWalk(walks[n], source, n, selection)
  }

  // Walks to the nodes that were just queued.
  lemma WalksGrow(walks: map<UPNode, seq<UPNode>>, node: UPNode, added: seq<UPNode>, source: UPNode,
                  selection: Selection, graph: set<UPNode>)
    returns (walks': map<UPNode, seq<UPNode>>)
    requires Closed(graph) && node in graph && node in walks && Walks(walks, source, selection, graph)
    requires forall n <- added :: n in node.links && NodeMatched(n, selection)
    ensures walks.Keys <= walks'.Keys && (forall n <- added :: n in walks') && Walks(walks', source, selection, graph)
  {
    walks' := map n <- walks.Keys + (set n <- added) :: if n in walks then walks[n] else walks[node] + [n];
    forall n <- walks' | n !in walks ensures MatchedWalk(walks'[n], source, n, selection) {
      var p := walks'[n];
      forall i | 0 <= i < |p| - 1 ensures p[i + 1] in p[i].links {
        if i < |p| - 2 { assert p[i + 1] == walks[node][i + 1] && p[i] == walks[node][i]; }
      }
    }
  }

  // Queues the unvisited matching neighbours of a node.
  method QueueNeighbours(node: UPNode, queue: seq<UPNode>, seen: set<UPNode>, selection: Selection)
    returns (queue': seq<UPNode>, findNewNode: bool)
    requires forall m <- node.links :: m in seen || m.upf.Some?
    ensures queue' == queue + Unvisited(node.links, seen, selection)
    ensures findNewNode <==> Unvisited(node.links, seen, selection) != []
  {
    queue', findNewNode := queue, false;
    for i := 0 to |node.links|
      invariant queue' == queue + Unvisited(node.links[..i], seen, selection)
      invariant findNewNode <==> Unvisited(node.links[..i], seen, selection) != []
    {
      var link := node.links[i];
      assert node.links[..i + 1][..i] == node.links[..i];
      if link !in seen {
        assert link.upf.Some?; // the source reads through this pointer without a check
        if NodeMatched(link, selection) {
          queue' := queue' + [link];
          findNewNode := true;
        }
      }
    }
    assert node.links[..|node.links|] == node.links;
  }

  // How far the search has come.
  ghost predicate Searched(order: seq<UPNode>, queue: seq<UPNode>, seen: set<UPNode>, walks: map<UPNode, seq<UPNode>>,
                           source: UPNode, selection: Selection, graph: set<UPNode>)
    reads graph, order
  {
    && seen == Elements(order) && seen <= graph && (forall n <- queue :: n in graph)
    && (forall n <- order + queue :: n in walks) && Walks(walks, source, selection, graph)
    && Frontier(seen, queue, selection) && InOrder(order, queue, source, selection)
  }

  // The search is nearer to its end.
  ghost predicate Sooner(graph: set<UPNode>, seen: set<UPNode>, queue: seq<UPNode>, seen': set<UPNode>,
                         queue': seq<UPNode>) {
    graph - seen' < graph - seen || (seen' == seen && VisitedIn(queue', seen') < VisitedIn(queue, seen))
  }

  lemma SearchedFurther(order: seq<UPNode>, node: UPNode, rest: seq<UPNode>, seen: set<UPNode>, walks: map<UPNode,
                        seq<UPNode>>,
                        source: UPNode, selection: Selection, graph: set<UPNode>)
    returns (walks': map<UPNode, seq<UPNode>>)
    requires Closed(graph) && Searched(order, [node] + rest, seen, walks, source, selection, graph)
    ensures Searched(order + [node], rest + New(order + [node], selection), seen + {node}, walks', source, selection,
            graph)
    ensures source in seen + {node}
    ensures Sooner(graph, seen, [node] + rest, seen + {node}, rest + New(order + [node], selection))
  {
    assert (order + ([node] + rest))[0] == source;
    var added := New(order + [node], selection);
    assert node in [node] + rest && node in order + ([node] + rest);
    NextInOrder(order, node, rest, source, selection);
    assert Elements(order + [node]) == seen + {node};
    walks' := WalksGrow(walks, node, added, source, selection, graph);
    FrontierAdvances(seen, node, rest, added, selection);
    VisitedInConcat(rest, added, seen + {node});
    assert ([node] + rest)[1..] == rest;
    if node in seen { assert seen + {node} == seen; } else { assert node in graph - seen; }
    forall n <- order + [node] + (rest + added)
      ensures n in walks'
    {
      if n !in added { assert n in order + ([node] + rest); }
    }
  }

  lemma PickedMore(order: seq<UPNode>, node: UPNode, selectionForIUPF: Selection, selection: Selection)
    ensures var picked, leaf := Picked(order, selectionForIUPF, selection), New(order + [node], selectionForIUPF) == [];
            Picked(order + [node], selectionForIUPF, selection)
            == if leaf && node.nodeType == UPFNode && NodeMatched(node, selection) then picked + [node] else picked
  {
    assert (order + [node])[..|order|] == order;
  }

  lemma InQueued(order: seq<UPNode>, selection: Selection)
    requires order != []
    ensures forall n <- New(order, selection) :: n in Queued(order, selection)
  {
  }

  lemma SomeOutside(a: seq<UPNode>, b: seq<UPNode>)
    requires forall n <- a :: n !in b
    ensures a == [] || exists n <- a :: n !in b
  {
    if a != [] { assert a[0] in a; }
  }

  // The last node that is taken out of the queue puts nothing in.
  lemma EmptyQueue(order: seq<UPNode>, source: UPNode, selection: Selection)
    requires InOrder(order, [], source, selection)
    ensures order != [] && New(order, selection) == []
  {
    assert order == order + [];
    SomeOutside(New(order, selection), order);
    InQueued(order, selection);
  }

  // When the queue is empty, the nodes taken out of it are those to which there are walks.
  lemma SearchedAll(order: seq<UPNode>, seen: set<UPNode>, walks: map<UPNode, seq<UPNode>>, source: UPNode,
                    selection: Selection,
                    graph: set<UPNode>)
    requires Searched(order, [], seen, walks, source, selection, graph)
    ensures forall n <- graph :: n in order <==> exists p :: MatchedWalk(p, source, n, selection)
    ensures (forall n <- order :: n in graph) && order != [] && New(order, selection) == []
  {
    EmptyQueue(order, source, selection);
    assert order == order + [] && order[0] == source;
    forall n <- graph
      ensures n in order <==> exists p :: MatchedWalk(p, source, n, selection)
    {
      if n in seen { assert n in order + [] && MatchedWalk(walks[n], source, n, selection); }
      if p :| MatchedWalk(p, source, n, selection) { WalkStays(p, source, n, selection, seen, |p| - 1); }
    }
  }

  lemma {:induction false} PickedFrom(order: seq<UPNode>, selectionForIUPF: Selection, selection: Selection)
    ensures forall n <- Picked(order, selectionForIUPF, selection) ::
              n in order && n.nodeType == UPFNode && NodeMatched(n, selection)
  {
    if order != [] { PickedFrom(order[..|order| - 1], selectionForIUPF, selection); }
  }

  /** selectAnchorUPF. It terminates: each round either visits a node for the first time or takes an
      already visited entry out of the queue and puts none in. Nodes are taken out in breadth-first
      order; they are exactly those that can be reached through nodes matching the slice and the data
      network. It returns, in this order, the UPFs that put nothing in the queue and match the whole
      selection; the last node puts nothing in. */
  method SelectAnchorUPF(source: UPNode, selection: Selection, ghost graph: set<UPNode>)
    returns (upList: seq<UPNode>, ghost order: seq<UPNode>)
    requires Closed(graph) && source in graph
    requires forall n <- graph :: n != source ==> n.upf.Some?
    requires source.nodeType == UPFNode ==> source.upf.Some?
    ensures forall n <- order :: n in graph
    ensures forall n <- graph :: n in order <==> exists p :: MatchedWalk(p, source, n, selection.(dnai := ""))
    ensures InOrder(order, [], source, selection.(dnai := "")) && order != []
    ensures New(order, selection.(dnai := "")) == []
    ensures upList == Picked(order, selection.(dnai := ""), selection)
    ensures forall n <- upList :: n.nodeType == UPFNode && NodeMatched(n, selection)
    ensures forall n <- upList :: n in graph && exists p :: MatchedWalk(p, source, n, selection.(dnai := ""))
  {
    upList, order := [], [];
    var queue, seen: set<UPNode> := [source], {};
    var selectionForIUPF := selection.(dnai := "");
    ghost var walks: map<UPNode, seq<UPNode>> := map[source := [source]];
    while true
      invariant queue != [] && Searched(order, queue, seen, walks, source, selectionForIUPF, graph)
      invariant upList == Picked(order, selectionForIUPF, selection)
      decreases graph - seen, VisitedIn(queue, seen)
    {
      var node := queue[0];
      ghost var rest := queue[1..];
      assert queue == [node] + rest;
      walks := SearchedFurther(order, node, rest, seen, walks, source, selectionForIUPF, graph);
      PickedMore(order, node, selectionForIUPF, selection);
      seen, order := seen + {node}, order + [node];
      var findNewNode;
      queue, findNewNode := QueueNeighbours(node, queue[1..], seen, selectionForIUPF);
      if !findNewNode {
        if node.nodeType == UPFNode && NodeMatched(node, selection) { upList := upList + [node]; }
      }
      if |queue| == 0 { break; }
    }
    SearchedAll(order, seen, walks, source, selectionForIUPF, graph);
    PickedFrom(order, selectionForIUPF, selection);
  }

  /** Without a DNAI to match, the search finds an anchor exactly if it gets beyond the source, or
      the source itself matches. */
  lemma SomeAnchor(order: seq<UPNode>, source: UPNode, selection: Selection)
    requires InOrder(order, [], source, selection) && order != [] && New(order, selection) == [] && selection.dnai == ""
    requires forall n <- order :: NodeMatched(n, selection) ==> n.nodeType == UPFNode
    ensures Picked(order, selection, selection) != [] <==> |order| > 1 || NodeMatched(source, selection)
  {
    assert order == order + [];
    var last := order[|order| - 1];
    if |order| > 1 {
      QueuedMatch(order, selection);
      assert last == Queued(order, selection)[|order| - 2];
    } else {
      assert order[..0] == [] && order == [source];
    }
  }

  lemma {:induction false} QueuedMatch(order: seq<UPNode>, selection: Selection)
    ensures forall n <- Queued(order, selection) :: NodeMatched(n, selection)
  {
    if order != [] { QueuedMatch(order[..|order| - 1], selection); }
  }
}
