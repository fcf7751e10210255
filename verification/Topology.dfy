/** internal/context/user_plane_information.go: the user-plane graph and the depth-first
    search over it. Nodes are heap objects because links are edited in place. */
module Topology {

  import opened Wrappers

  // Slice differentiators are compared without case in the source: `sd` stands for the folded text.
  datatype SNssai = SNssai(sst: int, sd: string)

  datatype DnnInfo = DnnInfo(dnn: string, dnaiList: seq<string>)

  datatype SnssaiInfo = SnssaiInfo(sNssai: SNssai, dnnList: seq<DnnInfo>)

  datatype UPF = UPF(sNssaiInfos: seq<SnssaiInfo>)

  datatype Selection = Selection(dnn: string, sNssai: SNssai, dnai: string)

  datatype UPLink = UPLink(a: string, b: string)

  datatype NodeType = AN | UPFNode | Unknown

  class UPNode {
    const name: string
    const nodeType: NodeType
    const ip: string          // the resolved node id
    const upf: Option<UPF>
    var links: seq<UPNode>

    constructor (name: string, nodeType: NodeType, ip: string, upf: Option<UPF>)
      ensures this.name == name && this.nodeType == nodeType && this.ip == ip && this.upf == upf && links == []
    {
      this.name, this.nodeType, this.ip, this.upf, links := name, nodeType, ip, upf, [];
    }

    predicate SupportsSnssai(s: SNssai) {
      upf.Some? && exists i :: 0 <= i < |upf.value.sNssaiInfos| && upf.value.sNssaiInfos[i].sNssai == s
    }
  }

  /** The visited map that all calls of one search share. */
  class Visited {
    var seen: set<UPNode>

    constructor ()
      ensures seen == {}
    {
      seen := {};
    }
  }

  /** Every link of a node of the graph stays in the graph. */
  ghost predicate Closed(graph: set<UPNode>)
    reads graph
  {
    forall n <- graph, m <- n.links :: m in graph
  }

  ghost predicate Linked(p: seq<UPNode>)
    reads p
  {
    forall i :: 0 <= i < |p| - 1 ==> p[i + 1] in p[i].links
  }

  ghost predicate Simple(p: seq<UPNode>) {
    forall i, j :: 0 <= i < j < |p| ==> p[i] != p[j]
  }

  /** A walk along links from `cur` to `dest` whose later nodes are all outside `seen` and
      support the slice. */
  ghost predicate Walk(p: seq<UPNode>, cur: UPNode, dest: UPNode, seen: set<UPNode>, s: SNssai)
    reads p
  {
    && p != [] && p[0] == cur && p[|p| - 1] == dest
    && Linked(p)
    && forall i :: 1 <= i < |p| ==> p[i] !in seen && p[i].SupportsSnssai(s)
  }

  /** What a failed search leaves behind: the nodes it entered are not the destination and
      all their neighbours have been seen. */
  ghost predicate Exhausted(before: set<UPNode>, after: set<UPNode>, dest: UPNode, s: SNssai)
    reads after
  {
    forall n <- after :: n !in before && n.SupportsSnssai(s) ==> n != dest && forall m <- n.links :: m in after
  }

  // From a node that was entered, a walk can only go to nodes that were entered.
  lemma {:induction false} NoWalkEscapes(p: seq<UPNode>, cur: UPNode, dest: UPNode,
                                         before: set<UPNode>, after: set<UPNode>, s: SNssai, i: nat)
    requires Walk(p, cur, dest, before, s) && i < |p|
    requires Exhausted(before + {cur}, after, dest, s)
    requires cur in after && cur != dest && forall m <- cur.links :: m in after
    ensures p[i] in after && p[i] != dest
  {
    if i > 0 { NoWalkEscapes(p, cur, dest, before, after, s, i - 1); }
  }

  /** getPathBetween. It finds a path exactly when a walk through nodes that were unvisited
      on entry exists; the path it finds is simple. Nodes carry unique names, so comparing
      two nodes field by field is comparing the objects. */
  method GetPathBetween(cur: UPNode, dest: UPNode, visited: Visited, s: SNssai, ghost graph: set<UPNode>)
    returns (path: seq<UPNode>, pathExist: bool)
    requires Closed(graph) && cur in graph && cur !in visited.seen
    requires forall n <- graph :: n !in visited.seen && n != cur ==> n.upf.Some?
    modifies visited
    ensures pathExist <==> exists p :: Walk(p, cur, dest, old(visited.seen), s)
    ensures pathExist ==> Walk(path, cur, dest, old(visited.seen), s) && Simple(path)
                          && forall i :: 0 <= i < |path| ==> path[i] in graph
    ensures !pathExist ==> path == [] && cur != dest && Exhausted(old(visited.seen), visited.seen, dest, s)
                           && forall m <- cur.links :: m in visited.seen
    ensures old(visited.seen) + {cur} <= visited.seen <= old(visited.seen) + graph
    decreases graph - visited.seen
  {
    ghost var before := visited.seen;
    visited.seen := visited.seen + {cur};
    if cur == dest {
      path := [cur];
      assert Walk(path, cur, dest, before, s);
      return path, true;
    }
    for i := 0 to |cur.links|
      invariant before + {cur} <= visited.seen <= before + graph
      invariant Exhausted(before + {cur}, visited.seen, dest, s)
      invariant forall j :: 0 <= j < i ==> cur.links[j] in visited.seen
    {
      var node := cur.links[i];
      if node !in visited.seen {
        assert node.upf.Some?; // the source reads through this pointer without a check
        if !node.SupportsSnssai(s) {
          visited.seen := visited.seen + {node};
          continue;
        }
        ghost var mid := visited.seen;
        var tail, found := GetPathBetween(node, dest, visited, s, graph);
        if found {
          path := [cur] + tail;
          assert Walk(path, cur, dest, before, s) by {
            forall k | 0 <= k < |path| - 1 ensures path[k + 1] in path[k].links {
              if k > 0 { assert path[k + 1] == tail[k] && path[k] == tail[k - 1]; }
            }
          }
          return path, true;
        }
        assert node.SupportsSnssai(s);
      }
    }
    if p :| Walk(p, cur, dest, before, s) {
      NoWalkEscapes(p, cur, dest, before, visited.seen, s, |p| - 1);
    }
    return [], false;
  }
}
