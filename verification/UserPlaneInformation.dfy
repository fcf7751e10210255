/** internal/context/user_plane_information.go: the topology that operators edit at run time
    and the cache of default paths that must agree with it. */
module UserPlaneInformation {
  import opened Topology
  import opened Wrappers

  datatype NodeConfig = NodeConfig(nodeType: NodeType, ip: string, upf: Option<UPF>)

  type PathCache = map<Selection, map<string, seq<UPNode>>>

  /** Position of the first occurrence, or -1. */
  method NodeInList(node: UPNode, list: seq<UPNode>) returns (index: int)
    ensures index == -1 <==> node !in list
    ensures index != -1 ==> 0 <= index < |list| && list[index] == node && node !in list[..index]
  {
    for i := 0 to |list|
      invariant node !in list[..i]
    {
      if list[i] == node { return i; }
    }
    return -1;
  }

  function RemoveNodeFromLink(links: seq<UPNode>, index: nat): (r: seq<UPNode>)
    requires index < |links|
    ensures multiset(r) == multiset(links) - multiset{links[index]}
  {
    var moved := links[index := links[|links| - 1]];
    assert links == links[..|links| - 1] + [links[|links| - 1]];
    assert moved == moved[..|links| - 1] + [moved[|links| - 1]];
    moved[..|links| - 1]
  }

  /** A node occurs at most once among the links of another node; a node linked to itself
      lists itself twice. */
  ghost predicate NoParallel(links: seq<UPNode>, owner: UPNode) {
    forall i, j :: 0 <= i < j < |links| && links[i] == links[j] ==> links[i] == owner
  }

  lemma RemovedOnce(links: seq<UPNode>, owner: UPNode, index: nat)
    requires NoParallel(links, owner) && index < |links| && links[index] != owner
    ensures NoParallel(RemoveNodeFromLink(links, index), owner)
    ensures forall m :: m in RemoveNodeFromLink(links, index) <==> m in links && m != links[index]
  {
    var r := RemoveNodeFromLink(links, index);
    assert forall i :: 0 <= i < |r| ==> r[i] == if i == index then links[|links| - 1] else links[i];
    forall m | m in links && m != links[index] ensures m in r {
      var i :| 0 <= i < |links| && links[i] == m;
      assert r[if i == |links| - 1 then index else i] == m;
    }
  }

  /** The links of all present nodes, as a value. */
  type Graph = map<UPNode, seq<UPNode>>

  ghost function LinksOf(present: set<UPNode>): Graph
    reads present
  {
    map n | n in present :: n.links
  }

  /** Links are symmetric, between present nodes and without duplicates. */
  ghost predicate GoodLinks(g: Graph) {
    && (forall n, m {:trigger m in g[n]} :: n in g && m in g[n] ==> m in g && n in g[m])
    && (forall n <- g :: NoParallel(g[n], n))
  }

  lemma LinksAreMutual(present: set<UPNode>, a: UPNode, b: UPNode)
    requires GoodLinks(LinksOf(present)) && a in present && b in present
    ensures Closed(present) && (b in a.links <==> a in b.links)
  {
    var g := LinksOf(present);
    forall n <- present, m <- n.links ensures m in present && n in m.links {
      assert n in g && m in g[n];
    }
  }

  /** A simple path of present, consecutively linked upfs that support the slice and end at the
      address `ip`. */
  ghost predicate GoodPath(p: seq<UPNode>, s: SNssai, ip: string, g: Graph) {
    && p != [] && p[|p| - 1].ip == ip && Simple(p)
    && (forall i :: 0 <= i < |p| ==> p[i] in g && p[i].SupportsSnssai(s))
    && (forall i :: 0 <= i < |p| - 1 ==> p[i + 1] in g[p[i]])
  }

  /** Every cached path is still a path of the graph to the node it is filed under. */
  ghost predicate GoodCache(cache: PathCache, g: Graph) {
    forall sel, ip :: Cached(cache, sel, ip) ==> GoodPath(cache[sel][ip], sel.sNssai, ip, g)
  }

  // Without the access network in front, a found path is fit for the cache.
  lemma WithoutSource(p: seq<UPNode>, source: UPNode, destination: UPNode, s: SNssai, present: set<UPNode>)
    requires Walk(p, source, destination, {}, s) && Simple(p) && source != destination
    requires forall i :: 0 <= i < |p| ==> p[i] in present
    ensures GoodPath(p[1..], s, destination.ip, LinksOf(present)) && p[1..][|p| - 2] == destination
    ensures p[1..][0] in source.links
  {
    assert forall i :: 0 <= i < |p| - 1 ==> p[1..][i] == p[i + 1];
  }

  /** A path of the cache is a walk from an access network exactly if it starts next to it. */
  lemma WalkFromSource(p: seq<UPNode>, source: UPNode, s: SNssai, ip: string, present: set<UPNode>)
    requires GoodPath(p, s, ip, LinksOf(present))
    ensures Walk([source] + p, source, p[|p| - 1], {}, s) <==> p[0] in source.links
  {
    var whole := [source] + p;
    assert whole[0] == source && whole[1] == p[0] && whole[|whole| - 1] == p[|p| - 1];
    assert forall i :: 1 <= i < |whole| ==> whole[i] == p[i - 1];
    if p[0] in source.links {
      forall i | 0 <= i < |whole| - 1
        ensures whole[i + 1] in whole[i].links
      {
        if i > 0 { assert p[i] in LinksOf(present)[p[i - 1]]; }
      }
    }
  }

  /** Every cached path starts next to a node. */
  ghost predicate Rooted(cache: PathCache, links: seq<UPNode>) {
    forall sel, ip :: Cached(cache, sel, ip) ==> cache[sel][ip] != [] && cache[sel][ip][0] in links
  }

  lemma FiledRooted(cache: PathCache, links: seq<UPNode>, sel: Selection, ip: string, path: seq<UPNode>)
    requires Rooted(cache, links) && path != [] && path[0] in links
    ensures Rooted(Filed(cache, sel, ip, path), links)
  {
    var r := Filed(cache, sel, ip, path);
    forall sel', ip' | Cached(r, sel', ip')
      ensures r[sel'][ip'] != [] && r[sel'][ip'][0] in links
    {
      if sel' != sel || ip' != ip { assert Cached(cache, sel', ip'); }
    }
  }

  lemma SurvivingRooted(cache: PathCache, links: seq<UPNode>, node: UPNode, links': seq<UPNode>)
    requires Rooted(cache, links) && SameBut(links, links', node)
    ensures Rooted(SurvivingAll(cache, node), links')
  {
    var r := SurvivingAll(cache, node);
    forall sel, ip | Cached(r, sel, ip)
      ensures r[sel][ip] != [] && r[sel][ip][0] in links'
    {
      assert Cached(cache, sel, ip);
    }
  }

  predicate Cached(cache: PathCache, sel: Selection, ip: string) {
    sel in cache && ip in cache[sel]
  }

  /** The cache with one more path; the map of a selection is made on first use. */
  function Filed(cache: PathCache, sel: Selection, ip: string, path: seq<UPNode>): (r: PathCache)
    ensures Cached(r, sel, ip) && r[sel][ip] == path
    ensures forall sel', ip' :: sel' != sel || ip' != ip ==>
              (Cached(r, sel', ip') <==> Cached(cache, sel', ip'))
                  && (Cached(cache, sel', ip') ==> r[sel'][ip'] == cache[sel'][ip'])
  {
    cache[sel := (if sel in cache then cache[sel] else map[])[ip := path]]
  }

  lemma FiledKeeps(cache: PathCache, g: Graph, sel: Selection, ip: string, path: seq<UPNode>)
    requires GoodCache(cache, g) && GoodPath(path, sel.sNssai, ip, g)
    ensures GoodCache(Filed(cache, sel, ip, path), g)
  {
    var r := Filed(cache, sel, ip, path);
    forall sel', ip' | Cached(r, sel', ip') ensures GoodPath(r[sel'][ip'], sel'.sNssai, ip', g) {
      if sel' != sel || ip' != ip { assert Cached(cache, sel', ip'); }
    }
  }

  type Table = map<string, UPNode>

  /** The tables agree: names are unique, and upfs and ANs are filed by type. */
  ghost predicate GoodTables(all: Table, upfs: Table, ans: Table, present: set<UPNode>) {
    && (forall name <- all :: all[name].name == name && all[name] in present)
    && (forall n <- present :: n.name in all && all[n.name] == n && (n.upf.Some? <==> n.nodeType == UPFNode))
    && (forall name :: name in upfs <==> name in all && all[name].nodeType == UPFNode)
    && (forall name <- upfs :: upfs[name] == all[name])
    && (forall name :: name in ans <==> name in all && all[name].nodeType == AN)
    && (forall name <- ans :: ans[name] == all[name])
  }

  function FileWhen(condition: bool, table: Table, node: UPNode): Table {
    if condition then table[node.name := node] else table
  }

  lemma TablesAdd(all: Table, upfs: Table, ans: Table, present: set<UPNode>, node: UPNode)
    requires GoodTables(all, upfs, ans, present) && node.name !in all && (node.upf.Some? <==> node.nodeType == UPFNode)
    ensures GoodTables(all[node.name := node], FileWhen(node.nodeType == UPFNode, upfs, node),
                       FileWhen(node.nodeType == AN, ans, node), present + {node})
  {
  }

  lemma TablesRemove(all: Table, upfs: Table, ans: Table, present: set<UPNode>, node: UPNode)
    requires GoodTables(all, upfs, ans, present) && node in present
    ensures GoodTables(all - {node.name}, upfs - {node.name}, ans - {node.name}, present - {node})
  {
  }

  // Paths stay paths while nodes and links are only added.
  lemma CacheKept(cache: PathCache, g: Graph, h: Graph)
    requires GoodCache(cache, g) && forall n <- g :: n in h && forall m <- g[n] :: m in h[n]
    ensures GoodCache(cache, h)
  {
    forall sel, ip | Cached(cache, sel, ip) ensures GoodPath(cache[sel][ip], sel.sNssai, ip, h) {
      assert GoodPath(cache[sel][ip], sel.sNssai, ip, g);
    }
  }

  lemma OneMoreNode(present: set<UPNode>, node: UPNode)
    requires node.links == []
    ensures LinksOf(present + {node}) == LinksOf(present)[node := []]
  {
  }

  lemma NodeAdded(cache: PathCache, g: Graph, node: UPNode)
    requires GoodLinks(g) && GoodCache(cache, g) && node !in g
    ensures GoodLinks(g[node := []]) && GoodCache(cache, g[node := []])
  {
    CacheKept(cache, g, g[node := []]);
  }

  /** The graph with one more link; a node linked to itself lists itself twice. */
  function Joined(g: Graph, a: UPNode, b: UPNode): Graph
    requires a in g && b in g
  {
    var first := g[a := g[a] + [b]];
    first[b := first[b] + [a]]
  }

  lemma LinkAdded(g: Graph, a: UPNode, b: UPNode)
    requires GoodLinks(g) && a in g && b in g && b !in g[a] && a !in g[b]
    ensures GoodLinks(Joined(g, a, b))
    ensures forall n <- g, m :: m in Joined(g, a, b)[n] <==> m in g[n] || (n == a && m == b) || (n == b && m == a)
  {
    var h := Joined(g, a, b);
    forall n <- h ensures NoParallel(h[n], n) {
      assert NoParallel(g[n], n);
    }
  }

  /** The cached paths of one selection that avoid a node. */
  function Surviving(paths: map<string, seq<UPNode>>, node: UPNode): map<string, seq<UPNode>> {
    map ip | ip in paths && node !in paths[ip] :: paths[ip]
  }

  function SurvivingAll(cache: PathCache, node: UPNode): PathCache {
    map sel | sel in cache :: Surviving(cache[sel], node)
  }

  ghost predicate SameBut(before: seq<UPNode>, after: seq<UPNode>, node: UPNode) {
    (forall m <- before :: m != node ==> m in after) && forall m <- after :: m in before && m != node
  }

  /** The graph after a node was taken out of it. */
  ghost predicate TakenOut(g: Graph, h: Graph, node: UPNode) {
    && h.Keys == g.Keys - {node}
    && forall n <- h :: NoParallel(h[n], n) && SameBut(g[n], h[n], node)
  }

  // Paths that avoid the node stay paths.
  lemma PathsSurvive(cache: PathCache, g: Graph, h: Graph, node: UPNode)
    requires GoodLinks(g) && GoodCache(cache, g) && TakenOut(g, h, node)
    ensures GoodLinks(h) && GoodCache(SurvivingAll(cache, node), h)
  {
    var r := SurvivingAll(cache, node);
    forall sel, ip | Cached(r, sel, ip) ensures GoodPath(r[sel][ip], sel.sNssai, ip, h) {
      assert Cached(cache, sel, ip) && GoodPath(cache[sel][ip], sel.sNssai, ip, g);
    }
  }

  // A node without a UPF is on no cached path.
  lemma NotInCache(cache: PathCache, g: Graph, node: UPNode)
    requires GoodCache(cache, g) && node.upf.None?
    ensures SurvivingAll(cache, node) == cache
  {
    forall sel, ip | Cached(cache, sel, ip) ensures node !in cache[sel][ip] {
      assert GoodPath(cache[sel][ip], sel.sNssai, ip, g);
    }
    forall sel | sel in cache ensures Surviving(cache[sel], node) == cache[sel] {
      assert forall ip :: ip in cache[sel] ==> Cached(cache, sel, ip);
    }
  }

  predicate Configured(links: seq<UPLink>, a: string, b: string) {
    UPLink(a, b) in links || UPLink(b, a) in links
  }

  lemma ConfiguredStep(links: seq<UPLink>, i: nat)
    requires i < |links|
    ensures forall a, b :: Configured(links[..i + 1], a, b)
                           <==> Configured(links[..i], a, b) || links[i] == UPLink(a, b) || links[i] == UPLink(b, a)
  {
    assert links[..i + 1] == links[..i] + [links[i]];
  }

  datatype Op =
    | Add(name: string, config: NodeConfig)
    | Link(links: seq<UPLink>)
    | Delete(name: string)
    | Route(selection: Selection, name: string)

  class UserPlane {
    var upNodes: map<string, UPNode>
    var upfs: map<string, UPNode>
    var accessNetwork: map<string, UPNode>
    var defaultPathToUPF: PathCache
    ghost var present: set<UPNode>   // the nodes in upNodes

    ghost predicate Valid()
      reads this, present
    {
      && GoodTables(upNodes, upfs, accessNetwork, present)
      && GoodLinks(LinksOf(present))
      && GoodCache(defaultPathToUPF, LinksOf(present))
    }

    /** At most one node is not a UPF: the search reads through the UPF pointer of all others. */
    ghost predicate SingleSource()
      reads this
    {
      forall n <- present, m <- present :: n.upf.None? && m.upf.None? ==> n == m
    }

    constructor ()
      ensures Valid() && upNodes == map[] && defaultPathToUPF == map[] && present == {}
    {
      upNodes, upfs, accessNetwork, defaultPathToUPF, present := map[], map[], map[], map[], {};
    }

    /** The node part of UpNodesFromConfiguration: a configured node whose name is taken is skipped. */
    method AddNode(name: string, config: NodeConfig)
      requires Valid() && (config.upf.Some? <==> config.nodeType == UPFNode)
      modifies this
      ensures Valid() && defaultPathToUPF == old(defaultPathToUPF)
      ensures name in old(upNodes) ==> unchanged(this)
      ensures name !in old(upNodes) ==>
                name in upNodes && upNodes == old(upNodes)[name := upNodes[name]]
                && fresh(upNodes[name]) && upNodes[name].links == [] && present == old(present) + {upNodes[name]}
                && upNodes[name].nodeType == config.nodeType && upNodes[name].ip == config.ip
                && upNodes[name].upf == config.upf
    {
      if name in upNodes { return; }
      var node := new UPNode(name, config.nodeType, config.ip, config.upf);
      File(node);
    }

    method File(node: UPNode)
      requires Valid() && node.name !in upNodes && node.links == [] && (node.upf.Some? <==> node.nodeType == UPFNode)
      modifies this
      ensures Valid() && defaultPathToUPF == old(defaultPathToUPF)
      ensures upNodes == old(upNodes)[node.name := node] && present == old(present) + {node}
    {
      CanFile(node);
      ghost var g := LinksOf(present + {node});
      SetTables(upNodes[node.name := node], FileWhen(node.nodeType == UPFNode, upfs, node),
          FileWhen(node.nodeType == AN, accessNetwork, node),
                present + {node});
      assert LinksOf(present) == g;
    }

    lemma CanFile(node: UPNode)
      requires Valid() && node.name !in upNodes && node.links == [] && (node.upf.Some? <==> node.nodeType == UPFNode)
      ensures GoodTables(upNodes[node.name := node], FileWhen(node.nodeType == UPFNode, upfs, node),
                         FileWhen(node.nodeType == AN, accessNetwork, node), present + {node})
      ensures GoodLinks(LinksOf(present + {node})) && GoodCache(defaultPathToUPF, LinksOf(present + {node}))
    {
      TablesAdd(upNodes, upfs, accessNetwork, present, node);
      NodeAdded(defaultPathToUPF, LinksOf(present), node);
      OneMoreNode(present, node);
    }

    method SetTables(all: Table, ups: Table, ans: Table, ghost nodes: set<UPNode>)
      modifies this`upNodes, this`upfs, this`accessNetwork, this`present
      ensures upNodes == all && upfs == ups && accessNetwork == ans && present == nodes
    {
      upNodes, upfs, accessNetwork, present := all, ups, ans, nodes;
    }

    /** LinksFromConfiguration: each configured link between two known, still unlinked nodes is
        added at both ends. */
    method LinksFromConfiguration(links: seq<UPLink>)
      requires Valid()
      modifies present
      ensures Valid()
      ensures forall n <- present, m <- present ::
                m in n.links <==> m in old(n.links) || Configured(links, n.name, m.name)
    {
      for i := 0 to |links|
        invariant Valid()
        invariant forall n <- present, m <- present ::
                    m in n.links <==> m in old(n.links) || Configured(links[..i], n.name, m.name)
      {
        ConfiguredStep(links, i);
        EstablishLink(links[i]);
      }
      assert links[..|links|] == links;
    }

    method EstablishLink(link: UPLink)
      requires Valid()
      modifies present
      ensures Valid()
      ensures forall n <- present, m <- present ::
                m in n.links <==> m in old(n.links) || link == UPLink(n.name, m.name) || link == UPLink(m.name, n.name)
    {
      if link.a !in upNodes || link.b !in upNodes { return; }
      var nodeA, nodeB := upNodes[link.a], upNodes[link.b];
      LinksAreMutual(present, nodeA, nodeB);
      var inA := NodeInList(nodeB, nodeA.links);
      var inB := NodeInList(nodeA, nodeB.links);
      if inA != -1 || inB != -1 { return; }
      Connect(nodeA, nodeB);
    }

    // Adds a link at both ends; a node linked to itself lists itself twice.
    method Connect(nodeA: UPNode, nodeB: UPNode)
      requires Valid() && nodeA in present && nodeB in present
      requires nodeB !in nodeA.links && nodeA !in nodeB.links
      modifies nodeA, nodeB
      ensures Valid()
      ensures forall n <- present, m <- present ::
                m in n.links <==> m in old(n.links) || (n == nodeA && m == nodeB) || (n == nodeB && m == nodeA)
    {
      ghost var was := LinksOf(present);
      LinkAdded(was, nodeA, nodeB);
      nodeA.links := nodeA.links + [nodeB];
      nodeB.links := nodeB.links + [nodeA];
      assert LinksOf(present) == Joined(was, nodeA, nodeB);
      CacheKept(defaultPathToUPF, was, Joined(was, nodeA, nodeB));
    }

    // The search from the access network, with the access network dropped from the path.
    method SearchFromAccessNetwork(s: SNssai, destination: UPNode)
      returns (path: seq<UPNode>, pathExist: bool, ghost whole: seq<UPNode>)
      requires Valid() && SingleSource() && destination.nodeType == UPFNode
      ensures accessNetwork == map[] ==> !pathExist
      ensures forall name <- accessNetwork :: pathExist ==> Walk(whole, accessNetwork[name], destination, {}, s)
      ensures forall name <- accessNetwork, p :: Walk(p, accessNetwork[name], destination, {}, s) ==> pathExist
      ensures pathExist ==> GoodPath(path, s, destination.ip, LinksOf(present)) && path[|path| - 1] == destination
      ensures forall name <- accessNetwork :: pathExist ==> path[0] in accessNetwork[name].links
    {
      if accessNetwork == map[] { return [], false, []; }
      var name :| name in accessNetwork; // the first one the iteration yields
      var source := accessNetwork[name];
      assert forall other <- accessNetwork :: accessNetwork[other] == source;
      LinksAreMutual(present, source, source);
      var visited := new Visited();
      path, pathExist := GetPathBetween(source, destination, visited, s, present);
      whole := path;
      if pathExist && path[0].nodeType == AN {
        path := path[1..];
        WithoutSource(whole, source, destination, s, present);
      }
    }

    /** GenerateDefaultPathToUPF: files the path found under the address of the destination. */
    method GenerateDefaultPathToUPF(selection: Selection, destination: UPNode)
      returns (pathExist: bool, ghost filed: seq<UPNode>)
      requires Valid() && SingleSource() && destination.nodeType == UPFNode
      modifies this`defaultPathToUPF
      ensures Valid()
      ensures accessNetwork == map[] ==> !pathExist
      ensures forall name <- accessNetwork ::
                pathExist <==> exists p :: Walk(p, accessNetwork[name], destination, {}, selection.sNssai)
      ensures if pathExist then defaultPathToUPF == Filed(old(defaultPathToUPF), selection, destination.ip, filed)
              else defaultPathToUPF == old(defaultPathToUPF)
      ensures pathExist ==> GoodPath(filed, selection.sNssai, destination.ip,
              LinksOf(present)) && filed[|filed| - 1] == destination
      ensures forall name <- accessNetwork :: pathExist ==> filed[0] in accessNetwork[name].links
    {
      var path;
      ghost var whole;
      path, pathExist, whole := SearchFromAccessNetwork(selection.sNssai, destination);
      filed := path;
      if pathExist {
        FilePath(selection, destination.ip, path);
        assert forall name <- accessNetwork :: Walk(whole, accessNetwork[name], destination, {}, selection.sNssai);
      }
    }

    method FilePath(selection: Selection, ip: string, path: seq<UPNode>)
      requires Valid() && GoodPath(path, selection.sNssai, ip, LinksOf(present))
      modifies this`defaultPathToUPF
      ensures Valid() && defaultPathToUPF == Filed(old(defaultPathToUPF), selection, ip, path)
    {
      FiledKeeps(defaultPathToUPF, LinksOf(present), selection, ip, path);
      defaultPathToUPF := Filed(defaultPathToUPF, selection, ip, path);
    }

    /** Every cached path starts next to the node. */
    ghost predicate FromNode(node: UPNode)
      reads this`defaultPathToUPF, node
    {
      Rooted(defaultPathToUPF, node.links)
    }

    /** GetDefaultUserPlanePathByDNNAndUPF; the empty path stands for nil. A path starts next to the
        access network if all cached ones did. */
    method GetDefaultUserPlanePathByDNNAndUPF(selection: Selection, upf: UPNode) returns (path: seq<UPNode>)
      requires Valid() && SingleSource() && upf.nodeType == UPFNode
      modifies this`defaultPathToUPF
      ensures Valid()
      ensures path != [] ==> GoodPath(path, selection.sNssai, upf.ip, LinksOf(present))
      ensures forall name <- accessNetwork :: old(FromNode(accessNetwork[name])) ==>
                FromNode(accessNetwork[name]) && (path != [] ==> path[0] in accessNetwork[name].links)
      ensures Cached(old(defaultPathToUPF), selection, upf.ip) ==> path != []
      ensures path != [] ==> Cached(defaultPathToUPF, selection, upf.ip) && defaultPathToUPF[selection][upf.ip] == path
      ensures !Cached(old(defaultPathToUPF), selection, upf.ip) ==>
                (accessNetwork == map[] ==> path == [])
                && forall name <- accessNetwork ::
                     path != [] <==> exists p :: Walk(p, accessNetwork[name], upf, {}, selection.sNssai)
    {
      if selection in defaultPathToUPF {
        if upf.ip in defaultPathToUPF[selection] {
          return defaultPathToUPF[selection][upf.ip];
        }
      }
      var pathExist;
      ghost var filed, was := [], defaultPathToUPF;
      pathExist, filed := GenerateDefaultPathToUPF(selection, upf);
      forall name <- accessNetwork | Rooted(was, accessNetwork[name].links)
        ensures FromNode(accessNetwork[name])
      {
        if pathExist { FiledRooted(was, accessNetwork[name].links, selection, upf.ip, filed); }
      }
      if pathExist { return defaultPathToUPF[selection][upf.ip]; }
      return [];
    }

    /** UpNodeDelete: the node leaves the tables and the links of the others, and every cached
        path through it is dropped. Paths that started next to the access network stay in the cache
        when it is deleted. */
    method UpNodeDelete(name: string)
      requires Valid()
      modifies this, present
      ensures Valid()
      ensures name !in old(upNodes) ==> unchanged(this) && forall n <- present :: n.links == old(n.links)
      ensures name in old(upNodes) ==>
                upNodes == old(upNodes) - {name} && present == old(present) - {old(upNodes)[name]}
                && (forall n <- present :: SameBut(old(n.links), n.links, old(upNodes)[name]))
                && defaultPathToUPF == SurvivingAll(old(defaultPathToUPF), old(upNodes)[name])
      ensures name in old(upNodes) && old(upNodes)[name].upf.None? ==> defaultPathToUPF == old(defaultPathToUPF)
    {
      if name !in upNodes { return; }
      var node := upNodes[name];
      ghost var was := LinksOf(present);
      if node.upf.None? { NotInCache(defaultPathToUPF, was, node); }
      var others := LeaveTables(node);
      UnlinkFromAll(node, others, was);
      PathsSurvive(old(defaultPathToUPF), was, LinksOf(present), node);
    }

    // Takes a node out of the tables and its paths out of the cache; what remains is returned.
    method LeaveTables(node: UPNode) returns (others: set<UPNode>)
      requires Valid() && node in present
      modifies this
      ensures GoodTables(upNodes, upfs, accessNetwork, present) && upNodes == old(upNodes) - {node.name}
      ensures others == present == old(present) - {node}
      ensures defaultPathToUPF == SurvivingAll(old(defaultPathToUPF), node)
    {
      if node.nodeType == UPFNode {
        InvalidatePaths(node);
      } else {
        NotInCache(defaultPathToUPF, LinksOf(present), node);
      }
      TablesRemove(upNodes, upfs, accessNetwork, present, node);
      upfs, accessNetwork, upNodes := upfs - {node.name}, accessNetwork - {node.name}, upNodes - {node.name};
      present := present - {node};
      others := upNodes.Values;
      assert others == present;
    }

    // Drops the cached paths through a node.
    method InvalidatePaths(node: UPNode)
      modifies this`defaultPathToUPF
      ensures defaultPathToUPF == SurvivingAll(old(defaultPathToUPF), node)
    {
      ghost var was := defaultPathToUPF;
      var selections := defaultPathToUPF.Keys;
      while selections != {}
        invariant selections <= was.Keys == defaultPathToUPF.Keys
        invariant forall sel <- was ::
                    defaultPathToUPF[sel] == if sel in selections then was[sel] else Surviving(was[sel], node)
      {
        var sel :| sel in selections;
        selections := selections - {sel};
        ghost var cache := defaultPathToUPF;
        var left := defaultPathToUPF[sel];
        var ips := left.Keys;
        while ips != {}
          invariant defaultPathToUPF == cache
          invariant ips <= was[sel].Keys
          invariant left == map ip | ip in was[sel] && (ip in ips || node !in was[sel][ip]) :: was[sel][ip]
        {
          var ip :| ip in ips;
          ips := ips - {ip};
          var index := NodeInList(node, left[ip]);
          if index != -1 { left := left - {ip}; }
        }
        defaultPathToUPF := defaultPathToUPF[sel := left];
      }
    }

    // Takes a node out of the links of all others.
    static method UnlinkFromAll(node: UPNode, others: set<UPNode>, ghost g: Graph)
      requires node !in others && GoodLinks(g) && g.Keys == others + {node}
      requires forall n <- others :: n.links == g[n]
      modifies others
      ensures TakenOut(g, LinksOf(others), node)
    {
      var rest := others;
      while rest != {}
        invariant rest <= others
        invariant forall n <- rest :: n.links == g[n]
        invariant forall n <- others - rest :: NoParallel(n.links, n) && SameBut(g[n], n.links, node)
      {
        var n :| n in rest;
        rest := rest - {n};
        var index := NodeInList(node, n.links);
        if index != -1 {
          RemovedOnce(n.links, n, index);
          n.links := RemoveNodeFromLink(n.links, index);
        }
      }
    }

    /** Any run of edits and path requests, with at most one access network, ends with tables,
        links and cache that agree; and while an access network is present, every cached path stays
        next to it, so that by `WalkFromSource` it is a walk from it. */
    method Run(ops: seq<Op>)
      requires Valid() && SingleSource()
      requires forall op <- ops :: op.Add? ==> op.config.nodeType == UPFNode && op.config.upf.Some?
      modifies this, present
      ensures Valid() && SingleSource()
      ensures forall n <- old(present) :: n in present && n.nodeType == AN && old(FromNode(n)) ==> FromNode(n)
    {
      for i := 0 to |ops|
        invariant Valid() && SingleSource() && fresh(present - old(present))
        invariant forall n <- old(present) :: n in present && n.nodeType == AN && old(FromNode(n)) ==> FromNode(n)
      {
        Step(ops[i]);
      }
    }

    method Step(op: Op)
      requires Valid() && SingleSource() && (op.Add? ==> op.config.nodeType == UPFNode && op.config.upf.Some?)
      modifies this, present
      ensures Valid() && SingleSource() && fresh(present - old(present))
      ensures forall n <- old(present) :: n in present && n.nodeType == AN && old(FromNode(n)) ==> FromNode(n)
    {
      ghost var cache := defaultPathToUPF;
      match op {
        case Add(name, config) =>
          AddNode(name, config);
        case Link(links) =>
          LinksFromConfiguration(links);
          forall n <- present | old(FromNode(n)) ensures FromNode(n) { MoreLinks(cache, old(n.links), n.links, LinksOf(present)); }
        case Delete(name) =>
          ghost var gone := if name in upNodes then upNodes[name] else null;
          UpNodeDelete(name);
          if gone != null {
            forall n <- present | old(FromNode(n)) ensures FromNode(n) { SurvivingRooted(cache, old(n.links), gone, n.links); }
          }
        case Route(selection, name) =>
          if name in upfs { var _ := GetDefaultUserPlanePathByDNNAndUPF(selection, upfs[name]); }
      }
    }
  }

  // A node that gets more links among the nodes of the graph.
  lemma MoreLinks(cache: PathCache, links: seq<UPNode>, links': seq<UPNode>, g: Graph)
    requires Rooted(cache, links) && GoodCache(cache, g) && forall m <- links | m in g :: m in links'
    ensures Rooted(cache, links')
  {
    forall sel, ip | Cached(cache, sel, ip)
      ensures cache[sel][ip] != [] && cache[sel][ip][0] in links'
    {
      assert GoodPath(cache[sel][ip], sel.sNssai, ip, g);
    }
  }

  /** A path is cached, the access network is deleted and another one configured: the next request
      gets the cached path, which does not start next to it. */
  method StalePathRun(selection: Selection, upf: UPF, ip: string)
    returns (plane: UserPlane, path: seq<UPNode>)
    requires exists i :: 0 <= i < |upf.sNssaiInfos| && upf.sNssaiInfos[i].sNssai == selection.sNssai
    ensures path != [] && "B" in plane.accessNetwork && path[0] !in plane.accessNetwork["B"].links
  {
    var node;
    plane, node := CachedPlane(selection, upf, ip);
    Replace(plane, node);
    path := plane.GetDefaultUserPlanePathByDNNAndUPF(selection, node);
  }

  // The access network is replaced.
  method Replace(plane: UserPlane, node: UPNode)
    requires plane.Valid() && plane.upNodes.Keys == {"A", "U"} && plane.upNodes["U"] == node
    requires plane.upNodes["A"].nodeType == AN && node.nodeType == UPFNode
    modifies plane, plane.present
    ensures plane.Valid() && plane.SingleSource() && plane.defaultPathToUPF == old(plane.defaultPathToUPF)
    ensures "B" in plane.accessNetwork && plane.accessNetwork["B"].links == []
  {
    plane.UpNodeDelete("A");
    assert plane.upNodes.Keys == {"U"};
    plane.AddNode("B", NodeConfig(AN, "", None));
  }

  // The path from an access network to its UPF is cached.
  method CachedPlane(selection: Selection, upf: UPF, ip: string) returns (plane: UserPlane, node: UPNode)
    requires exists i :: 0 <= i < |upf.sNssaiInfos| && upf.sNssaiInfos[i].sNssai == selection.sNssai
    ensures fresh(plane) && fresh(plane.present) && plane.Valid() && plane.upNodes.Keys == {"A", "U"}
    ensures plane.upNodes["A"].nodeType == AN && plane.upNodes["U"] == node && node.nodeType == UPFNode
    ensures Cached(plane.defaultPathToUPF, selection, node.ip)
  {
    plane := LinkedPlane(upf, ip);
    node := plane.upNodes["U"];
    assert node.SupportsSnssai(selection.sNssai);
    CachePath(plane, node, selection);
  }

  // An access network that is linked to a UPF.
  method LinkedPlane(upf: UPF, ip: string) returns (plane: UserPlane)
    ensures fresh(plane) && fresh(plane.present) && plane.Valid() && plane.upNodes.Keys == {"A", "U"}
    ensures plane.upNodes["A"].nodeType == AN && plane.upNodes["U"].nodeType == UPFNode
    ensures plane.upNodes["U"].ip == ip && plane.upNodes["U"].upf == Some(upf)
    ensures plane.upNodes["U"] in plane.upNodes["A"].links
  {
    plane := new UserPlane();
    plane.AddNode("A", NodeConfig(AN, "", None));
    plane.AddNode("U", NodeConfig(UPFNode, ip, Some(upf)));
    plane.LinksFromConfiguration([UPLink("A", "U")]);
  }

  method CachePath(plane: UserPlane, node: UPNode, selection: Selection)
    requires plane.Valid() && plane.upNodes.Keys == {"A", "U"} && plane.upNodes["U"] == node
    requires plane.upNodes["A"].nodeType == AN && node.nodeType == UPFNode && node in plane.upNodes["A"].links
    requires node.SupportsSnssai(selection.sNssai)
    modifies plane`defaultPathToUPF
    ensures plane.Valid() && Cached(plane.defaultPathToUPF, selection, node.ip)
  {
    var path := plane.GetDefaultUserPlanePathByDNNAndUPF(selection, node);
    var source := plane.upNodes["A"];
    assert Walk([source, node], source, node, {}, selection.sNssai);
  }
}
