/** internal/context/ue_defaultPath.go: every simple path between two named nodes, found by a
    backtracking search along links from A to B. */
module AllPaths {
  import opened Topology

  /** Names that a link leads to. */
  function Ends(links: seq<UPLink>): set<string> {
    set i | 0 <= i < |links| :: links[i].b
  }

  // ----- what the search enumerates -----

  /** The paths from `src` that avoid `visited`, in the order of the links, each with `src` in front. */
  function PathsFrom(src: string, dest: string, links: seq<UPLink>, visited: set<string>): seq<seq<string>>
    decreases Ends(links) + {src} - visited, 0
  {
    if src in visited then []
    else if src == dest then [[src]]
    else WithPrefix([src], PathsVia(src, dest, links, visited + {src}, 0))
  }

  /** The continuations along the links from `src` that start at index `i`. */
  function PathsVia(src: string, dest: string, links: seq<UPLink>, visited: set<string>, i: nat): seq<seq<string>>
    requires src in visited && i <= |links|
    decreases Ends(links) - visited, |links| - i
  {
    if i == |links| then []
    else
      assert Ends(links) + {links[i].b} == Ends(links);
      (if links[i].a == src then PathsFrom(links[i].b, dest, links, visited) else [])
      + PathsVia(src, dest, links, visited, i + 1)
  }

  function WithPrefix(prefix: seq<string>, paths: seq<seq<string>>): (r: seq<seq<string>>)
    ensures |r| == |paths| && forall i :: 0 <= i < |r| ==> r[i] == prefix + paths[i]
  {
    seq(|paths|, i requires 0 <= i < |paths| => prefix + paths[i])
  }

  // ----- the independent meaning: simple directed paths -----

  /** A path along links from `src` to `dest` that repeats no node and avoids `visited`. */
  ghost predicate IsPath(p: seq<string>, src: string, dest: string, links: seq<UPLink>, visited: set<string>) {
    && p != [] && p[0] == src && p[|p| - 1] == dest
    && (forall i :: 0 <= i < |p| - 1 ==> UPLink(p[i], p[i + 1]) in links)
    && (forall i, j :: 0 <= i < j < |p| ==> p[i] != p[j])
    && (forall i :: 0 <= i < |p| ==> p[i] !in visited)
  }

  lemma TailIsPath(p: seq<string>, src: string, dest: string, links: seq<UPLink>, visited: set<string>)
    requires IsPath(p, src, dest, links, visited) && src != dest
    ensures var tail := p[1..];
            tail != [] && p == [src] + tail && UPLink(src, tail[0]) in links
            && IsPath(tail, tail[0], dest, links, visited + {src})
  {
    assert UPLink(p[0], p[1]) in links;
  }

  lemma {:induction false} PathsFromExact(p: seq<string>, src: string, dest: string, links: seq<UPLink>,
                                          visited: set<string>)
    ensures p in PathsFrom(src, dest, links, visited) <==> IsPath(p, src, dest, links, visited)
    decreases Ends(links) + {src} - visited, 0
  {
    if src == dest {
      assert IsPath([src], src, dest, links, visited) <==> src !in visited;
      assert IsPath(p, src, dest, links, visited) ==> p == [src];
    } else if src !in visited {
      var tails := PathsVia(src, dest, links, visited + {src}, 0);
      if p in WithPrefix([src], tails) {
        var k :| 0 <= k < |tails| && p == [src] + tails[k];
        PathsViaExact(tails[k], src, dest, links, visited + {src}, 0);
      }
      if IsPath(p, src, dest, links, visited) {
        var tail := p[1..];
        TailIsPath(p, src, dest, links, visited);
        PathsViaExact(tail, src, dest, links, visited + {src}, 0);
        var k :| 0 <= k < |tails| && tails[k] == tail;
        assert WithPrefix([src], tails)[k] == p;
      }
    }
  }

  lemma {:induction false} PathsViaExact(p: seq<string>, src: string, dest: string, links: seq<UPLink>,
                                         visited: set<string>, i: nat)
    requires src in visited && i <= |links|
    ensures p in PathsVia(src, dest, links, visited, i)
            <==> p != [] && UPLink(src, p[0]) in links[i..] && IsPath(p, p[0], dest, links, visited)
    decreases Ends(links) - visited, |links| - i
  {
    if i < |links| {
      assert Ends(links) + {links[i].b} == Ends(links);
      PathsViaExact(p, src, dest, links, visited, i + 1);
      PathsFromExact(p, links[i].b, dest, links, visited);
      assert links[i..] == [links[i]] + links[i + 1..];
    }
  }

  ghost predicate NoRepeats<T>(s: seq<T>) {
    forall i, j :: 0 <= i < j < |s| ==> s[i] != s[j]
  }

  lemma ConcatOnce<T>(a: seq<T>, b: seq<T>)
    requires NoRepeats(a) && NoRepeats(b) && forall x <- a :: x !in b
    ensures NoRepeats(a + b)
  {
    forall i, j | 0 <= i < j < |a + b| ensures (a + b)[i] != (a + b)[j] {
      if i < |a| { assert a[i] in a; }
    }
  }

  /** Without duplicate links every path is enumerated once. */
  lemma {:induction false} PathsFromOnce(src: string, dest: string, links: seq<UPLink>, visited: set<string>)
    requires NoRepeats(links)
    ensures NoRepeats(PathsFrom(src, dest, links, visited))
    decreases Ends(links) + {src} - visited, 0
  {
    if src !in visited && src != dest {
      PathsViaOnce(src, dest, links, visited + {src}, 0);
      var tails := PathsVia(src, dest, links, visited + {src}, 0);
      forall i, j | 0 <= i < j < |tails| ensures [src] + tails[i] != [src] + tails[j] {
        assert ([src] + tails[i])[1..] == tails[i] && ([src] + tails[j])[1..] == tails[j];
      }
    }
  }

  lemma {:induction false} PathsViaOnce(src: string, dest: string, links: seq<UPLink>, visited: set<string>, i: nat)
    requires NoRepeats(links) && src in visited && i <= |links|
    ensures NoRepeats(PathsVia(src, dest, links, visited, i))
    decreases Ends(links) - visited, |links| - i
  {
    if i < |links| {
      assert Ends(links) + {links[i].b} == Ends(links);
      PathsViaOnce(src, dest, links, visited, i + 1);
      if links[i].a == src {
        var here, rest := PathsFrom(links[i].b, dest, links, visited), PathsVia(src, dest, links, visited, i + 1);
        PathsFromOnce(links[i].b, dest, links, visited);
        forall p | p in here ensures p !in rest {
          PathsFromExact(p, links[i].b, dest, links, visited);
          PathsViaExact(p, src, dest, links, visited, i + 1);
        }
        ConcatOnce(here, rest);
      }
    }
  }

  // ----- the search itself -----

  class PathSearch {
    var visited: set<string>
    var allPaths: map<int, seq<string>>
    var count: nat
    ghost var found: seq<seq<string>>   // the paths so far, each with its start in front

    ghost predicate Valid()
      reads this
    {
      && count == |found|
      && (forall i :: i in allPaths <==> 0 <= i < count)
      && forall i :: 0 <= i < count ==> found[i] != [] && allPaths[i] == found[i][1..]
    }

    constructor ()
      ensures Valid() && visited == {} && found == []
    {
      visited, allPaths, count, found := {}, map[], 0, [];
    }

    /** findPath: adds every continuation of `currentPath` and leaves the visited map as it was. */
    method FindPath(src: string, dest: string, links: seq<UPLink>, currentPath: seq<string>)
      requires Valid()
      modifies this
      ensures Valid() && visited == old(visited)
      ensures found == old(found) + WithPrefix(currentPath, PathsFrom(src, dest, links, old(visited)))
      decreases Ends(links) + {src} - visited
    {
      if src in visited {
        assert found == found + [];
        return;
      }
      ghost var before := visited;
      visited := visited + {src};
      var path := currentPath + [src];
      if src == dest {
        allPaths := allPaths[count := path[1..]];
        count := count + 1;
        found := found + [path];
        visited := visited - {src};
        return;
      }
      ghost var tails := PathsVia(src, dest, links, visited, 0);
      assert found + WithPrefix(path, tails) == old(found) + WithPrefix(path, tails);
      for i := 0 to |links|
        invariant Valid() && visited == before + {src}
        invariant found + WithPrefix(path, PathsVia(src, dest, links, visited, i)) == old(found)
                  + WithPrefix(path, tails)
      {
        assert Ends(links) + {links[i].b} == Ends(links);
        if links[i].a == src {
          PrefixSplits(path, PathsFrom(links[i].b, dest, links, visited), PathsVia(src, dest, links, visited, i + 1));
          FindPath(links[i].b, dest, links, path);
        }
      }
      visited := visited - {src};
      PrefixGrows(currentPath, src, tails);
    }
  }

  lemma PrefixSplits(prefix: seq<string>, a: seq<seq<string>>, b: seq<seq<string>>)
    ensures WithPrefix(prefix, a + b) == WithPrefix(prefix, a) + WithPrefix(prefix, b)
  {
  }

  lemma PrefixGrows(prefix: seq<string>, src: string, tails: seq<seq<string>>)
    ensures WithPrefix(prefix + [src], tails) == WithPrefix(prefix, WithPrefix([src], tails))
  {
    forall i | 0 <= i < |tails| ensures prefix + [src] + tails[i] == prefix + ([src] + tails[i]) {}
  }

  /** getAllPathByNodeName: exactly the simple paths from A to B, each with its start dropped. */
  method GetAllPathByNodeName(src: string, dest: string, links: seq<UPLink>)
    returns (allPaths: map<int, seq<string>>, count: int)
    ensures forall i :: i in allPaths <==> 0 <= i < count
    ensures forall i :: 0 <= i < count ==> IsPath([src] + allPaths[i], src, dest, links, {})
    ensures forall p :: IsPath(p, src, dest, links, {}) ==> exists i :: 0 <= i < count && allPaths[i] == p[1..]
    ensures NoRepeats(links) ==> forall i, j :: 0 <= i < j < count ==> allPaths[i] != allPaths[j]
  {
    var search := new PathSearch();
    search.FindPath(src, dest, links, []);
    allPaths, count := search.allPaths, search.count;
    ghost var found := search.found;
    ghost var paths := PathsFrom(src, dest, links, {});
    assert forall i :: 0 <= i < |paths| ==> [] + paths[i] == paths[i];
    assert found == paths;
    forall p ensures p in found <==> IsPath(p, src, dest, links, {}) {
      PathsFromExact(p, src, dest, links, {});
    }
    forall i | 0 <= i < count ensures [src] + allPaths[i] == found[i] {
      assert found[i] in found;
    }
    if NoRepeats(links) { PathsFromOnce(src, dest, links, {}); }
  }
}
