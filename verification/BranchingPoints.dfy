/** internal/context/bp_manager.go: the second anchor path and the branching point of a session. */
module BranchingPoints {
  import opened Wrappers

  /** A UPF, as an object and by its NodeID. Paths are compared by NodeID, results are kept by object. */
  datatype Upf = Upf(object_: nat, nodeId: nat)

  datatype Path = Path(upfs: seq<Upf>, activated: bool, hasInterfaces: bool)

  /** The longest shared prefix of two paths. */
  function Shared(p: seq<Upf>, q: seq<Upf>): (n: nat)
    ensures n <= |p| && n <= |q|
  {
    if p == [] || q == [] || p[0].nodeId != q[0].nodeId then 0 else 1 + Shared(p[1..], q[1..])
  }

  lemma {:induction false} SharedIsLongest(p: seq<Upf>, q: seq<Upf>)
    ensures forall i :: 0 <= i < Shared(p, q) ==> p[i].nodeId == q[i].nodeId
    ensures Shared(p, q) < |p| && Shared(p, q) < |q| ==> p[Shared(p, q)].nodeId != q[Shared(p, q)].nodeId
  {
    if p != [] && q != [] && p[0].nodeId == q[0].nodeId {
      SharedIsLongest(p[1..], q[1..]);
      forall i | 0 < i < Shared(p, q)
        ensures p[i].nodeId == q[i].nodeId
      {
        assert p[i] == p[1..][i - 1] && q[i] == q[1..][i - 1];
      }
    }
  }

  /** The activated path ends while the activating one goes on with the same nodes so far. */
  predicate Overrun(activated: seq<Upf>, activating: seq<Upf>) {
    Shared(activated, activating) == |activated| < |activating|
  }

  /** The longest prefix of a path that it shares with any of the others. */
  function LongestShared(activating: seq<Upf>, others: seq<seq<Upf>>): (n: nat)
    ensures n <= |activating|
  {
    if others == [] then 0
    else
      var k := |others| - 1;
      var n := LongestShared(activating, others[..k]);
      if Shared(others[k], activating) > n then Shared(others[k], activating) else n
  }

  lemma {:induction false} LongestSharedIs(activating: seq<Upf>, others: seq<seq<Upf>>)
    ensures forall i :: 0 <= i < |others| ==> Shared(others[i], activating) <= LongestShared(activating, others)
    ensures LongestShared(activating, others) == 0 || exists i ::
              0 <= i < |others| && Shared(others[i], activating) == LongestShared(activating, others)
  {
    if others != [] {
      var k := |others| - 1;
      LongestSharedIs(activating, others[..k]);
      assert forall i :: 0 <= i < k ==> others[..k][i] == others[i];
    }
  }

  /** Every UPF on a path, with its first position counted from 1. */
  function Positions(p: seq<Upf>): map<nat, nat> {
    if p == [] then map[]
    else
      var k := |p| - 1;
      var m := Positions(p[..k]);
      if p[k].object_ in m then m else m[p[k].object_ := k + 1]
  }

  predicate FirstAt(p: seq<Upf>, upf: nat, n: nat) {
    1 <= n <= |p| && p[n - 1].object_ == upf && forall i :: 0 <= i < n - 1 ==> p[i].object_ != upf
  }

  lemma {:induction false} PositionsAreFirst(p: seq<Upf>)
    ensures forall i :: 0 <= i < |p| ==> p[i].object_ in Positions(p)
    ensures forall u :: u in Positions(p) ==> FirstAt(p, u, Positions(p)[u])
  {
    if p != [] {
      var k := |p| - 1;
      var m := Positions(p[..k]);
      PositionsAreFirst(p[..k]);
      forall i | 0 <= i < k
        ensures p[i].object_ in m
      {
        assert p[..k][i] == p[i];
      }
      forall u | u in m
        ensures FirstAt(p, u, m[u])
      {
        assert FirstAt(p[..k], u, m[u]);
      }
    }
  }

  /** The part of the path that is recorded after `depth` steps, when `known` was before. */
  function Seen(path: seq<Upf>, depth: nat, known: nat): seq<Upf>
    requires depth <= |path| && known <= |path|
  {
    path[..if depth > known then depth else known]
  }

  lemma RecordMore(path: seq<Upf>, depth: nat, known: nat)
    requires depth < |path| && known <= |path|
    ensures var points, upf := Positions(Seen(path, depth, known)), path[depth].object_;
            Positions(Seen(path, depth + 1, known)) == if upf in points then points else points[upf := depth + 1]
  {
    if depth >= known {
      assert path[..depth + 1][..depth] == path[..depth];
    } else {
      PositionsAreFirst(path[..known]);
      assert path[..known][depth] == path[depth];
    }
  }

  /** The UPF with the greatest position. */
  predicate Deepest(upf: Option<nat>, points: map<nat, nat>) {
    upf.Some? && upf.value in points && forall u :: u in points ==> points[u] <= points[upf.value]
  }

  /** So the choice does not depend on the order of paths or map entries, and on a path of
      distinct UPFs it is the last one shared. */
  lemma DeepestIsUnique(u: nat, v: nat, prefix: seq<Upf>)
    requires Deepest(Some(u), Positions(prefix)) && Deepest(Some(v), Positions(prefix))
    ensures u == v
    ensures (forall i, j :: 0 <= i < j < |prefix| ==> prefix[i].object_ != prefix[j].object_)
            ==> u == prefix[|prefix| - 1].object_
  {
    PositionsAreFirst(prefix);
    assert prefix[|prefix| - 1].object_ in Positions(prefix);
  }

  class BPManager {
    var activatedPaths: seq<seq<Upf>>
    var activatingPath: seq<Upf>
    var updatedBranchingPoint: map<nat, nat>
    var ulcl: Option<nat>

    /** Records the activating path's UPFs up to the longest prefix shared with any activated
        path, and picks the last one. It fails exactly if an activated path is overrun. */
    method FindULCL() returns (ok: bool)
      modifies this`updatedBranchingPoint, this`ulcl
      ensures ok <==> forall i :: 0 <= i < |activatedPaths| ==> !Overrun(activatedPaths[i], activatingPath)
      ensures ok ==> var n := LongestShared(activatingPath, activatedPaths);
                     && updatedBranchingPoint == Positions(activatingPath[..n])
                     && if n == 0 then ulcl == old(ulcl) else Deepest(ulcl, updatedBranchingPoint)
    {
      updatedBranchingPoint := map[];
      var i := 0;
      while i < |activatedPaths|
        invariant i <= |activatedPaths|
        invariant forall k :: 0 <= k < i ==> !Overrun(activatedPaths[k], activatingPath)
        invariant updatedBranchingPoint
                  == Positions(activatingPath[..LongestShared(activatingPath, activatedPaths[..i])])
        invariant ulcl == old(ulcl)
      {
        ok := Follow(activatedPaths[i], LongestShared(activatingPath, activatedPaths[..i]));
        if !ok { return false; }
        assert activatedPaths[..i + 1][..i] == activatedPaths[..i];
        i := i + 1;
      }
      assert activatedPaths[..i] == activatedPaths;
      PositionsAreFirst(activatingPath[..LongestShared(activatingPath, activatedPaths)]);
      PickDeepest();
      ok := true;
    }

    // The inner loop: both cursors advance while the nodes are the same.
    method Follow(psa1: seq<Upf>, ghost known: nat) returns (ok: bool)
      requires known <= |activatingPath| && updatedBranchingPoint == Positions(activatingPath[..known])
      modifies this`updatedBranchingPoint
      ensures ok <==> !Overrun(psa1, activatingPath)
      ensures ok ==> var n := Shared(psa1, activatingPath);
                     updatedBranchingPoint == Positions(Seen(activatingPath, n, known))
    {
      var depth := 0;
      while depth < |activatingPath|
        invariant depth <= |activatingPath| && depth <= |psa1|
        invariant Shared(psa1, activatingPath) == depth + Shared(psa1[depth..], activatingPath[depth..])
        invariant updatedBranchingPoint == Positions(Seen(activatingPath, depth, known))
      {
        if depth == |psa1| { return false; }
        if activatingPath[depth].nodeId != psa1[depth].nodeId { break; }
        var upf := activatingPath[depth].object_;
        RecordMore(activatingPath, depth, known);
        depth := depth + 1;
        if upf !in updatedBranchingPoint {
          updatedBranchingPoint := updatedBranchingPoint[upf := depth];
        }
      }
      ok := true;
    }

    method PickDeepest()
      requires forall u :: u in updatedBranchingPoint ==> updatedBranchingPoint[u] > 0
      modifies this`ulcl
      ensures if updatedBranchingPoint == map[] then ulcl == old(ulcl) else Deepest(ulcl, updatedBranchingPoint)
    {
      var maxDepth := 0;
      var todo := updatedBranchingPoint.Keys;
      while todo != {}
        invariant todo <= updatedBranchingPoint.Keys
        invariant if maxDepth == 0 then ulcl == old(ulcl) && todo == updatedBranchingPoint.Keys
                  else ulcl.Some? && ulcl.value in updatedBranchingPoint && updatedBranchingPoint[ulcl.value] == maxDepth
        invariant forall u :: u in updatedBranchingPoint && u !in todo ==> updatedBranchingPoint[u] <= maxDepth
        decreases todo
      {
        var upf := AnyOf(todo);
        todo := todo - {upf};
        if updatedBranchingPoint[upf] > maxDepth {
          ulcl := Some(upf);
          maxDepth := updatedBranchingPoint[upf];
        }
      }
    }

    /** The activated paths, in any order, and some other path with the interfaces that a second
        anchor needs; without one the activating path stays what it was. */
    method SelectPSA2(pool: map<nat, Path>)
      modifies this`activatedPaths, this`activatingPath
      ensures forall upfs ::
                upfs in activatedPaths <==> exists id :: id in pool && pool[id].activated && pool[id].upfs == upfs
      ensures if exists id :: id in pool && Fit(pool[id])
              then exists id :: id in pool && Fit(pool[id]) && activatingPath == pool[id].upfs
              else activatingPath == old(activatingPath)
    {
      var hasSelectPSA2 := false;
      activatedPaths := [];
      var todo := pool.Keys;
      while todo != {}
        invariant todo <= pool.Keys
        invariant forall upfs :: upfs in activatedPaths <==> exists id ::
                  id in pool && id !in todo && pool[id].activated && pool[id].upfs == upfs
        invariant hasSelectPSA2 <==> exists id :: id in pool && id !in todo && Fit(pool[id])
        invariant if hasSelectPSA2 then exists id :: id in pool && Fit(pool[id]) && activatingPath == pool[id].upfs
                  else activatingPath == old(activatingPath)
        decreases todo
      {
        var id := AnyOf(todo);
        todo := todo - {id};
        if pool[id].activated {
          activatedPaths := activatedPaths + [pool[id].upfs];
        } else if !hasSelectPSA2 && pool[id].hasInterfaces {
          activatingPath := pool[id].upfs;
          hasSelectPSA2 := true;
        }
      }
    }
  }

  predicate Fit(p: Path) {
    !p.activated && p.hasInterfaces
  }

  /** The activated path ends at A, and the activating one goes on from there. */
  method OverrunRun() returns (ok: bool)
    ensures !ok
  {
    var manager := new BPManager;
    var a, b := Upf(1, 1), Upf(2, 2);
    manager.activatedPaths, manager.activatingPath := [[a]], [a, b];
    assert Overrun([a], [a, b]) by { assert [a][1..] == []; }
    ok := manager.FindULCL();
  }
}
