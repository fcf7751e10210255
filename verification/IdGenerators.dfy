/** The id generators of free5GC: an id of a range that is not in use, or an error. */
module IdGenerators {
  import opened Wrappers

  ghost function FreeIds(used: set<nat>, max: nat): set<nat> {
    set i: nat | 1 <= i <= max && i !in used
  }

  /** How many ids are left. */
  ghost function Left(used: set<nat>, max: nat): nat {
    |FreeIds(used, max)|
  }

  method AllocateID(used: set<nat>, max: nat) returns (id: Option<nat>)
    ensures id.Some? <==> Left(used, max) > 0
    ensures id.Some?
            ==> 1 <= id.value <= max && id.value !in used && Left(used + {id.value}, max) == Left(used, max) - 1
  {
    if i: nat :| 1 <= i <= max && i !in used {
      assert i in FreeIds(used, max);
      assert FreeIds(used + {i}, max) == FreeIds(used, max) - {i};
      id := Some(i);
    } else {
      assert FreeIds(used, max) == {};
      id := None;
    }
  }

  /** As many ids are left as listed ones are free. */
  lemma {:induction false} AtLeast(used: set<nat>, max: nat, ids: set<nat>)
    requires ids <= FreeIds(used, max)
    ensures Left(used, max) >= |ids|
  {
    var rest := FreeIds(used, max) - ids;
    assert FreeIds(used, max) == ids + rest;
  }
}
