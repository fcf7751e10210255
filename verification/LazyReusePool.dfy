/** internal/context/pool/lazyReusePool.go: the linked list of free intervals, rewritten in
    place. Every method is proved to compute the operation on lists of PoolList. */
module LazyReusePool {
  import opened PoolList
  import opened PoolOrder

  class Segment {
    var first: int
    var last: int
    var next: Segment?

    constructor (first: int, last: int, next: Segment?)
      ensures this.first == first && this.last == last && this.next == next
    {
      this.first, this.last, this.next := first, last, next;
    }

    function Span(): Interval
      reads this
    {
      Interval(first, last)
    }

    /** Takes one value out of a segment; a middle value leaves a new segment behind this one,
        and the last value that is left leaves an empty segment. */
    method Split(value: int) returns (ok: bool, ghost added: set<Segment>)
      modifies this
      ensures ok == (old(first) <= value <= old(last))
      ensures !ok ==> unchanged(this)
      ensures ok ==> Values(Pieces(old(next))) == TakeOut(Listed(old(Span())), value)
      ensures ok && old(first < last) ==> Became(SplitAt(old(Span()), value), old(next), added)
      ensures ok && old(first == last) ==> first == last + 1 && next == old(next) && added == {}
      ensures fresh(added)
    {
      added := {};
      if value < first || value > last { return false, added; }
      SplitKeepsOrder(Span(), value);
      ValuesOfOne(Interval(value + 1, value));
      if value == first {
        first := first + 1;
      } else if value == last {
        last := last - 1;
      } else {
        var rest := new Segment(value + 1, last, next);
        next := rest;
        last := value - 1;
        added := {rest};
      }
      return true, added;
    }

    /** The intervals from this segment up to its former successor. */
    ghost function Pieces(successor: Segment?): seq<Interval>
      reads this, next
    {
      if next == null || next == successor then [Span()] else [Span(), next.Span()]
    }

    /** The segment was replaced by one or two pieces, the second one a new segment. */
    ghost predicate Became(pieces: seq<Interval>, successor: Segment?, added: set<Segment>)
      reads this, next
    {
      if |pieces| == 1 then Span() == pieces[0] && next == successor && added == {}
      else |pieces| == 2 && Span() == pieces[0] && next != null && added == {next}
           && next.Span() == pieces[1] && next.next == successor
    }

    /** Cuts [first, last] out of a segment that it does not cover. */
    method CutOut(first: int, last: int) returns (removed: int, ghost added: set<Segment>)
      requires this.first <= this.last && first <= last && !(this.first >= first && this.last <= last)
      modifies this
      ensures Became(Cut(old(Span()), first, last), old(next), added) && fresh(added)
      ensures Values(Pieces(old(next))) == Without(Listed(old(Span())), Interval(first, last))
      ensures removed == old(this.last) - old(this.first) + 1 - Size(Cut(old(Span()), first, last))
    {
      removed, added := 0, {};
      CutKeepsOrder(Span(), first, last);
      ghost var parts := Cut(Span(), first, last);
      if this.first >= first && this.first <= last && this.last > last {
        removed := last - this.first + 1;
        this.first := last + 1;
      } else if this.first < first && this.last >= first && this.last <= last {
        removed := this.last - first + 1;
        this.last := first - 1;
      } else if this.first < first && this.last > last {
        next := new Segment(last + 1, this.last, next);
        this.last := first - 1;
        removed, added := last - first + 1, {next};
        Cons(parts[0], [parts[1]]);
        Singleton(parts[1]);
      }
      Singleton(parts[0]);
    }

    /** Grows the segment by one value and swallows its successor when they touch. */
    method ExtendLast()
      requires next != this
      modifies this
      ensures first == old(first)
      ensures if old(next) != null && old(last) + 2 == old(next.first)
              then last == old(next.last) && next == old(next.next)
              else last == old(last) + 1 && next == old(next)
    {
      last := last + 1;
      if next != null && last + 1 == next.first {
        last := next.last;
        next := next.next;
      }
    }
  }

  /** The successor that the k-th segment of a list should have. */
  ghost function Successor(ns: seq<Segment>, k: int): Segment?
    requires 0 <= k < |ns|
  {
    if k + 1 < |ns| then ns[k + 1] else null
  }

  ghost predicate Distinct(ns: seq<Segment>) {
    forall i, j :: 0 <= i < j < |ns| ==> ns[i] != ns[j]
  }

  /** `ns` is a null-terminated list without a cycle. */
  ghost predicate Chain(ns: seq<Segment>)
    reads ns
  {
    Distinct(ns) && forall i :: 0 <= i < |ns| ==> ns[i].next == Successor(ns, i)
  }

  /** The segments hold the intervals, one by one. */
  ghost predicate Mirrors(ns: seq<Segment>, segs: seq<Interval>)
    reads ns
  {
    |segs| == |ns| && forall i :: 0 <= i < |ns| ==> ns[i].Span() == segs[i]
  }

  /** A chain of segments taken from `repr` that holds the intervals. */
  ghost predicate ListOf(ns: seq<Segment>, segs: seq<Interval>, repr: set<Segment>)
    reads repr
  {
    (forall i :: 0 <= i < |ns| ==> ns[i] in repr) && Chain(ns) && Mirrors(ns, segs)
  }

  // The k-th segment changed its bounds.
  lemma ResizeKeeps(ns: seq<Segment>, segs: seq<Interval>, k: nat, repr: set<Segment>)
    requires k < |ns| == |segs| && Chain(ns)
    requires forall i :: 0 <= i < |ns| ==> ns[i] in repr && (i != k ==> ns[i].Span() == segs[i])
    ensures ListOf(ns, segs[..k] + [ns[k].Span()] + segs[k + 1..], repr)
  {
  }

  // A new segment was linked in behind the k-th, which may have been shortened.
  lemma InsertKeeps(ns: seq<Segment>, segs: seq<Interval>, k: nat, m: Segment, repr: set<Segment>)
    requires Distinct(ns) && k < |ns| == |segs| && m !in ns
    requires forall i :: 0 <= i < |ns| ==> ns[i] in repr
    requires forall i :: 0 <= i < |ns| && i != k ==> ns[i].next == Successor(ns, i) && ns[i].Span() == segs[i]
    requires ns[k].next == m && m.next == Successor(ns, k)
    ensures ListOf(ns[..k + 1] + [m] + ns[k + 1..], segs[..k] + [ns[k].Span(), m.Span()] + segs[k + 1..], repr + {m})
  {
    var out, list := ns[..k + 1] + [m] + ns[k + 1..], segs[..k] + [ns[k].Span(), m.Span()] + segs[k + 1..];
    forall i | 0 <= i < |out|
      ensures out[i] in repr + {m} && out[i].next == Successor(out, i) && out[i].Span() == list[i]
    {
      if i > k + 1 { assert out[i] == ns[i - 1]; }
    }
  }

  // The k-th segment became one or two pieces.
  lemma SplitKeeps(ns: seq<Segment>, segs: seq<Interval>, k: nat, pieces: seq<Interval>, repr: set<Segment>,
                   added: set<Segment>)
    returns (out: seq<Segment>)
    requires Distinct(ns) && k < |ns| == |segs| && (forall i :: 0 <= i < |ns| ==> ns[i] in repr)
    requires forall i :: 0 <= i < |ns| && i != k ==> ns[i].next == Successor(ns, i) && ns[i].Span() == segs[i]
    requires ns[k].Became(pieces, Successor(ns, k), added) && added !! repr
    ensures ListOf(out, segs[..k] + pieces + segs[k + 1..], repr + added)
    ensures out != [] && out[0] == ns[0] && |out| == |ns| + |pieces| - 1 && out[k] == ns[k]
  {
    if |pieces| == 1 {
      ResizeKeeps(ns, segs, k, repr);
      assert pieces == [ns[k].Span()] && repr + added == repr;
      out := ns;
    } else {
      InsertKeeps(ns, segs, k, ns[k].next, repr);
      assert pieces == [ns[k].Span(), ns[k].next.Span()];
      out := ns[..k + 1] + [ns[k].next] + ns[k + 1..];
    }
  }

  // The k-th segment was linked out.
  lemma RemoveKeeps(ns: seq<Segment>, segs: seq<Interval>, k: nat, repr: set<Segment>)
    requires Distinct(ns) && Mirrors(ns, segs) && k < |ns|
    requires forall i :: 0 <= i < |ns| ==> ns[i] in repr
    requires forall i :: 0 <= i < |ns| && i != k && i != k - 1 ==> ns[i].next == Successor(ns, i)
    requires k > 0 ==> ns[k - 1].next == Successor(ns, k)
    ensures ListOf(ns[..k] + ns[k + 1..], segs[..k] + segs[k + 1..], repr)
  {
    var out, list := ns[..k] + ns[k + 1..], segs[..k] + segs[k + 1..];
    forall i | 0 <= i < |out|
      ensures out[i] in repr && out[i].next == Successor(out, i) && out[i].Span() == list[i]
    {
      if i >= k { assert out[i] == ns[i + 1]; }
    }
  }

  // What Use and Free need to know of the counter and of the range.
  lemma UseCounts(segs: seq<Interval>, lo: int, hi: int, value: int)
    requires InRange(segs, lo, hi)
    ensures var out := UseList(segs, value);
            InRange(out, lo, hi)
            && if exists i :: 0 <= i < |segs| && Holds(segs[i], value) then Size(out) == Size(segs) - 1 else out == segs
  {
    UseTakes(segs, lo, hi, value);
    InFreeSet(segs, value);
  }

  lemma FreeCounts(segs: seq<Interval>, lo: int, hi: int, value: int)
    requires InRange(segs, lo, hi)
    ensures var r := FreeList(segs, lo, hi, value);
            r.Accepted? ==> r.segs != [] && InRange(r.segs, lo, hi) && Size(r.segs) == Size(segs) + 1
  {
    FreeAdds(segs, lo, hi, value);
  }

  // Use and Reserve keep the order of the values and of the segments.
  lemma UseOrder(segs: seq<Interval>, lo: int, hi: int, value: int)
    requires InRange(segs, lo, hi)
    ensures Values(UseList(segs, value)) == TakeOut(Values(segs), value)
    ensures Ascending(segs) ==> Ascending(UseList(segs, value))
  {
    UseKeepsOrder(segs, value);
    if Ascending(segs) { UseKeepsAscending(segs, lo, hi, value); }
  }

  lemma ReserveOrder(segs: seq<Interval>, lo: int, hi: int, first: int, last: int)
    requires InRange(segs, lo, hi) && first <= last
    ensures Values(ReserveList(segs, first, last)) == Without(Values(segs), Interval(first, last))
    ensures Ascending(segs) ==> Ascending(ReserveList(segs, first, last))
  {
    ReserveKeepsOrder(segs, lo, hi, first, last);
    if Ascending(segs) { ReserveKeepsAscending(segs, lo, hi, first, last); }
  }

  lemma FreePutsBehind(segs: seq<Interval>, lo: int, hi: int, value: int)
    requires InRange(segs, lo, hi)
    ensures var r := FreeList(segs, lo, hi, value);
            r.Accepted? ==> PutBehind(Values(segs), Values(r.segs), value, HeadSize(segs))
  {
    if FreeList(segs, lo, hi, value).Accepted? { FreePuts(segs, lo, hi, value); }
  }

  // The k-th segment grew over its successor, which drops out of the list.
  lemma JoinKeeps(ns: seq<Segment>, segs: seq<Interval>, k: nat, repr: set<Segment>)
    requires Distinct(ns) && k + 1 < |ns| == |segs|
    requires forall i :: 0 <= i < |ns| ==> ns[i] in repr
    requires forall i :: 0 <= i < |ns| && i != k ==> ns[i].next == Successor(ns, i) && ns[i].Span() == segs[i]
    requires ns[k].next == ns[k + 1].next
    ensures ListOf(ns[..k + 1] + ns[k + 2..], segs[..k] + [ns[k].Span()] + segs[k + 2..], repr)
  {
    var out, list := ns[..k + 1] + ns[k + 2..], segs[..k] + [ns[k].Span()] + segs[k + 2..];
    forall i | 0 <= i < |out|
      ensures out[i] in repr && out[i].next == Successor(out, i) && out[i].Span() == list[i]
    {
      if i > k { assert out[i] == ns[i + 1]; }
    }
  }

  lemma {:induction false} UseNone(segs: seq<Interval>, value: int)
    requires forall i :: 0 <= i < |segs| ==> !Holds(segs[i], value)
    ensures UseList(segs, value) == segs
  {
    if segs != [] { UseNone(segs[1..], value); }
  }

  // Use finds the first segment that holds the value.
  lemma {:induction false} UseAt(segs: seq<Interval>, k: nat, value: int)
    requires k < |segs| && Holds(segs[k], value) && forall i :: 0 <= i < k ==> !Holds(segs[i], value)
    ensures UseList(segs, value) == segs[..k] + SplitAt(segs[k], value) + segs[k + 1..]
  {
    if k > 0 {
      UseAt(segs[1..], k - 1, value);
      assert segs[..k] == [segs[0]] + segs[1..][..k - 1];
    }
  }

  predicate Touches(segs: seq<Interval>, k: nat)
    requires k < |segs|
  {
    k + 1 < |segs| && segs[k].last + 2 == segs[k + 1].first
  }

  lemma ExtendAt(segs: seq<Interval>, k: nat)
    requires k < |segs|
    ensures segs[..k] + PoolList.ExtendLast(segs[k..])
            == if Touches(segs, k) then segs[..k] + [Interval(segs[k].first, segs[k + 1].last)] + segs[k + 2..]
               else segs[..k] + [Interval(segs[k].first, segs[k].last + 1)] + segs[k + 1..]
  {
    assert segs[k..][1..] == segs[k + 1..];
    if k + 1 < |segs| { assert segs[k..][2..] == segs[k + 2..]; }
  }

  // The k-th segment has grown.
  lemma ExtendKeeps(ns: seq<Segment>, segs: seq<Interval>, k: nat, repr: set<Segment>)
    requires Distinct(ns) && k < |ns| == |segs|
    requires forall i :: 0 <= i < |ns| ==> ns[i] in repr
    requires forall i :: 0 <= i < |ns| && i != k ==> ns[i].next == Successor(ns, i) && ns[i].Span() == segs[i]
    requires if Touches(segs, k)
             then ns[k].next == ns[k + 1].next && ns[k].Span() == Interval(segs[k].first, segs[k + 1].last)
             else ns[k].next == Successor(ns, k) && ns[k].Span() == Interval(segs[k].first, segs[k].last + 1)
    ensures ListOf(if Touches(segs, k) then ns[..k + 1] + ns[k + 2..] else ns,
                   segs[..k] + PoolList.ExtendLast(segs[k..]), repr)
  {
    ExtendAt(segs, k);
    if Touches(segs, k) {
      JoinKeeps(ns, segs, k, repr);
    } else {
      ResizeKeeps(ns, segs, k, repr);
    }
  }

  lemma {:induction false} FreeTailFrom(segs: seq<Interval>, k: nat, value: int)
    requires 1 <= k < |segs| && forall i :: 1 <= i < k ==> RelativePosition(segs[i], value) == After
    ensures match FreeTail(segs[k..], value)
            case Refused => FreeTail(segs[1..], value).Refused?
            case Accepted(rest) => FreeTail(segs[1..], value) == Accepted(segs[1..k] + rest)
    decreases k
  {
    if k > 1 {
      var at := segs[k - 1..];
      assert at[0] == segs[k - 1] && at[1..] == segs[k..] && |at| > 1;
      FreeTailFrom(segs, k - 1, value);
      if FreeTail(segs[k..], value).Accepted? {
        var rest := FreeTail(segs[k..], value).segs;
        assert segs[1..k - 1] + ([segs[k - 1]] + rest) == segs[1..k] + rest;
      }
    } else {
      assert segs[1..1] == [];
    }
  }

  // The walk of Free has passed the segments before the k-th, which decides what happens.
  lemma FreeTailAt(segs: seq<Interval>, k: nat, value: int)
    requires 1 <= k < |segs| && forall i :: 1 <= i < k ==> RelativePosition(segs[i], value) == After
    ensures var r, there := FreeTail(segs[1..], value), FreeTail(segs[k..], value);
            r.Accepted? == there.Accepted? && (r.Accepted? ==> [segs[0]] + r.segs == segs[..k] + there.segs)
  {
    FreeTailFrom(segs, k, value);
    assert segs[..k] == [segs[0]] + segs[1..k];
  }

  /** The list in which Free has placed the value behind the head is `out`. */
  predicate Placed(segs: seq<Interval>, value: int, out: seq<Interval>) {
    segs != [] && |segs| > 1 && FreeTail(segs[1..], value).Accepted?
        && out == [segs[0]] + FreeTail(segs[1..], value).segs
  }

  predicate Passed(segs: seq<Interval>, k: int, value: int) {
    1 <= k < |segs| && forall i :: 1 <= i < k ==> RelativePosition(segs[i], value) == After
  }

  // The ways to place it at the k-th segment, as the list is rewritten.
  lemma PlaceBefore(segs: seq<Interval>, k: int, value: int)
    requires Passed(segs, k, value) && RelativePosition(segs[k], value) == Before
    ensures Placed(segs, value, segs[..k - 1] + [segs[k - 1], Interval(value, value)] + segs[k..])
  {
    FreeTailAt(segs, k, value);
    assert segs[..k] + ([Interval(value, value)] + segs[k..])
        == segs[..k - 1] + [segs[k - 1], Interval(value, value)] + segs[k..];
  }

  lemma PlaceInFront(segs: seq<Interval>, k: int, value: int)
    requires Passed(segs, k, value) && RelativePosition(segs[k], value) == AdjacentToFront
    ensures Placed(segs, value, segs[..k] + [Interval(value, segs[k].last)] + segs[k + 1..])
  {
    FreeTailAt(segs, k, value);
    assert segs[k..][1..] == segs[k + 1..];
  }

  lemma PlaceBehind(segs: seq<Interval>, k: int, value: int)
    requires Passed(segs, k, value) && RelativePosition(segs[k], value) == AdjacentToBack
    ensures Placed(segs, value, segs[..k] + PoolList.ExtendLast(segs[k..]))
  {
    FreeTailAt(segs, k, value);
  }

  lemma PlaceLast(segs: seq<Interval>, k: int, value: int)
    requires Passed(segs, k, value) && RelativePosition(segs[k], value) == After && k + 1 == |segs|
    ensures Placed(segs, value, segs[..k] + [segs[k], Interval(value, value)] + segs[k + 1..])
  {
    FreeTailAt(segs, k, value);
    assert segs[k..] == [segs[k]] && segs[k + 1..] == [];
  }

  /** The list that Reserve ends with, when the walk stands at the k-th segment. */
  function Reserving(segs: seq<Interval>, k: nat, first: int, last: int): seq<Interval>
    requires k <= |segs|
  {
    segs[..k] + ReserveList(segs[k..], first, last)
  }

  predicate NonEmptyFrom(segs: seq<Interval>, k: int) {
    forall i :: k <= i < |segs| ==> i < 0 || segs[i].first <= segs[i].last
  }

  // One step of the walk that keeps something of the k-th segment.
  lemma ReserveAt(segs: seq<Interval>, k: nat, first: int, last: int)
    requires k < |segs| && first <= last && NonEmptyFrom(segs, k) && Cut(segs[k], first, last) != []
    ensures var out := segs[..k] + Cut(segs[k], first, last) + segs[k + 1..];
            Reserving(out, k + 1, first, last) == Reserving(segs, k, first, last)
            && NonEmptyFrom(out, k + 1)
            && (|out| > |segs| ==> out[k + 1].last - out[k + 1].first < segs[k].last - segs[k].first)
  {
    var pieces, rest := Cut(segs[k], first, last), segs[k + 1..];
    var out := segs[..k] + pieces + rest;
    assert segs[k..][1..] == rest;
    assert out[..k + 1] == segs[..k] + [pieces[0]] && out[k + 1..] == pieces[1..] + rest;
    if |pieces| == 2 {
      assert pieces[1..] + rest == [pieces[1]] + rest && ([pieces[1]] + rest)[1..] == rest;
      assert pieces == [pieces[0]] + [pieces[1]];
    } else {
      assert pieces[1..] + rest == rest;
    }
  }

  // One step that drops it.
  lemma ReserveAll(segs: seq<Interval>, k: nat, first: int, last: int)
    requires k < |segs| && first <= last && NonEmptyFrom(segs, k) && Cut(segs[k], first, last) == []
    ensures var out := segs[..k] + segs[k + 1..];
            Reserving(out, k, first, last) == Reserving(segs, k, first, last)
            && NonEmptyFrom(out, k)
            && Size(out) == Size(segs) - (segs[k].last - segs[k].first + 1)
  {
    var out := segs[..k] + segs[k + 1..];
    assert segs[k..][1..] == segs[k + 1..];
    assert out[..k] == segs[..k] && out[k..] == segs[k + 1..];
    SizeAt(segs, k, []);
    assert segs[..k] + [] + segs[k + 1..] == out;
  }

  // The walk is over.
  lemma ReserveEnds(was: seq<Interval>, segs: seq<Interval>, lo: int, hi: int, first: int, last: int)
    requires InRange(was, lo, hi) && first <= last
    requires Reserving(segs, |segs|, first, last) == Reserving(was, 0, first, last)
    ensures segs == ReserveList(was, first, last) && InRange(segs, lo, hi)
  {
    assert segs[..|segs|] == segs && segs[|segs|..] == [] && was[..0] == [] && was[0..] == was;
    assert Reserving(segs, |segs|, first, last) == segs;
    assert Reserving(was, 0, first, last) == ReserveList(was, first, last);
    ReserveTakes(was, lo, hi, first, last);
  }

  lemma SizeAt(segs: seq<Interval>, k: nat, pieces: seq<Interval>)
    requires k < |segs|
    ensures Size(segs[..k] + pieces + segs[k + 1..]) == Size(segs) - (segs[k].last - segs[k].first + 1) + Size(pieces)
  {
    Concat(segs[..k] + pieces, segs[k + 1..]);
    Concat(segs[..k], pieces);
    Concat(segs[..k], segs[k..]);
    assert segs == segs[..k] + segs[k..] && segs[k..][1..] == segs[k + 1..];
  }

  class Pool {
    var head: Segment?
    const first: int
    const last: int
    var remain: int
    ghost var nodes: seq<Segment>   // the segments of the list, in order
    ghost var segs: seq<Interval>   // their intervals
    ghost var Repr: set<Segment>    // every segment the list may hold

    ghost predicate Linked()
      reads this, Repr
    {
      head == (if nodes == [] then null else nodes[0]) && ListOf(nodes, segs, Repr)
    }

    ghost predicate Valid()
      reads this, Repr
    {
      Linked() && InRange(segs, first, last) && remain == Size(segs)
    }

    constructor (first: int, last: int)
      requires first <= last
      ensures Valid() && fresh(Repr) && this.first == first && this.last == last
      ensures segs == [Interval(first, last)]
    {
      var segment := new Segment(first, last, null);
      this.head, this.first, this.last, this.remain := segment, first, last, last - first + 1;
      this.nodes, this.segs, this.Repr := [segment], [Interval(first, last)], {segment};
      new;
      Singleton(Interval(first, last));
    }

    /** NewLazyReusePool: null stands for the error. */
    static method New(first: int, last: int) returns (p: Pool?)
      ensures p == null <==> first > last
      ensures p != null ==> fresh(p) && fresh(p.Repr) && p.Valid() && p.first == first && p.last == last
                            && p.segs == [Interval(first, last)]
    {
      if first > last { return null; }
      p := new Pool(first, last);
    }

    method Allocate() returns (res: int, ok: bool)
      requires Valid()
      modifies this, Repr
      ensures Valid() && Repr == old(Repr)
      ensures ok == (old(segs) != []) && (ok ==> res == old(segs)[0].first)
      ensures segs == AllocateList(old(segs))
      ensures ok ==> old(Values(segs)) == [res] + Values(segs)
      ensures old(Ascending(segs)) ==> Ascending(segs)
    {
      if Ascending(segs) { AllocateKeepsAscending(segs, first, last); }
      if head == null { return 0, false; }
      AllocateTakes(segs, first, last);
      AllocateTakesFirst(segs, first, last);
      res := TakeFirst(head);
      remain := remain - 1;
      return res, true;
    }

    // Takes the first value of the head, which is left out once it is used up.
    method TakeFirst(cur: Segment) returns (res: int)
      requires Linked() && head == cur && cur.first <= cur.last
      modifies this`head, this`nodes, this`segs, cur`first
      ensures Linked() && old(segs) != [] && res == old(segs)[0].first && segs == AllocateList(old(segs))
    {
      res := cur.first;
      cur.first := cur.first + 1;
      if cur.first > cur.last {
        head := cur.next;
        nodes, segs := nodes[1..], segs[1..];
      } else {
        segs := [cur.Span()] + segs[1..];
      }
    }

    // Links the k-th segment out of the list.
    method Unlink(prev: Segment?, cur: Segment, ghost k: nat)
      requires Linked() && k < |nodes| && cur == nodes[k] && prev == (if k == 0 then null else nodes[k - 1])
      modifies this`head, this`nodes, this`segs, Repr`next
      ensures Linked() && nodes == old(nodes)[..k] + old(nodes)[k + 1..]
      ensures segs == old(segs)[..k] + old(segs)[k + 1..]
      ensures cur.next == old(cur.next)
    {
      if prev == null {
        head := cur.next;
      } else {
        prev.next := cur.next;
      }
      RemoveKeeps(nodes, segs, k, Repr);
      nodes, segs := nodes[..k] + nodes[k + 1..], segs[..k] + segs[k + 1..];
    }

    // Links a new segment in behind the k-th.
    method InsertAfter(cur: Segment, s: Interval, ghost k: nat)
      requires Linked() && k < |nodes| && cur == nodes[k]
      modifies this`nodes, this`segs, this`Repr, Repr`next
      ensures Linked() && fresh(Repr - old(Repr)) && nodes != []
      ensures segs == old(segs)[..k] + [old(segs)[k], s] + old(segs)[k + 1..]
    {
      var node := new Segment(s.first, s.last, cur.next);
      cur.next := node;
      InsertKeeps(nodes, segs, k, node, Repr);
      Repr := Repr + {node};
      nodes, segs := nodes[..k + 1] + [node] + nodes[k + 1..], segs[..k] + [segs[k], s] + segs[k + 1..];
    }

    // Takes a value out of the k-th segment, which holds more than one.
    method SplitNode(cur: Segment, value: int, ghost k: nat)
      requires Linked() && k < |nodes| && cur == nodes[k] && cur.first <= value <= cur.last && cur.first < cur.last
      modifies this`nodes, this`segs, this`Repr, Repr
      ensures Linked() && fresh(Repr - old(Repr))
      ensures segs == old(segs)[..k] + SplitAt(old(segs)[k], value) + old(segs)[k + 1..]
    {
      var _, added := cur.Split(value);
      nodes := SplitKeeps(nodes, segs, k, SplitAt(segs[k], value), Repr, added);
      segs, Repr := segs[..k] + SplitAt(segs[k], value) + segs[k + 1..], Repr + added;
    }

    // Takes a value out of the k-th segment.
    method TakeFrom(prev: Segment?, cur: Segment, value: int, ghost k: nat)
      requires Linked() && k < |nodes| && cur == nodes[k] && prev == (if k == 0 then null else nodes[k - 1])
      requires cur.first <= value <= cur.last
      modifies this`head, this`nodes, this`segs, this`Repr, Repr
      ensures Linked() && fresh(Repr - old(Repr))
      ensures segs == old(segs)[..k] + SplitAt(old(segs)[k], value) + old(segs)[k + 1..]
    {
      if cur.first == cur.last {
        Unlink(prev, cur, k);
        assert segs == old(segs)[..k] + [] + old(segs)[k + 1..];
      } else {
        SplitNode(cur, value, k);
      }
    }

    method Use(value: int) returns (ok: bool)
      requires Valid()
      modifies this, Repr
      ensures Valid() && fresh(Repr - old(Repr))
      ensures ok == exists i :: 0 <= i < |old(segs)| && Holds(old(segs)[i], value)
      ensures segs == UseList(old(segs), value)
      ensures Values(segs) == TakeOut(old(Values(segs)), value)
      ensures old(Ascending(segs)) ==> Ascending(segs)
    {
      UseOrder(segs, first, last, value);
      UseCounts(segs, first, last, value);
      ok := UseLinked(value);
    }

    // The walk of Use over the segments.
    method UseLinked(value: int) returns (ok: bool)
      requires Linked()
      modifies this`head, this`nodes, this`segs, this`Repr, this`remain, Repr
      ensures Linked() && fresh(Repr - old(Repr)) && remain == old(remain) - (if ok then 1 else 0)
      ensures ok == exists i :: 0 <= i < |old(segs)| && Holds(old(segs)[i], value)
      ensures segs == UseList(old(segs), value)
    {
      ghost var was := segs;
      if head == null { return false; }
      var prev: Segment?, cur := null, head;
      ghost var k := 0;
      while cur != null
        invariant Linked() && segs == was && Repr == old(Repr) && remain == old(remain)
        invariant 0 <= k <= |nodes| && cur == (if k < |nodes| then nodes[k] else null)
        invariant prev == (if k == 0 then null else nodes[k - 1])
        invariant forall i :: 0 <= i < k ==> !Holds(was[i], value)
        decreases |nodes| - k
      {
        if RelativePosition(cur.Span(), value) == Within {
          UseAt(was, k, value);
          TakeFrom(prev, cur, value, k);
          remain := remain - 1;
          return true;
        }
        prev := cur;
        cur := cur.next;
        k := k + 1;
      }
      UseNone(was, value);
      return false;
    }

    // Grows the k-th segment by its next value, joining it with its successor when they touch.
    method Extend(cur: Segment, ghost k: nat)
      requires Linked() && k < |nodes| && cur == nodes[k]
      modifies this`nodes, this`segs, cur
      ensures Linked() && Repr == old(Repr) && nodes != []
      ensures segs == old(segs)[..k] + PoolList.ExtendLast(old(segs)[k..])
    {
      ghost var longer := if Touches(segs, k) then nodes[..k + 1] + nodes[k + 2..] else nodes;
      cur.ExtendLast();
      ExtendKeeps(nodes, segs, k, Repr);
      nodes, segs := longer, segs[..k] + PoolList.ExtendLast(segs[k..]);
    }

    // Lets the k-th segment start at the value.
    method StartAt(cur: Segment, ghost k: nat, value: int)
      requires Linked() && k < |nodes| && cur == nodes[k]
      modifies this`segs, cur`first
      ensures Linked()
      ensures segs == old(segs)[..k] + [Interval(value, old(segs)[k].last)] + old(segs)[k + 1..]
    {
      cur.first := value;
      ResizeKeeps(nodes, segs, k, Repr);
      segs := segs[..k] + [cur.Span()] + segs[k + 1..];
    }

    method Free(value: int) returns (ok: bool)
      requires Valid()
      modifies this, Repr
      ensures Valid() && fresh(Repr - old(Repr))
      ensures ok == FreeList(old(segs), first, last, value).Accepted?
      ensures segs == if ok then FreeList(old(segs), first, last, value).segs else old(segs)
      ensures ok ==> PutBehind(old(Values(segs)), Values(segs), value, HeadSize(old(segs)))
    {
      FreePutsBehind(segs, first, last, value);
      FreeCounts(segs, first, last, value);
      if value < first || last < value { return false; }
      ok := FreeLinked(value);
      if ok { remain := remain + 1; }
    }

    // Where a value of the range goes in the list.
    method FreeLinked(value: int) returns (ok: bool)
      requires Linked() && first <= value <= last
      modifies this`head, this`nodes, this`segs, this`Repr, Repr
      ensures Linked() && fresh(Repr - old(Repr))
      ensures ok == FreeList(old(segs), first, last, value).Accepted?
      ensures segs == if ok then FreeList(old(segs), first, last, value).segs else old(segs)
    {
      if head == null {
        head := new Segment(value, value, null);
        nodes, segs, Repr := [head], [Interval(value, value)], Repr + {head};
        return true;
      }
      match RelativePosition(head.Span(), value) {
        case Within =>
          return false;
        case AdjacentToBack =>
          assert segs[0..] == segs;
          Extend(head, 0);
          return true;
        case _ =>
      }
      if head.next == null {
        InsertAfter(head, Interval(value, value), 0);
        assert segs == old(segs) + [Interval(value, value)];
        return true;
      }
      ok := FreeBehind(value);
    }

    // The walk of Free over the segments behind the head.
    method FreeBehind(value: int) returns (ok: bool)
      requires Linked() && |nodes| > 1
      modifies this`nodes, this`segs, this`Repr, Repr
      ensures Linked() && nodes != [] && fresh(Repr - old(Repr))
      ensures if ok then Placed(old(segs), value, segs)
              else segs == old(segs) && FreeTail(old(segs)[1..], value).Refused?
    {
      ghost var was := segs;
      var prev, cur := head, head.next;
      ghost var k := 1;
      while true
        invariant Linked() && segs == was && Repr == old(Repr)
        invariant 1 <= k < |nodes| && cur == nodes[k] && prev == nodes[k - 1]
        invariant Passed(was, k, value)
        decreases |nodes| - k
      {
        match RelativePosition(cur.Span(), value) {
          case Before =>
            PlaceBefore(was, k, value);
            InsertAfter(prev, Interval(value, value), k - 1);
            return true;
          case AdjacentToFront =>
            PlaceInFront(was, k, value);
            StartAt(cur, k, value);
            return true;
          case Within =>
            FreeTailAt(was, k, value);
            return false;
          case AdjacentToBack =>
            PlaceBehind(was, k, value);
            Extend(cur, k);
            return true;
          case After =>
            if cur.next == null {
              PlaceLast(was, k, value);
              InsertAfter(cur, Interval(value, value), k);
              return true;
            }
        }
        prev, cur := cur, cur.next;
        k := k + 1;
      }
    }

    predicate Contains(first: int, last: int) {
      first <= last && this.first <= first && this.last >= last
    }

    /** Do the ranges of two pools overlap? */
    predicate IsJoint(other: Pool) {
      !(other.last < first || last < other.first)
    }

    method Reserve(first: int, last: int) returns (ok: bool)
      requires Valid()
      modifies this, Repr
      ensures Valid() && fresh(Repr - old(Repr))
      ensures ok == Contains(first, last)
      ensures segs == if ok then ReserveList(old(segs), first, last) else old(segs)
      ensures Values(segs) == if ok then Without(old(Values(segs)), Interval(first, last)) else old(Values(segs))
      ensures old(Ascending(segs)) ==> Ascending(segs)
    {
      if !Contains(first, last) { return false; }
      ghost var was := segs;
      ReserveOrder(was, this.first, this.last, first, last);
      CutRange(first, last);
      ReserveEnds(was, segs, this.first, this.last, first, last);
      return true;
    }

    // The walk stands at the k-th segment.
    ghost predicate At(prev: Segment?, cur: Segment?, k: int)
      reads this
    {
      && 0 <= k <= |nodes| && cur == (if k < |nodes| then nodes[k] else null)
      && prev == (if k == 0 then null else nodes[k - 1])
    }

    // The range is cut out of the segments before the k-th.
    ghost predicate Cutting(was: seq<Interval>, k: int, first: int, last: int)
      reads this, Repr
    {
      && Linked() && remain == Size(segs) && NonEmptyFrom(segs, k)
      && 0 <= k <= |segs| && Reserving(segs, k, first, last) == Reserving(was, 0, first, last)
    }

    // The walk of Reserve over the segments.
    method CutRange(first: int, last: int)
      requires Linked() && remain == Size(segs) && NonEmptyFrom(segs, 0) && first <= last
      modifies this`head, this`nodes, this`segs, this`Repr, this`remain, Repr
      ensures Linked() && fresh(Repr - old(Repr)) && remain == Size(segs)
      ensures Reserving(segs, |segs|, first, last) == Reserving(old(segs), 0, first, last)
    {
      ghost var was := segs;
      var prev: Segment?, cur := null, head;
      ghost var k := 0;
      while cur != null
        invariant Cutting(was, k, first, last) && fresh(Repr - old(Repr)) && At(prev, cur, k)
        decreases |nodes| - k, if k < |segs| then segs[k].last - segs[k].first else 0
      {
        prev, k := CutNext(was, prev, cur, first, last, k);
        cur := cur.next;
      }
    }

    // One step of the walk, which next looks at the segment behind this one.
    method CutNext(ghost was: seq<Interval>, prev: Segment?, cur: Segment, first: int, last: int, ghost k: nat)
      returns (prev': Segment?, ghost k': nat)
      requires Cutting(was, k, first, last) && At(prev, cur, k) && first <= last
      modifies this`head, this`nodes, this`segs, this`Repr, this`remain, Repr
      ensures Cutting(was, k', first, last) && fresh(Repr - old(Repr)) && At(prev', cur.next, k')
      ensures |nodes| - k' < |old(nodes)| - k ||
              (|nodes| - k' == |old(nodes)| - k && k' < |segs| && k < |old(segs)|
               && segs[k'].last - segs[k'].first < old(segs)[k].last - old(segs)[k].first)
    {
      prev', k' := prev, k;
      if cur.first >= first && cur.last <= last {
        remain := remain - (cur.last - cur.first + 1);
        DropNode(prev, cur, first, last, k);
      } else {
        Shorten(cur, first, last, k);
        prev', k' := cur, k + 1;
      }
    }

    // Links out the k-th segment, which the reserved range covers.
    method DropNode(prev: Segment?, cur: Segment, first: int, last: int, ghost k: nat)
      requires Linked() && remain == Size(segs) - (cur.last - cur.first + 1) && k < |nodes| && cur == nodes[k]
      requires prev == (if k == 0 then null else nodes[k - 1])
      requires first <= cur.first && cur.last <= last && first <= last && NonEmptyFrom(segs, k)
      modifies this`head, this`nodes, this`segs, Repr`next
      ensures Linked() && remain == Size(segs) && NonEmptyFrom(segs, k)
      ensures |nodes| == |old(nodes)| - 1 && cur.next == old(cur.next) == (if k < |nodes| then nodes[k] else null)
      ensures k <= |nodes| && prev == (if k == 0 then null else nodes[k - 1])
      ensures Reserving(segs, k, first, last) == Reserving(old(segs), k, first, last)
    {
      ReserveAll(segs, k, first, last);
      Unlink(prev, cur, k);
    }

    // Cuts the reserved range out of the k-th segment, which it does not cover.
    method Shorten(cur: Segment, first: int, last: int, ghost k: nat)
      requires Linked() && remain == Size(segs) && k < |nodes| && cur == nodes[k] && first <= last
      requires !(cur.first >= first && cur.last <= last) && NonEmptyFrom(segs, k)
      modifies this`nodes, this`segs, this`Repr, this`remain, Repr
      ensures Linked() && fresh(Repr - old(Repr)) && remain == Size(segs)
      ensures k < |nodes| && nodes[k] == cur && NonEmptyFrom(segs, k + 1)
      ensures |nodes| == |old(nodes)| || (|nodes| == |old(nodes)| + 1
              && segs[k + 1].last - segs[k + 1].first < old(segs)[k].last - old(segs)[k].first)
      ensures Reserving(segs, k + 1, first, last) == Reserving(old(segs), k, first, last)
    {
      ReserveAt(segs, k, first, last);
      SizeAt(segs, k, Cut(segs[k], first, last));
      var removed := CutNode(cur, first, last, k);
      remain := remain - removed;
    }

    method CutNode(cur: Segment, first: int, last: int, ghost k: nat)
      returns (removed: int)
      requires Linked() && k < |nodes| && cur == nodes[k] && cur.first <= cur.last && first <= last
      requires !(cur.first >= first && cur.last <= last)
      modifies this`nodes, this`segs, this`Repr, Repr
      ensures Linked() && fresh(Repr - old(Repr)) && k < |nodes| && nodes[k] == cur
      ensures segs == old(segs)[..k] + Cut(old(segs)[k], first, last) + old(segs)[k + 1..]
      ensures removed == old(segs)[k].last - old(segs)[k].first + 1 - Size(Cut(old(segs)[k], first, last))
    {
      ghost var pieces, added := Cut(segs[k], first, last), {};
      removed, added := cur.CutOut(first, last);
      Resegment(k, pieces, added);
    }

    // The k-th segment has become these pieces.
    ghost method Resegment(k: nat, pieces: seq<Interval>, added: set<Segment>)
      requires Distinct(nodes) && k < |nodes| == |segs| && (forall i :: 0 <= i < |nodes| ==> nodes[i] in Repr)
      requires forall i :: 0 <= i < |nodes| && i != k ==> nodes[i].next == Successor(nodes, i) && nodes[i].Span() == segs[i]
      requires nodes[k].Became(pieces, Successor(nodes, k), added) && added !! Repr && head == nodes[0]
      modifies this`nodes, this`segs, this`Repr
      ensures Linked() && Repr == old(Repr) + added && k < |nodes| && nodes[k] == old(nodes[k])
      ensures segs == old(segs)[..k] + pieces + old(segs)[k + 1..]
    {
      nodes := SplitKeeps(nodes, segs, k, pieces, Repr, added);
      segs, Repr := segs[..k] + pieces + segs[k + 1..], Repr + added;
    }
  }
}
