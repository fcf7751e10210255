/** internal/context/pool/lazyReusePool.go.

    A pool of integers kept as a list of free intervals, here as a value: what each
    operation does to the sequence of intervals, and what that does to the set of free
    values. LazyReusePool.dfy holds the linked list that is rewritten in place. */
module PoolList {

  datatype Interval = Interval(first: int, last: int)

  /** Where a value lies relative to a segment. */
  datatype RelativePos = Within | AdjacentToFront | AdjacentToBack | Before | After

  function RelativePosition(s: Interval, value: int): RelativePos {
    if value < s.first - 1 then Before
    else if value == s.first - 1 then AdjacentToFront
    else if s.first <= value <= s.last then Within
    else if value == s.last + 1 then AdjacentToBack
    else After
  }

  // ----- the list of intervals as a value -----

  /** Every segment is non-empty and inside the pool's range. */
  predicate InRange(segs: seq<Interval>, lo: int, hi: int) {
    forall i :: 0 <= i < |segs| ==> lo <= segs[i].first <= segs[i].last <= hi
  }

  /** The segments behind the head ascend, with a gap between neighbours. */
  predicate TailSorted(segs: seq<Interval>) {
    forall i, j :: 1 <= i < j < |segs| ==> segs[i].last + 1 < segs[j].first
  }

  predicate Holds(s: Interval, v: int) {
    s.first <= v <= s.last
  }

  function Span(s: Interval): set<int> {
    set v | s.first <= v <= s.last && Holds(s, v)
  }

  /** The free values a list stands for. */
  function FreeSet(segs: seq<Interval>): set<int> {
    if segs == [] then {} else Span(segs[0]) + FreeSet(segs[1..])
  }

  /** No value lies in two segments. The list is not sorted, so this is not adjacent order. */
  predicate Disjoint(segs: seq<Interval>) {
    segs != [] ==> Span(segs[0]) !! FreeSet(segs[1..]) && Disjoint(segs[1..])
  }

  /** What the counter counts: the lengths of all segments. */
  function Size(segs: seq<Interval>): int {
    if segs == [] then 0 else segs[0].last - segs[0].first + 1 + Size(segs[1..])
  }

  function AllocateList(segs: seq<Interval>): seq<Interval> {
    if segs == [] then []
    else if segs[0].first + 1 > segs[0].last then segs[1..]
    else [Interval(segs[0].first + 1, segs[0].last)] + segs[1..]
  }

  function SplitAt(s: Interval, value: int): seq<Interval> {
    if s.first == s.last then []
    else if value == s.first then [Interval(s.first + 1, s.last)]
    else if value == s.last then [Interval(s.first, s.last - 1)]
    else [Interval(s.first, value - 1), Interval(value + 1, s.last)]
  }

  /** The list after Use, or the same list when no segment holds the value. */
  function UseList(segs: seq<Interval>, value: int): seq<Interval> {
    if segs == [] then []
    else if RelativePosition(segs[0], value) == Within then SplitAt(segs[0], value) + segs[1..]
    else [segs[0]] + UseList(segs[1..], value)
  }

  /** Grows the first segment by one value and joins it with its successor when they touch. */
  function ExtendLast(segs: seq<Interval>): seq<Interval>
    requires segs != []
  {
    if |segs| > 1 && segs[0].last + 2 == segs[1].first
    then [Interval(segs[0].first, segs[1].last)] + segs[2..]
    else [Interval(segs[0].first, segs[0].last + 1)] + segs[1..]
  }

  datatype FreeResult = Refused | Accepted(segs: seq<Interval>)

  /** The walk over the segments behind the head. */
  function FreeTail(segs: seq<Interval>, value: int): FreeResult
    requires segs != []
  {
    match RelativePosition(segs[0], value)
    case Before => Accepted([Interval(value, value)] + segs)
    case AdjacentToFront => Accepted([Interval(value, segs[0].last)] + segs[1..])
    case Within => Refused
    case AdjacentToBack => Accepted(ExtendLast(segs))
    case After =>
      if |segs| == 1 then Accepted(segs + [Interval(value, value)])
      else match FreeTail(segs[1..], value)
           case Refused => Refused
           case Accepted(rest) => Accepted([segs[0]] + rest)
  }

  function FreeList(segs: seq<Interval>, lo: int, hi: int, value: int): FreeResult {
    if value < lo || hi < value then Refused
    else if segs == [] then Accepted([Interval(value, value)])
    else match RelativePosition(segs[0], value)
         case Within => Refused
         case AdjacentToBack => Accepted(ExtendLast(segs))
         case _ =>
           if |segs| == 1 then Accepted(segs + [Interval(value, value)])
           else match FreeTail(segs[1..], value)
                case Refused => Refused
                case Accepted(rest) => Accepted([segs[0]] + rest)
  }

  /** What is left of a segment when [first, last] is reserved. */
  function Cut(s: Interval, first: int, last: int): seq<Interval> {
    if s.first >= first && s.first <= last && s.last > last then [Interval(last + 1, s.last)]
    else if s.first < first && s.last >= first && s.last <= last then [Interval(s.first, first - 1)]
    else if s.first < first && s.last > last then [Interval(s.first, first - 1), Interval(last + 1, s.last)]
    else if s.first >= first && s.last <= last then []
    else [s]
  }

  function ReserveList(segs: seq<Interval>, first: int, last: int): seq<Interval> {
    if segs == [] then [] else Cut(segs[0], first, last) + ReserveList(segs[1..], first, last)
  }

  // ----- what the list means -----

  /** A value is free exactly when some segment holds it. */
  lemma {:induction false} InFreeSet(segs: seq<Interval>, v: int)
    ensures v in FreeSet(segs) <==> exists i :: 0 <= i < |segs| && Holds(segs[i], v)
  {
    if segs != [] {
      InFreeSet(segs[1..], v);
      if v in FreeSet(segs[1..]) {
        var i :| 0 <= i < |segs[1..]| && Holds(segs[1..][i], v);
        assert Holds(segs[i + 1], v);
      }
      if i :| 0 < i < |segs| && Holds(segs[i], v) {
        assert Holds(segs[1..][i - 1], v);
      }
    }
  }

  /** Disjoint says what it should: no value in two segments. */
  lemma {:induction false} DisjointMeans(segs: seq<Interval>)
    ensures Disjoint(segs) <==>
            forall i, j, v :: 0 <= i < j < |segs| && Holds(segs[i], v) ==> !Holds(segs[j], v)
  {
    if segs != [] {
      var rest := segs[1..];
      DisjointMeans(rest);
      if Disjoint(segs) {
        forall i, j, v | 0 <= i < j < |segs| && Holds(segs[i], v)
          ensures !Holds(segs[j], v)
        {
          InFreeSet(rest, v);
          assert segs[j] == rest[j - 1];
          if i > 0 { assert segs[i] == rest[i - 1]; } else { assert v in Span(segs[0]); }
        }
      } else if Span(segs[0]) !! FreeSet(rest) {
        var i, j, v :| 0 <= i < j < |rest| && Holds(rest[i], v) && Holds(rest[j], v);
        assert Holds(segs[i + 1], v) && Holds(segs[j + 1], v);
      } else {
        var v :| v in Span(segs[0]) && v in FreeSet(rest);
        InFreeSet(rest, v);
        var j :| 0 <= j < |rest| && Holds(rest[j], v);
        assert Holds(segs[0], v) && Holds(segs[j + 1], v);
      }
    }
  }

  lemma {:induction false} SpanSize(s: Interval)
    requires s.first <= s.last + 1
    ensures |Span(s)| == s.last - s.first + 1
    decreases s.last - s.first + 1
  {
    if s.first > s.last {
      assert Span(s) == {};
    } else {
      SpanSize(Interval(s.first + 1, s.last));
      assert Span(s) == {s.first} + Span(Interval(s.first + 1, s.last));
    }
  }

  /** The counter is the number of free values. */
  lemma {:induction false} SizeCountsFree(segs: seq<Interval>, lo: int, hi: int)
    requires InRange(segs, lo, hi) && Disjoint(segs)
    ensures |FreeSet(segs)| == Size(segs)
  {
    if segs != [] {
      SpanSize(segs[0]);
      SizeCountsFree(segs[1..], lo, hi);
    }
  }

  // Concatenation of lists is union of what they stand for.
  lemma {:induction false} Concat(a: seq<Interval>, b: seq<Interval>)
    ensures FreeSet(a + b) == FreeSet(a) + FreeSet(b)
    ensures Size(a + b) == Size(a) + Size(b)
    ensures Disjoint(a + b) <==> Disjoint(a) && Disjoint(b) && FreeSet(a) !! FreeSet(b)
  {
    if a == [] {
      assert a + b == b;
    } else {
      Concat(a[1..], b);
      assert (a + b)[1..] == a[1..] + b;
    }
  }

  lemma {:induction false} Singleton(s: Interval)
    ensures FreeSet([s]) == Span(s) && Size([s]) == s.last - s.first + 1 && Disjoint([s])
  {
    assert [s][1..] == [];
  }

  // The same for a list with one more segment in front.
  lemma Cons(s: Interval, rest: seq<Interval>)
    ensures FreeSet([s] + rest) == Span(s) + FreeSet(rest)
    ensures Size([s] + rest) == s.last - s.first + 1 + Size(rest)
    ensures Disjoint([s] + rest) <==> Span(s) !! FreeSet(rest) && Disjoint(rest)
  {
    assert ([s] + rest)[1..] == rest;
  }

  lemma SpanJoin(a: int, m: int, b: int)
    requires a <= m + 1 && m <= b
    ensures Span(Interval(a, b)) == Span(Interval(a, m)) + Span(Interval(m + 1, b))
    ensures Span(Interval(a, m)) !! Span(Interval(m + 1, b))
  {
    forall v
      ensures v in Span(Interval(a, b)) <==> v in Span(Interval(a, m)) || v in Span(Interval(m + 1, b))
    {
      assert Holds(Interval(a, b), v) <==> Holds(Interval(a, m), v) || Holds(Interval(m + 1, b), v);
    }
  }

  lemma SpanOne(v: int)
    ensures Span(Interval(v, v)) == {v}
  {
    assert Holds(Interval(v, v), v);
  }

  // ----- each operation on the list, as an operation on the free set -----

  lemma AllocateTakes(segs: seq<Interval>, lo: int, hi: int)
    requires InRange(segs, lo, hi) && segs != []
    ensures InRange(AllocateList(segs), lo, hi) && Size(AllocateList(segs)) == Size(segs) - 1
    ensures segs[0].first in FreeSet(segs)
    ensures Disjoint(segs) ==>
              Disjoint(AllocateList(segs)) && FreeSet(AllocateList(segs)) == FreeSet(segs) - {segs[0].first}
  {
    var head, rest := segs[0], segs[1..];
    SpanOne(head.first);
    if head.first < head.last {
      SpanJoin(head.first, head.first, head.last);
      Cons(Interval(head.first + 1, head.last), rest);
    }
  }

  lemma SplitRemoves(s: Interval, value: int)
    requires s.first <= value <= s.last
    ensures FreeSet(SplitAt(s, value)) == Span(s) - {value}
    ensures Size(SplitAt(s, value)) == s.last - s.first && Disjoint(SplitAt(s, value))
  {
    var parts := SplitAt(s, value);
    if |parts| == 1 {
      Singleton(parts[0]);
    } else if |parts| == 2 {
      Singleton(parts[0]);
      Singleton(parts[1]);
      Concat([parts[0]], [parts[1]]);
    }
  }

  lemma {:induction false} UseTakes(segs: seq<Interval>, lo: int, hi: int, value: int)
    requires InRange(segs, lo, hi)
    ensures InRange(UseList(segs, value), lo, hi)
    ensures Size(UseList(segs, value)) == Size(segs) - (if value in FreeSet(segs) then 1 else 0)
    ensures value !in FreeSet(segs) ==> UseList(segs, value) == segs
    ensures Disjoint(segs) ==>
              Disjoint(UseList(segs, value)) && FreeSet(UseList(segs, value)) == FreeSet(segs) - {value}
  {
    if segs != [] {
      var head, rest := segs[0], segs[1..];
      if RelativePosition(head, value) == Within {
        SplitRemoves(head, value);
        Concat(SplitAt(head, value), rest);
      } else {
        UseTakes(rest, lo, hi, value);
        Cons(head, UseList(rest, value));
      }
    }
  }

  lemma CutRemoves(s: Interval, first: int, last: int)
    requires first <= last && s.first <= s.last
    ensures FreeSet(Cut(s, first, last)) == Span(s) - Span(Interval(first, last))
    ensures Disjoint(Cut(s, first, last))
  {
    var parts := Cut(s, first, last);
    if |parts| == 1 {
      Singleton(parts[0]);
    } else if |parts| == 2 {
      Singleton(parts[0]);
      Singleton(parts[1]);
      Concat([parts[0]], [parts[1]]);
    }
  }

  lemma {:induction false} ReserveTakes(segs: seq<Interval>, lo: int, hi: int, first: int, last: int)
    requires InRange(segs, lo, hi) && first <= last
    ensures InRange(ReserveList(segs, first, last), lo, hi)
    ensures FreeSet(ReserveList(segs, first, last)) == FreeSet(segs) - Span(Interval(first, last))
    ensures Disjoint(segs) ==> Disjoint(ReserveList(segs, first, last))
  {
    if segs != [] {
      var left, rest := Cut(segs[0], first, last), ReserveList(segs[1..], first, last);
      CutRemoves(segs[0], first, last);
      ReserveTakes(segs[1..], lo, hi, first, last);
      assert InRange(left, lo, hi);
      Concat(left, rest);
      assert ReserveList(segs, first, last) == left + rest;
    }
  }

  // Two segments one value apart become one when that value is freed.
  lemma JoinAdds(s: Interval, next: Interval, rest: seq<Interval>)
    requires s.first <= s.last && s.last + 2 == next.first && next.first <= next.last
    ensures var before, joined := [s] + ([next] + rest), [Interval(s.first, next.last)] + rest;
            Size(joined) == Size(before) + 1 && FreeSet(joined) == FreeSet(before) + {s.last + 1}
            && (Disjoint(before) && s.last + 1 !in FreeSet(before) ==> Disjoint(joined))
  {
    SpanOne(s.last + 1);
    SpanJoin(s.first, s.last, s.last + 1);
    SpanJoin(s.first, s.last + 1, next.last);
    Cons(next, rest);
    Cons(s, [next] + rest);
    Cons(Interval(s.first, next.last), rest);
  }

  /** What a successful Free does to a list. */
  predicate Adds(segs: seq<Interval>, out: seq<Interval>, lo: int, hi: int, value: int) {
    && out != [] && InRange(out, lo, hi) && Size(out) == Size(segs) + 1
    && FreeSet(out) == FreeSet(segs) + {value}
    && (Disjoint(segs) && value !in FreeSet(segs) ==> Disjoint(out))
  }

  // Growing the last value of a segment that does not touch its successor.
  lemma GrowAdds(s: Interval, rest: seq<Interval>)
    requires s.first <= s.last
    ensures var before, grown := [s] + rest, [Interval(s.first, s.last + 1)] + rest;
            Size(grown) == Size(before) + 1 && FreeSet(grown) == FreeSet(before) + {s.last + 1}
            && (Disjoint(before) && s.last + 1 !in FreeSet(before) ==> Disjoint(grown))
  {
    SpanOne(s.last + 1);
    SpanJoin(s.first, s.last, s.last + 1);
    Cons(s, rest);
    Cons(Interval(s.first, s.last + 1), rest);
  }

  lemma ExtendAdds(segs: seq<Interval>, lo: int, hi: int)
    requires InRange(segs, lo, hi) && segs != [] && segs[0].last + 1 <= hi
    ensures Adds(segs, ExtendLast(segs), lo, hi, segs[0].last + 1)
  {
    var head := segs[0];
    assert segs == [head] + segs[1..];
    if |segs| > 1 && head.last + 2 == segs[1].first {
      assert segs[1..] == [segs[1]] + segs[2..];
      JoinAdds(head, segs[1], segs[2..]);
    } else {
      GrowAdds(head, segs[1..]);
    }
  }

  // A new segment behind the last one.
  lemma AppendAdds(s: Interval, lo: int, hi: int, value: int)
    requires InRange([s], lo, hi) && lo <= value <= hi
    ensures Adds([s], [s] + [Interval(value, value)], lo, hi, value)
  {
    SpanOne(value);
    Singleton(s);
    Singleton(Interval(value, value));
    Concat([s], [Interval(value, value)]);
  }

  // A new segment in front.
  lemma PrependAdds(segs: seq<Interval>, lo: int, hi: int, value: int)
    requires InRange(segs, lo, hi) && lo <= value <= hi
    ensures Adds(segs, [Interval(value, value)] + segs, lo, hi, value)
  {
    SpanOne(value);
    Cons(Interval(value, value), segs);
  }

  // Growing the first value of a segment.
  lemma FrontAdds(s: Interval, rest: seq<Interval>, lo: int, hi: int)
    requires InRange([s] + rest, lo, hi) && lo <= s.first - 1
    ensures Adds([s] + rest, [Interval(s.first - 1, s.last)] + rest, lo, hi, s.first - 1)
  {
    var grown := Interval(s.first - 1, s.last);
    assert ([s] + rest)[0] == s;
    SpanOne(s.first - 1);
    SpanJoin(s.first - 1, s.first - 1, s.last);
    Cons(s, rest);
    Cons(grown, rest);
    forall i | 0 <= i < |[grown] + rest| ensures lo <= ([grown] + rest)[i].first <= ([grown] + rest)[i].last <= hi {
      if i > 0 { assert ([grown] + rest)[i] == ([s] + rest)[i]; }
    }
  }

  // Adding to the rest of a list adds to the list.
  lemma AddsBehind(s: Interval, rest: seq<Interval>, out: seq<Interval>, lo: int, hi: int, value: int)
    requires InRange([s] + rest, lo, hi) && Adds(rest, out, lo, hi, value)
    ensures Adds([s] + rest, [s] + out, lo, hi, value)
  {
    Cons(s, rest);
    Cons(s, out);
    assert ([s] + rest)[0] == s;
  }

  lemma {:induction false} FreeTailAdds(segs: seq<Interval>, lo: int, hi: int, value: int)
    requires InRange(segs, lo, hi) && segs != [] && lo <= value <= hi
    ensures var r := FreeTail(segs, value); r.Accepted? ==> Adds(segs, r.segs, lo, hi, value)
    ensures value !in FreeSet(segs) ==> FreeTail(segs, value).Accepted?
  {
    var head, rest := segs[0], segs[1..];
    assert segs == [head] + rest;
    match RelativePosition(head, value) {
      case Before =>
        PrependAdds(segs, lo, hi, value);
      case AdjacentToFront =>
        FrontAdds(head, rest, lo, hi);
      case Within =>
        assert value in Span(head);
      case AdjacentToBack =>
        ExtendAdds(segs, lo, hi);
      case After =>
        if |segs| == 1 {
          assert segs == [head];
          AppendAdds(head, lo, hi, value);
        } else {
          FreeTailAdds(rest, lo, hi, value);
          if FreeTail(rest, value).Accepted? { AddsBehind(head, rest, FreeTail(rest, value).segs, lo, hi, value); }
        }
    }
  }

  /** Free adds exactly the freed value, whatever the order of the segments, and succeeds
      on every value of the range that is not already free. */
  lemma FreeAdds(segs: seq<Interval>, lo: int, hi: int, value: int)
    requires InRange(segs, lo, hi)
    ensures var r := FreeList(segs, lo, hi, value); r.Accepted? ==> lo <= value <= hi && Adds(segs, r.segs, lo, hi,
            value)
    ensures lo <= value <= hi && value !in FreeSet(segs) ==> FreeList(segs, lo, hi, value).Accepted?
  {
    if lo <= value <= hi {
      if segs == [] {
        SpanOne(value);
        Singleton(Interval(value, value));
      } else {
        var head, rest := segs[0], segs[1..];
        assert segs == [head] + rest;
        if RelativePosition(head, value) == AdjacentToBack {
          ExtendAdds(segs, lo, hi);
        } else if |segs| == 1 {
          assert segs == [head];
          AppendAdds(head, lo, hi, value);
        } else {
          FreeTailAdds(rest, lo, hi, value);
          if FreeTail(rest, value).Accepted? { AddsBehind(head, rest, FreeTail(rest, value).segs, lo, hi, value); }
        }
      }
    }
  }
}
