/** internal/context/pool/lazyReusePool.go: the order in which the list of free intervals hands
    out its values, and what each operation does to that order. */
module PoolOrder {
  import opened PoolList

  /** The values of one interval, ascending. */
  function Listed(s: Interval): seq<int>
    decreases s.last - s.first
  {
    if s.first > s.last then [] else [s.first] + Listed(Interval(s.first + 1, s.last))
  }

  /** The free values in the order of the list. */
  function Values(segs: seq<Interval>): seq<int> {
    if segs == [] then [] else Listed(segs[0]) + Values(segs[1..])
  }

  /** The list without the first occurrence of a value. */
  function TakeOut(values: seq<int>, v: int): seq<int> {
    if values == [] then []
    else if values[0] == v then values[1..]
    else [values[0]] + TakeOut(values[1..], v)
  }

  /** The list without the values of an interval. */
  function Without(values: seq<int>, s: Interval): seq<int> {
    if values == [] then []
    else (if Holds(s, values[0]) then [] else [values[0]]) + Without(values[1..], s)
  }

  /** All segments ascend, with a gap between neighbours. */
  predicate Ascending(segs: seq<Interval>) {
    forall i, j :: 0 <= i < j < |segs| ==> segs[i].last + 1 < segs[j].first
  }

  lemma {:induction false} ListedHolds(s: Interval, v: int)
    ensures v in Listed(s) <==> Holds(s, v)
    decreases s.last - s.first
  {
    if s.first <= s.last { ListedHolds(Interval(s.first + 1, s.last), v); }
  }

  lemma {:induction false} ListedLength(s: Interval)
    requires s.first <= s.last + 1
    ensures |Listed(s)| == s.last - s.first + 1
    ensures forall i :: 0 <= i < |Listed(s)| ==> Listed(s)[i] == s.first + i
    decreases s.last - s.first
  {
    if s.first <= s.last { ListedLength(Interval(s.first + 1, s.last)); }
  }

  lemma Associative(a: seq<int>, b: seq<int>, c: seq<int>)
    ensures a + b + c == a + (b + c)
  {
  }

  lemma {:induction false} ValuesConcat(a: seq<Interval>, b: seq<Interval>)
    ensures Values(a + b) == Values(a) + Values(b)
  {
    if a == [] {
      assert a + b == b;
    } else {
      ValuesConcat(a[1..], b);
      assert (a + b)[1..] == a[1..] + b;
      Associative(Listed(a[0]), Values(a[1..]), Values(b));
    }
  }

  lemma ListedOne(v: int)
    ensures Listed(Interval(v, v)) == [v]
  {
    assert Listed(Interval(v + 1, v)) == [];
  }

  lemma ValuesOfOne(s: Interval)
    ensures Values([s]) == Listed(s)
  {
    assert [s][1..] == [];
  }

  // Values of a list with one more segment in front.
  lemma ValuesCons(s: Interval, rest: seq<Interval>)
    ensures Values([s] + rest) == Listed(s) + Values(rest)
  {
    assert ([s] + rest)[1..] == rest;
  }

  /** The list holds exactly the free values. */
  lemma {:induction false} ValuesAreFree(segs: seq<Interval>)
    ensures forall v :: v in Values(segs) <==> v in FreeSet(segs)
  {
    if segs != [] {
      ValuesAreFree(segs[1..]);
      forall v
        ensures v in Listed(segs[0]) <==> v in Span(segs[0])
      {
        ListedHolds(segs[0], v);
      }
    }
  }

  lemma {:induction false} ListedJoin(a: int, m: int, b: int)
    requires a <= m + 1 <= b + 1
    ensures Listed(Interval(a, b)) == Listed(Interval(a, m)) + Listed(Interval(m + 1, b))
    decreases m - a
  {
    if a <= m { ListedJoin(a + 1, m, b); }
  }

  lemma {:induction false} TakeOutOfConcat(a: seq<int>, b: seq<int>, v: int)
    ensures TakeOut(a + b, v) == if v in a then TakeOut(a, v) + b else a + TakeOut(b, v)
  {
    if a == [] {
      assert a + b == b;
    } else {
      assert (a + b)[1..] == a[1..] + b;
      TakeOutOfConcat(a[1..], b, v);
    }
  }

  lemma {:induction false} WithoutConcat(a: seq<int>, b: seq<int>, s: Interval)
    ensures Without(a + b, s) == Without(a, s) + Without(b, s)
  {
    if a == [] {
      assert a + b == b;
    } else {
      assert (a + b)[1..] == a[1..] + b;
      WithoutConcat(a[1..], b, s);
    }
  }

  // Of an interval that is cut out, nothing is left; of one beside it, everything.
  lemma {:induction false} WithoutInside(s: Interval, cut: Interval)
    requires s.first <= s.last ==> cut.first <= s.first && s.last <= cut.last
    ensures Without(Listed(s), cut) == []
    decreases s.last - s.first
  {
    if s.first <= s.last { WithoutInside(Interval(s.first + 1, s.last), cut); }
  }

  lemma {:induction false} WithoutBeside(s: Interval, cut: Interval)
    requires s.first <= s.last ==> s.last < cut.first || cut.last < s.first
    ensures Without(Listed(s), cut) == Listed(s)
    decreases s.last - s.first
  {
    if s.first <= s.last { WithoutBeside(Interval(s.first + 1, s.last), cut); }
  }

  lemma WithoutMiddle(low: seq<int>, mid: seq<int>, high: seq<int>, cut: Interval)
    requires Without(low, cut) == low && Without(mid, cut) == [] && Without(high, cut) == high
    ensures Without(low + (mid + high), cut) == low + high
  {
    WithoutConcat(low, mid + high, cut);
    WithoutConcat(mid, high, cut);
    assert [] + high == high;
  }

  // The values of one or two pieces.
  lemma ValuesOfTwo(a: Interval, b: Interval)
    ensures Values([a, b]) == Listed(a) + Listed(b) && Values([a]) == Listed(a) && Values([b]) == Listed(b)
  {
    ValuesOfOne(a);
    ValuesOfOne(b);
    assert [a, b][1..] == [b];
  }

  /** What is left of a split segment, in order. */
  lemma SplitKeepsOrder(s: Interval, value: int)
    requires Holds(s, value)
    ensures Values(SplitAt(s, value)) == TakeOut(Listed(s), value)
  {
    var low, one, high := Interval(s.first, value - 1), Interval(value, value), Interval(value + 1, s.last);
    ListedJoin(s.first, value - 1, s.last);
    ListedJoin(value, value, s.last);
    TakeOutOfConcat(Listed(low), Listed(one) + Listed(high), value);
    ListedHolds(low, value);
    ListedOne(value);
    assert TakeOut(Listed(one) + Listed(high), value) == Listed(high);
    ValuesOfTwo(low, high);
  }

  /** Use takes the value out of the list and leaves the order of the others, also when a
      value is in the list twice. */
  lemma {:induction false} UseKeepsOrder(segs: seq<Interval>, value: int)
    ensures Values(UseList(segs, value)) == TakeOut(Values(segs), value)
  {
    if segs != [] {
      TakeOutOfConcat(Listed(segs[0]), Values(segs[1..]), value);
      ListedHolds(segs[0], value);
      if RelativePosition(segs[0], value) == Within {
        SplitKeepsOrder(segs[0], value);
        ValuesConcat(SplitAt(segs[0], value), segs[1..]);
      } else {
        UseKeepsOrder(segs[1..], value);
        ValuesCons(segs[0], UseList(segs[1..], value));
      }
    }
  }

  /** What is left of a segment when an interval is cut out, in order. */
  lemma CutKeepsOrder(s: Interval, first: int, last: int)
    requires first <= last && s.first <= s.last
    ensures Values(Cut(s, first, last)) == Without(Listed(s), Interval(first, last))
  {
    var cut := Interval(first, last);
    if last < s.first || s.last < first {
      WithoutBeside(s, cut);
      ValuesOfOne(s);
    } else {
      var low, high := Interval(s.first, first - 1), Interval(last + 1, s.last);
      CutIs(s, first, last);
      ValuesOfTwo(low, high);
      if s.first < first && last < s.last {
        WithoutParts(s, first, last, cut);
      } else if s.first < first {
        WithoutParts(s, first, s.last, cut);
        assert Listed(Interval(s.last + 1, s.last)) == [];
      } else if last < s.last {
        WithoutParts(s, s.first, last, cut);
        assert Listed(Interval(s.first, s.first - 1)) == [];
      } else {
        WithoutInside(s, cut);
      }
    }
  }

  // The pieces that are left of a segment that the interval meets.
  lemma CutIs(s: Interval, first: int, last: int)
    requires first <= last && s.first <= s.last && first <= s.last && s.first <= last
    ensures var low, high := Interval(s.first, first - 1), Interval(last + 1, s.last);
            Cut(s, first, last) == if s.first < first && last < s.last then [low, high]
                                   else if s.first < first then [low]
                                   else if last < s.last then [high] else []
  {
  }

  lemma WithoutParts(s: Interval, a: int, b: int, cut: Interval)
    requires s.first <= a <= b + 1 <= s.last + 1
    requires (s.first < a ==> a <= cut.first) && (b < s.last ==> cut.last <= b)
    requires a <= b ==> cut.first <= a && b <= cut.last
    ensures Without(Listed(s), cut) == Listed(Interval(s.first, a - 1)) + Listed(Interval(b + 1, s.last))
  {
    var low, mid, high := Interval(s.first, a - 1), Interval(a, b), Interval(b + 1, s.last);
    ListedJoin(s.first, a - 1, s.last);
    ListedJoin(a, b, s.last);
    WithoutBeside(low, cut);
    WithoutInside(mid, cut);
    WithoutBeside(high, cut);
    WithoutMiddle(Listed(low), Listed(mid), Listed(high), cut);
  }

  /** Reserve takes the interval out of the list and leaves the order of the others. */
  lemma {:induction false} ReserveKeepsOrder(segs: seq<Interval>, lo: int, hi: int, first: int, last: int)
    requires InRange(segs, lo, hi) && first <= last
    ensures Values(ReserveList(segs, first, last)) == Without(Values(segs), Interval(first, last))
  {
    if segs != [] {
      CutKeepsOrder(segs[0], first, last);
      ReserveKeepsOrder(segs[1..], lo, hi, first, last);
      ValuesConcat(Cut(segs[0], first, last), ReserveList(segs[1..], first, last));
      WithoutConcat(Listed(segs[0]), Values(segs[1..]), Interval(first, last));
    }
  }

  /** Allocate takes the first value of the list. */
  lemma AllocateTakesFirst(segs: seq<Interval>, lo: int, hi: int)
    requires InRange(segs, lo, hi) && segs != []
    ensures Values(segs) == [segs[0].first] + Values(AllocateList(segs))
  {
    var s, less := segs[0], AllocateList(segs);
    var left := Listed(Interval(s.first + 1, s.last));
    assert Values(less) == left + Values(segs[1..]) by {
      if s.first < s.last { ValuesCons(Interval(s.first + 1, s.last), segs[1..]); }
    }
    assert Listed(s) == [s.first] + left;
    Associative([s.first], left, Values(segs[1..]));
    assert Values(segs) == Listed(s) + Values(segs[1..]);
  }

  // ----- ascending lists -----

  lemma AscendingConcat(a: seq<Interval>, b: seq<Interval>, lo: int, m: int, hi: int)
    requires Ascending(a) && Ascending(b) && InRange(a, lo, m) && (a != [] ==> InRange(b, m + 2, hi))
    ensures Ascending(a + b)
  {
    forall i, j | 0 <= i < j < |a + b|
      ensures (a + b)[i].last + 1 < (a + b)[j].first
    {
      if i < |a| { assert (a + b)[i] == a[i]; } else { assert (a + b)[i] == b[i - |a|]; }
      if j < |a| { assert (a + b)[j] == a[j]; } else { assert (a + b)[j] == b[j - |a|]; }
    }
  }

  // The rest of an ascending list lies behind its first segment.
  lemma AscendingRest(segs: seq<Interval>, lo: int, hi: int)
    requires InRange(segs, lo, hi) && Ascending(segs) && segs != []
    ensures InRange(segs[1..], segs[0].last + 2, hi) && Ascending(segs[1..])
  {
    forall i | 0 <= i < |segs[1..]|
      ensures segs[0].last + 2 <= segs[1..][i].first <= segs[1..][i].last <= hi
    {
      assert segs[1..][i] == segs[i + 1];
    }
  }

  /** Allocate, Use and Reserve leave an ascending list ascending. */
  lemma AllocateKeepsAscending(segs: seq<Interval>, lo: int, hi: int)
    requires InRange(segs, lo, hi) && Ascending(segs)
    ensures Ascending(AllocateList(segs))
  {
    if segs != [] {
      AscendingRest(segs, lo, hi);
      if segs[0].first < segs[0].last {
        AscendingConcat([Interval(segs[0].first + 1, segs[0].last)], segs[1..], lo, segs[0].last, hi);
      }
    }
  }

  lemma {:induction false} UseKeepsAscending(segs: seq<Interval>, lo: int, hi: int, value: int)
    requires InRange(segs, lo, hi) && Ascending(segs)
    ensures Ascending(UseList(segs, value))
  {
    if segs != [] {
      var head, rest := segs[0], segs[1..];
      AscendingRest(segs, lo, hi);
      if RelativePosition(head, value) == Within {
        AscendingConcat(SplitAt(head, value), rest, lo, head.last, hi);
      } else {
        UseKeepsAscending(rest, lo, hi, value);
        UseTakes(rest, head.last + 2, hi, value);
        AscendingConcat([head], UseList(rest, value), lo, head.last, hi);
      }
    }
  }

  lemma {:induction false} ReserveKeepsAscending(segs: seq<Interval>, lo: int, hi: int, first: int, last: int)
    requires InRange(segs, lo, hi) && Ascending(segs) && first <= last
    ensures Ascending(ReserveList(segs, first, last))
  {
    if segs != [] {
      var head, rest := segs[0], segs[1..];
      AscendingRest(segs, lo, hi);
      ReserveKeepsAscending(rest, lo, hi, first, last);
      ReserveTakes(rest, head.last + 2, hi, first, last);
      AscendingConcat(Cut(head, first, last), ReserveList(rest, first, last), lo, head.last, hi);
    }
  }

  /** The first value of an ascending list is the least one that is free. */
  lemma AscendingFirst(segs: seq<Interval>, lo: int, hi: int)
    requires InRange(segs, lo, hi) && Ascending(segs) && segs != []
    ensures forall v :: v in FreeSet(segs) ==> segs[0].first <= v
  {
    forall v | v in FreeSet(segs)
      ensures segs[0].first <= v
    {
      InFreeSet(segs, v);
    }
  }

  // ----- giving back -----

  /** How many values the head holds. */
  function HeadSize(segs: seq<Interval>): int {
    if segs == [] then 0 else segs[0].last - segs[0].first + 1
  }

  /** The value was put into the list somewhere behind the first `k` values. */
  predicate PutBehind(before: seq<int>, after: seq<int>, v: int, k: int) {
    exists i :: k <= i <= |before| && PutAt(before, after, v, i)
  }

  predicate PutAt(before: seq<int>, after: seq<int>, v: int, i: int) {
    0 <= i <= |before| && after == before[..i] + [v] + before[i..]
  }

  lemma PutBetween(a: seq<int>, v: int, b: seq<int>)
    ensures PutAt(a + b, a + [v] + b, v, |a|)
  {
    assert (a + b)[..|a|] == a && (a + b)[|a|..] == b;
  }

  lemma PutInFront(a: seq<int>, before: seq<int>, after: seq<int>, v: int, k: int)
    requires PutBehind(before, after, v, k)
    ensures PutBehind(a + before, a + after, v, |a| + k)
  {
    var i :| k <= i <= |before| && PutAt(before, after, v, i);
    assert a + after == (a + before)[..|a| + i] + [v] + (a + before)[|a| + i..];
    assert PutAt(a + before, a + after, v, |a| + i);
  }

  lemma ExtendPuts(segs: seq<Interval>, lo: int, hi: int)
    requires InRange(segs, lo, hi) && segs != []
    ensures PutBehind(Values(segs), Values(ExtendLast(segs)), segs[0].last + 1, |Listed(segs[0])|)
  {
    var s, v, rest := segs[0], segs[0].last + 1, Values(segs[1..]);
    var after := Values(ExtendLast(segs));
    ListedJoin(s.first, s.last, v);
    ListedOne(v);
    if |segs| > 1 && v + 1 == segs[1].first {
      var next := segs[1];
      ValuesCons(Interval(s.first, next.last), segs[2..]);
      ListedJoin(s.first, v, next.last);
      assert segs[1..][1..] == segs[2..];
      Associative(Listed(s) + [v], Listed(next), Values(segs[2..]));
    } else {
      ValuesCons(Interval(s.first, v), segs[1..]);
    }
    PutBetween(Listed(s), v, rest);
    assert PutAt(Values(segs), after, v, |Listed(s)|);
  }

  lemma {:induction false} FreeTailPuts(segs: seq<Interval>, lo: int, hi: int, value: int)
    requires InRange(segs, lo, hi) && segs != [] && FreeTail(segs, value).Accepted?
    ensures PutBehind(Values(segs), Values(FreeTail(segs, value).segs), value, 0)
  {
    var head, rest, before := segs[0], segs[1..], Values(segs);
    var out := FreeTail(segs, value).segs;
    var one := Interval(value, value);
    ListedOne(value);
    match RelativePosition(head, value) {
      case Before =>
        ValuesCons(one, segs);
        assert PutAt(before, Values(out), value, 0);
      case AdjacentToFront =>
        ValuesCons(Interval(value, head.last), rest);
        ListedJoin(value, value, head.last);
        Associative([value], Listed(head), Values(rest));
        assert PutAt(before, Values(out), value, 0);
      case AdjacentToBack =>
        ExtendPuts(segs, lo, hi);
      case After =>
        if |segs| == 1 {
          assert segs == [head];
          AppendPuts(head, value);
        } else {
          FreeTailPuts(rest, lo, hi, value);
          ValuesCons(head, FreeTail(rest, value).segs);
          PutInFront(Listed(head), Values(rest), Values(FreeTail(rest, value).segs), value, 0);
        }
    }
  }

  lemma AppendPuts(s: Interval, value: int)
    ensures PutBehind(Values([s]), Values([s] + [Interval(value, value)]), value, |Listed(s)|)
  {
    var before := Values([s]);
    ValuesOfOne(s);
    ValuesOfOne(Interval(value, value));
    ValuesConcat([s], [Interval(value, value)]);
    ListedOne(value);
    assert PutAt(before, before + [value], value, |before|);
  }

  /** A value that is given back goes behind every value of the head. */
  lemma FreePuts(segs: seq<Interval>, lo: int, hi: int, value: int)
    requires InRange(segs, lo, hi) && FreeList(segs, lo, hi, value).Accepted?
    ensures PutBehind(Values(segs), Values(FreeList(segs, lo, hi, value).segs), value, HeadSize(segs))
  {
    var one := Interval(value, value);
    ListedOne(value);
    if segs != [] { ListedLength(segs[0]); }
    if segs == [] {
      ValuesOfOne(one);
      assert PutAt([], [value], value, 0);
    } else {
      var head, rest := segs[0], segs[1..];
      if RelativePosition(head, value) == AdjacentToBack {
        ExtendPuts(segs, lo, hi);
      } else if |segs| == 1 {
        assert segs == [head];
        AppendPuts(head, value);
      } else {
        FreeTailPuts(rest, lo, hi, value);
        ValuesCons(head, FreeTail(rest, value).segs);
        PutInFront(Listed(head), Values(rest), Values(FreeTail(rest, value).segs), value, 0);
      }
    }
  }
}
