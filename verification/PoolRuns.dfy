/** internal/context/pool/lazyReusePool.go: whole runs of pool operations. */
module PoolRuns {
  import opened PoolList
  import opened PoolOrder

  datatype Op = Allocate | Use(value: int) | Free(value: int) | Reserve(first: int, last: int)

  datatype Reply = Taken(value: int) | Empty | Done(ok: bool)

  datatype State = State(segs: seq<Interval>, lo: int, hi: int) {
    predicate Valid() { InRange(segs, lo, hi) && Disjoint(segs) }
  }

  function Fresh(lo: int, hi: int): State { State([Interval(lo, hi)], lo, hi) }

  function Next(p: State, op: Op): State {
    match op
    case Allocate => p.(segs := AllocateList(p.segs))
    case Use(v) => p.(segs := UseList(p.segs, v))
    case Free(v) => (match FreeList(p.segs, p.lo, p.hi, v)
                     case Refused => p
                     case Accepted(segs) => p.(segs := segs))
    case Reserve(first, last) =>
      if p.lo <= first <= last <= p.hi then p.(segs := ReserveList(p.segs, first, last)) else p
  }

  function Answer(p: State, op: Op): Reply {
    match op
    case Allocate => if p.segs == [] then Empty else Taken(p.segs[0].first)
    case Use(v) => Done(exists i :: 0 <= i < |p.segs| && Holds(p.segs[i], v))
    case Free(v) => Done(FreeList(p.segs, p.lo, p.hi, v).Accepted?)
    case Reserve(first, last) => Done(p.lo <= first <= last <= p.hi)
  }

  function Run(p: State, ops: seq<Op>): State
    decreases |ops|
  {
    if ops == [] then p else Run(Next(p, ops[0]), ops[1..])
  }

  // ----- the specification: a plain set of free integers -----

  /** What a set of free integers allows an operation to answer. Allocate may take any of
      them. Giving back a value that is already free is left open: see DuplicateFree. */
  predicate Allowed(free: set<int>, lo: int, hi: int, op: Op, reply: Reply) {
    match op
    case Allocate => if free == {} then reply == Empty else reply.Taken? && reply.value in free
    case Use(v) => reply == Done(v in free)
    case Free(v) => v !in free ==> reply == Done(lo <= v <= hi)
    case Reserve(first, last) => reply == Done(lo <= first <= last <= hi)
  }

  function Remaining(free: set<int>, op: Op, reply: Reply): set<int> {
    match op
    case Allocate => if reply.Taken? then free - {reply.value} else free
    case Use(v) => free - {v}
    case Free(v) => if reply == Done(true) then free + {v} else free
    case Reserve(first, last) => if reply == Done(true) then free - Span(Interval(first, last)) else free
  }

  /** The caller gives back only values that are not free at that moment. */
  predicate FreesHeldValues(p: State, ops: seq<Op>)
    decreases |ops|
  {
    ops != [] ==> (ops[0].Free? ==> ops[0].value !in FreeSet(p.segs)) && FreesHeldValues(Next(p, ops[0]), ops[1..])
  }

  /** Every step of the pool's run from `p` is a step of the plain set `free`. */
  predicate RunsAsSet(free: set<int>, p: State, ops: seq<Op>)
    decreases |ops|
  {
    && free == FreeSet(p.segs)
    && Size(p.segs) == |free|
    && p.Valid()
    && (ops != [] ==>
          var reply := Answer(p, ops[0]);
          Allowed(free, p.lo, p.hi, ops[0], reply)
          && RunsAsSet(Remaining(free, ops[0], reply), Next(p, ops[0]), ops[1..]))
  }

  lemma StepIsSetStep(p: State, op: Op)
    requires p.Valid() && (op.Free? ==> op.value !in FreeSet(p.segs))
    ensures Next(p, op).Valid()
    ensures Allowed(FreeSet(p.segs), p.lo, p.hi, op, Answer(p, op))
    ensures FreeSet(Next(p, op).segs) == Remaining(FreeSet(p.segs), op, Answer(p, op))
  {
    match op {
      case Allocate =>
        if p.segs != [] { AllocateTakes(p.segs, p.lo, p.hi); }
      case Use(v) =>
        UseTakes(p.segs, p.lo, p.hi, v);
        InFreeSet(p.segs, v);
      case Free(v) =>
        FreeAdds(p.segs, p.lo, p.hi, v);
      case Reserve(first, last) =>
        if p.lo <= first <= last <= p.hi { ReserveTakes(p.segs, p.lo, p.hi, first, last); }
    }
  }

  /** In every run that gives back only held values the pool answers like a plain set of
      free integers, its segments stay disjoint, and its counter is the size of that set. */
  lemma {:induction false} PoolRefinesSet(p: State, ops: seq<Op>)
    requires p.Valid() && FreesHeldValues(p, ops)
    ensures RunsAsSet(FreeSet(p.segs), p, ops)
    decreases |ops|
  {
    SizeCountsFree(p.segs, p.lo, p.hi);
    if ops != [] {
      StepIsSetStep(p, ops[0]);
      PoolRefinesSet(Next(p, ops[0]), ops[1..]);
    }
  }

  // ----- giving back a value that is already free -----

  // The walk behind the head stops at the first segment that the value is not strictly after.
  lemma {:induction false} TailRefuses(segs: seq<Interval>, value: int, at: nat)
    requires at < |segs| && Holds(segs[at], value)
    requires forall j :: 0 <= j < |segs| ==> segs[j].first <= segs[j].last
    requires forall j :: 0 <= j < at ==> !Holds(segs[j], value)
    ensures FreeTail(segs, value).Refused? <==> forall j :: 0 <= j < at ==> segs[j].last + 1 < value
  {
    if at > 0 {
      var rest := segs[1..];
      TailRefuses(rest, value, at - 1);
      if segs[0].last + 1 < value {
        assert RelativePosition(segs[0], value) == After;
        assert forall j :: 0 <= j < at - 1 ==> rest[j] == segs[j + 1];
        assert forall j :: 1 <= j < at ==> segs[j] == rest[j - 1];
      }
    }
  }

  /** A duplicate free, in any pool: the value sits in segment `at` and in none before it.
      It is refused, and nothing changes, exactly when it is in the head, or it does not
      touch the back of the head and lies strictly behind every segment walked over. */
  lemma DuplicateFree(p: State, value: int, at: nat)
    requires p.Valid() && at < |p.segs| && Holds(p.segs[at], value)
    ensures Answer(p, Free(value)) == Done(false) <==>
            at == 0 || (value != p.segs[0].last + 1 && forall j :: 1 <= j < at ==> p.segs[j].last + 1 < value)
    ensures Answer(p, Free(value)) == Done(false) ==> Next(p, Free(value)) == p
  {
    var segs := p.segs;
    DisjointMeans(segs);
    if at > 0 {
      var rest := segs[1..];
      assert rest[at - 1] == segs[at];
      TailRefuses(rest, value, at - 1);
      assert forall j :: 0 <= j < at - 1 ==> rest[j] == segs[j + 1];
      assert forall j :: 1 <= j < at ==> segs[j] == rest[j - 1];
    }
  }

  // ----- the specification with the order: a list of free integers -----

  /** What an operation answers on the list of free values, and what it makes of the list.
      Free puts the value somewhere behind the values of the head, or is refused. */
  predicate ListStep(before: seq<int>, after: seq<int>, headSize: int, lo: int, hi: int, op: Op, reply: Reply) {
    match op
    case Allocate =>
      if before == [] then reply == Empty && after == [] else reply == Taken(before[0]) && after == before[1..]
    case Use(v) => reply == Done(v in before) && after == TakeOut(before, v)
    case Free(v) =>
      if reply == Done(true) then PutBehind(before, after, v, headSize) else reply == Done(false) && after == before
    case Reserve(first, last) =>
      reply == Done(lo <= first <= last <= hi)
      && after == if reply.ok then Without(before, Interval(first, last)) else before
  }

  /** Every call, also of a pool in which a value is twice, takes the values in order, and moves
      none of those that stay. */
  lemma StepIsListStep(p: State, op: Op)
    requires InRange(p.segs, p.lo, p.hi)
    ensures InRange(Next(p, op).segs, p.lo, p.hi)
    ensures ListStep(Values(p.segs), Values(Next(p, op).segs), HeadSize(p.segs), p.lo, p.hi, op, Answer(p, op))
  {
    match op {
      case Allocate =>
        if p.segs != [] {
          AllocateTakes(p.segs, p.lo, p.hi);
          AllocateTakesFirst(p.segs, p.lo, p.hi);
        }
      case Use(v) =>
        UseTakes(p.segs, p.lo, p.hi, v);
        UseKeepsOrder(p.segs, v);
        ValuesAreFree(p.segs);
        InFreeSet(p.segs, v);
      case Free(v) =>
        FreeAdds(p.segs, p.lo, p.hi, v);
        if Answer(p, op) == Done(true) { FreePuts(p.segs, p.lo, p.hi, v); }
      case Reserve(first, last) =>
        if p.lo <= first <= last <= p.hi {
          ReserveTakes(p.segs, p.lo, p.hi, first, last);
          ReserveKeepsOrder(p.segs, p.lo, p.hi, first, last);
        }
    }
  }

  /** Every step of the pool's run from `p` is a step of a list of free values. */
  predicate RunsAsList(p: State, ops: seq<Op>)
    decreases |ops|
  {
    ops != [] ==>
      ListStep(Values(p.segs), Values(Next(p, ops[0]).segs), HeadSize(p.segs), p.lo, p.hi, ops[0], Answer(p, ops[0]))
      && RunsAsList(Next(p, ops[0]), ops[1..])
  }

  lemma {:induction false} PoolRefinesList(p: State, ops: seq<Op>)
    requires InRange(p.segs, p.lo, p.hi)
    ensures RunsAsList(p, ops)
    decreases |ops|
  {
    if ops != [] {
      StepIsListStep(p, ops[0]);
      PoolRefinesList(Next(p, ops[0]), ops[1..]);
    }
  }

  /** Until something is given back, an ascending pool stays ascending, and Allocate takes the
      least value that is free. */
  lemma {:induction false} LeastFirst(p: State, ops: seq<Op>)
    requires InRange(p.segs, p.lo, p.hi) && Ascending(p.segs) && forall i :: 0 <= i < |ops| ==> !ops[i].Free?
    ensures var q := Run(p, ops);
            && Ascending(q.segs)
            && forall v :: v in FreeSet(q.segs) ==> Answer(q, Allocate).Taken? && Answer(q, Allocate).value <= v
    decreases |ops|
  {
    if ops == [] {
      if p.segs != [] { AscendingFirst(p.segs, p.lo, p.hi); }
    } else {
      StepIsListStep(p, ops[0]);
      StepKeepsAscending(p, ops[0]);
      LeastFirst(Next(p, ops[0]), ops[1..]);
    }
  }

  lemma StepKeepsAscending(p: State, op: Op)
    requires InRange(p.segs, p.lo, p.hi) && Ascending(p.segs) && !op.Free?
    ensures Ascending(Next(p, op).segs)
  {
    match op {
      case Allocate =>
        AllocateKeepsAscending(p.segs, p.lo, p.hi);
      case Use(v) =>
        UseKeepsAscending(p.segs, p.lo, p.hi, v);
      case Reserve(first, last) =>
        if p.lo <= first <= last <= p.hi { ReserveKeepsAscending(p.segs, p.lo, p.hi, first, last); }
    }
  }

  predicate AllocateOrFree(ops: seq<Op>) {
    forall i :: 0 <= i < |ops| ==> ops[i].Allocate? || ops[i].Free?
  }

  lemma {:induction false} FreeTailKeepsOrder(segs: seq<Interval>, lo: int, hi: int, value: int)
    requires InRange(segs, lo, hi) && segs != [] && value !in FreeSet(segs)
    requires forall i, j :: 0 <= i < j < |segs| ==> segs[i].last + 1 < segs[j].first
    ensures FreeTail(segs, value).Accepted?
    ensures var out := FreeTail(segs, value).segs;
            out != [] && (out[0].first == segs[0].first || out[0].first == value)
            && forall i, j :: 0 <= i < j < |out| ==> out[i].last + 1 < out[j].first
  {
    var head := segs[0];
    match RelativePosition(head, value) {
      case After =>
        if |segs| > 1 {
          var rest := segs[1..];
          FreeTailKeepsOrder(rest, lo, hi, value);
          var tail := FreeTail(rest, value).segs;
          var out := FreeTail(segs, value).segs;
          assert out == [head] + tail;
          forall i, j | 0 <= i < j < |out| ensures out[i].last + 1 < out[j].first {
            if i == 0 {
              assert out[j] == tail[j - 1];
              assert tail[0].first <= tail[j - 1].first;
            }
          }
        }
      case Within =>
        InFreeSet(segs, value);
      case _ =>
    }
  }

  /** Allocate and Free of held values keep the tail in ascending order with gaps. */
  lemma StepKeepsTailSorted(p: State, op: Op)
    requires p.Valid() && TailSorted(p.segs)
    requires op.Allocate? || (op.Free? && op.value !in FreeSet(p.segs))
    ensures TailSorted(Next(p, op).segs)
  {
    var segs, out := p.segs, Next(p, op).segs;
    if op.Free? && |segs| > 1 && out != segs && out != ExtendLast(segs) {
      var rest := segs[1..];
      FreeTailKeepsOrder(rest, p.lo, p.hi, op.value);
      ConsKeepsTail(segs[0], FreeTail(rest, op.value).segs);
    }
  }

  lemma ConsKeepsTail(head: Interval, tail: seq<Interval>)
    requires Ascending(tail)
    ensures TailSorted([head] + tail)
  {
    var out := [head] + tail;
    forall i, j | 1 <= i < j < |out| ensures out[i].last + 1 < out[j].first {
      assert out[i] == tail[i - 1] && out[j] == tail[j - 1];
    }
  }

  /** From a fresh pool, whatever was allocated and properly given back: a duplicate free is
      refused without effect exactly when the value does not touch the back of the head. */
  lemma {:induction false} DuplicateFreeInRun(p: State, ops: seq<Op>, value: int)
    requires p.Valid() && TailSorted(p.segs)
    requires AllocateOrFree(ops) && FreesHeldValues(p, ops)
    requires value in FreeSet(Run(p, ops).segs)
    ensures var q := Run(p, ops);
            Answer(q, Free(value)) == Done(value == q.segs[0].last + 1)
            && (value != q.segs[0].last + 1 ==> Next(q, Free(value)) == q)
    decreases |ops|
  {
    if ops == [] {
      InFreeSet(p.segs, value);
      var at :| 0 <= at < |p.segs| && Holds(p.segs[at], value);
      DuplicateFree(p, value, at);
    } else {
      StepIsSetStep(p, ops[0]);
      StepKeepsTailSorted(p, ops[0]);
      DuplicateFreeInRun(Next(p, ops[0]), ops[1..], value);
    }
  }

  /** The exception is real: empty 1..100, give back 50, 52, 3 and 51, and the pool accepts 52
      a second time, so that 52 is then in two segments. */
  lemma DuplicateFreeAccepted()
    ensures var p := Run(State([], 1, 100), [Free(50), Free(52), Free(3), Free(51)]);
            p.segs == [Interval(50, 51), Interval(3, 3), Interval(52, 52)]
            && 52 in FreeSet(p.segs)
            && Answer(p, Free(52)) == Done(true) && !Next(p, Free(52)).Valid()
  {
    var p0 := State([], 1, 100);
    var p1 := Next(p0, Free(50));
    var p2 := Next(p1, Free(52));
    assert p1.segs == [Interval(50, 50)] && p2.segs == [Interval(50, 50), Interval(52, 52)];
    var p3 := Next(p2, Free(3));
    assert p2.segs[1..] == [Interval(52, 52)];
    assert p3.segs == [Interval(50, 50), Interval(3, 3), Interval(52, 52)];
    var p4 := Next(p3, Free(51));
    assert p4.segs == [Interval(50, 51), Interval(3, 3), Interval(52, 52)];
    var ops := [Free(50), Free(52), Free(3), Free(51)];
    assert ops[1..] == [Free(52), Free(3), Free(51)] && ops[1..][1..] == [Free(3), Free(51)];
    assert Run(p3, [Free(51)]) == Run(p4, []) by { assert [Free(51)][1..] == []; }
    assert [Free(3), Free(51)][1..] == [Free(51)];
    assert Run(p0, ops) == p4;
    InFreeSet(p4.segs, 52);
    assert Holds(p4.segs[2], 52);
    var q := Next(p4, Free(52));
    assert q.segs == [Interval(50, 52), Interval(3, 3), Interval(52, 52)];
    DisjointMeans(q.segs);
    assert Holds(q.segs[0], 52) && Holds(q.segs[2], 52);
  }

  // ----- lazy reuse -----

  /** The answers to the Allocate calls of a run, in order. */
  function Handed(p: State, ops: seq<Op>): seq<Reply>
    decreases |ops|
  {
    if ops == [] then []
    else (if ops[0].Allocate? then [Answer(p, ops[0])] else []) + Handed(Next(p, ops[0]), ops[1..])
  }

  // Giving back a value moves no value of the head.
  lemma FreeKeepsHead(p: State, value: int)
    requires InRange(p.segs, p.lo, p.hi) && p.segs != []
    ensures var q := Next(p, Free(value));
            && InRange(q.segs, q.lo, q.hi) && q.segs != []
            && q.segs[0].first == p.segs[0].first && q.segs[0].last >= p.segs[0].last
  {
    FreeAdds(p.segs, p.lo, p.hi, value);
  }

  /** Until the head segment is used up, every Allocate takes its next value, whatever is
      given back in between (even twice). */
  lemma {:induction false} HeadFirst(p: State, ops: seq<Op>, k: nat)
    requires InRange(p.segs, p.lo, p.hi) && p.segs != [] && AllocateOrFree(ops)
    requires k < |Handed(p, ops)| && k <= p.segs[0].last - p.segs[0].first
    ensures Handed(p, ops)[k] == Taken(p.segs[0].first + k)
    decreases |ops|
  {
    var q := Next(p, ops[0]);
    if ops[0].Free? {
      FreeKeepsHead(p, ops[0].value);
      HeadFirst(q, ops[1..], k);
    } else if k > 0 {
      AllocateTakes(p.segs, p.lo, p.hi);
      HeadFirst(q, ops[1..], k - 1);
    }
  }

  /** Lazy reuse: a value given back to a non-empty pool, and not touching the back of the
      head, waits until every value of the head has been handed out, in ascending order. */
  lemma FreedValueWaits(p: State, value: int, ops: seq<Op>, k: nat)
    requires p.Valid() && p.segs != [] && AllocateOrFree(ops)
    requires p.lo <= value <= p.hi && value !in FreeSet(p.segs) && value != p.segs[0].last + 1
    requires k < |Handed(Next(p, Free(value)), ops)| && k <= p.segs[0].last - p.segs[0].first
    ensures Handed(Next(p, Free(value)), ops)[k] == Taken(p.segs[0].first + k)
    ensures p.segs[0].first + k != value
  {
    FreeAdds(p.segs, p.lo, p.hi, value);
    HeadFirst(Next(p, Free(value)), ops, k);
    InFreeSet(p.segs, value);
    assert Holds(p.segs[0], p.segs[0].first + k);
  }

  function Repeat(n: nat): seq<Op> {
    seq(n, _ => Allocate)
  }

  /** Draining hands out the free values in list order and then fails. */
  lemma {:induction false} DrainInListOrder(p: State, n: nat, k: nat)
    requires InRange(p.segs, p.lo, p.hi) && k < n
    ensures |Values(p.segs)| == Size(p.segs)
    ensures |Handed(p, Repeat(n))| == n
    ensures Handed(p, Repeat(n))[k] == if k < Size(p.segs) then Taken(Values(p.segs)[k]) else Empty
    decreases n
  {
    var ops, q := Repeat(n), Next(p, Allocate);
    assert ops[1..] == Repeat(n - 1);
    if p.segs != [] {
      AllocateTakes(p.segs, p.lo, p.hi);
      AllocateTakesFirst(p.segs, p.lo, p.hi);
    }
    if k > 0 {
      DrainInListOrder(q, n - 1, k - 1);
    } else {
      ValuesLength(p.segs, p.lo, p.hi);
    }
    HandedLength(q, n - 1);
  }

  lemma {:induction false} HandedLength(p: State, n: nat)
    ensures |Handed(p, Repeat(n))| == n
    decreases n
  {
    if n > 0 {
      assert Repeat(n)[1..] == Repeat(n - 1);
      HandedLength(Next(p, Allocate), n - 1);
    }
  }

  /** The drained values are distinct, and they are exactly the free set. */
  lemma {:induction false} DrainedAreDistinct(segs: seq<Interval>, lo: int, hi: int)
    requires InRange(segs, lo, hi) && Disjoint(segs)
    ensures forall i, j :: 0 <= i < j < |Values(segs)| ==> Values(segs)[i] != Values(segs)[j]
    ensures forall v :: v in Values(segs) <==> v in FreeSet(segs)
  {
    ValuesAreFree(segs);
    if segs != [] {
      DrainedAreDistinct(segs[1..], lo, hi);
      ListedLength(segs[0]);
      HeadNotBehind(segs);
      DistinctConcat(Listed(segs[0]), Values(segs[1..]));
    }
  }

  lemma DistinctConcat(a: seq<int>, b: seq<int>)
    requires forall i, j :: 0 <= i < j < |a| ==> a[i] != a[j]
    requires forall i, j :: 0 <= i < j < |b| ==> b[i] != b[j]
    requires forall v :: v in a ==> v !in b
    ensures forall i, j :: 0 <= i < j < |a + b| ==> (a + b)[i] != (a + b)[j]
  {
    forall i, j | 0 <= i < j < |a + b|
      ensures (a + b)[i] != (a + b)[j]
    {
      if i < |a| <= j { assert a[i] in a && b[j - |a|] in b; }
    }
  }

  // In a disjoint list no value of the head is listed again behind it.
  lemma HeadNotBehind(segs: seq<Interval>)
    requires segs != [] && Disjoint(segs)
    ensures forall v :: v in Listed(segs[0]) ==> v !in Values(segs[1..])
  {
    ValuesAreFree(segs[1..]);
    forall v | v in Listed(segs[0])
      ensures v in Span(segs[0])
    {
      ListedHolds(segs[0], v);
    }
  }

  lemma {:induction false} ValuesLength(segs: seq<Interval>, lo: int, hi: int)
    requires InRange(segs, lo, hi)
    ensures |Values(segs)| == Size(segs)
  {
    if segs != [] {
      ListedLength(segs[0]);
      ValuesLength(segs[1..], lo, hi);
    }
  }
}
