/** internal/context/ue_ip_pool.go, internal/context/user_plane_information.go and
    internal/context/sm_context.go: the UE addresses that the sessions hold. */
module UeAddresses {
  import opened IpAddresses
  import opened PoolList
  import opened PoolOrder
  import opened PoolRuns
  import opened Wrappers

  class UeIPPool {
    const subnet: Subnet
    var pool: State

    constructor (n: Subnet)
      requires n.Valid() && PrefixMask(n.mask, WIDTH)
      ensures subnet == n && Valid()
      ensures forall v :: v in FreeSet() <==> n.Min() <= v <= n.Max()
    {
      subnet := n;
      pool := Fresh(n.Min(), n.Max());
      new;
      RangeNotEmpty(n);
      Singleton(Interval(n.Min(), n.Max()));
      assert FreeSet() == Span(Interval(n.Min(), n.Max()));
    }

    function FreeSet(): set<int>
      reads this
    {
      PoolList.FreeSet(pool.segs)
    }

    predicate Sound()
      reads this
    {
      subnet.Valid() && PrefixMask(subnet.mask, WIDTH)
      && pool.lo == subnet.Min() && pool.hi == subnet.Max() && InRange(pool.segs, pool.lo, pool.hi)
    }

    predicate Valid()
      reads this
    {
      Sound() && Disjoint(pool.segs)
    }

    /** Why the pool answers a request with nil. */
    predicate Refuses(request: Option<IPv4>)
      reads this
    {
      if request.Some? then request.value.Uint32() !in FreeSet() else FreeSet() == {}
    }

    static function Taking(addr: Option<IPv4>): set<int> {
      if addr.Some? then {addr.value.Uint32()} else {}
    }

    /** Without a request the first free address of the list is taken and the order of the others
        stays; also for a pool that a duplicate release has damaged. */
    method Allocate(request: Option<IPv4>) returns (addr: Option<IPv4>)
      requires Sound() && (request.Some? ==> request.value.Valid())
      modifies this
      ensures Sound()
      ensures addr.None? <==> old(Refuses(request))
      ensures addr.None? ==> pool == old(pool)
      ensures addr.Some?
              ==> addr.value.Valid() && addr.value.Uint32() in old(FreeSet()) && (request.Some? ==> addr == request)
      ensures addr.Some? && request.None? ==> old(Values(pool.segs)) == [addr.value.Uint32()] + Values(pool.segs)
      ensures addr.Some? && request.Some? ==> Values(pool.segs) == TakeOut(old(Values(pool.segs)), addr.value.Uint32())
      ensures request.None? ==> Tells(addr, Answer(old(pool), PoolRuns.Allocate))
      ensures pool == Next(old(pool), if request.Some? then Use(request.value.Uint32()) else PoolRuns.Allocate)
      ensures addr.Some? ==> subnet.Contains(addr.value.Uint32())
      ensures old(Valid()) ==> Valid() && FreeSet() == old(FreeSet()) - Taking(addr)
    {
      FreeIsInRange(this);
      if request.Some? {
        UseKeepsOrder(pool.segs, request.value.Uint32());
        var allocVal := request.value.Uint32();
        Serves(pool, Use(allocVal));
        var reply := Answer(pool, Use(allocVal));
        pool := Next(pool, Use(allocVal));
        if !reply.ok { return None; }
        ToIPUint32(request.value);
        InPool(this, request.value);
        return Some(ToIP(allocVal));
      }
      Serves(pool, PoolRuns.Allocate);
      if pool.segs != [] { AllocateTakesFirst(pool.segs, pool.lo, pool.hi); }
      var reply := Answer(pool, PoolRuns.Allocate);
      if reply.Taken? { Uint32ToIP(reply.value); }
      pool := Next(pool, PoolRuns.Allocate);
      if reply.Empty? { return None; }
      InPool(this, ToIP(reply.value));
      return Some(ToIP(reply.value));
    }

    method Release(addr: IPv4)
      requires Sound() && addr.Valid()
      modifies this
      ensures Sound() && pool == Next(old(pool), Free(addr.Uint32()))
      ensures old(Valid()) && old(addr.Uint32() !in FreeSet()) && subnet.Min() <= addr.Uint32() <= subnet.Max()
              ==> Valid() && FreeSet() == old(FreeSet()) + {addr.Uint32()}
    {
      FreeAdds(pool.segs, pool.lo, pool.hi, addr.Uint32());
      pool := Next(pool, Free(addr.Uint32()));
    }

    /** Serves a run of calls without a requested address. */
    method Serve(calls: seq<Call>) returns (handed: seq<Option<IPv4>>)
      requires Sound() && forall c :: c in calls && c.GiveBack? ==> c.addr.Valid()
      modifies this
      ensures Sound() && pool == Run(old(pool), Ops(calls))
      ensures HandsOut(handed, Handed(old(pool), Ops(calls)))
    {
      handed := [];
      ghost var answers := [];
      for i := 0 to |calls|
        invariant Sound() && Served(old(pool), pool, calls, i, handed, answers)
      {
        ghost var was, sofar := pool, handed;
        match calls[i] {
          case Take =>
            var addr := Allocate(None);
            handed := handed + [addr];
            ServedTake(old(pool), was, calls, i, sofar, answers, addr);
            answers := answers + [Answer(was, PoolRuns.Allocate)];
          case GiveBack(addr) =>
            Release(addr);
            ServedGiveBack(old(pool), was, calls, i, handed, answers);
        }
      }
    }

    /** Lazy reuse of addresses: one that is given back, not touching the back of the head, waits
        until every address of the head has been handed out, in ascending order. */
    method ReleaseAndServe(addr: IPv4, calls: seq<Call>) returns (handed: seq<Option<IPv4>>)
      requires Valid() && pool.segs != [] && addr.Valid() && subnet.Min() <= addr.Uint32() <= subnet.Max()
      requires addr.Uint32() !in FreeSet() && addr.Uint32() != pool.segs[0].last + 1
      requires forall c :: c in calls && c.GiveBack? ==> c.addr.Valid()
      modifies this
      ensures Sound()
      ensures |handed| == Takes(calls)
      ensures forall k :: 0 <= k < |handed| && k < old(HeadSize(pool.segs))
                ==> handed[k] != Some(addr) && Tells(handed[k], Taken(old(pool.segs)[0].first + k))
    {
      ghost var was := pool;
      Release(addr);
      handed := Serve(calls);
      HeadIsHanded(was, addr, calls, handed);
    }

    method Reserve(first: int, last: int) returns (ok: bool)
      requires Valid()
      modifies this
      ensures Valid() && ok == (subnet.Min() <= first <= last <= subnet.Max())
      ensures FreeSet() == old(FreeSet()) - (if ok then Span(Interval(first, last)) else {})
    {
      ok := Answer(pool, PoolRuns.Reserve(first, last)) == Done(true);
      if ok { ReserveTakes(pool.segs, pool.lo, pool.hi, first, last); }
      pool := Next(pool, PoolRuns.Reserve(first, last));
    }

    method Exclude(other: UeIPPool) returns (ok: bool)
      requires Valid() && other.Sound() && other != this
      modifies this
      ensures Valid() && ok == (InSubnet(subnet, other.subnet.Min()) && InSubnet(subnet, other.subnet.Max()))
      ensures forall v :: v in FreeSet() <==> v in old(FreeSet()) && (ok ==> !InSubnet(other.subnet, v))
    {
      RangeNotEmpty(other.subnet);
      SpanIs(other.pool.lo, other.pool.hi);
      ok := Reserve(other.pool.lo, other.pool.hi);
    }

    /** Takes out the network and the broadcast address. */
    method ReserveEnds()
      requires Valid()
      modifies this
      ensures Valid()
      ensures forall v :: v in FreeSet() <==> v in old(FreeSet()) && !(IsEnd(subnet, v))
    {
      if pool.lo != pool.hi {
        RangeNotEmpty(subnet);
        SpanIs(subnet.Min(), subnet.Min());
        SpanIs(subnet.Max(), subnet.Max());
        var ok := Reserve(pool.lo, pool.lo);
        ok := Reserve(pool.hi, pool.hi);
      }
    }
  }

  /** The address was the first of the free ones, in the order of the list, and the others stay. */
  ghost predicate IsNext(before: State, addr: IPv4, after: State) {
    Values(before.segs) == [addr.Uint32()] + Values(after.segs)
  }

  /** A call for any address, or the return of one. */
  datatype Call = Take | GiveBack(addr: IPv4)

  function Ops(calls: seq<Call>): (ops: seq<Op>)
    ensures |ops| == |calls| && AllocateOrFree(ops)
    ensures forall i :: 0 <= i < |calls| ==>
              ops[i] == if calls[i].Take? then PoolRuns.Allocate else Free(calls[i].addr.Uint32())
  {
    seq(|calls|, i requires 0 <= i < |calls| =>
      if calls[i].Take? then PoolRuns.Allocate else Free(calls[i].addr.Uint32()))
  }

  predicate Tells(addr: Option<IPv4>, reply: Reply) {
    if reply.Taken? then addr.Some? && addr.value.Valid() && addr.value.Uint32() == reply.value else addr.None?
  }

  predicate HandsOut(handed: seq<Option<IPv4>>, answers: seq<Reply>) {
    |handed| == |answers| && forall k :: 0 <= k < |handed| ==> Tells(handed[k], answers[k])
  }

  /** The first i calls led from one pool to another. */
  predicate Served(was: State, now: State, calls: seq<Call>, i: int, handed: seq<Option<IPv4>>, answers: seq<Reply>) {
    && 0 <= i <= |calls| && HandsOut(handed, answers)
    && Run(now, Ops(calls[i..])) == Run(was, Ops(calls))
    && Handed(was, Ops(calls)) == answers + Handed(now, Ops(calls[i..]))
  }

  lemma ServedTake(was: State, now: State, calls: seq<Call>, i: int, handed: seq<Option<IPv4>>, answers: seq<Reply>,
                   addr: Option<IPv4>)
    requires Served(was, now, calls, i, handed, answers) && i < |calls| && calls[i].Take?
    requires Tells(addr, Answer(now, PoolRuns.Allocate))
    ensures Served(was, Next(now, PoolRuns.Allocate), calls, i + 1, handed + [addr],
                   answers + [Answer(now, PoolRuns.Allocate)])
  {
    var ops := Ops(calls[i..]);
    assert ops[1..] == Ops(calls[i + 1..]) && ops[0] == PoolRuns.Allocate;
    var first, later := [Answer(now, PoolRuns.Allocate)], Handed(Next(now, ops[0]), ops[1..]);
    assert answers + (first + later) == answers + first + later;
  }

  lemma ServedGiveBack(was: State, now: State, calls: seq<Call>, i: int, handed: seq<Option<IPv4>>,
                       answers: seq<Reply>)
    requires Served(was, now, calls, i, handed, answers) && i < |calls| && calls[i].GiveBack?
    ensures Served(was, Next(now, Free(calls[i].addr.Uint32())), calls, i + 1, handed, answers)
  {
    var ops := Ops(calls[i..]);
    assert ops[1..] == Ops(calls[i + 1..]) && ops[0] == Free(calls[i].addr.Uint32());
  }

  // What is handed out after an address was given back to the pool `was`.
  lemma HeadIsHanded(was: State, addr: IPv4, calls: seq<Call>, handed: seq<Option<IPv4>>)
    requires was.Valid() && was.segs != [] && was.lo <= addr.Uint32() <= was.hi
    requires addr.Uint32() !in PoolList.FreeSet(was.segs) && addr.Uint32() != was.segs[0].last + 1
    requires HandsOut(handed, Handed(Next(was, Free(addr.Uint32())), Ops(calls)))
    ensures |handed| == Takes(calls)
    ensures forall k :: 0 <= k < |handed| && k < HeadSize(was.segs)
              ==> handed[k] != Some(addr) && Tells(handed[k], Taken(was.segs[0].first + k))
  {
    HandedTakes(Next(was, Free(addr.Uint32())), calls);
    forall k | 0 <= k < |handed| && k < HeadSize(was.segs)
      ensures handed[k] != Some(addr) && Tells(handed[k], Taken(was.segs[0].first + k))
    {
      FreedValueWaits(was, addr.Uint32(), Ops(calls), k);
    }
  }

  function Takes(calls: seq<Call>): nat {
    if calls == [] then 0 else (if calls[0].Take? then 1 else 0) + Takes(calls[1..])
  }

  lemma {:induction false} HandedTakes(p: State, calls: seq<Call>)
    ensures |Handed(p, Ops(calls))| == Takes(calls)
    decreases |calls|
  {
    if calls != [] {
      assert Ops(calls)[1..] == Ops(calls[1..]);
      HandedTakes(Next(p, Ops(calls)[0]), calls[1..]);
    }
  }

  predicate InSubnet(n: Subnet, v: int) {
    n.Min() <= v <= n.Max()
  }

  predicate IsEnd(n: Subnet, v: int) {
    n.Min() != n.Max() && (v == n.Min() || v == n.Max())
  }

  lemma SpanIs(first: int, last: int)
    ensures forall v :: v in Span(Interval(first, last)) <==> first <= v <= last
  {
  }

  // What Allocate and Use do to the free set, also of a list in which a value is twice.
  lemma Serves(p: State, op: Op)
    requires InRange(p.segs, p.lo, p.hi) && (op.Allocate? || op.Use?)
    ensures var free, reply, q := PoolList.FreeSet(p.segs), Answer(p, op), Next(p, op);
            && q.lo == p.lo && q.hi == p.hi && InRange(q.segs, p.lo, p.hi)
            && (op.Use? ==> reply == Done(op.value in free) && (op.value !in free ==> q == p))
            && (op.Allocate? ==> if free == {} then reply == Empty && q == p else reply.Taken? && reply.value in free)
            && (Disjoint(p.segs) ==> Disjoint(q.segs) && PoolList.FreeSet(q.segs) == Remaining(free, op, reply))
  {
    if op.Use? {
      UseTakes(p.segs, p.lo, p.hi, op.value);
      InFreeSet(p.segs, op.value);
    } else if p.segs != [] {
      AllocateTakes(p.segs, p.lo, p.hi);
    }
  }

  lemma FreeIsInRange(p: UeIPPool)
    requires p.Sound()
    ensures forall v :: v in p.FreeSet() ==> p.subnet.Min() <= v <= p.subnet.Max() < 0x1_0000_0000
  {
    RangeNotEmpty(p.subnet);
    WordIs();
    forall v | v in p.FreeSet()
      ensures p.subnet.Min() <= v <= p.subnet.Max()
    {
      InFreeSet(p.pool.segs, v);
    }
  }

  // --- The pools of a UPF ---

  datatype Selection = Selection(sst: int, sd: string, dnn: string, dnai: string, address: Option<IPv4>)

  /** What an S-NSSAI and DNN entry of a UPF is for. */
  datatype Slice = Slice(sst: int, sd: string, dnn: string, dnais: seq<string>) {
    predicate Matches(sel: Selection) {
      sst == sel.sst && sd == sel.sd && dnn == sel.dnn && (sel.dnai == "" || sel.dnai in dnais)
    }

    function Asking(dnai: string, address: Option<IPv4>): Selection {
      Selection(sst, sd, dnn, dnai, address)
    }
  }

  /** Item i is the first to match some selection, so that its pools are tried. */
  predicate Offers(slices: seq<Slice>, i: int)
    requires 0 <= i < |slices|
  {
    exists dnai :: dnai in slices[i].dnais + [""] && forall j ::
        0 <= j < i ==> !slices[j].Matches(slices[i].Asking(dnai, None))
  }

  /** The pools of one S-NSSAI and DNN of a UPF. */
  datatype DnnItem = DnnItem(slice: Slice, pools: seq<UeIPPool>, staticPools: seq<UeIPPool>) {
    function Of(useStatic: bool): seq<UeIPPool> {
      if useStatic then staticPools else pools
    }
  }

  type Upf = seq<DnnItem>

  function Slices(upf: Upf): (slices: seq<Slice>)
    ensures |slices| == |upf| && forall i :: 0 <= i < |slices| ==> slices[i] == upf[i].slice
  {
    seq(|upf|, i requires 0 <= i < |upf| => upf[i].slice)
  }

  ghost function Pools(upf: Upf, useStatic: bool): set<UeIPPool> {
    set k, p | 0 <= k < |upf| && p in upf[k].Of(useStatic) :: p
  }

  function FirstContaining(pools: seq<UeIPPool>, addr: IPv4): (r: Option<UeIPPool>)
    ensures r.Some? ==> r.value in pools && r.value.subnet.Contains(addr.Uint32())
    ensures r.None? ==> forall p :: p in pools ==> !p.subnet.Contains(addr.Uint32())
  {
    if pools == [] then None
    else if pools[0].subnet.Contains(addr.Uint32()) then Some(pools[0])
    else FirstContaining(pools[1..], addr)
  }

  /** The first pool of the list that contains the address. */
  predicate IsFirst(pools: seq<UeIPPool>, p: UeIPPool, addr: IPv4) {
    exists k :: 0 <= k < |pools| && pools[k] == p && p.subnet.Contains(addr.Uint32())
                && forall j :: 0 <= j < k ==> !pools[j].subnet.Contains(addr.Uint32())
  }

  lemma {:induction false} FirstContainingIs(pools: seq<UeIPPool>, addr: IPv4)
    ensures forall p :: FirstContaining(pools, addr) == Some(p) ==> IsFirst(pools, p, addr)
  {
    if pools != [] {
      FirstContainingIs(pools[1..], addr);
      forall p | FirstContaining(pools, addr) == Some(p)
        ensures IsFirst(pools, p, addr)
      {
        if pools[0].subnet.Contains(addr.Uint32()) {
          assert pools[0] == p;
        } else {
          var k :| 0 <= k < |pools[1..]| && pools[1..][k] == p && p.subnet.Contains(addr.Uint32())
                   && forall j :: 0 <= j < k ==> !pools[1..][j].subnet.Contains(addr.Uint32());
          assert pools[k + 1] == p && forall j :: 0 < j < k + 1 ==> pools[j] == pools[1..][j - 1];
        }
      }
    }
  }

  method FindContaining(pools: seq<UeIPPool>, addr: IPv4) returns (r: Option<UeIPPool>)
    ensures r == FirstContaining(pools, addr)
  {
    var i := 0;
    while i < |pools|
      invariant i <= |pools| && FirstContaining(pools, addr) == FirstContaining(pools[i..], addr)
    {
      if pools[i].subnet.Contains(addr.Uint32()) { return Some(pools[i]); }
      i := i + 1;
    }
    return None;
  }

  /** getUEIPPool, of the first item that matches: what is tried, and whether it is static. */
  function Offered(upf: Upf, sel: Selection): (r: (seq<UeIPPool>, bool))
    ensures forall p :: p in r.0 ==> p in Pools(upf, r.1)
  {
    if upf == [] then ([], false)
    else if !upf[0].slice.Matches(sel) then Offered(upf[1..], sel)
    else if sel.address.None? then (upf[0].Of(false), false)
    else
      var item := upf[0];
      var fixed, dynamic := FirstContaining(item.Of(true), sel.address.value), FirstContaining(item.Of(false),
                                                                                               sel.address.value);
      if fixed.Some? then ([fixed.value], true)
      else if dynamic.Some? then ([dynamic.value], false)
      else ([], false)
  }

  /** Item i is the first one that matches. */
  predicate FirstMatch(upf: Upf, sel: Selection, i: int) {
    0 <= i < |upf| && upf[i].slice.Matches(sel) && forall j :: 0 <= j < i ==> !upf[j].slice.Matches(sel)
  }

  predicate HasPool(pools: seq<UeIPPool>, addr: IPv4) {
    exists k :: 0 <= k < |pools| && pools[k].subnet.Contains(addr.Uint32())
  }

  /** Nothing is offered without a match; else all dynamic pools of the first item that matches,
      or for a requested address just the first pool of it that contains the address, a static one
      if there is any. */
  lemma {:induction false} OfferedMeans(upf: Upf, sel: Selection)
    ensures var (pools, useStatic) := Offered(upf, sel);
            && (pools != [] ==> exists i :: FirstMatch(upf, sel, i))
            && forall i :: FirstMatch(upf, sel, i) ==>
                 if sel.address.None? then pools == upf[i].pools && !useStatic
                 else
                   var addr := sel.address.value;
                   && useStatic == HasPool(upf[i].staticPools, addr)
                   && (pools != [] <==> useStatic || HasPool(upf[i].pools, addr))
                   && |pools| <= 1 && forall p :: p in pools ==> IsFirst(upf[i].Of(useStatic), p, addr)
  {
    if upf != [] {
      if sel.address.Some? {
        FirstContainingIs(upf[0].Of(true), sel.address.value);
        FirstContainingIs(upf[0].Of(false), sel.address.value);
      }
      if upf[0].slice.Matches(sel) {
        assert FirstMatch(upf, sel, 0);
        assert forall i :: FirstMatch(upf, sel, i) ==> i == 0;
      } else {
        OfferedMeans(upf[1..], sel);
        forall i | FirstMatch(upf, sel, i)
          ensures i > 0 && FirstMatch(upf[1..], sel, i - 1) && upf[i] == upf[1..][i - 1]
        {
          assert i > 0 ==> forall j :: 0 <= j < i - 1 ==> upf[1..][j] == upf[j + 1];
        }
        if i :| FirstMatch(upf[1..], sel, i) {
          assert FirstMatch(upf, sel, i + 1) by {
            assert forall j :: 0 < j < i + 1 ==> upf[j] == upf[1..][j - 1];
          }
        }
      }
    }
  }

  /** The dynamic pools that are tried for some selection. */
  ghost predicate OfferedBy(upf: Upf, p: UeIPPool) {
    exists i :: 0 <= i < |upf| && Offers(Slices(upf), i) && p in upf[i].pools
  }

  // A dynamic pool offered for an address is also offered without one.
  lemma OfferedPools(upf: Upf, sel: Selection)
    ensures forall p :: p in Offered(upf, sel).0 && !Offered(upf, sel).1 ==> OfferedBy(upf, p)
  {
    OfferedMeans(upf, sel);
    forall p | p in Offered(upf, sel).0 && !Offered(upf, sel).1
      ensures OfferedBy(upf, p)
    {
      var i :| FirstMatch(upf, sel, i);
      assert Offers(Slices(upf), i) by {
        assert sel.dnai in upf[i].slice.dnais + [""];
        assert forall j :: 0 <= j < i ==> !Slices(upf)[j].Matches(Slices(upf)[i].Asking(sel.dnai, None));
      }
    }
  }

  method GetUEIPPool(upf: Upf, sel: Selection) returns (pools: seq<UeIPPool>, useStatic: bool)
    ensures (pools, useStatic) == Offered(upf, sel)
  {
    var i := 0;
    while i < |upf|
      invariant i <= |upf| && Offered(upf, sel) == Offered(upf[i..], sel)
    {
      if upf[i].slice.Matches(sel) {
        if sel.address.Some? {
          var fixed := FindContaining(upf[i].staticPools, sel.address.value);
          if fixed.Some? { return [fixed.value], true; }
          var dynamic := FindContaining(upf[i].pools, sel.address.value);
          if dynamic.Some? { return [dynamic.value], false; }
          return [], false;
        }
        return upf[i].pools, false;
      }
      i := i + 1;
    }
    return [], false;
  }

  /** All pools of a kind, in the order of the items. */
  function AllOf(upf: Upf, useStatic: bool): seq<UeIPPool> {
    if upf == [] then [] else upf[0].Of(useStatic) + AllOf(upf[1..], useStatic)
  }

  lemma {:induction false} AllOfIs(upf: Upf, useStatic: bool)
    ensures forall p :: p in AllOf(upf, useStatic) <==> p in Pools(upf, useStatic)
  {
    if upf != [] {
      AllOfIs(upf[1..], useStatic);
      forall p | p in Pools(upf, useStatic)
        ensures p in AllOf(upf, useStatic)
      {
        var k :| 0 <= k < |upf| && p in upf[k].Of(useStatic);
        if k > 0 { assert p in upf[1..][k - 1].Of(useStatic) && p in Pools(upf[1..], useStatic); }
      }
      forall p | p in Pools(upf[1..], useStatic)
        ensures p in Pools(upf, useStatic)
      {
        var k :| 0 <= k < |upf[1..]| && p in upf[1..][k].Of(useStatic);
        assert p in upf[k + 1].Of(useStatic);
      }
      forall p | p in upf[0].Of(useStatic)
        ensures p in Pools(upf, useStatic)
      {
      }
    }
  }

  lemma {:induction false} FirstInConcat(a: seq<UeIPPool>, b: seq<UeIPPool>, addr: IPv4)
    ensures FirstContaining(a + b, addr) == if FirstContaining(a, addr).Some? then FirstContaining(a, addr)
            else FirstContaining(b, addr)
  {
    if a == [] {
      assert a + b == b;
    } else {
      FirstInConcat(a[1..], b, addr);
      assert (a + b)[1..] == a[1..] + b;
    }
  }

  method FindPoolByAddr(upf: Upf, addr: IPv4, useStatic: bool) returns (r: Option<UeIPPool>)
    ensures r == FirstContaining(AllOf(upf, useStatic), addr)
  {
    var i := 0;
    while i < |upf|
      invariant i <= |upf|
      invariant FirstContaining(AllOf(upf, useStatic), addr) == FirstContaining(AllOf(upf[i..], useStatic), addr)
    {
      FirstInConcat(upf[i].Of(useStatic), AllOf(upf[i + 1..], useStatic), addr);
      assert upf[i..][1..] == upf[i + 1..];
      r := FindContaining(upf[i].Of(useStatic), addr);
      if r.Some? { return r; }
      i := i + 1;
    }
    return None;
  }

  // --- Configuration ---

  /** A CIDR of the configuration, if it can be parsed. */
  type Cidr = c: Option<Subnet> | c.Some? ==> c.value.Valid() && PrefixMask(c.value.mask, WIDTH)
    witness None

  datatype DnnConfig = DnnConfig(slice: Slice, cidrs: seq<Cidr>, statics: seq<Cidr>)

  /** A static pool is cut out of the dynamic pools in which it starts; it must not stick out. */
  predicate CutsOut(n: Subnet, s: Subnet) {
    n.Contains(s.ip)
  }

  predicate Fits(n: Subnet, s: Subnet) {
    CutsOut(n, s) ==> InSubnet(n, s.Min()) && InSubnet(n, s.Max())
  }

  /** The items for which a UPF is built. */
  predicate Acceptable(config: DnnConfig) {
    && None !in config.cidrs && None !in config.statics
    && forall n, s :: n in config.cidrs && s in config.statics ==> Fits(n.value, s.value)
  }

  /** What a dynamic pool can hand out. At the start of the SMF the network and the broadcast
      address are taken out too, for a UPF that is added later they are not. */
  predicate Usable(n: Subnet, statics: seq<Cidr>, first: bool, v: int) {
    && InSubnet(n, v)
    && (forall s :: s in statics && s.Some? && CutsOut(n, s.value) ==> !InSubnet(s.value, v))
    && (first ==> !IsEnd(n, v))
  }

  method NewPools(cidrs: seq<Cidr>) returns (pools: seq<UeIPPool>, ok: bool)
    ensures ok <==> None !in cidrs
    ensures ok ==> |pools| == |cidrs|
    ensures forall i :: 0 <= i < |pools| <= |cidrs| ==>
              pools[i].Valid() && Some(pools[i].subnet) == cidrs[i]
                  && pools[i].FreeSet() == UsableSet(pools[i].subnet, [], false)
    ensures forall i :: 0 <= i < |pools| ==> fresh(pools[i])
    ensures forall i, j :: 0 <= i < j < |pools| ==> pools[i] != pools[j]
  {
    pools := [];
    var i := 0;
    while i < |cidrs|
      invariant i == |pools| <= |cidrs| && None !in cidrs[..i]
      invariant forall i :: 0 <= i < |pools| <= |cidrs| ==>
                  pools[i].Valid() && Some(pools[i].subnet) == cidrs[i]
                      && pools[i].FreeSet() == UsableSet(pools[i].subnet, [], false)
      invariant forall i :: 0 <= i < |pools| ==> fresh(pools[i])
      invariant forall i, j :: 0 <= i < j < |pools| ==> pools[i] != pools[j]
    {
      if cidrs[i].None? { return pools, false; }
      var p := new UeIPPool(cidrs[i].value);
      pools := pools + [p];
      i := i + 1;
    }
    assert cidrs[..i] == cidrs;
    ok := true;
  }

  ghost predicate Distinct(pools: seq<UeIPPool>) {
    forall i, j :: 0 <= i < j < |pools| ==> pools[i] != pools[j]
  }

  ghost predicate AllValid(pools: seq<UeIPPool>)
    reads pools
  {
    forall i :: 0 <= i < |pools| ==> pools[i].Valid()
  }

  /** What stays free in a pool when the static pool is cut out. */
  ghost function Spared(free: set<int>, n: Subnet, s: Subnet): set<int> {
    if CutsOut(n, s) then set v | v in free && !InSubnet(s, v) else free
  }

  ghost function WithoutEnds(free: set<int>, n: Subnet): set<int> {
    set v | v in free && !IsEnd(n, v)
  }

  ghost function UsableSet(n: Subnet, statics: seq<Cidr>, first: bool): set<int> {
    set v | InSubnet(n, v) && n.Min() <= v <= n.Max() && Usable(n, statics, first, v)
  }

  lemma UsableMore(n: Subnet, statics: seq<Cidr>, s: Subnet, c: Cidr)
    requires c == Some(s)
    ensures UsableSet(n, statics + [c], false) == Spared(UsableSet(n, statics, false), n, s)
    ensures UsableSet(n, statics, true) == WithoutEnds(UsableSet(n, statics, false), n)
  {
  }

  method CutOut(p: UeIPPool, staticPool: UeIPPool) returns (ok: bool)
    requires p.Valid() && staticPool.Valid() && p != staticPool
    modifies p
    ensures p.Valid() && ok == Fits(p.subnet, staticPool.subnet)
    ensures ok ==> p.FreeSet() == Spared(old(p.FreeSet()), p.subnet, staticPool.subnet)
  {
    ok := true;
    if CutsOut(p.subnet, staticPool.subnet) {
      ok := p.Exclude(staticPool);
    }
  }

  /** Cuts one static pool out of the dynamic pools that contain its first address. */
  method ExcludeStatic(pools: seq<UeIPPool>, staticPool: UeIPPool) returns (ok: bool)
    requires AllValid(pools) && Distinct(pools) && staticPool.Valid() && staticPool !in pools
    modifies set p | p in pools
    ensures ok <==> forall i :: 0 <= i < |pools| ==> Fits(pools[i].subnet, staticPool.subnet)
    ensures AllValid(pools)
    ensures ok ==> forall i ::
              0 <= i < |pools|
              ==> pools[i].FreeSet() == Spared(old(pools[i].FreeSet()), pools[i].subnet, staticPool.subnet)
  {
    var k := 0;
    while k < |pools|
      invariant k <= |pools| && AllValid(pools)
      invariant forall i :: k <= i < |pools| ==> pools[i].pool == old(pools[i].pool)
      invariant forall i :: 0 <= i < k ==>
                  Fits(pools[i].subnet, staticPool.subnet)
                      && pools[i].FreeSet() == Spared(old(pools[i].FreeSet()), pools[i].subnet, staticPool.subnet)
    {
      ok := CutOut(pools[k], staticPool);
      if !ok { return false; }
      k := k + 1;
    }
    ok := true;
  }

  method ReserveAllEnds(pools: seq<UeIPPool>)
    requires AllValid(pools) && Distinct(pools)
    modifies set p | p in pools
    ensures AllValid(pools)
    ensures forall i :: 0 <= i < |pools| ==> pools[i].FreeSet() == WithoutEnds(old(pools[i].FreeSet()), pools[i].subnet)
  {
    var k := 0;
    while k < |pools|
      invariant k <= |pools| && AllValid(pools)
      invariant forall i :: k <= i < |pools| ==> pools[i].FreeSet() == old(pools[i].FreeSet())
      invariant forall i :: 0 <= i < k ==> pools[i].FreeSet() == WithoutEnds(old(pools[i].FreeSet()), pools[i].subnet)
    {
      pools[k].ReserveEnds();
      k := k + 1;
    }
  }

  /** The pools of an item are built as configured. */
  ghost predicate Built(item: DnnItem, config: DnnConfig, first: bool)
    reads item.Of(false), item.Of(true)
  {
    && item.slice == config.slice && |item.pools| == |config.cidrs| && |item.staticPools| == |config.statics|
    && AllValid(item.pools) && AllValid(item.staticPools)
    && (forall i :: 0 <= i < |item.pools| ==> Some(item.pools[i].subnet) == config.cidrs[i])
    && (forall i :: 0 <= i < |item.staticPools| ==> Some(item.staticPools[i].subnet) == config.statics[i])
    && (forall i :: 0 <= i < |item.pools| ==> item.pools[i].FreeSet() == UsableSet(item.pools[i].subnet, config.statics,
        first))
  }

  predicate FitsAll(pools: seq<UeIPPool>, s: Subnet) {
    forall k :: 0 <= k < |pools| ==> Fits(pools[k].subnet, s)
  }

  // The first static pools exist and are cut out of the dynamic ones.
  ghost predicate CutSoFar(pools: seq<UeIPPool>, staticPools: seq<UeIPPool>, config: DnnConfig)
    reads pools, staticPools
  {
    && AllValid(pools) && AllValid(staticPools) && Distinct(pools) && |staticPools| <= |config.statics|
    && (forall i :: 0 <= i < |staticPools| ==>
          && staticPools[i] !in pools && Some(staticPools[i].subnet) == config.statics[i]
          && FitsAll(pools, staticPools[i].subnet))
    && (forall k :: 0 <= k < |pools| ==> pools[k].FreeSet() == UsableSet(pools[k].subnet,
        config.statics[..|staticPools|], false))
  }

  // One more static pool.
  method CutStatic(pools: seq<UeIPPool>, staticPools: seq<UeIPPool>, config: DnnConfig)
    returns (staticPool: UeIPPool, ok: bool)
    requires CutSoFar(pools, staticPools, config) && |staticPools| < |config.statics|
    requires config.statics[|staticPools|].Some?
    modifies set p | p in pools
    ensures fresh(staticPool) && AllValid(pools)
    ensures ok <==> FitsAll(pools, config.statics[|staticPools|].value)
    ensures ok ==> CutSoFar(pools, staticPools + [staticPool], config)
  {
    var j := |staticPools|;
    staticPool := new UeIPPool(config.statics[j].value);
    ok := ExcludeStatic(pools, staticPool);
    assert config.statics[..j + 1] == config.statics[..j] + [config.statics[j]];
    forall k | ok && 0 <= k < |pools|
      ensures pools[k].FreeSet() == UsableSet(pools[k].subnet, config.statics[..j + 1], false)
    {
      UsableMore(pools[k].subnet, config.statics[..j], staticPool.subnet, config.statics[j]);
    }
  }

  method CutStatics(pools: seq<UeIPPool>, config: DnnConfig) returns (staticPools: seq<UeIPPool>, ok: bool)
    requires CutSoFar(pools, [], config)
    modifies set p | p in pools
    ensures ok <==> forall i ::
              0 <= i < |config.statics| ==> config.statics[i].Some? && FitsAll(pools, config.statics[i].value)
    ensures AllValid(pools) && forall i :: 0 <= i < |staticPools| ==> fresh(staticPools[i])
    ensures ok ==> |staticPools| == |config.statics| && CutSoFar(pools, staticPools, config)
  {
    staticPools := [];
    while |staticPools| < |config.statics|
      invariant CutSoFar(pools, staticPools, config)
      invariant forall i :: 0 <= i < |staticPools| ==> fresh(staticPools[i])
    {
      if config.statics[|staticPools|].None? { return staticPools, false; }
      var staticPool;
      staticPool, ok := CutStatic(pools, staticPools, config);
      if !ok { return staticPools, false; }
      staticPools := staticPools + [staticPool];
    }
    ok := true;
  }

  method NewDnnItem(config: DnnConfig, first: bool) returns (r: Option<DnnItem>)
    ensures r.Some? <==> Acceptable(config)
    ensures r.Some? ==> Built(r.value, config, first)
    ensures r.Some? ==> forall p :: p in r.value.pools || p in r.value.staticPools ==> fresh(p)
    ensures r.Some? ==> forall p :: p in r.value.pools ==> p !in r.value.staticPools
  {
    var pools, ok := NewPools(config.cidrs);
    if !ok { return None; }
    var staticPools;
    staticPools, ok := CutStatics(pools, config);
    if !ok { return None; }
    assert config.statics[..|staticPools|] == config.statics;
    if first {
      ReserveAllEnds(pools);
      forall k | 0 <= k < |pools|
        ensures pools[k].FreeSet() == UsableSet(pools[k].subnet, config.statics, true)
      {
        UsableMore(pools[k].subnet, config.statics, pools[k].subnet, config.cidrs[k]);
      }
    }
    return Some(DnnItem(config.slice, pools, staticPools));
  }

  type UpfConfig = seq<DnnConfig>

  type Topology = map<string, UpfConfig>

  function ConfigSlices(config: UpfConfig): (slices: seq<Slice>)
    ensures |slices| == |config| && forall i :: 0 <= i < |slices| ==> slices[i] == config[i].slice
  {
    seq(|config|, i requires 0 <= i < |config| => config[i].slice)
  }

  ghost predicate BuiltUpf(upf: Upf, config: UpfConfig, first: bool)
    reads Pools(upf, false), Pools(upf, true)
  {
    |upf| == |config| && forall i :: 0 <= i < |upf| ==>
      assert forall p :: p in upf[i].Of(false) ==> p in Pools(upf, false);
      assert forall p :: p in upf[i].Of(true) ==> p in Pools(upf, true);
      Built(upf[i], config[i], first)
  }

  method NewUPF(config: UpfConfig, first: bool) returns (r: Option<Upf>)
    ensures r.Some? <==> forall c :: c in config ==> Acceptable(c)
    ensures r.Some? ==> OwnBuilt(r.value, config, first)
    ensures r.Some? ==> forall p :: p in Pools(r.value, false) || p in Pools(r.value, true) ==> fresh(p)
  {
    var upf: Upf := [];
    var i := 0;
    while i < |config|
      invariant i == |upf| <= |config|
      invariant forall k :: 0 <= k < i ==> Acceptable(config[k])
      invariant OwnBuilt(upf, config[..i], first)
      invariant forall p :: p in Pools(upf, false) || p in Pools(upf, true) ==> fresh(p)
    {
      var longer := AppendItem(upf, config, i, first);
      if longer.None? { return None; }
      upf := longer.value;
      i := i + 1;
    }
    assert config[..i] == config;
    return Some(upf);
  }

  method AppendItem(upf: Upf, config: UpfConfig, i: nat, first: bool) returns (r: Option<Upf>)
    requires i < |config| && OwnBuilt(upf, config[..i], first)
    ensures r.Some? <==> Acceptable(config[i])
    ensures r.Some? ==> OwnBuilt(r.value, config[..i + 1], first) && |r.value| == |upf| + 1
    ensures r.Some? ==> forall b, p :: p in Pools(r.value, b) ==> p in Pools(upf, b) || fresh(p)
  {
    var item := NewDnnItem(config[i], first);
    if item.None? { return None; }
    OneMoreItem(upf, config, i, first, item.value);
    return Some(upf + [item.value]);
  }

  // The UPF as configured, with pools of its own.
  ghost predicate OwnBuilt(upf: Upf, config: UpfConfig, first: bool)
    reads Pools(upf, false), Pools(upf, true)
  {
    && BuiltUpf(upf, config, first) && Pools(upf, false) !! Pools(upf, true)
    && (forall p :: p in Pools(upf, false) ==> p.Valid()) && (forall p :: p in Pools(upf, true) ==> p.Valid())
  }

  lemma OneMoreItem(upf: Upf, config: UpfConfig, i: nat, first: bool, item: DnnItem)
    requires i < |config| && OwnBuilt(upf, config[..i], first) && Built(item, config[i], first)
    requires forall p :: p in item.pools || p in item.staticPools ==> p !in Pools(upf, false) && p !in Pools(upf, true)
    requires forall p :: p in item.pools ==> p !in item.staticPools
    ensures OwnBuilt(upf + [item], config[..i + 1], first)
    ensures forall b :: Pools(upf + [item], b) == Pools(upf, b) + set p | p in item.Of(b)
  {
    forall b
      ensures Pools(upf + [item], b) == Pools(upf, b) + set p | p in item.Of(b)
    {
      assert (upf + [item])[|upf|] == item;
      forall k, p | 0 <= k < |upf| && p in upf[k].Of(b)
        ensures p in Pools(upf + [item], b)
      {
        assert (upf + [item])[k] == upf[k];
      }
    }
  }

  predicate Apart(p: UeIPPool, q: UeIPPool) {
    ApartSubnets(p.subnet, q.subnet)
  }

  /** isOverlap. */
  method IsOverlap(pools: seq<UeIPPool>) returns (overlap: bool)
    ensures overlap <==> exists i, j :: 0 <= i < j < |pools| && !Apart(pools[i], pools[j])
  {
    if |pools| < 2 { return false; }
    var i := 0;
    while i < |pools| - 1
      invariant i <= |pools| - 1
      invariant forall k, j :: 0 <= k < i && k < j < |pools| ==> Apart(pools[k], pools[j])
    {
      var j := i + 1;
      while j < |pools|
        invariant i < j <= |pools|
        invariant forall l :: i < l < j ==> Apart(pools[i], pools[l])
      {
        if !Apart(pools[i], pools[j]) { return true; }
        j := j + 1;
      }
      i := i + 1;
    }
    return false;
  }

  // --- Sessions ---

  datatype Session = Session(selected: Option<Upf>, address: Option<IPv4>, useStatic: bool) {
    /** An address that is to be released. */
    predicate Holds() {
      selected.Some? && address.Some?
    }

    predicate HoldsDynamic() {
      Holds() && !useStatic
    }

    function Value(): nat
      requires Holds()
    {
      address.value.Uint32()
    }
  }

  type Sessions = map<nat, Session>

  // The pool that issued the address of each session that holds a dynamic one.
  type Issuers = map<nat, UeIPPool>

  // The free addresses of the dynamic pools.
  type Frees = map<UeIPPool, set<int>>

  /** A UPF that SelectUPFAndAllocUEIP may try, and whether it is associated. */
  datatype Candidate = Candidate(upf: Upf, associated: bool)

  /** No dynamic address is held twice. */
  ghost predicate Unique(sessions: Sessions) {
    forall r, t :: r in sessions && t in sessions && r != t && sessions[r].HoldsDynamic() && sessions[t].HoldsDynamic()
      ==> sessions[r].address != sessions[t].address
  }

  /** The address came from a pool of the session's UPF, the only one there that contains it, and
      no pool that could issue it, neither that one nor one that is offered, has it free. */
  ghost predicate HeldWell(ref: nat, s: Session, issuer: Issuers, frees: Frees, offered: set<UeIPPool>) {
    s.HoldsDynamic() ==>
      && ref in issuer && issuer[ref] in frees && issuer[ref] in Pools(s.selected.value, false)
      && issuer[ref].subnet.Contains(s.Value())
      && (forall p :: p in Pools(s.selected.value, false) && p.subnet.Contains(s.Value()) ==> p == issuer[ref])
      && (forall p :: p in frees && (p == issuer[ref] || p in offered) ==> s.Value() !in frees[p])
  }

  ghost predicate AllHeldWell(sessions: Sessions, issuer: Issuers, frees: Frees, offered: set<UeIPPool>) {
    (forall r :: r in sessions ==> HeldWell(r, sessions[r], issuer, frees, offered)) && Unique(sessions)
  }

  /** The dynamic addresses that sessions hold from a pool. */
  ghost function HeldFrom(sessions: Sessions, issuer: Issuers, p: UeIPPool): set<int> {
    set r | r in sessions && r in issuer && sessions[r].HoldsDynamic() && issuer[r] == p :: sessions[r].Value()
  }

  /** The addresses of each pool: free, or held by a session that was given them from there. */
  ghost function AddressesOf(sessions: Sessions, issuer: Issuers, frees: Frees): Frees {
    map p | p in frees :: frees[p] + HeldFrom(sessions, issuer, p)
  }

  ghost function FreeOf(pools: set<UeIPPool>): Frees
    reads pools
  {
    map p | p in pools :: p.FreeSet()
  }

  // --- Configured UPFs ---

  type Upfs = map<string, Upf>

  ghost predicate Known(upf: Upf, dynamic: set<UeIPPool>, fixed: set<UeIPPool>) {
    Pools(upf, false) <= dynamic && Pools(upf, true) <= fixed
  }

  ghost function ActivePools(upfs: Upfs): set<UeIPPool> {
    set name, p | name in upfs && p in Pools(upfs[name], false) :: p
  }

  /** The dynamic pools that are tried for some selection. */
  ghost function Offering(upfs: Upfs): set<UeIPPool> {
    set name, p | name in upfs && p in Pools(upfs[name], false) && OfferedBy(upfs[name], p) :: p
  }

  ghost predicate AllApart(upfs: Upfs) {
    forall p, q :: p in ActivePools(upfs) && q in ActivePools(upfs) && p != q ==> Apart(p, q)
  }

  /** The UPFs have known pools, and no two configured dynamic pools overlap. */
  ghost predicate Arranged(upfs: Upfs, dynamic: set<UeIPPool>, fixed: set<UeIPPool>) {
    && dynamic !! fixed
    && (forall name :: name in upfs ==> Known(upfs[name], dynamic, fixed))
    && AllApart(upfs)
  }

  ghost predicate SessionsOk(sessions: Sessions, dynamic: set<UeIPPool>, fixed: set<UeIPPool>) {
    forall r :: r in sessions && sessions[r].Holds()
        ==> sessions[r].address.value.Valid() && Known(sessions[r].selected.value, dynamic, fixed)
  }

  lemma StillKnown(sessions: Sessions, dynamic: set<UeIPPool>, fixed: set<UeIPPool>, addedDynamic: set<UeIPPool>,
                   addedFixed: set<UeIPPool>)
    requires SessionsOk(sessions, dynamic, fixed)
    ensures SessionsOk(sessions, dynamic + addedDynamic, fixed + addedFixed)
  {
    forall r | r in sessions && sessions[r].Holds()
      ensures Known(sessions[r].selected.value, dynamic + addedDynamic, fixed + addedFixed)
    {
      assert Known(sessions[r].selected.value, dynamic, fixed);
    }
  }

  /** An address is in one of the pools at most, and free only there. */
  ghost predicate Lone(pools: set<UeIPPool>, frees: Frees) {
    forall p, q, a: IPv4 :: p in pools && q in pools && p != q && a.Valid() && p.subnet.Contains(a.Uint32())
      ==> !q.subnet.Contains(a.Uint32()) && (q in frees ==> a.Uint32() !in frees[q])
  }

  /** Where the configuration lists a dynamic pool. */
  datatype Place = Place(name: string, item: nat, pool: nat)

  // The subnet at a place, of a UPF that is there or else of the topology that is added.
  function SubnetAt(upfs: Upfs, topology: Topology, l: Place): Cidr {
    if l.name in upfs then
      if l.item < |upfs[l.name]| && l.pool < |upfs[l.name][l.item].pools|
          then AsCidr(upfs[l.name][l.item].pools[l.pool].subnet) else None
    else if l.name in topology && l.item < |topology[l.name]| && l.pool < |topology[l.name][l.item].cidrs| then
      topology[l.name][l.item].cidrs[l.pool]
    else None
  }

  function AsCidr(n: Subnet): Cidr {
    if n.Valid() && PrefixMask(n.mask, WIDTH) then Some(n) else None
  }

  predicate ApartSubnets(n: Subnet, m: Subnet) {
    n.Max() < m.Min() || m.Max() < n.Min()
  }

  /** No two of the dynamic pools configured then would overlap. */
  ghost predicate NoClash(upfs: Upfs, topology: Topology) {
    forall l, m :: l != m && SubnetAt(upfs, topology, l).Some? && SubnetAt(upfs, topology, m).Some?
      ==> ApartSubnets(SubnetAt(upfs, topology, l).value, SubnetAt(upfs, topology, m).value)
  }

  /** Every UPF that is not there yet can be built. */
  ghost predicate AllAcceptable(upfs: Upfs, topology: Topology) {
    forall name, c :: name in topology && name !in upfs && c in topology[name] ==> Acceptable(c)
  }

  /** Pool k of item i of the topology could issue the address: it is usable there, and the item is
      tried for some selection. */
  predicate Issues(config: UpfConfig, i: int, k: int, first: bool, v: int) {
    && 0 <= i < |config| && 0 <= k < |config[i].cidrs| && config[i].cidrs[k].Some?
    && Offers(ConfigSlices(config), i) && Usable(config[i].cidrs[k].value, config[i].statics, first, v)
  }

  /** Some pool that would be new could issue the address. */
  predicate Issuable(upfs: Upfs, topology: Topology, first: bool, v: int) {
    exists name :: name in topology && name !in upfs
      && exists i, k :: 0 <= i < |topology[name]| && 0 <= k < |topology[name][i].cidrs|
          && Issues(topology[name], i, k, first, v)
  }

  /** No pool that would be new could issue an address that a session holds. */
  predicate Harmless(sessions: Sessions, upfs: Upfs, topology: Topology, first: bool) {
    forall r :: r in sessions && sessions[r].HoldsDynamic() ==> !Issuable(upfs, topology, first, sessions[r].Value())
  }

  // A new session takes an address from a pool.
  ghost function Taking(frees: Frees, s: Session, from: Option<UeIPPool>): Frees {
    if s.HoldsDynamic() && from.Some? && from.value in frees then frees[from.value := frees[from.value] - {s.Value()}]
        else frees
  }

  ghost function Issuing(issuer: Issuers, ref: nat, s: Session, from: Option<UeIPPool>): Issuers {
    if s.HoldsDynamic() && from.Some? then issuer[ref := from.value] else issuer
  }

  lemma TakeKeeps(sessions: Sessions, issuer: Issuers, frees: Frees, upfs: Upfs, ref: nat, s: Session,
                  from: Option<UeIPPool>)
    requires AllHeldWell(sessions, issuer, frees, Offering(upfs)) && ref !in sessions && Lone(ActivePools(upfs), frees)
    requires s.HoldsDynamic() ==>
               && from.Some? && from.value in frees && from.value in Offering(upfs) && s.Value() in frees[from.value]
               && s.address.value.Valid() && s.selected.value in upfs.Values
               && from.value in Pools(s.selected.value, false) && from.value.subnet.Contains(s.Value())
    ensures AllHeldWell(sessions[ref := s], Issuing(issuer, ref, s, from), Taking(frees, s, from), Offering(upfs))
  {
    if s.HoldsDynamic() {
      var name :| name in upfs && upfs[name] == s.selected.value;
      assert forall p :: p in Pools(s.selected.value, false) ==> p in ActivePools(upfs);
    }
    forall r | r in sessions
      ensures HeldWell(r, sessions[r], Issuing(issuer, ref, s, from), Taking(frees, s, from), Offering(upfs))
      ensures sessions[r].HoldsDynamic() && s.HoldsDynamic() ==> sessions[r].address != s.address
    {
      assert HeldWell(r, sessions[r], issuer, frees, Offering(upfs));
    }
  }

  lemma TakeConserves(sessions: Sessions, issuer: Issuers, frees: Frees, ref: nat, s: Session, from: Option<UeIPPool>)
    requires ref !in sessions
    requires s.HoldsDynamic() ==> from.Some? && from.value in frees && s.Value() in frees[from.value]
    ensures AddressesOf(sessions[ref := s], Issuing(issuer, ref, s, from), Taking(frees, s, from))
            == AddressesOf(sessions, issuer, frees)
  {
    var after, issued := sessions[ref := s], Issuing(issuer, ref, s, from);
    forall p | p in frees
      ensures HeldFrom(after, issued, p) == HeldFrom(sessions, issuer, p) + if s.HoldsDynamic() && p == from.value
              then {s.Value()} else {}
    {
      HeldGrows(sessions, issuer, ref, s, from, p);
    }
    var frees' := Taking(frees, s, from);
    forall p | p in frees
      ensures frees'[p] + HeldFrom(after, issued, p) == frees[p] + HeldFrom(sessions, issuer, p)
    {
    }
  }

  lemma HeldGrows(sessions: Sessions, issuer: Issuers, ref: nat, s: Session, from: Option<UeIPPool>, p: UeIPPool)
    requires ref !in sessions && (s.HoldsDynamic() ==> from.Some?)
    ensures HeldFrom(sessions[ref := s], Issuing(issuer, ref, s, from), p) ==
            HeldFrom(sessions, issuer, p) + if s.HoldsDynamic() && p == from.value then {s.Value()} else {}
  {
    var after, issued := sessions[ref := s], Issuing(issuer, ref, s, from);
    forall v | v in HeldFrom(sessions, issuer, p)
      ensures v in HeldFrom(after, issued, p)
    {
      var r :| r in sessions && r in issuer && sessions[r].HoldsDynamic() && issuer[r] == p && sessions[r].Value() == v;
      assert r in after && r in issued && after[r].HoldsDynamic() && issued[r] == p;
    }
    forall v | v in HeldFrom(after, issued, p) && (s.HoldsDynamic() && p == from.value ==> v != s.Value())
      ensures v in HeldFrom(sessions, issuer, p)
    {
      var r :| r in after && r in issued && after[r].HoldsDynamic() && issued[r] == p && after[r].Value() == v;
      assert r in sessions && r in issuer && sessions[r].HoldsDynamic();
    }
    if s.HoldsDynamic() && p == from.value {
      assert ref in after && ref in issued && after[ref].HoldsDynamic() && issued[ref] == p;
    }
  }

  /** The session is gone, or holds no address any more. */
  ghost predicate Ended(sessions: Sessions, ref: nat, after: Sessions) {
    && ref in sessions && (ref in after ==> !after[ref].Holds())
    && (forall r :: r != ref ==> (r in sessions <==> r in after))
    && (forall r :: r != ref && r in after ==> after[r] == sessions[r])
  }

  lemma AddAndRemove(sessions: Sessions, ref: nat, s: Session)
    requires ref !in sessions
    ensures sessions[ref := s] - {ref} == sessions
  {
  }

  // The pool that issued a session's address gets it back.
  ghost function Returning(frees: Frees, sessions: Sessions, issuer: Issuers, ref: nat): Frees {
    if ref in sessions && sessions[ref].HoldsDynamic() && ref in issuer && issuer[ref] in frees then
      frees[issuer[ref] := frees[issuer[ref]] + {sessions[ref].Value()}]
    else frees
  }

  lemma ReturnKeeps(sessions: Sessions, issuer: Issuers, frees: Frees, offered: set<UeIPPool>, ref: nat,
                    after: Sessions,
                    dynamic: set<UeIPPool>, fixed: set<UeIPPool>)
    requires AllHeldWell(sessions, issuer, frees, offered) && SessionsOk(sessions, dynamic, fixed)
    requires Ended(sessions, ref, after)
    ensures AllHeldWell(after, issuer, Returning(frees, sessions, issuer, ref), offered)
    ensures SessionsOk(after, dynamic, fixed)
  {
    forall r | r in after && r != ref
      ensures HeldWell(r, after[r], issuer, Returning(frees, sessions, issuer, ref), offered)
    {
      assert HeldWell(r, sessions[r], issuer, frees, offered);
      DifferentValues(sessions, r, ref, dynamic, fixed);
    }
  }

  // What becomes of a static pool, whether or not the address is free there already.
  function StaticReturned(s: Session, p: UeIPPool, pool: State): State
    requires s.Holds()
  {
    if s.useStatic && FirstContaining(AllOf(s.selected.value, true), s.address.value) == Some(p)
        then Next(pool, PoolRuns.Free(s.Value())) else pool
  }

  lemma TakeReturn(sessions: Sessions, issuer: Issuers, frees: Frees, ref: nat, s: Session, from: Option<UeIPPool>)
    requires s.HoldsDynamic() ==> from.Some? && from.value in frees && s.Value() in frees[from.value]
    ensures Returning(Taking(frees, s, from), sessions[ref := s], Issuing(issuer, ref, s, from), ref) == frees
  {
    if s.HoldsDynamic() { assert frees[from.value] - {s.Value()} + {s.Value()} == frees[from.value]; }
  }

  lemma DifferentValues(sessions: Sessions, r: nat, t: nat, dynamic: set<UeIPPool>, fixed: set<UeIPPool>)
    requires Unique(sessions) && SessionsOk(sessions, dynamic, fixed) && r in sessions && t in sessions && r != t
    ensures sessions[r].HoldsDynamic() && sessions[t].HoldsDynamic() ==> sessions[r].Value() != sessions[t].Value()
  {
    if sessions[r].HoldsDynamic() && sessions[t].HoldsDynamic() {
      ToIPUint32(sessions[r].address.value);
      ToIPUint32(sessions[t].address.value);
    }
  }

  lemma ReturnConserves(sessions: Sessions, issuer: Issuers, frees: Frees, ref: nat, after: Sessions)
    requires Ended(sessions, ref, after) && (sessions[ref].HoldsDynamic() ==> ref in issuer && issuer[ref] in frees)
    ensures AddressesOf(after, issuer, Returning(frees, sessions, issuer, ref)) == AddressesOf(sessions, issuer, frees)
  {
    forall p | p in frees
      ensures HeldFrom(sessions, issuer, p) ==
              HeldFrom(after, issuer, p) + if sessions[ref].HoldsDynamic() && issuer[ref] == p
                  then {sessions[ref].Value()} else {}
    {
      HeldShrinks(sessions, issuer, ref, after, p);
    }
    var frees' := Returning(frees, sessions, issuer, ref);
    forall p | p in frees
      ensures frees'[p] + HeldFrom(after, issuer, p) == frees[p] + HeldFrom(sessions, issuer, p)
    {
    }
  }

  lemma HeldShrinks(sessions: Sessions, issuer: Issuers, ref: nat, after: Sessions, p: UeIPPool)
    requires Ended(sessions, ref, after) && (sessions[ref].HoldsDynamic() ==> ref in issuer)
    ensures HeldFrom(sessions, issuer, p) ==
            HeldFrom(after, issuer, p) + if sessions[ref].HoldsDynamic() && issuer[ref] == p
                then {sessions[ref].Value()} else {}
  {
    forall v | v in HeldFrom(after, issuer, p)
      ensures v in HeldFrom(sessions, issuer, p)
    {
      var r :| r in after && r in issuer && after[r].HoldsDynamic() && issuer[r] == p && after[r].Value() == v;
      assert r in sessions && sessions[r].HoldsDynamic();
    }
    forall v | v in HeldFrom(sessions, issuer, p)
          && (sessions[ref].HoldsDynamic() && issuer[ref] == p ==> v != sessions[ref].Value())
      ensures v in HeldFrom(after, issuer, p)
    {
      var r :| r in sessions && r in issuer && sessions[r].HoldsDynamic() && issuer[r] == p && sessions[r].Value() == v;
      assert r in after && after[r].HoldsDynamic();
    }
    if sessions[ref].HoldsDynamic() && issuer[ref] == p {
      assert ref in sessions && ref in issuer;
    }
  }

  /** The UPF of every session that holds a dynamic address is configured. */
  ghost predicate PresentIn(sessions: Sessions, upfs: Upfs) {
    forall r :: r in sessions && sessions[r].HoldsDynamic() ==> sessions[r].selected.value in upfs.Values
  }

  // Pools are added: what is held stays well held exactly if no offered new pool has it free.
  lemma AddKeeps(sessions: Sessions, issuer: Issuers, frees: Frees, offered: set<UeIPPool>, frees': Frees,
                 offered': set<UeIPPool>)
    requires AllHeldWell(sessions, issuer, frees, offered)
    requires (forall p :: p in frees ==> p in frees' && frees'[p] == frees[p] && (p in offered' <==> p in offered))
    ensures AllHeldWell(sessions, issuer, frees', offered') <==>
            forall r, p :: r in sessions && sessions[r].HoldsDynamic() && p in frees' && p !in frees && p in offered'
                           ==> sessions[r].Value() !in frees'[p]
  {
    if forall r, p :: r in sessions && sessions[r].HoldsDynamic() && p in frees' && p !in frees && p in offered'
        ==> sessions[r].Value() !in frees'[p] {
      forall r | r in sessions
        ensures HeldWell(r, sessions[r], issuer, frees', offered')
      {
        assert HeldWell(r, sessions[r], issuer, frees, offered);
      }
    } else {
      var r, p :| r in sessions && sessions[r].HoldsDynamic() && p in frees' && p !in frees && p in offered'
          && sessions[r].Value() in frees'[p];
      assert !HeldWell(r, sessions[r], issuer, frees', offered');
    }
  }

  lemma AllAlone(upfs: Upfs, dynamic: set<UeIPPool>)
    requires AllApart(upfs) && ActivePools(upfs) <= dynamic && forall p :: p in dynamic ==> p.Valid()
    ensures Lone(ActivePools(upfs), FreeOf(dynamic))
  {
    forall p, q, a: IPv4 | p in ActivePools(upfs) && q in ActivePools(upfs) && p != q && a.Valid()
        && p.subnet.Contains(a.Uint32())
      ensures !q.subnet.Contains(a.Uint32()) && a.Uint32() !in FreeOf(dynamic)[q]
    {
      assert p.Valid() && q.Valid() && Apart(p, q);
      InPool(p, a);
      InPool(q, a);
      FreeIsInRange(q);
    }
  }

  datatype Event =
    | Establish(ref: nat, candidates: seq<(string, bool)>, sel: Selection)
    | UeReleases(ref: nat)
    | Remove(ref: nat)
    | Configure(topology: Topology)
    | Delete(name: string) {

    predicate Valid() {
      Establish? && sel.address.Some? ==> sel.address.value.Valid()
    }
  }

  lemma FewerOffered(sessions: Sessions, issuer: Issuers, frees: Frees, upfs: Upfs, name: string)
    requires AllHeldWell(sessions, issuer, frees, Offering(upfs))
    ensures AllHeldWell(sessions, issuer, frees, Offering(upfs - {name}))
  {
    forall r | r in sessions
      ensures HeldWell(r, sessions[r], issuer, frees, Offering(upfs - {name}))
    {
      assert HeldWell(r, sessions[r], issuer, frees, Offering(upfs));
    }
  }

  lemma AddressesExtend(sessions: Sessions, issuer: Issuers, frees: Frees, frees': Frees)
    requires Extends(frees, frees')
    ensures Extends(AddressesOf(sessions, issuer, frees), AddressesOf(sessions, issuer, frees'))
  {
  }

  ghost function FreePairs(frees: Frees, pools: seq<UeIPPool>): set<(UeIPPool, int)> {
    set p, v | p in pools && p in frees && v in frees[p] :: (p, v)
  }

  lemma FewerPairs(frees: Frees, pools: seq<UeIPPool>, s: Session, from: Option<UeIPPool>)
    requires s.HoldsDynamic() && from.Some? && from.value in pools && from.value in frees
    requires s.Value() in frees[from.value]
    ensures FreePairs(Taking(frees, s, from), pools) < FreePairs(frees, pools)
  {
    assert (from.value, s.Value()) in FreePairs(frees, pools);
    assert (from.value, s.Value() as int) !in FreePairs(Taking(frees, s, from), pools);
  }

  /** A UPF with one dynamic pool. */
  function OnePool(n: Subnet): UpfConfig
    requires n.Valid() && PrefixMask(n.mask, WIDTH)
  {
    [DnnConfig(Slice(1, "", "internet", []), [Some(n)], [])]
  }

  lemma OnePoolFits(n: Subnet, topology: Topology)
    requires n.Valid() && PrefixMask(n.mask, WIDTH) && topology == map["A" := OnePool(n)]
    ensures AllAcceptable(map[], topology) && NoClash(map[], topology)
  {
  }

  lemma OnePoolOffered(n: Subnet, upf: Upf, sel: Selection, frees: Frees)
    requires n.Valid() && PrefixMask(n.mask, WIDTH) && n.Min() + 2 <= n.Max()
    requires AsConfigured(upf, OnePool(n), true, frees)
    requires sel == Slice(1, "", "internet", []).Asking("", None)
    ensures |upf| == 1 && |upf[0].pools| == 1 && Offered(upf, sel) == (upf[0].pools, false)
    ensures var p := upf[0].pools[0];
            p in frees && frees[p] != {} && forall v :: v in frees[p] ==> InSubnet(n, v)
  {
    assert ItemAsConfigured(upf[0], OnePool(n)[0], true, frees);
    assert n.Min() + 1 in frees[upf[0].pools[0]];
  }

  lemma OnePoolHarms(sessions: Sessions, n: Subnet, topology: Topology)
    requires n.Valid() && PrefixMask(n.mask, WIDTH) && topology == map["A" := OnePool(n)]
    requires 0 in sessions && sessions[0].HoldsDynamic() && InSubnet(n, sessions[0].Value())
    ensures !Harmless(sessions, map[], topology, false)
  {
    assert "" in OnePool(n)[0].slice.dnais + [""] && Offers(ConfigSlices(OnePool(n)), 0);
    assert Issues(topology["A"], 0, 0, false, sessions[0].Value()) && "A" in topology;
    assert Issuable(map[], topology, false, sessions[0].Value());
  }

  lemma StillFree(frees: Frees, s: Session, from: Option<UeIPPool>, p: UeIPPool, addr: IPv4)
    requires s.HoldsDynamic() && s.address.value.Valid() && addr.Valid() && p in frees && addr.Uint32() in frees[p]
    ensures s.address != Some(addr) ==> addr.Uint32() in Taking(frees, s, from)[p]
  {
    ToIPUint32(addr);
    ToIPUint32(s.address.value);
  }

  // Where an address is issuable, and for which selection.
  method FindIssuer(sessions: Sessions, upfs: Upfs, topology: Topology, first: bool)
    returns (ref: nat, name: string, i: nat, k: nat, sel: Selection)
    requires !Harmless(sessions, upfs, topology, first)
    ensures ref in sessions && sessions[ref].HoldsDynamic() && name in topology && name !in upfs
    ensures Issues(topology[name], i, k, first, sessions[ref].Value()) && sel.address.None?
    ensures topology[name][i].slice.Matches(sel) && forall j :: 0 <= j < i ==> !topology[name][j].slice.Matches(sel)
  {
    ref :| ref in sessions && sessions[ref].HoldsDynamic() && Issuable(upfs, topology, first, sessions[ref].Value());
    var v := sessions[ref].Value();
    name :| name in topology && name !in upfs
      && exists i, k :: 0 <= i < |topology[name]| && 0 <= k < |topology[name][i].cidrs|
          && Issues(topology[name], i, k, first, v);
    i, k :| 0 <= i < |topology[name]| && 0 <= k < |topology[name][i].cidrs| && Issues(topology[name], i, k, first, v);
    var slices := ConfigSlices(topology[name]);
    var dnai :| dnai in slices[i].dnais + [""] && forall j ::
        0 <= j < i ==> !slices[j].Matches(slices[i].Asking(dnai, None));
    sel := slices[i].Asking(dnai, None);
    assert forall j :: 0 <= j < i ==> slices[j] == topology[name][j].slice;
  }

  // A pool that issues the address is offered for the selection.
  lemma IssuerOffered(upf: Upf, config: UpfConfig, first: bool, frees: Frees, i: nat, k: nat, v: int, sel: Selection)
    requires AsConfigured(upf, config, first, frees) && Issues(config, i, k, first, v) && sel.address.None?
    requires config[i].slice.Matches(sel) && forall j :: 0 <= j < i ==> !config[j].slice.Matches(sel)
    ensures i < |upf| && k < |upf[i].pools| && upf[i].pools[k] in Offered(upf, sel).0
    ensures upf[i].pools[k] in Pools(upf, false)
    ensures upf[i].pools[k] in frees && v in frees[upf[i].pools[k]]
  {
    assert ItemAsConfigured(upf[i], config[i], first, frees);
    assert forall j :: 0 <= j <= i ==> ItemAsConfigured(upf[j], config[j], first, frees);
    OfferedMeans(upf, sel);
    assert FirstMatch(upf, sel, i);
    assert upf[i].pools[k] in upf[i].Of(false);
  }

  class UserPlane {
    var upfs: map<string, Upf>
    var sessions: Sessions
    // Every pool ever configured, and the pool that issued each dynamic address held.
    ghost var dynamic: set<UeIPPool>
    ghost var fixed: set<UeIPPool>
    ghost var issuer: Issuers

    constructor ()
      ensures Valid() && upfs == map[] && sessions == map[] && dynamic == {} && fixed == {}
    {
      upfs, sessions, dynamic, fixed, issuer := map[], map[], {}, {}, map[];
    }

    ghost predicate PoolsOk()
      reads this`dynamic, this`fixed, dynamic, fixed
    {
      && (forall p :: p in dynamic ==> p.Valid())
      && (forall p :: p in fixed ==> p.Sound())
    }

    ghost function Free(): Frees
      reads this`dynamic, dynamic
    {
      FreeOf(dynamic)
    }

    ghost predicate Configured()
      reads this, dynamic, fixed
    {
      Arranged(upfs, dynamic, fixed) && PoolsOk() && SessionsOk(sessions, dynamic, fixed)
    }

    ghost predicate Valid()
      reads this, dynamic, fixed
    {
      Configured() && AllHeldWell(sessions, issuer, Free(), Offering(upfs))
    }

    /** The addresses of every dynamic pool: free, or held by a session that was given them from there. */
    ghost function Addresses(): Frees
      reads this, dynamic
    {
      AddressesOf(sessions, issuer, Free())
    }

    /** The pools of one UPF, in an order that starts at a random one. */
    method TryPools(inputList: seq<UeIPPool>, request: Option<IPv4>)
      returns (addr: Option<IPv4>, ghost from: Option<UeIPPool>)
      requires request.Some? ==> request.value.Valid()
      requires forall p :: p in inputList ==> p.Sound()
      modifies set p | p in inputList
      ensures forall p :: p in inputList ==> p.Sound() && (old(p.Valid()) ==> p.Valid())
      ensures addr.None? <==> from.None?
      ensures addr.None? ==> forall p :: p in inputList ==> old(p.Refuses(request)) && p.pool == old(p.pool)
      ensures addr.Some? ==>
                && addr.value.Valid() && (request.Some? ==> addr == request)
                && from.value in inputList && from.value.subnet.Contains(addr.value.Uint32())
                && addr.value.Uint32() in old(from.value.FreeSet())
                && (old(from.value.Valid())
                    ==> from.value.FreeSet() == old(from.value.FreeSet()) - {addr.value.Uint32()})
                && (request.None? ==> IsNext(old(from.value.pool), addr.value, from.value.pool))
                && (forall p :: p in inputList && p != from.value ==> p.pool == old(p.pool))
    {
      if inputList == [] { return None, None; }
      var offset: nat :| offset < |inputList|;
      var sorted := inputList[offset..] + inputList[..offset];
      var i := 0;
      while i < |sorted|
        invariant i <= |sorted|
        invariant forall p :: p in inputList ==> p.pool == old(p.pool)
        invariant forall k :: 0 <= k < i ==> old(sorted[k].Refuses(request))
      {
        addr := sorted[i].Allocate(request);
        if addr.Some? { return addr, Some(sorted[i]); }
        i := i + 1;
      }
      forall p | p in inputList
        ensures old(p.Refuses(request))
      {
        var k :| 0 <= k < |inputList| && inputList[k] == p;
        assert sorted[if k < offset then |inputList| - offset + k else k - offset] == p;
      }
      return None, None;
    }

    // Where an address came from, and that only that pool has changed.
    ghost predicate Selected(upf: Option<Upf>, addr: Option<IPv4>, useStatic: bool, from: Option<UeIPPool>,
                             candidates: seq<Candidate>, sel: Selection) {
      if addr.None? then from.None? && upf.None?
      else
        && from.Some? && upf.Some? && addr.value.Valid() && (sel.address.Some? ==> addr == sel.address)
        && Candidate(upf.value, true) in candidates
        && from.value in Offered(upf.value, sel).0 && useStatic == Offered(upf.value, sel).1
        && from.value.subnet.Contains(addr.value.Uint32())
    }

    /** Also SelectUPFAndAllocUEIPForULCL, where every candidate counts as associated. */
    method SelectUPFAndAllocUEIP(candidates: seq<Candidate>, sel: Selection)
      returns (upf: Option<Upf>, addr: Option<IPv4>, useStatic: bool, ghost from: Option<UeIPPool>)
      requires Configured() && (sel.address.Some? ==> sel.address.value.Valid())
      requires forall c :: c in candidates ==> Known(c.upf, dynamic, fixed)
      modifies dynamic, fixed
      ensures PoolsOk() && Selected(upf, addr, useStatic, from, candidates, sel)
      ensures addr.None? ==> forall p :: p in dynamic + fixed ==> p.pool == old(p.pool)
      ensures addr.None? ==> forall c, p ::
                c in candidates && c.associated && p in Offered(c.upf, sel).0 ==> old(p.Refuses(sel.address))
      ensures addr.Some? ==> addr.value.Uint32() in old(from.value.FreeSet())
      ensures addr.Some? && sel.address.None? ==> IsNext(old(from.value.pool), addr.value, from.value.pool)
      ensures Free() == Taking(old(Free()), Session(upf, addr, useStatic), from)
    {
      var i := 0;
      while i < |candidates|
        invariant i <= |candidates|
        invariant (forall p :: p in dynamic + fixed ==> p.pool == old(p.pool)) && PoolsOk() && Free() == old(Free())
        invariant forall k, p :: 0 <= k < i && candidates[k].associated && p in Offered(candidates[k].upf, sel).0
                    ==> old(p.Refuses(sel.address))
      {
        var c := candidates[i];
        if c.associated {
          assert Known(c.upf, dynamic, fixed);
          addr, useStatic, from := TryUpf(c.upf, sel);
          if addr.Some? { return Some(c.upf), addr, useStatic, from; }
        }
        i := i + 1;
      }
      return None, None, false, None;
    }

    // One UPF of the list.
    method TryUpf(upf: Upf, sel: Selection) returns (addr: Option<IPv4>, useStatic: bool, ghost from: Option<UeIPPool>)
      requires PoolsOk() && dynamic !! fixed && Known(upf, dynamic, fixed)
      requires (sel.address.Some? ==> sel.address.value.Valid())
      modifies dynamic, fixed
      ensures PoolsOk() && (addr.None? <==> from.None?)
      ensures addr.None? ==> forall p :: p in dynamic + fixed ==> p.pool == old(p.pool)
      ensures addr.None? ==> forall p :: p in Offered(upf, sel).0 ==> old(p.Refuses(sel.address))
      ensures addr.Some? ==>
                && addr.value.Valid() && (sel.address.Some? ==> addr == sel.address)
                && from.value in Offered(upf, sel).0 && useStatic == Offered(upf, sel).1
                && from.value.subnet.Contains(addr.value.Uint32()) && addr.value.Uint32() in old(from.value.FreeSet())
      ensures addr.Some? && sel.address.None? ==> IsNext(old(from.value.pool), addr.value, from.value.pool)
      ensures Free() == Taking(old(Free()), Session(Some(upf), addr, useStatic), from)
    {
      var pools;
      pools, useStatic := GetUEIPPool(upf, sel);
      OfferedPools(upf, sel);
      if pools == [] { return None, useStatic, None; }
      addr, from := TryOffered(pools, useStatic, sel.address);
    }

    method TryOffered(pools: seq<UeIPPool>, useStatic: bool, request: Option<IPv4>)
      returns (addr: Option<IPv4>, ghost from: Option<UeIPPool>)
      requires PoolsOk() && dynamic !! fixed && (request.Some? ==> request.value.Valid())
      requires forall p :: p in pools ==> p in if useStatic then fixed else dynamic
      modifies dynamic, fixed
      ensures PoolsOk() && (addr.None? <==> from.None?)
      ensures addr.None? ==> forall p :: p in dynamic + fixed ==> p.pool == old(p.pool)
      ensures addr.None? ==> forall p :: p in pools ==> old(p.Refuses(request))
      ensures addr.Some? ==>
                && addr.value.Valid() && (request.Some? ==> addr == request) && from.value in pools
                && from.value.subnet.Contains(addr.value.Uint32()) && addr.value.Uint32() in old(from.value.FreeSet())
      ensures addr.Some? && request.None? ==> IsNext(old(from.value.pool), addr.value, from.value.pool)
      ensures Free() == if addr.Some? && !useStatic
              then old(Free())[from.value := old(Free())[from.value] - {addr.value.Uint32()}] else old(Free())
    {
      ghost var frees := Free();
      addr, from := TryPools(pools, request);
      FreeIs(if addr.Some? && !useStatic then frees[from.value := frees[from.value] - {addr.value.Uint32()}]
          else frees);
    }

    lemma FreeIs(frees: Frees)
      requires forall p :: p in frees <==> p in dynamic
      requires forall p :: p in dynamic ==> p.FreeSet() == frees[p]
      ensures Free() == frees
    {
    }

    /** What the source does for a new session, whatever the state of the others. */
    method TakeAddress(ref: nat, candidates: seq<Candidate>, sel: Selection) returns (ghost from: Option<UeIPPool>)
      requires Configured() && ref !in sessions && (sel.address.Some? ==> sel.address.value.Valid())
      requires forall c :: c in candidates ==> Known(c.upf, dynamic, fixed)
      modifies this`sessions, this`issuer, dynamic, fixed
      ensures Configured() && ref in sessions && sessions == old(sessions)[ref := sessions[ref]]
      ensures Selected(sessions[ref].selected, sessions[ref].address, sessions[ref].useStatic, from, candidates, sel)
      ensures from.None? ==> forall p :: p in dynamic + fixed ==> p.pool == old(p.pool)
      ensures from.None? ==> forall c, p ::
                c in candidates && c.associated && p in Offered(c.upf, sel).0 ==> old(p.Refuses(sel.address))
      ensures from.Some? ==> sessions[ref].Value() in old(from.value.FreeSet())
      ensures from.Some? && sel.address.None?
              ==> IsNext(old(from.value.pool), sessions[ref].address.value, from.value.pool)
      ensures Free() == Taking(old(Free()), sessions[ref], from)
      ensures issuer == Issuing(old(issuer), ref, sessions[ref], from)
    {
      var upf, addr, useStatic;
      upf, addr, useStatic, from := SelectUPFAndAllocUEIP(candidates, sel);
      assert addr.Some? ==> Known(upf.value, dynamic, fixed);
      Store(ref, Session(upf, addr, useStatic), from);
    }

    method Store(ref: nat, s: Session, ghost from: Option<UeIPPool>)
      requires Configured() && (s.Holds() ==> s.address.value.Valid() && Known(s.selected.value, dynamic, fixed))
      modifies this`sessions, this`issuer
      ensures Configured() && sessions == old(sessions)[ref := s] && issuer == Issuing(old(issuer), ref, s, from)
      ensures Free() == old(Free())
    {
      sessions := sessions[ref := s];
      issuer := Issuing(issuer, ref, s, from);
    }

    /** The address of a new session. */
    method AllocUeIP(ref: nat, candidates: seq<Candidate>, sel: Selection) returns (ghost from: Option<UeIPPool>)
      requires Valid() && ref !in sessions && (sel.address.Some? ==> sel.address.value.Valid())
      requires forall c :: c in candidates ==> c.upf in upfs.Values
      modifies this`sessions, this`issuer, dynamic, fixed
      ensures Valid() && ref in sessions && sessions == old(sessions)[ref := sessions[ref]]
      ensures Selected(sessions[ref].selected, sessions[ref].address, sessions[ref].useStatic, from, candidates, sel)
      ensures from.None? ==> forall p :: p in dynamic + fixed ==> p.pool == old(p.pool)
      ensures from.None? ==> forall c, p ::
                c in candidates && c.associated && p in Offered(c.upf, sel).0 ==> old(p.Refuses(sel.address))
      ensures from.Some? ==> sessions[ref].Value() in old(from.value.FreeSet())
      ensures from.Some? && sel.address.None?
              ==> IsNext(old(from.value.pool), sessions[ref].address.value, from.value.pool)
      ensures Free() == Taking(old(Free()), sessions[ref], from)
      ensures issuer == Issuing(old(issuer), ref, sessions[ref], from)
      ensures Addresses() == old(Addresses())
    {
      assert forall c :: c in candidates ==> Known(c.upf, dynamic, fixed);
      ghost var was, issued, frees := sessions, issuer, Free();
      AllAlone(upfs, dynamic);
      from := TakeAddress(ref, candidates, sel);
      ghost var s := sessions[ref];
      if s.HoldsDynamic() { OfferedIsOffering(upfs, s.selected.value, sel, from.value); }
      TakeKeeps(was, issued, frees, upfs, ref, s, from);
      TakeConserves(was, issued, frees, ref, s, from);
    }

    /** ReleaseUEIP with what the session holds: a dynamic address goes back to the pool that
        issued it, a static one to the first static pool of the UPF that contains it, and no
        other pool changes. */
    method ReleaseUEIP(ref: nat)
      requires Valid() && ref in sessions && sessions[ref].Holds()
      modifies dynamic, fixed
      ensures PoolsOk() && Free() == Returning(old(Free()), sessions, issuer, ref)
      ensures forall p :: p in fixed ==> p.pool == StaticReturned(sessions[ref], p, old(p.pool))
    {
      var s := sessions[ref];
      ghost var frees := Free();
      var pool := FindPoolByAddr(s.selected.value, s.address.value, s.useStatic);
      AllOfIs(s.selected.value, s.useStatic);
      assert HeldWell(ref, s, issuer, frees, Offering(upfs));
      assert s.HoldsDynamic() ==> pool == Some(issuer[ref]) && s.Value() !in frees[issuer[ref]];
      if pool.Some? { GiveBack(pool.value, s.address.value); }
    }

    method GiveBack(p: UeIPPool, addr: IPv4)
      requires PoolsOk() && dynamic !! fixed && p in dynamic + fixed && addr.Valid() && p.subnet.Contains(addr.Uint32())
      requires p in dynamic ==> addr.Uint32() !in Free()[p]
      modifies p
      ensures PoolsOk() && p.pool == Next(old(p.pool), PoolRuns.Free(addr.Uint32()))
      ensures Free() == if p in dynamic then old(Free())[p := old(Free())[p] + {addr.Uint32()}] else old(Free())
    {
      ghost var frees := Free();
      InPool(p, addr);
      p.Release(addr);
      FreeIs(if p in dynamic then frees[p := frees[p] + {addr.Uint32()}] else frees);
    }

    // Writes the sessions after one of them has given up its address.
    method End(ref: nat, after: Sessions, ghost frees: Frees)
      requires Configured() && AllHeldWell(sessions, issuer, frees, Offering(upfs)) && Ended(sessions, ref, after)
      requires Free() == Returning(frees, sessions, issuer, ref)
      modifies this`sessions
      ensures Valid() && sessions == after && Free() == old(Free())
      ensures Addresses() == AddressesOf(old(sessions), issuer, frees)
    {
      assert HeldWell(ref, sessions[ref], issuer, frees, Offering(upfs));
      ReturnKeeps(sessions, issuer, frees, Offering(upfs), ref, after, dynamic, fixed);
      ReturnConserves(sessions, issuer, frees, ref, after);
      sessions := after;
    }

    /** The release of a PDU session that the UE asks for. */
    method N1Release(ref: nat)
      requires Valid() && ref in sessions
      modifies this`sessions, dynamic, fixed
      ensures Valid() && ref in sessions && sessions == old(sessions)[ref := sessions[ref]]
      ensures sessions[ref] == if old(sessions)[ref].Holds() then old(sessions)[ref].(address := None)
              else old(sessions)[ref]
      ensures Free() == Returning(old(Free()), old(sessions), issuer, ref) && Addresses() == old(Addresses())
    {
      if sessions[ref].Holds() {
        ReleaseUEIP(ref);
        End(ref, sessions[ref := sessions[ref].(address := None)], old(Free()));
      }
    }

    method RemoveSMContext(ref: nat)
      requires Valid()
      modifies this`sessions, dynamic, fixed
      ensures Valid() && sessions == old(sessions) - {ref}
      ensures Free() == Returning(old(Free()), old(sessions), issuer, ref) && Addresses() == old(Addresses())
    {
      if ref !in sessions { return; }
      if sessions[ref].Holds() {
        ReleaseUEIP(ref);
      }
      End(ref, sessions - {ref}, old(Free()));
    }

    /** A session that is set up and then removed leaves every dynamic pool as it was. */
    method EstablishAndRemove(ref: nat, candidates: seq<Candidate>, sel: Selection)
      requires Valid() && ref !in sessions && (sel.address.Some? ==> sel.address.value.Valid())
      requires forall c :: c in candidates ==> c.upf in upfs.Values
      modifies this`sessions, this`issuer, dynamic, fixed
      ensures Valid() && sessions == old(sessions) && Free() == old(Free())
    {
      ghost var was, issued, frees := sessions, issuer, Free();
      ghost var from := AllocUeIP(ref, candidates, sel);
      TakeReturn(was, issued, frees, ref, sessions[ref], from);
      AddAndRemove(was, ref, sessions[ref]);
      RemoveSMContext(ref);
    }

    /** The topology with the UPFs that it does not have yet, in any order, unless one of them
        cannot be built. */
    method AddUPFs(topology: Topology, first: bool)
      returns (candidates: Upfs, ghost addedDynamic: set<UeIPPool>, ghost addedFixed: set<UeIPPool>, ok: bool)
      ensures ok <==> AllAcceptable(upfs, topology)
      ensures ok ==> forall name :: name in candidates <==> name in upfs || name in topology
      ensures Grown(candidates, topology, first, addedDynamic, addedFixed)
      ensures forall p :: p in addedDynamic || p in addedFixed ==> fresh(p)
    {
      candidates, addedDynamic, addedFixed, ok := upfs, {}, {}, true;
      var todo := topology.Keys;
      while todo != {}
        invariant todo <= topology.Keys && ok
        invariant forall name :: name in candidates <==> name in upfs || (name in topology && name !in todo)
        invariant forall name, c ::
                  name in topology && name !in todo && name !in upfs && c in topology[name] ==> Acceptable(c)
        invariant Grown(candidates, topology, first, addedDynamic, addedFixed)
        invariant forall p :: p in addedDynamic || p in addedFixed ==> fresh(p)
        decreases todo
      {
        var name := AnyOf(todo);
        todo := todo - {name};
        if name !in candidates {
          var upf := NewUPF(topology[name], first);
          if upf.None? { return candidates, addedDynamic, addedFixed, false; }
          GrownMore(candidates, topology, first, addedDynamic, addedFixed, name, upf.value);
          candidates := candidates[name := upf.value];
          addedDynamic := addedDynamic + Pools(upf.value, false);
          addedFixed := addedFixed + Pools(upf.value, true);
        }
      }
    }

    lemma GrownMore(candidates: Upfs, topology: Topology, first: bool, addedDynamic: set<UeIPPool>,
                    addedFixed: set<UeIPPool>, name: string, upf: Upf)
      requires Grown(candidates, topology, first, addedDynamic, addedFixed)
      requires name in topology && name !in candidates && BuiltUpf(upf, topology[name], first)
      requires forall p :: p in Pools(upf, false) || p in Pools(upf, true) ==> p.Valid()
      requires (addedDynamic + Pools(upf, false)) !! (addedFixed + Pools(upf, true))
      ensures Grown(candidates[name := upf], topology, first, addedDynamic + Pools(upf, false),
              addedFixed + Pools(upf, true))
    {
      var after := candidates[name := upf];
      forall n | n in after && n !in upfs
        ensures Known(after[n], addedDynamic + Pools(upf, false), addedFixed + Pools(upf, true))
        ensures BuiltUpf(after[n], topology[n], first)
      {
        if n != name { assert Known(candidates[n], addedDynamic, addedFixed); }
      }
    }

    // The UPFs and others built from the topology, which own exactly the added pools.
    ghost predicate Grown(candidates: Upfs, topology: Topology, first: bool, addedDynamic: set<UeIPPool>,
                          addedFixed: set<UeIPPool>)
      reads this, addedDynamic, addedFixed
    {
      && (forall name :: name in upfs ==> name in candidates && candidates[name] == upfs[name])
      && (forall name :: name in candidates && name !in upfs ==>
            && name in topology && Known(candidates[name], addedDynamic, addedFixed)
                && BuiltUpf(candidates[name], topology[name], first))
      && (forall p :: p in addedDynamic ==> p.Valid())
      && (forall p :: p in addedFixed ==> p.Valid())
      && addedDynamic !! addedFixed
    }

    static method CollectPools(upfs: Upfs) returns (all: seq<UeIPPool>, ghost places: seq<Place>)
      ensures Lists(upfs, all, places, upfs.Keys)
    {
      all, places := [], [];
      var todo := upfs.Keys;
      while todo != {}
        invariant todo <= upfs.Keys && Lists(upfs, all, places, upfs.Keys - todo)
        decreases todo
      {
        var name := AnyOf(todo);
        all, places := CollectUpf(upfs, name, all, places, upfs.Keys - todo);
        todo := todo - {name};
      }
    }

    static method CollectUpf(upfs: Upfs, name: string, all0: seq<UeIPPool>, ghost places0: seq<Place>,
                             ghost done: set<string>)
      returns (all: seq<UeIPPool>, ghost places: seq<Place>)
      requires name in upfs && name !in done && Lists(upfs, all0, places0, done)
      ensures Lists(upfs, all, places, done + {name})
    {
      all, places := all0, places0;
      var upf := upfs[name];
      for i := 0 to |upf|
        invariant ListsUpTo(upfs, all, places, done, name, i)
      {
        ghost var more := seq(|upf[i].pools|, k requires 0 <= k < |upf[i].pools| => Place(name, i, k));
        ListsMore(upfs, all, places, done, name, i, more);
        all, places := all + upf[i].pools, places + more;
      }
    }

    /** The candidates, if every UPF can be built and no two dynamic pools overlap. */
    method CheckedUPFs(topology: Topology, first: bool)
      returns (candidates: Upfs, ghost addedDynamic: set<UeIPPool>, ghost addedFixed: set<UeIPPool>, ok: bool)
      requires Configured()
      ensures ok <==> AllAcceptable(upfs, topology) && NoClash(upfs, topology)
      ensures ok ==> (forall name :: name in candidates <==> name in upfs || name in topology) && AllApart(candidates)
      ensures Grown(candidates, topology, first, addedDynamic, addedFixed)
      ensures forall p :: p in addedDynamic || p in addedFixed ==> fresh(p)
    {
      candidates, addedDynamic, addedFixed, ok := AddUPFs(topology, first);
      if ok {
        ghost var places;
        var all;
        all, places := CollectPools(candidates);
        var overlap := IsOverlap(all);
        SamePlaces(candidates, topology, first, addedDynamic, addedFixed);
        OverlapIsClash(candidates, topology, upfs, all, places);
        ok := !overlap;
      }
    }

    // The candidates have their pools where the topology says.
    lemma SamePlaces(candidates: Upfs, topology: Topology, first: bool, addedDynamic: set<UeIPPool>,
                     addedFixed: set<UeIPPool>)
      requires Configured() && Grown(candidates, topology, first, addedDynamic, addedFixed)
      requires forall name :: name in candidates <==> name in upfs || name in topology
      ensures forall l :: SubnetAt(upfs, topology, l) == if PlaceIn(candidates, l)
              then Some(PoolAt(candidates, l).subnet) else None
    {
      forall l
        ensures SubnetAt(upfs, topology, l) == if PlaceIn(candidates, l) then Some(PoolAt(candidates, l).subnet)
                else None
      {
        if PlaceIn(candidates, l) {
          var p := PoolAt(candidates, l);
          assert p in candidates[l.name][l.item].Of(false) && p in Pools(candidates[l.name], false);
          if l.name in upfs {
            assert Known(upfs[l.name], dynamic, fixed) && p.Valid();
          } else {
            assert Built(candidates[l.name][l.item], topology[l.name][l.item], first);
          }
        } else if l.name in candidates && l.name !in upfs {
          assert BuiltUpf(candidates[l.name], topology[l.name], first);
          if l.item < |candidates[l.name]| { assert Built(candidates[l.name][l.item], topology[l.name][l.item], first); }
        }
      }
    }

    /** NewUserPlaneInformation, on an empty user plane with `first`, and UpNodesFromConfiguration.
        It succeeds exactly if every new UPF can be built and no two dynamic pools overlap. Then
        the sessions stay in order exactly if no address that one of them holds could be issued
        by a new pool, which is so as long as the UPFs of those sessions are configured. */
    method UpNodesFromConfiguration(topology: Topology, first: bool) returns (ok: bool)
      requires Valid()
      modifies this`upfs, this`dynamic, this`fixed
      ensures ok <==> AllAcceptable(old(upfs), topology) && NoClash(old(upfs), topology)
      ensures !ok ==> upfs == old(upfs) && dynamic == old(dynamic) && fixed == old(fixed)
      ensures old(dynamic) <= dynamic && fresh(dynamic - old(dynamic)) && fresh(fixed - old(fixed))
      ensures ok ==> NewAsConfigured(old(upfs), upfs, topology, first, Free())
      ensures Configured() && (Valid() <==> !ok || Harmless(sessions, old(upfs), topology, first))
      ensures ok && PresentIn(sessions, old(upfs)) ==> Harmless(sessions, old(upfs), topology, first)
      ensures Extends(old(Free()), Free())
    {
      var candidates;
      ghost var addedDynamic, addedFixed;
      candidates, addedDynamic, addedFixed, ok := CheckedUPFs(topology, first);
      if ok {
        Commit(candidates, topology, first, addedDynamic, addedFixed);
      }
    }

    method Commit(candidates: Upfs, topology: Topology, first: bool, ghost addedDynamic: set<UeIPPool>,
                  ghost addedFixed: set<UeIPPool>)
      requires Valid() && Grown(candidates, topology, first, addedDynamic, addedFixed) && AllApart(candidates)
      requires forall p :: p in addedDynamic || p in addedFixed ==> p !in dynamic && p !in fixed
      requires forall name :: name in candidates <==> name in upfs || name in topology
      modifies this`upfs, this`dynamic, this`fixed
      ensures upfs == candidates && dynamic == old(dynamic) + addedDynamic && fixed == old(fixed) + addedFixed
      ensures NewAsConfigured(old(upfs), upfs, topology, first, Free())
      ensures Configured() && (Valid() <==> Harmless(sessions, old(upfs), topology, first))
      ensures PresentIn(sessions, old(upfs)) ==> Harmless(sessions, old(upfs), topology, first)
      ensures Extends(old(Free()), Free())
    {
      CanCommit(candidates, topology, first, addedDynamic, addedFixed);
      Install(candidates, addedDynamic, addedFixed);
    }

    method Install(candidates: Upfs, ghost addedDynamic: set<UeIPPool>, ghost addedFixed: set<UeIPPool>)
      requires PoolsOk() && (forall p :: p in addedDynamic ==> p.Valid()) && (forall p :: p in addedFixed ==> p.Valid())
      requires Arranged(candidates, dynamic + addedDynamic, fixed + addedFixed)
      requires SessionsOk(sessions, dynamic + addedDynamic, fixed + addedFixed)
      modifies this`upfs, this`dynamic, this`fixed
      ensures upfs == candidates && dynamic == old(dynamic) + addedDynamic && fixed == old(fixed) + addedFixed
      ensures Configured() && Free() == old(FreeOf(dynamic + addedDynamic)) && Extends(old(Free()), Free())
    {
      upfs, dynamic, fixed := candidates, dynamic + addedDynamic, fixed + addedFixed;
    }

    lemma CanCommit(candidates: Upfs, topology: Topology, first: bool, addedDynamic: set<UeIPPool>,
                    addedFixed: set<UeIPPool>)
      requires Valid() && Grown(candidates, topology, first, addedDynamic, addedFixed) && AllApart(candidates)
      requires forall p :: p in addedDynamic || p in addedFixed ==> p !in dynamic && p !in fixed
      requires forall name :: name in candidates <==> name in upfs || name in topology
      ensures Arranged(candidates, dynamic + addedDynamic, fixed + addedFixed)
      ensures SessionsOk(sessions, dynamic + addedDynamic, fixed + addedFixed)
      ensures AllHeldWell(sessions, issuer, FreeOf(dynamic + addedDynamic), Offering(candidates))
              <==> Harmless(sessions, upfs, topology, first)
      ensures PresentIn(sessions, upfs) ==> Harmless(sessions, upfs, topology, first)
      ensures NewAsConfigured(upfs, candidates, topology, first, FreeOf(dynamic + addedDynamic))
    {
      forall name | name in topology && name !in upfs
        ensures AsConfigured(candidates[name], topology[name], first, FreeOf(dynamic + addedDynamic))
      {
        assert Known(candidates[name], addedDynamic, addedFixed);
        BuiltIsAsConfigured(candidates[name], topology[name], first, dynamic + addedDynamic);
      }
      NewPoolsIssue(candidates, topology, first, addedDynamic, addedFixed);
      NewOffers(upfs, candidates, dynamic, fixed, addedDynamic, addedFixed);
      StillKnown(sessions, dynamic, fixed, addedDynamic, addedFixed);
      AllAlone(candidates, dynamic + addedDynamic);
      AddSafely(sessions, issuer, Free(), upfs, topology, first, candidates, FreeOf(dynamic + addedDynamic));
    }

    /** UpNodeDelete: the sessions on the UPF keep their addresses, and give them back later. */
    method UpNodeDelete(name: string)
      requires Valid()
      modifies this`upfs
      ensures Valid() && upfs == old(upfs) - {name}
    {
      FewerOffered(sessions, issuer, Free(), upfs, name);
      upfs := upfs - {name};
    }

    method CandidatesOf(names: seq<(string, bool)>) returns (candidates: seq<Candidate>)
      ensures forall c :: c in candidates ==> c.upf in upfs.Values
    {
      candidates := [];
      for i := 0 to |names|
        invariant forall c :: c in candidates ==> c.upf in upfs.Values
      {
        if names[i].0 in upfs {
          candidates := candidates + [Candidate(upfs[names[i].0], names[i].1)];
        }
      }
    }

    /** Over any run in which every configuration is harmless, no dynamic address is held twice,
        and every address of a pool stays either free or held by a session that was given it from
        that pool, whatever UPFs are deleted in between. */
    method Run(events: seq<Event>)
      requires Valid() && forall e :: e in events ==> e.Valid()
      modifies this, dynamic, fixed
      ensures Valid() && Unique(sessions) && Extends(old(Addresses()), Addresses())
    {
      for i := 0 to |events|
        invariant Valid() && old(dynamic) <= dynamic && fresh(dynamic - old(dynamic)) && fresh(fixed - old(fixed))
        invariant Extends(old(Addresses()), Addresses())
      {
        Step(events[i]);
      }
    }

    method Step(e: Event)
      requires Valid() && e.Valid()
      modifies this, dynamic, fixed
      ensures Valid() && old(dynamic) <= dynamic && fresh(dynamic - old(dynamic)) && fresh(fixed - old(fixed))
      ensures Extends(old(Addresses()), Addresses())
    {
      match e
      case Establish(ref, names, sel) =>
        if ref !in sessions {
          var candidates := CandidatesOf(names);
          ghost var from := AllocUeIP(ref, candidates, sel);
        }
      case UeReleases(ref) =>
        if ref in sessions { N1Release(ref); }
      case Remove(ref) =>
        RemoveSMContext(ref);
      case Configure(topology) =>
        if Harmless(sessions, upfs, topology, false) {
          ghost var frees := Free();
          var ok := UpNodesFromConfiguration(topology, false);
          AddressesExtend(sessions, issuer, frees, Free());
        }
      case Delete(name) =>
        UpNodeDelete(name);
    }

    /** An address that a session holds while an offered pool has it free is given to a second
        session, if enough of them ask. */
    method Reissue(ref: nat, name: string, sel: Selection, ghost p: UeIPPool, next: nat)
      requires Configured() && name in upfs && ref in sessions && sessions[ref].HoldsDynamic()
      requires forall r :: r in sessions ==> r < next
      requires sel.address.None? && p in Offered(upfs[name], sel).0 && p in Free() && sessions[ref].Value() in Free()[p]
      modifies this`sessions, this`issuer, dynamic, fixed
      ensures !Unique(sessions)
      decreases FreePairs(Free(), Offered(upfs[name], sel).0)
    {
      Ask(next, name, sel, p, sessions[ref].address.value);
      if sessions[next].address != sessions[ref].address {
        Reissue(ref, name, sel, p, next + 1);
      }
    }

    method Ask(n: nat, name: string, sel: Selection, ghost p: UeIPPool, addr: IPv4)
      requires Configured() && name in upfs && n !in sessions && addr.Valid()
      requires sel.address.None? && p in Offered(upfs[name], sel).0 && p in Free() && addr.Uint32() in Free()[p]
      modifies this`sessions, this`issuer, dynamic, fixed
      ensures Configured() && n in sessions && sessions == old(sessions)[n := sessions[n]] && sessions[n].HoldsDynamic()
      ensures sessions[n].address != Some(addr) ==> addr.Uint32() in Free()[p]
      ensures FreePairs(Free(), Offered(upfs[name], sel).0) < old(FreePairs(Free(), Offered(upfs[name], sel).0))
    {
      var candidates := [Candidate(upfs[name], true)];
      assert Known(upfs[name], dynamic, fixed);
      ghost var frees, pools := Free(), Offered(upfs[name], sel).0;
      assert !p.Refuses(None) && candidates[0] in candidates;
      OfferedMeans(upfs[name], sel);
      ghost var from := TakeAddress(n, candidates, sel);
      FewerPairs(frees, pools, sessions[n], from);
      StillFree(frees, sessions[n], from, p, addr);
    }

    /** A configuration that is not harmless lets one address be given out twice. */
    method ConfigureHarmfully(topology: Topology, next: nat)
      requires Valid() && AllAcceptable(upfs, topology) && NoClash(upfs, topology)
      requires !Harmless(sessions, upfs, topology, false)
      requires forall r :: r in sessions ==> r < next
      modifies this, dynamic, fixed
      ensures !Unique(sessions)
    {
      var ref, name, i, k, sel := FindIssuer(sessions, upfs, topology, false);
      ConfigureAndReissue(topology, ref, name, i, k, sel, next);
    }

    method ConfigureAndReissue(topology: Topology, ref: nat, name: string, i: nat, k: nat, sel: Selection, next: nat)
      requires Valid() && AllAcceptable(upfs, topology) && NoClash(upfs, topology) && name in topology && name !in upfs
      requires ref in sessions && sessions[ref].HoldsDynamic() && forall r :: r in sessions ==> r < next
      requires Issues(topology[name], i, k, false, sessions[ref].Value()) && sel.address.None?
      requires topology[name][i].slice.Matches(sel) && forall j :: 0 <= j < i ==> !topology[name][j].slice.Matches(sel)
      modifies this, dynamic, fixed
      ensures !Unique(sessions)
    {
      ghost var p := ConfigureIssuer(topology, name, i, k, sessions[ref].Value(), sel);
      Reissue(ref, name, sel, p, next);
    }

    method ConfigureIssuer(topology: Topology, name: string, i: nat, k: nat, v: int, sel: Selection)
      returns (ghost p: UeIPPool)
      requires Valid() && AllAcceptable(upfs, topology) && NoClash(upfs, topology) && name in topology && name !in upfs
      requires Issues(topology[name], i, k, false, v) && sel.address.None?
      requires topology[name][i].slice.Matches(sel) && forall j :: 0 <= j < i ==> !topology[name][j].slice.Matches(sel)
      modifies this`upfs, this`dynamic, this`fixed
      ensures Configured() && fresh(dynamic - old(dynamic)) && fresh(fixed - old(fixed))
      ensures name in upfs && p in Offered(upfs[name], sel).0 && p in Free() && v in Free()[p]
    {
      var ok := UpNodesFromConfiguration(topology, false);
      IssuerOffered(upfs[name], topology[name], false, Free(), i, k, v, sel);
      p := upfs[name][i].pools[k];
    }

    /** A UPF is deleted while a session holds an address of its only pool and configured again:
        then two sessions can hold that address. */
    static method DeleteConfigureEstablish(n: Subnet) returns (plane: UserPlane)
      requires n.Valid() && PrefixMask(n.mask, WIDTH) && n.Min() + 2 <= n.Max()
      ensures !Unique(plane.sessions)
    {
      var topology := map["A" := OnePool(n)];
      plane := new UserPlane();
      OnePoolFits(n, topology);
      plane.EstablishFirst(n, topology);
      OnePoolHarms(plane.sessions, n, topology);
      plane.ConfigureAgain(topology);
    }

    method ConfigureAgain(topology: Topology)
      requires Valid() && AllAcceptable(map[], topology) && NoClash(map[], topology)
      requires !Harmless(sessions, map[], topology, false)
      requires sessions.Keys == {0} && upfs.Keys == {"A"}
      modifies this, dynamic, fixed
      ensures !Unique(sessions)
    {
      UpNodeDelete("A");
      assert upfs == map[];
      ConfigureHarmfully(topology, 1);
    }

    // The first session, on a UPF with one pool.
    method EstablishFirst(n: Subnet, topology: Topology)
      requires Valid() && sessions == map[] && upfs == map[] && dynamic == {} && fixed == {}
      requires n.Valid() && PrefixMask(n.mask, WIDTH) && n.Min() + 2 <= n.Max() && topology == map["A" := OnePool(n)]
      modifies this
      ensures Valid() && sessions.Keys == {0} && upfs.Keys == {"A"} && fresh(dynamic) && fresh(fixed)
      ensures sessions[0].HoldsDynamic() && InSubnet(n, sessions[0].Value())
    {
      ConfigureOne(n, topology);
      EstablishOn(n, upfs["A"]);
    }

    method ConfigureOne(n: Subnet, topology: Topology)
      requires Valid() && sessions == map[] && upfs == map[] && dynamic == {} && fixed == {}
      requires n.Valid() && PrefixMask(n.mask, WIDTH) && topology == map["A" := OnePool(n)]
      modifies this`upfs, this`dynamic, this`fixed
      ensures Valid() && upfs.Keys == {"A"} && fresh(dynamic) && fresh(fixed)
      ensures AsConfigured(upfs["A"], OnePool(n), true, Free())
    {
      OnePoolFits(n, topology);
      var ok := UpNodesFromConfiguration(topology, true);
    }

    method EstablishOn(n: Subnet, upf: Upf)
      requires Valid() && sessions == map[] && upf in upfs.Values
      requires n.Valid() && PrefixMask(n.mask, WIDTH) && n.Min() + 2 <= n.Max()
      requires AsConfigured(upf, OnePool(n), true, Free())
      modifies this`sessions, this`issuer, dynamic, fixed
      ensures Valid() && sessions.Keys == {0} && sessions[0].HoldsDynamic() && InSubnet(n, sessions[0].Value())
    {
      var sel := Slice(1, "", "internet", []).Asking("", None);
      OnePoolOffered(n, upf, sel, Free());
      assert upf[0].pools == [upf[0].pools[0]];
      EstablishFrom(upf, sel, upf[0].pools[0]);
    }

    // The first session, on a UPF that offers one pool.
    method EstablishFrom(upf: Upf, sel: Selection, ghost p: UeIPPool)
      requires Valid() && sessions == map[] && upf in upfs.Values && sel.address.None?
      requires Offered(upf, sel) == ([p], false) && p.FreeSet() != {}
      modifies this`sessions, this`issuer, dynamic, fixed
      ensures Valid() && sessions.Keys == {0} && sessions[0].HoldsDynamic()
      ensures sessions[0].Value() in old(p.FreeSet())
    {
      var candidates := [Candidate(upf, true)];
      ghost var refused := p.Refuses(None);
      assert candidates[0] in candidates && p in Offered(candidates[0].upf, sel).0;
      ghost var from := AllocUeIP(0, candidates, sel);
      assert !refused && from.Some?;
      OneCandidate(sessions[0], from, upf, sel, p);
    }

    lemma OneCandidate(s: Session, from: Option<UeIPPool>, upf: Upf, sel: Selection, p: UeIPPool)
      requires Selected(s.selected, s.address, s.useStatic, from, [Candidate(upf, true)], sel) && from.Some?
      requires Offered(upf, sel) == ([p], false)
      ensures from == Some(p) && s.HoldsDynamic()
    {
      assert Candidate(s.selected.value, true) == Candidate(upf, true);
    }

    // What the added pools can issue is what the topology says.
    lemma NewPoolsIssue(candidates: Upfs, topology: Topology, first: bool, addedDynamic: set<UeIPPool>,
                        addedFixed: set<UeIPPool>)
      requires Grown(candidates, topology, first, addedDynamic, addedFixed)
      requires (addedDynamic + addedFixed) !! (dynamic + fixed)
      requires Arranged(upfs, dynamic, fixed)
      requires forall name :: name in candidates <==> name in upfs || name in topology
      ensures forall v :: Issuable(upfs, topology, first, v) <==> exists p ::
              p in addedDynamic && p in Offering(candidates) && v in p.FreeSet()
    {
      forall v | Issuable(upfs, topology, first, v)
        ensures exists p :: p in addedDynamic && p in Offering(candidates) && v in p.FreeSet()
      {
        var p := Issuer(candidates, topology, first, addedDynamic, addedFixed, v);
      }
      forall p, v | p in addedDynamic && p in Offering(candidates) && v in p.FreeSet()
        ensures Issuable(upfs, topology, first, v)
      {
        IssuedByNew(candidates, topology, first, addedDynamic, addedFixed, p, v);
      }
    }

    lemma Issuer(candidates: Upfs, topology: Topology, first: bool, addedDynamic: set<UeIPPool>,
                 addedFixed: set<UeIPPool>, v: int)
      returns (p: UeIPPool)
      requires Grown(candidates, topology, first, addedDynamic, addedFixed)
      requires forall name :: name in candidates <==> name in upfs || name in topology
      requires Issuable(upfs, topology, first, v)
      ensures p in addedDynamic && p in Offering(candidates) && v in p.FreeSet()
    {
      var name :| name in topology && name !in upfs
        && exists i, k :: 0 <= i < |topology[name]| && 0 <= k < |topology[name][i].cidrs|
            && Issues(topology[name], i, k, first, v);
      var i, k :| 0 <= i < |topology[name]| && 0 <= k < |topology[name][i].cidrs| && Issues(topology[name], i, k, first,
                                                                                            v);
      assert Known(candidates[name], addedDynamic, addedFixed) && BuiltUpf(candidates[name], topology[name], first);
      p := PoolIssuing(candidates[name], topology[name], first, i, k, v);
    }

    lemma IssuedByNew(candidates: Upfs, topology: Topology, first: bool, addedDynamic: set<UeIPPool>,
                      addedFixed: set<UeIPPool>, p: UeIPPool, v: int)
      requires Grown(candidates, topology, first, addedDynamic, addedFixed)
      requires (addedDynamic + addedFixed) !! (dynamic + fixed)
      requires Arranged(upfs, dynamic, fixed)
      requires p in addedDynamic && p in Offering(candidates) && v in p.FreeSet()
      ensures Issuable(upfs, topology, first, v)
    {
      var name :| name in candidates && p in Pools(candidates[name], false) && OfferedBy(candidates[name], p);
      assert name !in upfs by {
        assert forall n :: n in upfs ==> Known(upfs[n], dynamic, fixed);
      }
      PoolIssues(candidates[name], topology[name], first, p, v);
    }
  }

  /** The pools of the UPF as configured, with what is free in them. */
  ghost predicate AsConfigured(upf: Upf, config: UpfConfig, first: bool, frees: Frees) {
    |upf| == |config| && forall i :: 0 <= i < |upf| ==> ItemAsConfigured(upf[i], config[i], first, frees)
  }

  ghost predicate ItemAsConfigured(item: DnnItem, config: DnnConfig, first: bool, frees: Frees) {
    && item.slice == config.slice && |item.pools| == |config.cidrs| && |item.staticPools| == |config.statics|
    && (forall i :: 0 <= i < |item.staticPools| ==> Some(item.staticPools[i].subnet) == config.statics[i])
    && (forall i :: 0 <= i < |item.pools| ==>
          && Some(item.pools[i].subnet) == config.cidrs[i] && item.pools[i] in frees
          && frees[item.pools[i]] == UsableSet(item.pools[i].subnet, config.statics, first))
  }

  lemma BuiltIsAsConfigured(upf: Upf, config: UpfConfig, first: bool, pools: set<UeIPPool>)
    requires BuiltUpf(upf, config, first) && Pools(upf, false) <= pools
    ensures AsConfigured(upf, config, first, FreeOf(pools))
  {
    forall i | 0 <= i < |upf|
      ensures ItemAsConfigured(upf[i], config[i], first, FreeOf(pools))
    {
      assert Built(upf[i], config[i], first);
      assert forall p :: p in upf[i].Of(false) ==> p in Pools(upf, false);
    }
  }

  /** The UPFs that were there, and those of the topology as it configures them. */
  ghost predicate NewAsConfigured(before: Upfs, after: Upfs, topology: Topology, first: bool, frees: Frees) {
    && (forall name :: name in after <==> name in before || name in topology)
    && (forall name :: name in before ==> after[name] == before[name])
    && (forall name :: name in topology && name !in before ==> AsConfigured(after[name], topology[name], first, frees))
  }

  lemma PoolIssuing(upf: Upf, config: UpfConfig, first: bool, i: int, k: int, v: int) returns (p: UeIPPool)
    requires BuiltUpf(upf, config, first) && Issues(config, i, k, first, v)
    ensures p in Pools(upf, false) && OfferedBy(upf, p) && v in p.FreeSet()
  {
    assert Built(upf[i], config[i], first);
    assert Slices(upf) == ConfigSlices(config);
    p := upf[i].pools[k];
    assert p in upf[i].Of(false);
  }

  lemma PoolIssues(upf: Upf, config: UpfConfig, first: bool, p: UeIPPool, v: int)
    requires BuiltUpf(upf, config, first) && OfferedBy(upf, p) && v in p.FreeSet()
    ensures exists i, k :: 0 <= i < |config| && 0 <= k < |config[i].cidrs| && Issues(config, i, k, first, v)
  {
    var i :| 0 <= i < |upf| && Offers(Slices(upf), i) && p in upf[i].pools;
    var k :| 0 <= k < |upf[i].pools| && upf[i].pools[k] == p;
    assert Built(upf[i], config[i], first);
    assert Slices(upf) == ConfigSlices(config);
    assert Issues(config, i, k, first, v);
  }

  // A new pool does not overlap the configured pool that issued an address.
  lemma PresentIsHarmless(sessions: Sessions, issuer: Issuers, frees: Frees, offered: set<UeIPPool>, upfs: Upfs,
                          candidates: Upfs, frees': Frees)
    requires AllHeldWell(sessions, issuer, frees, offered) && Lone(ActivePools(candidates), frees')
    requires forall name :: name in upfs ==> name in candidates && candidates[name] == upfs[name]
    requires forall r :: r in sessions && sessions[r].HoldsDynamic() ==> sessions[r].address.value.Valid()
    requires PresentIn(sessions, upfs)
    ensures forall r, p :: r in sessions && sessions[r].HoldsDynamic() && p in frees' && p !in frees && p in Offering(candidates)
                           ==> sessions[r].Value() !in frees'[p]
  {
    forall r, p | r in sessions && sessions[r].HoldsDynamic() && p in frees' && p !in frees && p in Offering(candidates)
      ensures sessions[r].Value() !in frees'[p]
    {
      assert HeldWell(r, sessions[r], issuer, frees, offered);
      var name :| name in upfs && upfs[name] == sessions[r].selected.value;
      assert issuer[r] in Pools(candidates[name], false) && issuer[r] in ActivePools(candidates);
    }
  }

  // Pools are added: the sessions stay well held exactly if the new pools are harmless.
  lemma AddSafely(sessions: Sessions, issuer: Issuers, frees: Frees, upfs: Upfs, topology: Topology, first: bool,
                  candidates: Upfs, frees': Frees)
    requires AllHeldWell(sessions, issuer, frees, Offering(upfs)) && Lone(ActivePools(candidates), frees')
    requires forall name :: name in upfs ==> name in candidates && candidates[name] == upfs[name]
    requires forall p ::
              p in frees
              ==> p in frees' && frees'[p] == frees[p] && (p in Offering(candidates) <==> p in Offering(upfs))
    requires forall v :: Issuable(upfs, topology, first, v) <==> exists p ::
             p in frees' && p !in frees && p in Offering(candidates) && v in frees'[p]
    ensures AllHeldWell(sessions, issuer, frees', Offering(candidates)) <==> Harmless(sessions, upfs, topology, first)
    ensures PresentIn(sessions, upfs)
            && (forall r :: r in sessions && sessions[r].HoldsDynamic() ==> sessions[r].address.value.Valid())
            ==> Harmless(sessions, upfs, topology, first)
  {
    AddKeeps(sessions, issuer, frees, Offering(upfs), frees', Offering(candidates));
    if PresentIn(sessions, upfs) && forall r ::
        r in sessions && sessions[r].HoldsDynamic() ==> sessions[r].address.value.Valid() {
      PresentIsHarmless(sessions, issuer, frees, Offering(upfs), upfs, candidates, frees');
    }
  }

  // Pools of the UPFs that were there are offered as before.
  lemma NewOffers(upfs: Upfs, candidates: Upfs, dynamic: set<UeIPPool>, fixed: set<UeIPPool>,
                  addedDynamic: set<UeIPPool>, addedFixed: set<UeIPPool>)
    requires Arranged(upfs, dynamic, fixed) && (addedDynamic + addedFixed) !! (dynamic + fixed)
    requires forall name :: name in upfs ==> name in candidates && candidates[name] == upfs[name]
    requires forall name :: name in candidates && name !in upfs ==> Known(candidates[name], addedDynamic, addedFixed)
    requires AllApart(candidates) && addedDynamic !! addedFixed
    ensures Arranged(candidates, dynamic + addedDynamic, fixed + addedFixed)
    ensures forall p :: p in dynamic ==> (p in Offering(candidates) <==> p in Offering(upfs))
  {
    forall name | name in candidates
      ensures Known(candidates[name], dynamic + addedDynamic, fixed + addedFixed)
    {
      if name in upfs { assert Known(upfs[name], dynamic, fixed); }
    }
    forall p | p in dynamic && p in Offering(candidates)
      ensures p in Offering(upfs)
    {
      var name :| name in candidates && p in Pools(candidates[name], false) && OfferedBy(candidates[name], p);
    }
    forall p | p in Offering(upfs)
      ensures p in Offering(candidates)
    {
      var name :| name in upfs && p in Pools(upfs[name], false) && OfferedBy(upfs[name], p);
    }
  }

  /** No pool has changed, there may be more. */
  ghost predicate Extends(before: Frees, after: Frees) {
    forall p :: p in before ==> p in after && after[p] == before[p]
  }

  lemma OverlapIsClash(candidates: Upfs, topology: Topology, upfs: Upfs, all: seq<UeIPPool>, places: seq<Place>)
    requires Lists(candidates, all, places, candidates.Keys)
    requires forall l ::
              SubnetAt(upfs, topology, l) == if PlaceIn(candidates, l) then Some(PoolAt(candidates, l).subnet) else None
    ensures (exists i, j :: 0 <= i < j < |all| && !Apart(all[i], all[j])) <==> !NoClash(upfs, topology)
    ensures NoClash(upfs, topology) ==> AllApart(candidates)
  {
    if i, j :| 0 <= i < j < |all| && !Apart(all[i], all[j]) {
      assert places[i] != places[j]
             && !ApartSubnets(SubnetAt(upfs, topology, places[i]).value, SubnetAt(upfs, topology, places[j]).value);
    }
    forall l, m | l != m && PlaceIn(candidates, l) && PlaceIn(candidates, m)
          && !Apart(PoolAt(candidates, l), PoolAt(candidates, m))
      ensures exists i, j :: 0 <= i < j < |all| && !Apart(all[i], all[j])
    {
      PlacesOverlap(candidates, all, places, l, m);
    }
    if NoClash(upfs, topology) {
      forall p, q | p in ActivePools(candidates) && q in ActivePools(candidates) && p != q
        ensures Apart(p, q)
      {
        var l, m := PlaceOf(candidates, p), PlaceOf(candidates, q);
        assert SubnetAt(upfs, topology, l).Some? && SubnetAt(upfs, topology, m).Some?;
      }
    }
  }

  lemma PlacesOverlap(candidates: Upfs, all: seq<UeIPPool>, places: seq<Place>, l: Place, m: Place)
    requires Lists(candidates, all, places, candidates.Keys)
    requires l != m && PlaceIn(candidates, l) && PlaceIn(candidates, m)
    requires !Apart(PoolAt(candidates, l), PoolAt(candidates, m))
    ensures exists i, j :: 0 <= i < j < |all| && !Apart(all[i], all[j])
  {
    var i :| 0 <= i < |places| && places[i] == l;
    var j :| 0 <= j < |places| && places[j] == m;
    assert all[i] == PoolAt(candidates, l) && all[j] == PoolAt(candidates, m);
    if i < j { assert !Apart(all[i], all[j]); } else { assert !Apart(all[j], all[i]); }
  }

  ghost function PlaceOf(upfs: Upfs, p: UeIPPool): (l: Place)
    requires p in ActivePools(upfs)
    ensures PlaceIn(upfs, l) && PoolAt(upfs, l) == p
  {
    var name :| name in upfs && p in Pools(upfs[name], false);
    var i :| 0 <= i < |upfs[name]| && p in upfs[name][i].Of(false);
    var k :| 0 <= k < |upfs[name][i].pools| && upfs[name][i].pools[k] == p;
    Place(name, i, k)
  }

  // The pools of these UPFs, each place once, and of the first items of one more.
  ghost predicate ListsUpTo(upfs: Upfs, all: seq<UeIPPool>, places: seq<Place>, names: set<string>, name: string,
                            items: nat) {
    && |all| == |places|
    && (forall t :: 0 <= t < |places| ==> PlaceIn(upfs, places[t]) && all[t] == PoolAt(upfs, places[t]))
    && (forall t, u :: 0 <= t < u < |places| ==> places[t] != places[u])
    && (forall l :: l in places <==> PlaceIn(upfs, l) && (l.name in names || (l.name == name && l.item < items)))
  }

  ghost predicate Lists(upfs: Upfs, all: seq<UeIPPool>, places: seq<Place>, names: set<string>) {
    ListsUpTo(upfs, all, places, names, "", 0)
  }

  predicate PlaceIn(upfs: Upfs, l: Place) {
    l.name in upfs && l.item < |upfs[l.name]| && l.pool < |upfs[l.name][l.item].pools|
  }

  function PoolAt(upfs: Upfs, l: Place): UeIPPool
    requires PlaceIn(upfs, l)
  {
    upfs[l.name][l.item].pools[l.pool]
  }

  lemma ListsMore(upfs: Upfs, all: seq<UeIPPool>, places: seq<Place>, names: set<string>, name: string, i: nat,
                  more: seq<Place>)
    requires name in upfs && name !in names && i < |upfs[name]| && ListsUpTo(upfs, all, places, names, name, i)
    requires |more| == |upfs[name][i].pools| && forall k :: 0 <= k < |more| ==> more[k] == Place(name, i, k)
    ensures ListsUpTo(upfs, all + upfs[name][i].pools, places + more, names, name, i + 1)
  {
    forall l
      ensures l in places + more <==> PlaceIn(upfs, l) && (l.name in names || (l.name == name && l.item < i + 1))
    {
      if l.name == name && l.item == i && PlaceIn(upfs, l) { assert more[l.pool] == l; }
    }
    forall t, u | 0 <= t < u < |places + more|
      ensures (places + more)[t] != (places + more)[u]
    {
      if t < |places| <= u { assert (places + more)[t] in places; }
    }
  }

  lemma OfferedIsOffering(upfs: Upfs, upf: Upf, sel: Selection, p: UeIPPool)
    requires upf in upfs.Values && p in Offered(upf, sel).0 && !Offered(upf, sel).1
    ensures p in Offering(upfs) && p in Pools(upf, false)
  {
    OfferedPools(upf, sel);
    var name :| name in upfs && upfs[name] == upf;
  }

  lemma InPool(p: UeIPPool, addr: IPv4)
    requires p.Sound() && addr.Valid()
    ensures p.subnet.Contains(addr.Uint32()) <==> p.subnet.Min() <= addr.Uint32() <= p.subnet.Max()
  {
    WordIs();
    ToIPUint32(addr);
    ContainsIsRange(p.subnet, addr.Uint32());
  }
}
