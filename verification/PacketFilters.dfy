/** internal/context/pcc_rule.go: the NAS packet filters (section 9.11.4.13 of 3GPP TS 24.501)
    of a flow, and what they match. */
module PacketFilters {
  import opened IpAddresses
  import opened Wrappers

  type Address = x: nat | x < 0x1_0000_0000
  type Port = x: nat | x < 0x1_0000

  datatype Packet = Packet(local: Address, remote: Address, localPort: Port, remotePort: Port,
                           protocol: nat, flowLabel: nat, spi: nat, trafficClass: nat)

  // --- The rule ---

  datatype PortRange = PortRange(start: Port, end: Port) {
    predicate Covers(port: Port) {
      start <= port <= end
    }

    predicate IsZero() {
      start == 0 && end == 0
    }
  }

  /** The text of an address in a flow description. */
  datatype Endpoint = AnyAddress | Assigned | Net(ip: Address, mask: Address) | Unreadable

  /** A decoded flow description. */
  datatype IPFilterRule = IPFilterRule(src: Endpoint, dst: Endpoint, srcPorts: seq<PortRange>, dstPorts: seq<PortRange>,
                                       protocol: Option<nat>)

  /** The text of a flow description. */
  datatype Description = Empty | Undecodable | Decoded(rule: IPFilterRule) {
    /** No text stands for a rule without conditions. */
    function Rule(): IPFilterRule
      requires !Undecodable?
    {
      if Decoded? then rule else IPFilterRule(AnyAddress, Assigned, [], [], None)
    }
  }

  /** A field in hexadecimal: not given, a number, or no number. */
  datatype Hex = Absent | Number(value: int) | Garbage {
    /** strconv.ParseInt with 32 bits. */
    predicate Parses() {
      Number? && -0x8000_0000 <= value < 0x8000_0000
    }

    predicate Acceptable() {
      Absent? || Parses()
    }

    /** The number as an unsigned one of 32 bits. */
    function Unsigned(): nat
      requires Number?
    {
      value % 0x1_0000_0000
    }
  }

  datatype Direction = Unspecified | Downlink | Uplink | Bidirectional

  datatype FlowInformation = FlowInformation(packFiltId: string, direction: Direction, description: Description,
                                             flowLabel: Hex, spi: Hex, tosTrafficClass: Hex)

  predicate InPorts(ranges: seq<PortRange>, port: Port) {
    ranges == [] || exists i :: 0 <= i < |ranges| && ranges[i].Covers(port)
  }

  predicate FieldsMatch(info: FlowInformation, p: Packet) {
    && (info.flowLabel.Number? ==> p.flowLabel == info.flowLabel.Unsigned())
    && (info.spi.Number? ==> p.spi == info.spi.Unsigned())
    && (info.tosTrafficClass.Number?
        ==> SameClass(p.trafficClass, info.tosTrafficClass.value / 0x100 % 0x100, info.tosTrafficClass.value % 0x100))
  }

  predicate Within(e: Endpoint, addr: Address) {
    e.Net? ==> Subnet(e.ip, e.mask).Contains(addr)
  }

  /** The conditions of a flow apart from those on ports. */
  predicate Base(info: FlowInformation, rule: IPFilterRule, p: Packet) {
    && FieldsMatch(info, p) && Within(rule.dst, p.local) && Within(rule.src, p.remote)
    && (rule.protocol.Some? ==> p.protocol == rule.protocol.value)
  }

  predicate SameClass(actual: nat, wanted: nat, mask: nat) {
    And(actual, mask) == And(wanted, mask)
  }

  predicate RuleMatches(info: FlowInformation, rule: IPFilterRule, p: Packet) {
    Base(info, rule, p) && InPorts(rule.srcPorts, p.remotePort) && InPorts(rule.dstPorts, p.localPort)
  }

  // --- The filters ---

  datatype Component =
    | FlowLabel(value: nat)
    | SecurityParameterIndex(index: nat)
    | ServiceClass(wanted: nat, mask: nat)
    | LocalAddress(net: Subnet)
    | RemoteAddress(net: Subnet)
    | LocalPortRange(low: nat, high: nat)
    | RemotePortRange(low: nat, high: nat)
    | SingleLocalPort(port: nat)
    | SingleRemotePort(port: nat)
    | ProtocolIdentifier(protocol: nat)
    | MatchAll {

    predicate Matches(p: Packet) {
      match this
      case FlowLabel(l) => p.flowLabel == l
      case SecurityParameterIndex(i) => p.spi == i
      case ServiceClass(c, m) => SameClass(p.trafficClass, c, m)
      case LocalAddress(n) => n.Contains(p.local)
      case RemoteAddress(n) => n.Contains(p.remote)
      case LocalPortRange(low, high) => low <= p.localPort <= high
      case RemotePortRange(low, high) => low <= p.remotePort <= high
      case SingleLocalPort(port) => p.localPort == port
      case SingleRemotePort(port) => p.remotePort == port
      case ProtocolIdentifier(n) => p.protocol == n
      case MatchAll => true
    }
  }

  datatype PacketFilter = PacketFilter(id: nat, direction: Direction, components: seq<Component>)

  /** A filter matches a packet that matches all of its components. */
  predicate FilterMatches(components: seq<Component>, p: Packet) {
    forall i :: 0 <= i < |components| ==> components[i].Matches(p)
  }

  predicate SomeMatches(filters: seq<PacketFilter>, p: Packet) {
    exists i :: 0 <= i < |filters| && FilterMatches(filters[i].components, p)
  }

  /** What a filter for one port range matches: 0-0 gets no component, so any port. */
  predicate Widened(r: Option<PortRange>, port: Port) {
    r.Some? ==> r.value.IsZero() || r.value.Covers(port)
  }

  lemma Append(components: seq<Component>, c: Component)
    ensures forall p :: FilterMatches(components + [c], p) <==> FilterMatches(components, p) && c.Matches(p)
  {
    forall p
      ensures FilterMatches(components + [c], p) <==> FilterMatches(components, p) && c.Matches(p)
    {
      var more := components + [c];
      assert more[|components|] == c;
      assert forall i :: 0 <= i < |components| ==> more[i] == components[i];
    }
  }

  /** The flows for which filters can be built. */
  predicate Acceptable(info: FlowInformation, rule: IPFilterRule) {
    && info.flowLabel.Acceptable() && info.spi.Acceptable() && info.tosTrafficClass.Acceptable()
    && (rule.dst.Assigned? || rule.dst.Net?) && (rule.src.AnyAddress? || rule.src.Net?)
  }

  // The components in the order of the source.
  method BuildComponents(info: FlowInformation, rule: IPFilterRule, srcP: Option<PortRange>, dstP: Option<PortRange>)
    returns (r: Option<seq<Component>>)
    ensures r.Some? <==> Acceptable(info, rule)
    ensures r.Some? ==> r.value != [] && forall p ::
              FilterMatches(r.value, p) <==> Base(info, rule, p) && Widened(srcP, p.remotePort) && Widened(dstP,
                  p.localPort)
  {
    var fields := BuildFields(info);
    if fields.None? { return None; }
    var local := BuildLocal(fields.value, rule.dst, dstP);
    if local.None? { return None; }
    var remote := BuildRemote(local.value, rule.src, srcP);
    if remote.None? { return None; }
    var cs := remote.value;
    if rule.protocol.Some? {
      Append(cs, ProtocolIdentifier(rule.protocol.value));
      cs := cs + [ProtocolIdentifier(rule.protocol.value)];
    }
    if |cs| == 0 {
      cs := [MatchAll];
    }
    return Some(cs);
  }

  method BuildFields(info: FlowInformation) returns (r: Option<seq<Component>>)
    ensures r.Some? <==> info.flowLabel.Acceptable() && info.spi.Acceptable() && info.tosTrafficClass.Acceptable()
    ensures r.Some? ==> forall p :: FilterMatches(r.value, p) <==> FieldsMatch(info, p)
  {
    var cs: seq<Component> := [];
    if !info.flowLabel.Absent? {
      if !info.flowLabel.Parses() { return None; }
      Append(cs, FlowLabel(info.flowLabel.Unsigned()));
      cs := cs + [FlowLabel(info.flowLabel.Unsigned())];
    }
    if !info.spi.Absent? {
      if !info.spi.Parses() { return None; }
      Append(cs, SecurityParameterIndex(info.spi.Unsigned()));
      cs := cs + [SecurityParameterIndex(info.spi.Unsigned())];
    }
    if !info.tosTrafficClass.Absent? {
      if !info.tosTrafficClass.Parses() { return None; }
      var tos := info.tosTrafficClass.value;
      Append(cs, ServiceClass(tos / 0x100 % 0x100, tos % 0x100));
      cs := cs + [ServiceClass(tos / 0x100 % 0x100, tos % 0x100)];
    }
    return Some(cs);
  }

  method BuildLocal(before: seq<Component>, dst: Endpoint, dstP: Option<PortRange>) returns (r: Option<seq<Component>>)
    ensures r.Some? <==> dst.Assigned? || dst.Net?
    ensures r.Some? ==> forall p :: FilterMatches(r.value, p) <==> FilterMatches(before, p) && Within(dst, p.local) && Widened(dstP, p.localPort)
  {
    var cs := before;
    if !dst.Assigned? {
      if !dst.Net? { return None; }
      Append(cs, LocalAddress(Subnet(dst.ip, dst.mask)));
      cs := cs + [LocalAddress(Subnet(dst.ip, dst.mask))];
    }
    if dstP.Some? {
      var range := dstP.value;
      if range.start != range.end {
        Append(cs, LocalPortRange(range.start, range.end));
        cs := cs + [LocalPortRange(range.start, range.end)];
      } else if range.start != 0 && range.end != 0 {
        Append(cs, SingleLocalPort(range.start));
        cs := cs + [SingleLocalPort(range.start)];
      }
    }
    return Some(cs);
  }

  method BuildRemote(before: seq<Component>, src: Endpoint, srcP: Option<PortRange>) returns (r: Option<seq<Component>>)
    ensures r.Some? <==> src.AnyAddress? || src.Net?
    ensures r.Some? ==> forall p :: FilterMatches(r.value, p) <==> FilterMatches(before, p) && Within(src, p.remote) && Widened(srcP, p.remotePort)
  {
    var cs := before;
    if !src.AnyAddress? {
      if !src.Net? { return None; }
      Append(cs, RemoteAddress(Subnet(src.ip, src.mask)));
      cs := cs + [RemoteAddress(Subnet(src.ip, src.mask))];
    }
    if srcP.Some? {
      var range := srcP.value;
      if range.start != range.end {
        Append(cs, RemotePortRange(range.start, range.end));
        cs := cs + [RemotePortRange(range.start, range.end)];
      } else if range.start != 0 && range.end != 0 {
        Append(cs, SingleRemotePort(range.start));
        cs := cs + [SingleRemotePort(range.start)];
      }
    }
    return Some(cs);
  }

  // --- The filters of a flow ---

  /** A missing list of port ranges counts as one missing range. */
  function Ranges(ranges: seq<PortRange>): (r: seq<Option<PortRange>>)
    ensures |r| == if |ranges| == 0 then 1 else |ranges|
  {
    if ranges == [] then [None] else seq(|ranges|, i requires 0 <= i < |ranges| => Some(ranges[i]))
  }

  predicate AnyWidened(ranges: seq<Option<PortRange>>, port: Port) {
    exists i :: 0 <= i < |ranges| && Widened(ranges[i], port)
  }

  function Count(rule: IPFilterRule): nat {
    |Ranges(rule.srcPorts)| * |Ranges(rule.dstPorts)|
  }

  /** What the filters of a flow match, whatever the flow: the rule, but with 0-0 as any port. */
  ghost predicate Characterised(info: FlowInformation, rule: IPFilterRule, filters: seq<PacketFilter>) {
    forall p :: SomeMatches(filters, p) <==>
      Base(info, rule, p) && AnyWidened(Ranges(rule.srcPorts), p.remotePort)
          && AnyWidened(Ranges(rule.dstPorts), p.localPort)
  }

  lemma AnyAppend(ranges: seq<Option<PortRange>>, k: nat)
    requires k < |ranges|
    ensures forall port ::
              AnyWidened(ranges[..k + 1], port) <==> AnyWidened(ranges[..k], port) || Widened(ranges[k], port)
  {
    forall port
      ensures AnyWidened(ranges[..k + 1], port) <==> AnyWidened(ranges[..k], port) || Widened(ranges[k], port)
    {
      assert ranges[..k + 1] == ranges[..k] + [ranges[k]];
      assert ranges[..k + 1][k] == ranges[k];
    }
  }

  lemma SomeConcat(a: seq<PacketFilter>, b: seq<PacketFilter>)
    ensures forall p :: SomeMatches(a + b, p) <==> SomeMatches(a, p) || SomeMatches(b, p)
    ensures |b| == 1 ==> forall p :: SomeMatches(b, p) <==> FilterMatches(b[0].components, p)
  {
    forall p
      ensures SomeMatches(a + b, p) <==> SomeMatches(a, p) || SomeMatches(b, p)
    {
      assert forall i :: 0 <= i < |a| ==> (a + b)[i] == a[i];
      assert forall i :: 0 <= i < |b| ==> b[i] == (a + b)[|a| + i];
    }
  }

  const MAX_ID: nat := 255

  function Ids(n: nat): (r: set<nat>)
    ensures |r| == n && forall i :: i in r <==> 1 <= i <= n
  {
    if n == 0 then {} else Ids(n - 1) + {n}
  }

  lemma UsedCount(used: set<nat>, n: nat)
    requires forall id :: id in used ==> 1 <= id <= n
    ensures |used| <= n && (|used| == n <==> forall i :: 1 <= i <= n ==> i in used)
  {
    var free := Ids(n) - used;
    assert Ids(n) == free + used;
    if |used| == n { assert free == {}; }
  }

  class SMContext {
    // PacketFilterIDGenerator and PacketFilterIDToNASPFID.
    var usedIds: set<nat>
    var nasIds: map<string, nat>

    predicate Valid()
      reads this
    {
      forall id :: id in usedIds ==> 1 <= id <= MAX_ID
    }

    /** An id that is not in use, or none. */
    method AllocateId() returns (id: Option<nat>)
      requires Valid()
      modifies this`usedIds
      ensures Valid() && |old(usedIds)| <= MAX_ID && (id.None? <==> |old(usedIds)| == MAX_ID)
      ensures id.Some? ==> 1 <= id.value <= MAX_ID && id.value !in old(usedIds) && usedIds == old(usedIds) + {id.value}
      ensures id.None? ==> usedIds == old(usedIds)
    {
      var free := set i | 1 <= i <= MAX_ID && i !in usedIds;
      UsedCount(usedIds, MAX_ID);
      assert forall i :: 1 <= i <= MAX_ID && i !in usedIds ==> i in free;
      if free == {} { return None; }
      var i := AnyOf(free);
      usedIds := usedIds + {i};
      return Some(i);
    }

    /** One filter. Its id is taken before anything is parsed, and stays taken after an error. */
    method CreateNasPacketFilter(info: FlowInformation, rule: IPFilterRule, srcP: Option<PortRange>,
                                 dstP: Option<PortRange>)
      returns (r: Option<PacketFilter>)
      requires Valid()
      modifies this
      ensures Valid() && |old(usedIds)| <= MAX_ID && (r.Some? <==> Acceptable(info, rule) && |old(usedIds)| < MAX_ID)
      ensures old(usedIds) <= usedIds && |usedIds| == |old(usedIds)| + if |old(usedIds)| < MAX_ID then 1 else 0
      ensures r.Some? ==>
                && r.value.id in usedIds - old(usedIds) && r.value.direction == info.direction
                && nasIds == old(nasIds)[info.packFiltId := r.value.id]
                && forall p :: FilterMatches(r.value.components, p) <==>
                       Base(info, rule, p) && Widened(srcP, p.remotePort) && Widened(dstP, p.localPort)
    {
      var id := AllocateId();
      if id.None? { return None; }
      nasIds := nasIds[info.packFiltId := id.value];
      var components := BuildComponents(info, rule, srcP, dstP);
      if components.None? { return None; }
      return Some(PacketFilter(id.value, info.direction, components.value));
    }

    /** The filters of a flow: one for every pair of port ranges, with an id of its own. */
    method BuildNASPacketFiltersFromFlowInformation(info: FlowInformation) returns (r: Option<seq<PacketFilter>>)
      requires Valid()
      modifies this
      ensures Valid() && old(usedIds) <= usedIds
      ensures r.Some? <==> Buildable(info) && |old(usedIds)| + Count(info.description.Rule()) <= MAX_ID
      ensures r.Some? ==>
                && |r.value| == Count(info.description.Rule()) && |usedIds| == |old(usedIds)| + |r.value|
                && (forall i :: 0 <= i < |r.value| ==> r.value[i].id in usedIds - old(usedIds) && r.value[i].direction == info.direction)
                && (forall i, j :: 0 <= i < j < |r.value| ==> r.value[i].id != r.value[j].id)
                && r.value != [] && nasIds == old(nasIds)[info.packFiltId := r.value[|r.value| - 1].id]
                && Characterised(info, info.description.Rule(), r.value)
      // An error keeps the ids that were taken.
      ensures r.None? ==> |usedIds| == Spent(info, |old(usedIds)|)
    {
      if info.description.Undecodable? { return None; }
      var rule := info.description.Rule();
      var srcs, dsts := Ranges(rule.srcPorts), Ranges(rule.dstPorts);
      var filters: seq<PacketFilter> := [];
      var i := 0;
      while i < |srcs|
        invariant i <= |srcs| && Rows(info, i, filters, old(usedIds), old(nasIds))
      {
        var ok;
        filters, ok := AppendRow(info, i, filters, old(usedIds), old(nasIds));
        if !ok { return None; }
        i := i + 1;
      }
      assert srcs[..i] == srcs;
      UsedCount(usedIds, MAX_ID);
      return Some(filters);
    }

    // The filters for the first i ranges of source ports, given what was taken before them.
    ghost predicate Rows(info: FlowInformation, i: nat, filters: seq<PacketFilter>, ids: set<nat>,
                         nas: map<string, nat>)
      reads this
    {
      !info.description.Undecodable? &&
      var rule := info.description.Rule();
      var srcs, dsts := Ranges(rule.srcPorts), Ranges(rule.dstPorts);
      && Valid() && ids <= usedIds && i <= |srcs|
      && |filters| == i * |dsts| && |usedIds| == |ids| + |filters|
      && Numbered(filters, usedIds - ids, info.direction)
      && (if i == 0 then nasIds == nas
          else Buildable(info) && filters != [] && nasIds == nas[info.packFiltId := filters[|filters| - 1].id])
      && forall p :: SomeMatches(filters, p) <==>
           Base(info, rule, p) && AnyWidened(srcs[..i], p.remotePort) && AnyWidened(dsts, p.localPort)
    }

    // One round of the outer loop.
    method AppendRow(info: FlowInformation, i: nat, filters: seq<PacketFilter>, ghost ids: set<nat>,
                     ghost nas: map<string, nat>)
      returns (all: seq<PacketFilter>, ok: bool)
      requires Rows(info, i, filters, ids, nas) && i < |Ranges(info.description.Rule().srcPorts)|
      modifies this
      ensures Valid() && ids <= usedIds
      ensures ok ==> Rows(info, i + 1, all, ids, nas)
      ensures !ok ==> |usedIds| == Spent(info, |ids|)
      ensures !ok ==> !(Buildable(info) && |ids| + Count(info.description.Rule()) <= MAX_ID)
    {
      var rule := info.description.Rule();
      var srcs, dsts := Ranges(rule.srcPorts), Ranges(rule.dstPorts);
      var row;
      row, ok := BuildRow(info, rule, srcs[i], dsts);
      RowFits(i, |srcs|, |dsts|);
      if !ok { return filters, false; }
      SomeConcat(filters, row);
      AnyAppend(srcs, i);
      all := filters + row;
    }

    // The inner loop: the filters for one range of source ports.
    method BuildRow(info: FlowInformation, rule: IPFilterRule, srcP: Option<PortRange>, dsts: seq<Option<PortRange>>)
      returns (row: seq<PacketFilter>, ok: bool)
      requires Valid() && dsts != []
      modifies this
      ensures Valid() && old(usedIds) <= usedIds
      ensures ok <==> Acceptable(info, rule) && |old(usedIds)| + |dsts| <= MAX_ID
      ensures if ok then |row| == |dsts| else |row| < |dsts|
      ensures ok ==> Numbered(row, usedIds - old(usedIds), info.direction) && |usedIds| == |old(usedIds)| + |row|
      ensures ok ==> nasIds == old(nasIds)[info.packFiltId := row[|row| - 1].id]
      ensures ok ==> forall p :: SomeMatches(row, p) <==> Base(info, rule, p) && Widened(srcP, p.remotePort) && AnyWidened(dsts, p.localPort)
      ensures !ok ==> |old(usedIds)| <= MAX_ID && |usedIds| == if Acceptable(info, rule) || |old(usedIds)| == MAX_ID
              then MAX_ID else |old(usedIds)| + 1
    {
      row := [];
      var j := 0;
      while j < |dsts|
        invariant j == |row| <= |dsts| && Valid() && old(usedIds) <= usedIds && (j > 0 ==> Acceptable(info, rule))
        invariant |usedIds| == |old(usedIds)| + j
        invariant Numbered(row, usedIds - old(usedIds), info.direction)
        invariant if j == 0 then nasIds == old(nasIds) else nasIds == old(nasIds)[info.packFiltId := row[j - 1].id]
        invariant forall p :: SomeMatches(row, p) <==> Base(info, rule, p) && Widened(srcP, p.remotePort) && AnyWidened(dsts[..j], p.localPort)
      {
        var pf := CreateNasPacketFilter(info, rule, srcP, dsts[j]);
        if pf.None? { return row, false; }
        SomeConcat(row, [pf.value]);
        AnyAppend(dsts, j);
        row := row + [pf.value];
        j := j + 1;
      }
      assert dsts[..j] == dsts;
      UsedCount(usedIds, MAX_ID);
      ok := true;
    }
  }

  /** The flows for which filters can be built while there are ids. */
  predicate Buildable(info: FlowInformation) {
    !info.description.Undecodable? && Acceptable(info, info.description.Rule())
  }

  /** How many ids are in use after an error: all of them if they ran out, else one more. */
  function Spent(info: FlowInformation, before: nat): nat {
    if Buildable(info) then MAX_ID
    else if info.description.Undecodable? || before == MAX_ID then before
    else before + 1
  }

  predicate Numbered(filters: seq<PacketFilter>, ids: set<nat>, direction: Direction) {
    && (forall i :: 0 <= i < |filters| ==> filters[i].id in ids && filters[i].direction == direction)
    && (forall i, j :: 0 <= i < j < |filters| ==> filters[i].id != filters[j].id)
  }

  lemma RowFits(i: nat, m: nat, n: nat)
    requires i < m
    ensures i * n + n <= m * n
  {
    assert (i + 1) * n <= m * n;
  }

  // --- What the filters mean ---

  predicate HasZero(ranges: seq<PortRange>) {
    exists i :: 0 <= i < |ranges| && ranges[i].IsZero()
  }

  lemma WidenedPorts(ranges: seq<PortRange>, port: Port)
    ensures AnyWidened(Ranges(ranges), port) <==> HasZero(ranges) || InPorts(ranges, port)
  {
    var rs := Ranges(ranges);
    if ranges == [] {
      assert Widened(rs[0], port);
    } else {
      assert forall i :: 0 <= i < |ranges| ==> rs[i] == Some(ranges[i]);
      if i :| 0 <= i < |ranges| && (ranges[i].IsZero() || ranges[i].Covers(port)) {
        assert Widened(rs[i], port);
      }
    }
  }

  /** The filters match exactly what the flow matches. */
  ghost predicate Preserved(info: FlowInformation, rule: IPFilterRule, filters: seq<PacketFilter>) {
    forall p :: RuleMatches(info, rule, p) <==> SomeMatches(filters, p)
  }

  /** Without a range 0-0 the filters that were built mean what the flow means. */
  lemma MeaningPreserved(info: FlowInformation, rule: IPFilterRule, filters: seq<PacketFilter>)
    requires Characterised(info, rule, filters)
    requires !HasZero(rule.srcPorts) && !HasZero(rule.dstPorts)
    ensures Preserved(info, rule, filters)
  {
    forall p
      ensures RuleMatches(info, rule, p) <==> SomeMatches(filters, p)
    {
      WidenedPorts(rule.srcPorts, p.remotePort);
      WidenedPorts(rule.dstPorts, p.localPort);
    }
  }

  /** A range 0-0 does no harm in a list that names every port anyway. */
  predicate Lossless(ranges: seq<PortRange>) {
    HasZero(ranges) ==> forall port: Port :: InPorts(ranges, port)
  }

  /** A list of which every range ends before it starts: no packet matches. */
  predicate Dead(ranges: seq<PortRange>) {
    ranges != [] && forall i :: 0 <= i < |ranges| ==> ranges[i].end < ranges[i].start
  }

  /** Exactly when the filters mean what the flow means. */
  lemma PreservedExactly(info: FlowInformation, rule: IPFilterRule, filters: seq<PacketFilter>)
    requires Characterised(info, rule, filters)
    ensures Preserved(info, rule, filters) <==>
            Dead(rule.srcPorts) || Dead(rule.dstPorts) || (Lossless(rule.srcPorts) && Lossless(rule.dstPorts))
  {
    var src, dst := rule.srcPorts, rule.dstPorts;
    if Dead(src) || Dead(dst) || (Lossless(src) && Lossless(dst)) {
      forall p
        ensures RuleMatches(info, rule, p) <==> SomeMatches(filters, p)
      {
        WidenedPorts(src, p.remotePort);
        WidenedPorts(dst, p.localPort);
      }
    } else {
      var s := SomePort(src);
      var d := SomePort(dst);
      if !Lossless(src) {
        s :| !InPorts(src, s);
      } else {
        d :| !InPorts(dst, d);
      }
      WidenedPorts(src, s);
      WidenedPorts(dst, d);
      var p := SamplePacket(info, rule, s, d);
      assert SomeMatches(filters, p) && !RuleMatches(info, rule, p);
    }
  }

  lemma SomePort(ranges: seq<PortRange>) returns (port: Port)
    requires !Dead(ranges)
    ensures HasZero(ranges) || InPorts(ranges, port)
  {
    if ranges == [] { return 0; }
    var i :| 0 <= i < |ranges| && ranges[i].start <= ranges[i].end;
    assert ranges[i].Covers(ranges[i].start);
    return ranges[i].start;
  }

  // A packet that meets every condition apart from those on ports.
  lemma SamplePacket(info: FlowInformation, rule: IPFilterRule, remotePort: Port, localPort: Port) returns (p: Packet)
    ensures p.remotePort == remotePort && p.localPort == localPort && Base(info, rule, p)
  {
    p := Packet(if rule.dst.Net? then rule.dst.ip else 0, if rule.src.Net? then rule.src.ip
        else 0, localPort, remotePort,
                if rule.protocol.Some? then rule.protocol.value else 0,
                if info.flowLabel.Number? then info.flowLabel.Unsigned() else 0,
                if info.spi.Number? then info.spi.Unsigned() else 0,
                if info.tosTrafficClass.Number? then info.tosTrafficClass.value / 0x100 % 0x100 else 0);
  }

  /** A flow for the single port range 0-0 is given a filter that matches every port. */
  lemma ZeroRangeWidens(info: FlowInformation, rule: IPFilterRule, filters: seq<PacketFilter>)
    requires Characterised(info, rule, filters) && rule.srcPorts == [] && rule.dstPorts == [PortRange(0, 0)]
    ensures !Preserved(info, rule, filters)
  {
    PreservedExactly(info, rule, filters);
    assert rule.dstPorts[0].IsZero();
    assert !InPorts(rule.dstPorts, 1);
  }
}
