/** What the rules of an activated data path (internal/context/datapath.go) do to a packet:
    GTP packets are handed to whichever node of the path takes packets for their outer header. */
module PacketRoutes {
  import opened DataPaths
  import opened Wrappers

  /** Which direction's rules of which node process a packet. */
  datatype Hop = Up(node: nat) | Down(node: nat)

  /** The first node from i on that takes packets addressed to h. */
  function Receiver(path: seq<Rules>, h: FTeid, i: nat): Option<Hop>
    decreases |path| - i
  {
    if i >= |path| then None
    else if path[i].up.teid == Some(h) then Some(Up(i))
    else if path[i].down.teid == Some(h) then Some(Down(i))
    else Receiver(path, h, i + 1)
  }

  function RuleAt(path: seq<Rules>, hop: Hop): Rule
    requires hop.node < |path|
  {
    if hop.Up? then path[hop.node].up else path[hop.node].down
  }

  lemma {:induction false} ReceiverInRange(path: seq<Rules>, h: FTeid, i: nat)
    ensures Receiver(path, h, i).Some? ==> i <= Receiver(path, h, i).value.node < |path|
    decreases |path| - i
  {
    if i < |path| { ReceiverInRange(path, h, i + 1); }
  }

  /** How a packet leaves the path: with an outer header or plain, or not at all because a rule
      does not forward it, or because it came with a header that is not stripped, or without
      the one that is to be stripped. */
  datatype Exit = Sent(header: Option<FTeid>) | Stopped

  /** The hops a packet makes from a node on, where it has come to with an outer header or
      without, and how it leaves. Stops after `fuel` more hops. */
  function Route(path: seq<Rules>, hop: Hop, tunnelled: bool, fuel: nat): (seq<Hop>, Exit)
    requires hop.node < |path|
    decreases fuel
  {
    var rule := RuleAt(path, hop);
    if rule.strip != tunnelled || !rule.forw then ([hop], Stopped)
    else if rule.header.None? then ([hop], Sent(None))
    else
      var next := Receiver(path, rule.header.value, 0);
      if next.None? || fuel == 0 then ([hop], Sent(rule.header))
      else
        ReceiverInRange(path, rule.header.value, 0);
        var (hops, exit) := Route(path, next.value, true, fuel - 1);
        ([hop] + hops, exit)
  }

  lemma RouteStep(path: seq<Rules>, hop: Hop, tunnelled: bool, next: Hop, fuel: nat)
    requires hop.node < |path| && next.node < |path| && fuel > 0
    requires RuleAt(path, hop).strip == tunnelled && RuleAt(path, hop).forw
    requires RuleAt(path, hop).header.Some? && Receiver(path, RuleAt(path, hop).header.value, 0) == Some(next)
    ensures var (hops, exit) := Route(path, next, true, fuel - 1);
            Route(path, hop, tunnelled, fuel) == ([hop] + hops, exit)
  {
  }

  function OptionAt(upfs: seq<UPF>, i: int): Option<UPF> {
    if 0 <= i < |upfs| then Some(upfs[i]) else None
  }

  function RulesAt(upfs: seq<UPF>, i: nat, cfg: Config, an: Option<FTeid>, forw: bool): Rules
    requires i < |upfs|
  {
    var prev, next := OptionAt(upfs, i - 1), OptionAt(upfs, i + 1);
    Rules(UpRule(upfs[i], prev, next, cfg), DownRule(upfs[i], prev, next, cfg, an, forw))
  }

  /** The rules of a path through the given UPFs. */
  function PathRules(upfs: seq<UPF>, cfg: Config, an: Option<FTeid>, forw: bool): (path: seq<Rules>)
    ensures |path| == |upfs|
  {
    seq(|upfs|, i requires 0 <= i < |upfs| => RulesAt(upfs, i, cfg, an, forw))
  }

  // The address where node i takes uplink packets.
  function Entry(upfs: seq<UPF>, i: nat, cfg: Config): Option<string>
    requires i < |upfs|
  {
    if i == 0 then AddressOf(upfs[0].N3Interfaces, cfg) else N9Address(upfs[i], cfg)
  }

  /** The UPFs have all the addresses they need and no two of them share one, the session's two
      TEIDs differ (one generator hands both out), and the access network has its own address. */
  ghost predicate Separate(upfs: seq<UPF>, cfg: Config, an: Option<FTeid>) {
    && cfg.ulTeid != cfg.dlTeid
    && (forall i :: 0 <= i < |upfs| ==> Entry(upfs, i, cfg).Some?)
    && (forall i :: 0 <= i < |upfs| - 1 ==> N9Address(upfs[i], cfg).Some?)
    && (forall i, j :: 0 <= i < j < |upfs| ==> Entry(upfs, i, cfg) != Entry(upfs, j, cfg))
    && (forall i, j :: 0 <= i < j < |upfs| ==> N9Address(upfs[i], cfg) != N9Address(upfs[j], cfg))
    && (an.Some? ==> forall i ::
        0 <= i < |upfs| ==> Entry(upfs, i, cfg) != Some(an.value.ip) && N9Address(upfs[i], cfg) != Some(an.value.ip))
  }

  // If only one hop takes packets for h, it is the receiver.
  lemma {:induction false} OnlyReceiver(path: seq<Rules>, h: FTeid, hop: Hop, i: nat)
    requires i <= hop.node < |path| && RuleAt(path, hop).teid == Some(h)
    requires forall j ::
              0 <= j < |path|
              ==> (path[j].up.teid == Some(h) ==> hop == Up(j)) && (path[j].down.teid == Some(h) ==> hop == Down(j))
    ensures Receiver(path, h, i) == Some(hop)
    decreases |path| - i
  {
    if i < hop.node { OnlyReceiver(path, h, hop, i + 1); }
  }

  lemma {:induction false} NoReceiver(path: seq<Rules>, h: FTeid, i: nat)
    requires forall j :: 0 <= j < |path| ==> path[j].up.teid != Some(h) && path[j].down.teid != Some(h)
    ensures Receiver(path, h, i) == None
    decreases |path| - i
  {
    if i < |path| { NoReceiver(path, h, i + 1); }
  }

  // The tunnel endpoints of a path in terms of its addresses.
  lemma EndpointsAt(upfs: seq<UPF>, cfg: Config, an: Option<FTeid>, forw: bool, i: nat)
    requires i < |upfs|
    ensures var rules := PathRules(upfs, cfg, an, forw)[i];
            && rules.up.teid == Endpoint(Entry(upfs, i, cfg), cfg.ulTeid)
            && rules.down.teid == (if i == |upfs| - 1 then None else Endpoint(N9Address(upfs[i], cfg), cfg.dlTeid))
            && rules.up.header == (if i == |upfs| - 1 then None else Endpoint(Entry(upfs, i + 1, cfg), cfg.ulTeid))
            && rules.down.header == (if i == 0 then an else Endpoint(N9Address(upfs[i - 1], cfg), cfg.dlTeid))
  {
  }

  // Only node i takes packets for its uplink endpoint, and only node i for its downlink endpoint.
  lemma OwnEndpoints(upfs: seq<UPF>, cfg: Config, an: Option<FTeid>, forw: bool, i: nat)
    requires Separate(upfs, cfg, an) && i < |upfs|
    ensures var path := PathRules(upfs, cfg, an, forw);
            && path[i].up.teid.Some? && Receiver(path, path[i].up.teid.value, 0) == Some(Up(i))
            && (i < |upfs| - 1 ==> path[i].down.teid.Some? && Receiver(path, path[i].down.teid.value, 0) == Some(Down(i)))
  {
    var path := PathRules(upfs, cfg, an, forw);
    EndpointsAt(upfs, cfg, an, forw, i);
    forall j | 0 <= j < |path|
      ensures path[j].up.teid == path[i].up.teid ==> j == i
      ensures path[j].down.teid != path[i].up.teid
      ensures i < |upfs| - 1
              ==> path[j].up.teid != path[i].down.teid && (path[j].down.teid == path[i].down.teid ==> j == i)
    {
      EndpointsAt(upfs, cfg, an, forw, j);
    }
    OnlyReceiver(path, path[i].up.teid.value, Up(i), 0);
    if i < |upfs| - 1 { OnlyReceiver(path, path[i].down.teid.value, Down(i), 0); }
  }

  /** Where node i sends an uplink packet is where node i + 1, and nobody else, takes it. */
  lemma UplinkStitched(upfs: seq<UPF>, cfg: Config, an: Option<FTeid>, forw: bool, i: nat)
    requires Separate(upfs, cfg, an) && i < |upfs|
    ensures var path := PathRules(upfs, cfg, an, forw);
            if i == |upfs| - 1 then path[i].up.header == None
            else path[i].up.header.Some? && path[i].up.header == path[i + 1].up.teid
                 && Receiver(path, path[i].up.header.value, 0) == Some(Up(i + 1))
  {
    EndpointsAt(upfs, cfg, an, forw, i);
    if i < |upfs| - 1 {
      EndpointsAt(upfs, cfg, an, forw, i + 1);
      OwnEndpoints(upfs, cfg, an, forw, i + 1);
    }
  }

  /** Where node i sends a downlink packet is where node i - 1, and nobody else, takes it. */
  lemma DownlinkStitched(upfs: seq<UPF>, cfg: Config, an: Option<FTeid>, forw: bool, i: nat)
    requires Separate(upfs, cfg, an) && i < |upfs|
    ensures var path := PathRules(upfs, cfg, an, forw);
            if i == 0 then path[i].down.header == an && (an.Some? ==> Receiver(path, an.value, 0) == None)
            else path[i].down.header.Some? && path[i].down.header == path[i - 1].down.teid
                 && Receiver(path, path[i].down.header.value, 0) == Some(Down(i - 1))
  {
    var path := PathRules(upfs, cfg, an, forw);
    EndpointsAt(upfs, cfg, an, forw, i);
    if i > 0 {
      EndpointsAt(upfs, cfg, an, forw, i - 1);
      OwnEndpoints(upfs, cfg, an, forw, i - 1);
    } else if an.Some? {
      forall j | 0 <= j < |path| ensures path[j].up.teid != an && path[j].down.teid != an {
        EndpointsAt(upfs, cfg, an, forw, j);
      }
      NoReceiver(path, an.value, 0);
    }
  }

  function UpHops(from: nat, n: nat): seq<Hop>
    requires from <= n
    decreases n - from
  {
    if from == n then [] else [Up(from)] + UpHops(from + 1, n)
  }

  function DownHops(from: nat): seq<Hop> {
    [Down(from)] + if from == 0 then [] else DownHops(from - 1)
  }

  /** Every node forwards uplink packets after stripping their header, and the new header is
      received by the next node only; the last node puts none on. */
  ghost predicate UpStitched(path: seq<Rules>) {
    forall i {:trigger path[i].up} :: 0 <= i < |path| ==>
      && path[i].up.strip && path[i].up.forw
      && if i == |path| - 1 then path[i].up.header == None
         else path[i].up.header.Some? && Receiver(path, path[i].up.header.value, 0) == Some(Up(i + 1))
  }

  /** Every node but the last strips the header of downlink packets, and every one but the first
      forwards them with a header that is received by the previous node only; the first node's
      leads off the path. */
  ghost predicate DownStitched(path: seq<Rules>, an: Option<FTeid>) {
    forall i {:trigger path[i].down} :: 0 <= i < |path| ==>
      && path[i].down.strip == (i < |path| - 1)
      && if i == 0 then path[i].down.header == an && (an.Some? ==> Receiver(path, an.value, 0) == None)
         else path[i].down.forw && path[i].down.header.Some? && Receiver(path, path[i].down.header.value,
             0) == Some(Down(i - 1))
  }

  lemma {:induction false} UplinkFrom(path: seq<Rules>, i: nat, fuel: nat)
    requires UpStitched(path) && i < |path| && fuel >= |path| - 1 - i
    ensures Route(path, Up(i), true, fuel) == (UpHops(i, |path|), Sent(None))
    decreases |path| - i
  {
    var rule := path[i].up;
    if i < |path| - 1 {
      RouteStep(path, Up(i), true, Up(i + 1), fuel);
      UplinkFrom(path, i + 1, fuel - 1);
    } else {
      assert UpHops(i, |path|) == [Up(i)];
    }
  }

  // A downlink packet leaves with the access network's header if the first node forwards it.
  function Leaving(path: seq<Rules>, an: Option<FTeid>): Exit
    requires path != []
  {
    if path[0].down.forw then Sent(an) else Stopped
  }

  lemma {:induction false} DownlinkFrom(path: seq<Rules>, an: Option<FTeid>, i: nat, fuel: nat)
    requires DownStitched(path, an) && i < |path| && fuel >= i
    ensures Route(path, Down(i), i < |path| - 1, fuel) == (DownHops(i), Leaving(path, an))
    decreases i
  {
    var rule := path[i].down;
    if i > 0 {
      RouteStep(path, Down(i), i < |path| - 1, Down(i - 1), fuel);
      DownlinkFrom(path, an, i - 1, fuel - 1);
    } else {
      assert DownHops(i) == [Down(i)];
    }
  }

  lemma AllStitched(upfs: seq<UPF>, cfg: Config, an: Option<FTeid>, forw: bool)
    requires Separate(upfs, cfg, an)
    ensures var n, path := |upfs|, PathRules(upfs, cfg, an, forw);
            && UpStitched(path) && DownStitched(path, an)
            && forall i {:trigger path[i].up} {:trigger path[i].down} :: 0 <= i < n ==>
                 && path[i].up.strip && path[i].up.forw && path[i].down.strip == (i < n - 1)
                 && path[i].down.forw == (i > 0 || forw)
  {
    var n, path := |upfs|, PathRules(upfs, cfg, an, forw);
    forall i | 0 <= i < n
      ensures if i == n - 1 then path[i].up.header == None
              else path[i].up.header.Some? && Receiver(path, path[i].up.header.value, 0) == Some(Up(i + 1))
    {
      UplinkStitched(upfs, cfg, an, forw, i);
    }
    forall i | 0 <= i < n
      ensures if i == 0 then path[i].down.header == an && (an.Some? ==> Receiver(path, an.value, 0) == None)
              else path[i].down.header.Some? && Receiver(path, path[i].down.header.value, 0) == Some(Down(i - 1))
    {
      DownlinkStitched(upfs, cfg, an, forw, i);
    }
    assert forall i {:trigger path[i]} :: 0 <= i < n ==> path[i] == RulesAt(upfs, i, cfg, an, forw);
  }

  /** What a path through the given UPFs does to a packet in either direction. */
  lemma PathRoutes(upfs: seq<UPF>, cfg: Config, an: Option<FTeid>, forw: bool)
    requires Separate(upfs, cfg, an) && upfs != []
    ensures var n, path := |upfs|, PathRules(upfs, cfg, an, forw);
            && path[0].up.teid.Some? && Receiver(path, path[0].up.teid.value, 0) == Some(Up(0))
            && path[0].down.forw == forw
            && Route(path, Up(0), true, n) == (UpHops(0, n), Sent(None))
            && Route(path, Down(n - 1), false, n) == (DownHops(n - 1), if forw then Sent(an) else Stopped)
  {
    var n, path := |upfs|, PathRules(upfs, cfg, an, forw);
    OwnEndpoints(upfs, cfg, an, forw, 0);
    AllStitched(upfs, cfg, an, forw);
    UplinkFrom(path, 0, n);
    DownlinkFrom(path, an, n - 1, n);
  }

  // Node i of an activated path runs the rules of its place.
  lemma RunsPathRules(p: DataPath, cfg: Config, an: Option<FTeid>, i: nat)
    requires p.AllRunning(cfg, an) && i < |p.nodes|
    ensures StageOf(p.nodes[i], cfg) == Running(RulesAt(p.UPFs(), i, cfg, an, p.Forwards()))
  {
    assert StageOf(p.nodes[i], cfg) == p.Target(i, cfg, an, p.Forwards());
    assert p.UPFs()[i] == p.nodes[i].upf;
    assert OptionAt(p.UPFs(), i - 1) == UPFOf(At(p.nodes, i - 1));
    assert OptionAt(p.UPFs(), i + 1) == UPFOf(At(p.nodes, i + 1));
  }

  // The rules that the nodes of a path run.
  ghost predicate Runs(p: DataPath, cfg: Config, path: seq<Rules>)
    reads p.Repr
  {
    |path| == |p.nodes| && forall i {:trigger path[i]} ::
        0 <= i < |path| ==> p.nodes[i] in p.Repr && StageOf(p.nodes[i], cfg) == Running(path[i])
  }

  lemma RunsAre(p: DataPath, cfg: Config, an: Option<FTeid>, path: seq<Rules>)
    requires p.AllRunning(cfg, an) && Runs(p, cfg, path)
    ensures path == PathRules(p.UPFs(), cfg, an, p.Forwards())
  {
    forall i | 0 <= i < |path|
      ensures path[i] == RulesAt(p.UPFs(), i, cfg, an, p.Forwards())
    {
      assert StageOf(p.nodes[i], cfg) == Running(path[i]);
      RunsPathRules(p, cfg, an, i);
    }
  }

  /** End to end: on an activated path, what the access network sends to the first node's
      uplink endpoint passes every node in order and leaves as a plain packet for the data
      network. A plain packet for the UE passes every node in the opposite order; the first node
      keeps it until the access network is set up, then it leaves with the access network's
      header. Every node strips the header the packet came with. */
  lemma EndToEnd(p: DataPath, cfg: Config, an: Option<FTeid>, path: seq<Rules>)
    requires p.AllRunning(cfg, an) && Runs(p, cfg, path) && path != [] && Separate(p.UPFs(), cfg, an)
    ensures path[0].up.teid.Some? && Receiver(path, path[0].up.teid.value, 0) == Some(Up(0))
    ensures Route(path, Up(0), true, |path|) == (UpHops(0, |path|), Sent(None))
    ensures Route(path, Down(|path| - 1), false, |path|)
            == (DownHops(|path| - 1), if p.Forwards() then Sent(an) else Stopped)
  {
    RunsAre(p, cfg, an, path);
    PathRoutes(p.UPFs(), cfg, an, p.Forwards());
  }
}
