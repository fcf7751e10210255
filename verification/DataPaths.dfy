/** internal/context/datapath.go, with GenerateDataPath of user_plane_information.go and the
    tunnel of upf.go: a data path is a doubly linked list of UPF nodes whose rules make a
    packet travel from node to node. */
module DataPaths {
  import opened IdGenerators
  import opened RuleStates
  import opened Wrappers

  // --- UPFs ---

  // What a resolver would answer for the interface's domain name.
  datatype Resolution = Unresolved | Resolved(v4: Option<string>, v6: string)

  datatype Interface = Interface(networkInstances: seq<string>, ipv4: seq<string>, ipv6: seq<string>,
                                 fqdn: Option<Resolution>)
  {
    /** UPFInterfaceInfo.IP for a PDU session type (1 IPv4, 2 IPv6, 3 IPv4v6); a nil address is "". */
    function IP(sessionType: nat): Option<string> {
      if (sessionType == 1 || sessionType == 3) && ipv4 != [] then Some(ipv4[0])
      else if (sessionType == 2 || sessionType == 3) && ipv6 != [] then Some(ipv6[0])
      else if fqdn.Some? && fqdn.value.Resolved? then
        var v4 := fqdn.value.v4;
        if sessionType == 1 then Some(if v4.Some? then v4.value else "")
        else if sessionType == 2 then Some(fqdn.value.v6)
        else Some(if v4.Some? then v4.value else fqdn.value.v6)
      else None
    }
  }

  function FirstFor(interfaces: seq<Interface>, dnn: string): Option<Interface> {
    if interfaces == [] then None
    else if dnn in interfaces[0].networkInstances then Some(interfaces[0])
    else FirstFor(interfaces[1..], dnn)
  }

  /** GetInterface: the first interface that serves the data network, if any does. */
  lemma {:induction false} FirstForMeans(interfaces: seq<Interface>, dnn: string)
    ensures FirstFor(interfaces, dnn).None? <==> forall i <- interfaces :: dnn !in i.networkInstances
    ensures FirstFor(interfaces, dnn).Some? ==> exists k ::
              0 <= k < |interfaces| && FirstFor(interfaces, dnn) == Some(interfaces[k])
              && dnn in interfaces[k].networkInstances
              && forall j :: 0 <= j < k ==> dnn !in interfaces[j].networkInstances
  {
    if interfaces != [] && dnn !in interfaces[0].networkInstances {
      var rest := interfaces[1..];
      FirstForMeans(rest, dnn);
      if FirstFor(rest, dnn).Some? {
        var k :| 0 <= k < |rest| && FirstFor(rest, dnn) == Some(rest[k]) && dnn in rest[k].networkInstances
                 && forall j :: 0 <= j < k ==> dnn !in rest[j].networkInstances;
        assert interfaces[k + 1] == rest[k] && forall j :: 0 < j < k + 1 ==> interfaces[j] == rest[j - 1];
      }
    }
  }

  const MAX_PDR_ID := 0xFFFF
  const MAX_RULE_ID := 0xFFFF_FFFF

  class UPF {
    const N3Interfaces: seq<Interface>
    const N9Interfaces: seq<Interface>
    var Associated: bool
    var pdrIDs: set<nat>
    var farIDs: set<nat>
    var qerIDs: set<nat>

    constructor (n3: seq<Interface>, n9: seq<Interface>)
      ensures N3Interfaces == n3 && N9Interfaces == n9 && !Associated
      ensures pdrIDs == {} && farIDs == {} && qerIDs == {}
    {
      N3Interfaces, N9Interfaces, Associated, pdrIDs, farIDs, qerIDs := n3, n9, false, {}, {}, {};
    }

    // How many rules the UPF can still be given; none without an association.
    ghost function Room(): (r: (nat, nat, nat))
      reads this
    {
      if Associated then (Left(pdrIDs, MAX_PDR_ID), Left(farIDs, MAX_RULE_ID), Left(qerIDs, MAX_RULE_ID)) else (0, 0, 0)
    }

    // A PDR id taken before the FAR ids ran out is not given back.
    method AddPDR() returns (pdr: Option<PDR>)
      modifies this`pdrIDs, this`farIDs
      ensures pdr.Some? <==> old(Room()).0 > 0 && old(Room()).1 > 0
      ensures pdr.Some? ==> Took(pdr.value, old(pdrIDs), pdrIDs, old(farIDs), farIDs)
                            && Room() == (old(Room()).0 - 1, old(Room()).1 - 1, old(Room()).2)
      ensures pdr.None? ==> farIDs == old(farIDs) && old(pdrIDs) <= pdrIDs && (!Associated ==> pdrIDs == old(pdrIDs))
    {
      if !Associated { return None; }
      var pdrID := AllocateID(pdrIDs, MAX_PDR_ID);
      if pdrID.None? { return None; }
      pdrIDs := pdrIDs + {pdrID.value};
      var farID := AllocateID(farIDs, MAX_RULE_ID);
      if farID.None? { return None; }
      farIDs := farIDs + {farID.value};
      pdr := Some(NewPDR(pdrID.value, farID.value));
    }

    method AddQER() returns (qer: Option<nat>)
      modifies this`qerIDs
      ensures qer.Some? <==> old(Room()).2 > 0
      ensures qer.Some?
              ==> qer.value !in old(qerIDs) && qerIDs == old(qerIDs) + {qer.value} && Room().2 == old(Room()).2 - 1
      ensures qer.None? ==> qerIDs == old(qerIDs)
    {
      if !Associated { return None; }
      qer := AllocateID(qerIDs, MAX_RULE_ID);
      if qer.Some? { qerIDs := qerIDs + {qer.value}; }
    }

    // RemovePDR, RemoveFAR and RemoveQER do nothing once the UPF is not associated.
    method Release(pdr: PDR)
      modifies this`pdrIDs, this`farIDs, this`qerIDs
      ensures pdrIDs == if Associated then old(pdrIDs) - {pdr.PDRID} else old(pdrIDs)
      ensures farIDs == if Associated then old(farIDs) - {pdr.FAR.FARID} else old(farIDs)
      ensures qerIDs == if Associated then old(qerIDs) - (set q <- pdr.QER) else old(qerIDs)
    {
      if Associated {
        pdrIDs := pdrIDs - {pdr.PDRID};
        farIDs := farIDs - {pdr.FAR.FARID};
        for i := 0 to |pdr.QER|
          invariant pdrIDs == old(pdrIDs) - {pdr.PDRID} && farIDs == old(farIDs) - {pdr.FAR.FARID}
          invariant qerIDs == old(qerIDs) - (set q <- pdr.QER[..i])
        {
          qerIDs := qerIDs - {pdr.QER[i]};
          assert pdr.QER[..i + 1] == pdr.QER[..i] + [pdr.QER[i]];
        }
        assert pdr.QER[..|pdr.QER|] == pdr.QER;
      }
    }
  }

  // --- Rules ---

  /** A tunnel endpoint: where a GTP packet is addressed to. */
  datatype FTeid = FTeid(ip: string, teid: nat)

  datatype Side = Access | Core

  datatype PDI = PDI(sourceInterface: Side, localFTeid: Option<FTeid>, networkInstance: string)

  datatype ForwardingParameters = ForwardingParameters(destinationInterface: Side, networkInstance: Option<string>,
    outerHeaderCreation: Option<FTeid>, forwardingPolicyID: string, sendEndMarker: bool)
  {
    // An end marker is only ever sent to a tunnel endpoint.
    predicate Consistent() {
      sendEndMarker ==> outerHeaderCreation.Some?
    }
  }

  datatype FAR = FAR(FARID: nat, forw: bool, params: Option<ForwardingParameters>, State: RuleState)

  datatype PDR = PDR(PDRID: nat, Precedence: nat, PDI: Option<PDI>, outerHeaderRemoval: bool, FAR: FAR, QER: seq<nat>)

  function NewPDR(pdrID: nat, farID: nat): PDR {
    PDR(pdrID, 0, None, false, FAR(farID, false, None, INITIAL), [])
  }

  // A new PDR and its FAR took ids that were free.
  ghost predicate Took(pdr: PDR, pdrIDs: set<nat>, pdrIDs': set<nat>, farIDs: set<nat>, farIDs': set<nat>) {
    && pdr == NewPDR(pdr.PDRID, pdr.FAR.FARID)
    && pdr.PDRID !in pdrIDs && pdrIDs' == pdrIDs + {pdr.PDRID}
    && pdr.FAR.FARID !in farIDs && farIDs' == farIDs + {pdr.FAR.FARID}
  }

  datatype Config = Config(dnn: string, sessionType: nat, ulTeid: nat, dlTeid: nat)

  datatype Outcome = Done | Returned | Panicked

  // --- SM context ---

  /** The converted rates of a session rule, None where the text is no number with a unit. A unit
      that is not known converts to 0. */
  datatype Ambr = Ambr(uplink: Option<nat>, downlink: Option<nat>)

  /** A session rule may come without an AMBR. */
  datatype SessionRule = SessionRule(ambr: Option<Ambr>, defQosQFI: nat)

  /** The parts of the SM context that the activation of a path uses. The session rule is None while
      none is selected; the source reads through it and its AMBR without a check. */
  class SMContext {
    const cfg: Config
    const rule: Option<SessionRule>
    var AMBRQerMap: map<UPF, nat>
    var QerUpfMap: map<(UPF, nat), nat>

    constructor (cfg: Config, rule: Option<SessionRule>)
      ensures this.cfg == cfg && this.rule == rule && AMBRQerMap == map[] && QerUpfMap == map[]
    {
      this.cfg, this.rule, AMBRQerMap, QerUpfMap := cfg, rule, map[], map[];
    }

    /** What it comes to to get the QERs that a path needs at a UPF, those that the session lacks
        there as new ones. */
    ghost function QersOutcome(upf: UPF, isDefaultPath: bool): Outcome
      reads this, upf
    {
      if upf !in AMBRQerMap && upf.Room().2 == 0 then Returned
      else if rule.None? then if upf !in AMBRQerMap || isDefaultPath then Panicked else Done
      else if upf !in AMBRQerMap && rule.value.ambr.None? then Panicked
      else if upf !in AMBRQerMap && (rule.value.ambr.value.uplink.None? || rule.value.ambr.value.downlink.None?)
          then Returned
      else if isDefaultPath && (upf, rule.value.defQosQFI) !in QerUpfMap
              && upf.Room().2 < if upf in AMBRQerMap then 1 else 2 then Returned
      else Done
    }

    // The QER with this id, if the UPF still holds it.
    ghost function HeldQer(upf: UPF, id: nat): set<nat>
      reads upf
    {
      if id in upf.qerIDs then {id} else {}
    }

    // The QERs of the default flow and of the session AMBR at a UPF, once the session has them.
    ghost function QersOf(upf: UPF, isDefaultPath: bool): Option<(set<nat>, set<nat>)>
      reads this, upf
    {
      if upf !in AMBRQerMap then None
      else if !isDefaultPath then Some(({}, HeldQer(upf, AMBRQerMap[upf])))
      else if rule.None? || (upf, rule.value.defQosQFI) !in QerUpfMap then None
      else Some((HeldQer(upf, QerUpfMap[(upf, rule.value.defQosQFI)]), HeldQer(upf, AMBRQerMap[upf])))
    }

    static ghost predicate AreTheQers(list: seq<nat>, qers: (set<nat>, set<nat>), gbrFlow: bool) {
      forall q :: q in list <==> q in qers.0 || (!gbrFlow && q in qers.1)
    }

    // The QERs that were found. The session may know its AMBR QER by an id that the UPF gave up and
    // has just given to the QER of the default flow.
    static ghost predicate Found(defaultQER: Option<nat>, ambrQER: Option<nat>, qers: Option<(set<nat>, set<nat>)>) {
      && qers.Some?
      && (forall q :: q in qers.value.0 <==> defaultQER == Some(q))
      && (forall q :: ambrQER == Some(q) ==> q in qers.value.1)
      && (forall q :: q in qers.value.1 ==> ambrQER == Some(q) || defaultQER == Some(q))
    }

    // The PDR has the precedence and lists the QERs of the session.
    ghost predicate Lists(pdr: Option<PDR>, upf: UPF, isDefaultPath: bool, gbrFlow: bool, precedence: nat)
      reads this, upf
    {
      var qers := QersOf(upf, isDefaultPath);
      pdr.Some? && pdr.value.Precedence == precedence && qers.Some?
      && AreTheQers(pdr.value.QER, qers.value, gbrFlow)
    }

    /** The PDR has the precedence and lists the QER of the default flow exactly on the default path,
        the QER of the session AMBR exactly if the path is no GBR flow, each only while the UPF holds
        it, and no other QER. */
    ghost predicate Enforced(pdr: PDR, upf: UPF, isDefaultPath: bool, gbrFlow: bool, precedence: nat)
      reads this, upf
    {
      && pdr.Precedence == precedence
      && upf in AMBRQerMap && (isDefaultPath ==> rule.Some? && (upf, rule.value.defQosQFI) in QerUpfMap)
      && forall q :: q in pdr.QER <==>
           && q in upf.qerIDs
           && ((!gbrFlow && q == AMBRQerMap[upf])
               || (isDefaultPath && q == QerUpfMap[(upf, rule.value.defQosQFI)]))
    }

    lemma ListsMeans(pdr: PDR, upf: UPF, isDefaultPath: bool, gbrFlow: bool, precedence: nat)
      requires Lists(Some(pdr), upf, isDefaultPath, gbrFlow, precedence)
      ensures Enforced(pdr, upf, isDefaultPath, gbrFlow, precedence)
    {
    }

    // The session-AMBR QER of a UPF and, for the default path, the QER of the default flow.
    // None where the id is known but the UPF no longer holds the QER.
    method SessionQers(upf: UPF, isDefaultPath: bool)
      returns (outcome: Outcome, defaultQER: Option<nat>, ambrQER: Option<nat>)
      modifies this`AMBRQerMap, this`QerUpfMap, upf`qerIDs
      ensures outcome == old(QersOutcome(upf, isDefaultPath))
      ensures outcome == Done ==> QersOutcome(upf, isDefaultPath) == Done
      ensures forall u :: old(allocated(u)) && u != upf ==> QersOutcome(u, isDefaultPath) == old(QersOutcome(u, isDefaultPath))
      ensures outcome == Done ==> Found(defaultQER, ambrQER, QersOf(upf, isDefaultPath))
      ensures forall u :: old(allocated(u)) && old(QersOf(u, isDefaultPath)).Some?
                ==> QersOf(u, isDefaultPath) == old(QersOf(u, isDefaultPath))
    {
      defaultQER, ambrQER := None, None;
      if upf !in AMBRQerMap {
        ambrQER := upf.AddQER();
        if ambrQER.None? { return Returned, None, None; }
        if rule.None? || rule.value.ambr.None? { return Panicked, None, ambrQER; }
        var ambr: Ambr := rule.value.ambr.value;
        if ambr.uplink.None? || ambr.downlink.None? { return Returned, None, ambrQER; }
        AMBRQerMap := AMBRQerMap[upf := ambrQER.value];
      } else if AMBRQerMap[upf] in upf.qerIDs {
        ambrQER := Some(AMBRQerMap[upf]);
      }
      if isDefaultPath {
        if rule.None? { return Panicked, None, ambrQER; }
        var id := (upf, rule.value.defQosQFI);
        if id !in QerUpfMap {
          defaultQER := upf.AddQER();
          if defaultQER.None? { return Returned, None, ambrQER; }
          QerUpfMap := QerUpfMap[id := defaultQER.value];
        } else if QerUpfMap[id] in upf.qerIDs {
          defaultQER := Some(QerUpfMap[id]);
        }
      }
      outcome := Done;
    }

    // The QERs that both rules of a node are to list.
    method PathQers(upf: UPF, isDefaultPath: bool, gbrFlow: bool) returns (outcome: Outcome, qers: seq<nat>)
      modifies this`AMBRQerMap, this`QerUpfMap, upf`qerIDs
      ensures outcome == old(QersOutcome(upf, isDefaultPath))
      ensures outcome == Done ==> forall u :: old(allocated(u)) ==>
                QersOutcome(u, isDefaultPath) == old(QersOutcome(u, isDefaultPath))
      ensures outcome == Done
              ==> QersOf(upf, isDefaultPath).Some? && AreTheQers(qers, QersOf(upf, isDefaultPath).value, gbrFlow)
      ensures forall u :: old(allocated(u)) && old(QersOf(u, isDefaultPath)).Some?
                ==> QersOf(u, isDefaultPath) == old(QersOf(u, isDefaultPath))
    {
      var defaultQER, ambrQER;
      outcome, defaultQER, ambrQER := SessionQers(upf, isDefaultPath);
      qers := if defaultQER.Some? then [defaultQER.value] else [];
      if ambrQER.Some? && !gbrFlow { qers := qers + [ambrQER.value]; }
    }
  }

  // --- Nodes ---

  datatype GTPTunnel = GTPTunnel(SrcEndPoint: DataPathNode?, DestEndPoint: DataPathNode?, TEID: nat, PDR: Option<PDR>)

  const NEW_TUNNEL := GTPTunnel(null, null, 0, None)

  class DataPathNode {
    const upf: UPF
    var UpLinkTunnel: GTPTunnel
    var DownLinkTunnel: GTPTunnel

    constructor NewDataPathNode(upf: UPF)
      ensures this.upf == upf && UpLinkTunnel == NEW_TUNNEL && DownLinkTunnel == NEW_TUNNEL
    {
      this.upf, UpLinkTunnel, DownLinkTunnel := upf, NEW_TUNNEL, NEW_TUNNEL;
    }

    method AddNext(next: DataPathNode?)
      modifies this`DownLinkTunnel
      ensures DownLinkTunnel == old(DownLinkTunnel).(SrcEndPoint := next)
    {
      DownLinkTunnel := DownLinkTunnel.(SrcEndPoint := next);
    }

    method AddPrev(prev: DataPathNode?)
      modifies this`UpLinkTunnel
      ensures UpLinkTunnel == old(UpLinkTunnel).(SrcEndPoint := prev)
    {
      UpLinkTunnel := UpLinkTunnel.(SrcEndPoint := prev);
    }

    function Next(): DataPathNode?
      reads this
    {
      DownLinkTunnel.SrcEndPoint
    }

    function Prev(): DataPathNode?
      reads this
    {
      UpLinkTunnel.SrcEndPoint
    }

    predicate HasPDRs()
      reads this
    {
      UpLinkTunnel.PDR.Some? && DownLinkTunnel.PDR.Some?
    }

    method ActivateUpLinkTunnel(teid: nat) returns (ok: bool)
      modifies this`UpLinkTunnel, upf`pdrIDs, upf`farIDs
      ensures UpLinkTunnel == GTPTunnel(old(Prev()), this, if ok then teid
              else old(UpLinkTunnel.TEID), UpLinkTunnel.PDR)
      ensures ok <==> UpLinkTunnel.PDR.Some?
      ensures ok <==> old(upf.Room()).0 > 0 && old(upf.Room()).1 > 0
      ensures ok ==> upf.Room() == (old(upf.Room()).0 - 1, old(upf.Room()).1 - 1, old(upf.Room()).2)
      ensures ok ==> Took(UpLinkTunnel.PDR.value, old(upf.pdrIDs), upf.pdrIDs, old(upf.farIDs), upf.farIDs)
    {
      UpLinkTunnel := UpLinkTunnel.(SrcEndPoint := Prev(), DestEndPoint := this);
      var pdr := upf.AddPDR();
      UpLinkTunnel := UpLinkTunnel.(PDR := pdr);
      if pdr.None? { return false; }
      UpLinkTunnel := UpLinkTunnel.(TEID := teid);
      ok := true;
    }

    method ActivateDownLinkTunnel(teid: nat) returns (ok: bool)
      modifies this`DownLinkTunnel, upf`pdrIDs, upf`farIDs
      ensures DownLinkTunnel
              == GTPTunnel(old(Next()), this, if ok then teid else old(DownLinkTunnel.TEID), DownLinkTunnel.PDR)
      ensures ok <==> DownLinkTunnel.PDR.Some?
      ensures ok <==> old(upf.Room()).0 > 0 && old(upf.Room()).1 > 0
      ensures ok ==> upf.Room() == (old(upf.Room()).0 - 1, old(upf.Room()).1 - 1, old(upf.Room()).2)
      ensures ok ==> Took(DownLinkTunnel.PDR.value, old(upf.pdrIDs), upf.pdrIDs, old(upf.farIDs), upf.farIDs)
    {
      DownLinkTunnel := DownLinkTunnel.(SrcEndPoint := Next(), DestEndPoint := this);
      var pdr := upf.AddPDR();
      DownLinkTunnel := DownLinkTunnel.(PDR := pdr);
      if pdr.None? { return false; }
      DownLinkTunnel := DownLinkTunnel.(TEID := teid);
      ok := true;
    }

    // The uplink half of the second loop of ActivateTunnelAndPDR.
    method SetupUpLink(cfg: Config, precedence: nat, qers: seq<nat>) returns (outcome: Outcome)
      requires Tunnelled(this, cfg) && (Next() != null ==> Tunnelled(Next(), cfg))
      modifies this`UpLinkTunnel
      ensures Tunnelled(this, cfg) && Prev() == old(Prev()) && RuleIDs(UpLinkTunnel) == old(RuleIDs(UpLinkTunnel))
      ensures outcome == UpOutcome(upf, UPFOf(Prev()), UPFOf(Next()), cfg)
      ensures outcome == Done ==> RuleOf(UpLinkTunnel) == Some(UpRule(upf, UPFOf(Prev()), UPFOf(Next()), cfg))
      ensures outcome == Done ==> UpLinkTunnel.PDR.value.QER == old(UpLinkTunnel.PDR.value.QER) + qers
                                  && UpLinkTunnel.PDR.value.Precedence == precedence
    {
      var pdr := UpLinkTunnel.PDR.value.(QER := UpLinkTunnel.PDR.value.QER + qers, Precedence := precedence);
      UpLinkTunnel := UpLinkTunnel.(PDR := Some(pdr));
      var destUPF := UpLinkTunnel.DestEndPoint.upf;
      var interface := FirstFor(if Prev() == null then destUPF.N3Interfaces else destUPF.N9Interfaces, cfg.dnn);
      if interface.None? { return Returned; }
      var upIP := interface.value.IP(cfg.sessionType);
      if upIP.None? { return Returned; }
      pdr := pdr.(PDI := Some(PDI(Access, Some(FTeid(upIP.value, UpLinkTunnel.TEID)), cfg.dnn)),
                  outerHeaderRemoval := true);
      var params := ForwardingParameters(Core, Some(cfg.dnn), None, "", false);
      UpLinkTunnel := UpLinkTunnel.(PDR := Some(pdr.(FAR := pdr.FAR.(forw := true, params := Some(params)))));
      if Next() != null {
        var nextULTunnel := Next().UpLinkTunnel;
        interface := FirstFor(nextULTunnel.DestEndPoint.upf.N9Interfaces, cfg.dnn);
        if interface.None? { return Panicked; } // the source reads through this pointer without a check
        upIP := interface.value.IP(cfg.sessionType);
        if upIP.None? { return Returned; }
        params := params.(outerHeaderCreation := Some(FTeid(upIP.value, nextULTunnel.TEID)));
        UpLinkTunnel := UpLinkTunnel.(PDR := Some(pdr.(FAR := pdr.FAR.(forw := true, params := Some(params)))));
      }
      outcome := Done;
    }

    // The downlink half.
    method SetupDownLink(cfg: Config, precedence: nat, qers: seq<nat>, an: Option<FTeid>) returns (outcome: Outcome)
      requires Tunnelled(this, cfg) && Blank(DownLinkTunnel.PDR.value) && (Prev() != null ==> Tunnelled(Prev(), cfg))
      modifies this`DownLinkTunnel
      ensures Tunnelled(this, cfg) && Next() == old(Next()) && RuleIDs(DownLinkTunnel) == old(RuleIDs(DownLinkTunnel))
      ensures outcome == DownOutcome(upf, UPFOf(Prev()), UPFOf(Next()), cfg)
      ensures outcome == Done
              ==> RuleOf(DownLinkTunnel) == Some(DownRule(upf, UPFOf(Prev()), UPFOf(Next()), cfg, an, false))
      ensures outcome == Done ==> DownLinkTunnel.PDR.value.QER == old(DownLinkTunnel.PDR.value.QER) + qers
                                  && DownLinkTunnel.PDR.value.Precedence == precedence
    {
      var pdr := DownLinkTunnel.PDR.value.(QER := DownLinkTunnel.PDR.value.QER + qers, Precedence := precedence);
      DownLinkTunnel := DownLinkTunnel.(PDR := Some(pdr));
      if Next() == null {
        pdr := pdr.(PDI := Some(PDI(Core, None, cfg.dnn)));
      } else {
        var interface := FirstFor(DownLinkTunnel.DestEndPoint.upf.N9Interfaces, cfg.dnn);
        if interface.None? { return Panicked; }
        var upIP := interface.value.IP(cfg.sessionType);
        if upIP.None? { return Returned; }
        pdr := pdr.(outerHeaderRemoval := true,
                    PDI := Some(PDI(Core, Some(FTeid(upIP.value, DownLinkTunnel.TEID)), cfg.dnn)));
      }
      DownLinkTunnel := DownLinkTunnel.(PDR := Some(pdr));
      if Prev() != null {
        var interface := FirstFor(Prev().upf.N9Interfaces, cfg.dnn);
        if interface.None? { return Panicked; }
        var upIP := interface.value.IP(cfg.sessionType);
        if upIP.None? { return Returned; }
        var header := Some(FTeid(upIP.value, Prev().DownLinkTunnel.TEID));
        pdr := pdr.(FAR := pdr.FAR.(forw := true,
            params := Some(ForwardingParameters(Access, None, header, "", false))));
      } else {
        // The apply action is left as it is until the access network's address arrives.
        var params := ForwardingParameters(Access, if an.Some? then Some(cfg.dnn) else None, an, "", false);
        pdr := pdr.(FAR := pdr.FAR.(params := Some(params)));
      }
      DownLinkTunnel := DownLinkTunnel.(PDR := Some(pdr));
      outcome := Done;
    }

    /** What one round of the second loop of ActivateTunnelAndPDR comes to. */
    ghost function Verdict(ctx: SMContext, isDefaultPath: bool): Outcome
      reads this, upf, ctx
    {
      Then(ctx.QersOutcome(upf, isDefaultPath), NodeOutcome(upf, UPFOf(Prev()), UPFOf(Next()), ctx.cfg))
    }

    // Both PDRs list the QERs of the session.
    ghost predicate Listed(ctx: SMContext, isDefaultPath: bool, gbrFlow: bool, precedence: nat)
      reads this, upf, ctx
    {
      && ctx.Lists(UpLinkTunnel.PDR, upf, isDefaultPath, gbrFlow, precedence)
      && ctx.Lists(DownLinkTunnel.PDR, upf, isDefaultPath, gbrFlow, precedence)
    }

    // One round of the second loop of ActivateTunnelAndPDR.
    method Setup(ctx: SMContext, precedence: nat, an: Option<FTeid>, isDefaultPath: bool, gbrFlow: bool)
      returns (outcome: Outcome)
      requires StageOf(this, ctx.cfg) == Ready
      requires (Next() != null ==> Tunnelled(Next(), ctx.cfg)) && (Prev() != null ==> Tunnelled(Prev(), ctx.cfg))
      modifies this, upf`qerIDs, ctx`AMBRQerMap, ctx`QerUpfMap
      ensures Tunnelled(this, ctx.cfg) && Prev() == old(Prev()) && Next() == old(Next())
      ensures IDsOf(this) == old(IDsOf(this))
      ensures outcome == old(Verdict(ctx, isDefaultPath))
      ensures outcome == Done ==> StageOf(this, ctx.cfg) != Unset
                                  && StageOf(this, ctx.cfg)
                                      == NodeStage(upf, UPFOf(Prev()), UPFOf(Next()), ctx.cfg, an, false)
      ensures outcome == Done ==> forall u :: old(allocated(u)) ==>
                ctx.QersOutcome(u, isDefaultPath) == old(ctx.QersOutcome(u, isDefaultPath))
      ensures outcome == Done ==> Listed(ctx, isDefaultPath, gbrFlow, precedence)
      ensures forall u :: old(allocated(u)) && old(ctx.QersOf(u, isDefaultPath)).Some?
                ==> ctx.QersOf(u, isDefaultPath) == old(ctx.QersOf(u, isDefaultPath))
    {
      ghost var prev, next := Prev(), Next();
      var qers;
      outcome, qers := ctx.PathQers(upf, isDefaultPath, gbrFlow);
      if outcome != Done { return; }
      outcome := SetupTunnels(ctx.cfg, precedence, qers, an, prev, next);
    }

    // Both halves: the rules, which list these QERs.
    method SetupTunnels(cfg: Config, precedence: nat, qers: seq<nat>, an: Option<FTeid>,
                        ghost prev: DataPathNode?, ghost next: DataPathNode?)
      returns (outcome: Outcome)
      requires StageOf(this, cfg) == Ready && (Prev(), Next()) == (prev, next)
      requires (next != null ==> Tunnelled(next, cfg)) && (prev != null ==> Tunnelled(prev, cfg))
      modifies this
      ensures Tunnelled(this, cfg) && (Prev(), Next()) == (prev, next)
      ensures IDsOf(this) == old(IDsOf(this))
      ensures outcome == NodeOutcome(upf, UPFOf(prev), UPFOf(next), cfg)
      ensures outcome == Done ==> StageOf(this, cfg) != Unset
      ensures outcome == Done ==> StageOf(this, cfg) == NodeStage(upf, UPFOf(prev), UPFOf(next), cfg, an, false)
      ensures outcome == Done
              ==> ListsOnly(UpLinkTunnel, qers, precedence) && ListsOnly(DownLinkTunnel, qers, precedence)
    {
      outcome := SetupUpLink(cfg, precedence, qers);
      if outcome == Done { outcome := SetupDownLink(cfg, precedence, qers, an); }
      NodeDone(upf, UPFOf(prev), UPFOf(next), cfg);
    }

    method ActivateTunnels(cfg: Config) returns (ok: bool)
      modifies this, upf`pdrIDs, upf`farIDs
      ensures Next() == old(Next()) && Prev() == old(Prev())
      ensures ok <==> old(upf.Room()).0 >= 2 && old(upf.Room()).1 >= 2
      ensures ok ==> upf.Room() == (old(upf.Room()).0 - 2, old(upf.Room()).1 - 2, old(upf.Room()).2)
      ensures ok ==> StageOf(this, cfg) == Ready && Holds(this, old(upf.pdrIDs), old(upf.farIDs))
      ensures ok <==> HasPDRs()
    {
      ok := ActivateUpLinkTunnel(cfg.ulTeid);
      if !ok { return; }
      ok := ActivateDownLinkTunnel(cfg.dlTeid);
    }

    /** DeactivateUpLinkTunnel and DeactivateDownLinkTunnel: they undo what activation took from
        the UPF's id pools, if the UPF is still associated. The tunnels keep their PDRs. */
    method DeactivateTunnels()
      modifies upf`pdrIDs, upf`farIDs, upf`qerIDs
      ensures var (upPDR, upFAR, upQER) := HeldIDs(UpLinkTunnel); var (downPDR, downFAR,
              downQER) := HeldIDs(DownLinkTunnel);
              if !upf.Associated then upf.pdrIDs == old(upf.pdrIDs) && upf.farIDs == old(upf.farIDs)
                  && upf.qerIDs == old(upf.qerIDs)
              else upf.pdrIDs == old(upf.pdrIDs) - upPDR - downPDR && upf.farIDs == old(upf.farIDs) - upFAR - downFAR
                   && upf.qerIDs == old(upf.qerIDs) - upQER - downQER
      ensures upf.Associated ==> forall pdrIDs, farIDs ::
                old(Holds(this, pdrIDs, farIDs)) ==> upf.pdrIDs == pdrIDs && upf.farIDs == farIDs
    {
      if UpLinkTunnel.PDR.Some? { upf.Release(UpLinkTunnel.PDR.value); }
      if DownLinkTunnel.PDR.Some? { upf.Release(DownLinkTunnel.PDR.value); }
    }
  }

  // The PDR, FAR and QER ids that a tunnel's rules hold.
  function HeldIDs(tunnel: GTPTunnel): (set<nat>, set<nat>, set<nat>) {
    if tunnel.PDR.None? then ({}, {}, {})
    else
      var pdr: PDR := tunnel.PDR.value;
      ({pdr.PDRID}, {pdr.FAR.FARID}, set q <- pdr.QER)
  }

  // The ids of a tunnel's PDR and FAR.
  function RuleIDs(tunnel: GTPTunnel): Option<(nat, nat)> {
    if tunnel.PDR.None? then None
    else
      var pdr: PDR := tunnel.PDR.value;
      Some((pdr.PDRID, pdr.FAR.FARID))
  }

  predicate ListsOnly(tunnel: GTPTunnel, qers: seq<nat>, precedence: nat) {
    tunnel.PDR.Some? && tunnel.PDR.value.QER == qers && tunnel.PDR.value.Precedence == precedence
  }

  predicate Blank(pdr: PDR) {
    pdr == NewPDR(pdr.PDRID, pdr.FAR.FARID)
  }

  ghost function IDsOf(n: DataPathNode): (Option<(nat, nat)>, Option<(nat, nat)>)
    reads n
  {
    (RuleIDs(n.UpLinkTunnel), RuleIDs(n.DownLinkTunnel))
  }

  /** The ids in use on a node's UPF are those before plus the ids of its two PDRs and FARs. */
  ghost predicate Holds(n: DataPathNode, pdrIDs: set<nat>, farIDs: set<nat>)
    reads n, n.upf
  {
    && n.UpLinkTunnel.PDR.Some? && n.DownLinkTunnel.PDR.Some?
    && var ul, dl := n.UpLinkTunnel.PDR.value, n.DownLinkTunnel.PDR.value;
    && {ul.PDRID, dl.PDRID} !! pdrIDs && ul.PDRID != dl.PDRID && n.upf.pdrIDs == pdrIDs + {ul.PDRID, dl.PDRID}
    && {ul.FAR.FARID, dl.FAR.FARID} !! farIDs && ul.FAR.FARID != dl.FAR.FARID
    && n.upf.farIDs == farIDs + {ul.FAR.FARID, dl.FAR.FARID}
  }

  // --- Room for rules ---

  /** What each UPF has room for: PDRs, FARs and QERs. */
  type Rooms = map<UPF, (nat, nat, nat)>

  ghost predicate HasRoom(room: (nat, nat, nat)) {
    room.0 >= 2 && room.1 >= 2
  }

  // One node takes two PDRs and FARs.
  ghost function Taken(rooms: Rooms, u: UPF): Rooms {
    if u in rooms && HasRoom(rooms[u]) then rooms[u := (rooms[u].0 - 2, rooms[u].1 - 2, rooms[u].2)] else rooms
  }

  // Nodes on these UPFs take theirs one after the other.
  ghost function After(upfs: seq<UPF>, rooms: Rooms): Rooms {
    if upfs == [] then rooms else Taken(After(upfs[..|upfs| - 1], rooms), upfs[|upfs| - 1])
  }

  ghost predicate Fits(upfs: seq<UPF>, rooms: Rooms) {
    upfs == [] ||
    (var u, left := upfs[|upfs| - 1], After(upfs[..|upfs| - 1], rooms);
     Fits(upfs[..|upfs| - 1], rooms) && u in left && HasRoom(left[u]))
  }

  /** Each UPF has room for all of its nodes. */
  ghost predicate Fit(upfs: seq<UPF>, rooms: Rooms) {
    forall u :: u in upfs ==> u in rooms && rooms[u].0 >= 2 * multiset(upfs)[u] && rooms[u].1 >= 2 * multiset(upfs)[u]
  }

  lemma FitsNext(upfs: seq<UPF>, rooms: Rooms, k: nat)
    requires k < |upfs|
    ensures Fits(upfs[..k + 1], rooms) <==> Fits(upfs[..k], rooms) && upfs[k] in After(upfs[..k], rooms) && HasRoom(After(upfs[..k], rooms)[upfs[k]])
    ensures After(upfs[..k + 1], rooms) == Taken(After(upfs[..k], rooms), upfs[k])
    ensures Fits(upfs, rooms) ==> Fits(upfs[..k + 1], rooms)
  {
    assert upfs[..k + 1][..k] == upfs[..k];
    if Fits(upfs, rooms) { PrefixFits(upfs, rooms, k + 1); }
  }

  lemma {:induction false} PrefixFits(upfs: seq<UPF>, rooms: Rooms, k: nat)
    requires k <= |upfs| && Fits(upfs, rooms)
    ensures Fits(upfs[..k], rooms)
  {
    if k < |upfs| {
      PrefixFits(upfs[..|upfs| - 1], rooms, k);
      assert upfs[..|upfs| - 1][..k] == upfs[..k];
    } else {
      assert upfs[..k] == upfs;
    }
  }

  // What is left, and whether the nodes fit, is a matter of counting.
  lemma {:induction false} FitsMeans(upfs: seq<UPF>, rooms: Rooms)
    ensures Fits(upfs, rooms) <==> Fit(upfs, rooms)
    ensures Fits(upfs, rooms) ==> forall u :: u in rooms ==>
              var left := After(upfs, rooms); u in left && left[u].0 == rooms[u].0 - 2 * multiset(upfs)[u] && left[u].1 == rooms[u].1 - 2 * multiset(upfs)[u]
  {
    if upfs != [] {
      var init, last := upfs[..|upfs| - 1], upfs[|upfs| - 1];
      FitsMeans(init, rooms);
      assert upfs == init + [last];
      assert forall u :: u in upfs <==> u in init || u == last;
      AfterKeys(init, rooms);
    }
  }

  lemma {:induction false} AfterKeys(upfs: seq<UPF>, rooms: Rooms)
    ensures After(upfs, rooms).Keys == rooms.Keys
  {
    if upfs != [] { AfterKeys(upfs[..|upfs| - 1], rooms); }
  }

  lemma {:induction false} AfterKeepsQers(upfs: seq<UPF>, rooms: Rooms)
    ensures forall u :: u in rooms ==> u in After(upfs, rooms) && After(upfs, rooms)[u].2 == rooms[u].2
  {
    if upfs != [] { AfterKeepsQers(upfs[..|upfs| - 1], rooms); }
  }

  // What is left after the first k nodes, or that the room does not suffice.
  ghost predicate RoomSoFar(upfs: seq<UPF>, k: nat, ok: bool, rooms: Rooms, left: Rooms) {
    if ok then k <= |upfs| && Fits(upfs[..k], rooms) && left == After(upfs[..k], rooms) else !Fits(upfs, rooms)
  }

  lemma RoomNext(upfs: seq<UPF>, k: nat, rooms: Rooms, was: Rooms, ok: bool, left: Rooms)
    requires RoomSoFar(upfs, k, true, rooms, was) && k < |upfs| && upfs[k] in was
    requires (ok <==> HasRoom(was[upfs[k]])) && (ok ==> left == Taken(was, upfs[k]))
    ensures RoomSoFar(upfs, k + 1, ok, rooms, left)
  {
    FitsNext(upfs, rooms, k);
  }

  lemma RoomAtEnd(upfs: seq<UPF>, k: nat, ok: bool, rooms: Rooms, left: Rooms)
    requires RoomSoFar(upfs, k, ok, rooms, left) && (ok ==> k == |upfs|)
    ensures ok <==> Fit(upfs, rooms)
    ensures ok ==> forall u :: u in rooms ==> u in left && left[u].2 == rooms[u].2
  {
    FitsMeans(upfs, rooms);
    if ok {
      assert upfs[..k] == upfs;
      AfterKeepsQers(upfs, rooms);
    }
  }

  // Both tunnels of a node end at it and have a PDR.
  ghost predicate Tunnelled(n: DataPathNode, cfg: Config)
    reads n
  {
    && (n.UpLinkTunnel.DestEndPoint, n.UpLinkTunnel.TEID, n.UpLinkTunnel.PDR.Some?) == (n, cfg.ulTeid, true)
    && (n.DownLinkTunnel.DestEndPoint, n.DownLinkTunnel.TEID, n.DownLinkTunnel.PDR.Some?) == (n, cfg.dlTeid, true)
  }

  function AddressOf(interfaces: seq<Interface>, cfg: Config): Option<string> {
    var interface := FirstFor(interfaces, cfg.dnn);
    if interface.Some? then interface.value.IP(cfg.sessionType) else None
  }

  function Endpoint(address: Option<string>, teid: nat): Option<FTeid> {
    if address.Some? then Some(FTeid(address.value, teid)) else None
  }

  /** What one direction of a node does with packets: where the packets it takes come from and
      are addressed to, in which network, whether it strips their outer header and forwards them,
      which side it sends them to, on the core side into which network, and the outer header it
      puts on. */
  datatype Rule = Rule(source: Side, teid: Option<FTeid>, instance: string, strip: bool, forw: bool, dest: Side,
                       toward: Option<string>, header: Option<FTeid>)

  datatype Rules = Rules(up: Rule, down: Rule)

  function RuleOf(tunnel: GTPTunnel): Option<Rule> {
    if tunnel.PDR.Some? && tunnel.PDR.value.PDI.Some? && tunnel.PDR.value.FAR.params.Some?
       && tunnel.PDR.value.FAR.params.value.Consistent() then
      var pdr: PDR := tunnel.PDR.value;
      var pdi, params := pdr.PDI.value, pdr.FAR.params.value;
      Some(Rule(pdi.sourceInterface, pdi.localFTeid, pdi.networkInstance, pdr.outerHeaderRemoval, pdr.FAR.forw,
                params.destinationInterface, if params.destinationInterface == Core then params.networkInstance else None,
                params.outerHeaderCreation))
    else None
  }

  /** How far the activation of a node has come: its tunnels have blank rules (Ready), or the
      rules are set and its two PDRs name the same QERs (Running; only the QERs of uplink
      PDRs are ever sent to the UPF). */
  datatype Stage = Unset | Ready | Running(rules: Rules)

  function Progress(up: GTPTunnel, down: GTPTunnel): Stage {
    if up.PDR.None? || down.PDR.None? then Unset
    else if Blank(up.PDR.value) && Blank(down.PDR.value) then Ready
    else
      var upRule, downRule := RuleOf(up), RuleOf(down);
      if up.PDR.value.QER == down.PDR.value.QER && upRule.Some? && downRule.Some?
          then Running(Rules(upRule.value, downRule.value))
      else Unset
  }

  ghost function StageOf(n: DataPathNode, cfg: Config): Stage
    reads n
  {
    if Tunnelled(n, cfg) then Progress(n.UpLinkTunnel, n.DownLinkTunnel) else Unset
  }

  // --- What the rules of an activated path are meant to be ---

  // The N9 address of a UPF in the session's data network.
  function N9Address(upf: UPF, cfg: Config): Option<string> {
    AddressOf(upf.N9Interfaces, cfg)
  }

  /** Uplink packets are taken at the node's entry and sent to the next node's entry, or as plain
      packets to the data network. */
  function UpRule(upf: UPF, prev: Option<UPF>, next: Option<UPF>, cfg: Config): Rule {
    Rule(Access, Endpoint(if prev.None? then AddressOf(upf.N3Interfaces, cfg) else N9Address(upf, cfg), cfg.ulTeid),
         cfg.dnn, true, true, Core, Some(cfg.dnn),
         if next.None? then None else Endpoint(N9Address(next.value, cfg), cfg.ulTeid))
  }

  /** Downlink packets come plain from the data network or are taken on N9, and are sent to the
      previous node's N9 side. Those for the access network are sent to its address, once that
      is known, and only if the first node forwards (`forw`). */
  function DownRule(upf: UPF, prev: Option<UPF>, next: Option<UPF>, cfg: Config, an: Option<FTeid>, forw: bool): Rule {
    Rule(Core, if next.None? then None else Endpoint(N9Address(upf, cfg), cfg.dlTeid), cfg.dnn, next.Some?,
         prev.Some? || forw, Access, None, if prev.None? then an else Endpoint(N9Address(prev.value, cfg), cfg.dlTeid))
  }

  predicate NoN9(upf: Option<UPF>, cfg: Config) {
    upf.Some? && FirstFor(upf.value.N9Interfaces, cfg.dnn).None?
  }

  // Every address that the rules of a node are built from exists.
  predicate Addressed(upf: UPF, prev: Option<UPF>, next: Option<UPF>, cfg: Config) {
    && (if prev.None? then AddressOf(upf.N3Interfaces, cfg) else N9Address(upf, cfg)).Some?
    && (prev.Some? ==> N9Address(prev.value, cfg).Some?)
    && (next.Some? ==> N9Address(upf, cfg).Some? && N9Address(next.value, cfg).Some?)
  }

  function NodeStage(upf: UPF, prev: Option<UPF>, next: Option<UPF>, cfg: Config, an: Option<FTeid>,
                     forw: bool): Stage {
    if Addressed(upf, prev, next, cfg)
        then Running(Rules(UpRule(upf, prev, next, cfg), DownRule(upf, prev, next, cfg, an, forw))) else Unset
  }

  // --- What activation comes to ---

  // Looking up an address: a missing interface is an error or a read through nil.
  function Lookup(interfaces: seq<Interface>, cfg: Config, missing: Outcome): Outcome {
    var interface := FirstFor(interfaces, cfg.dnn);
    if interface.None? then missing else if interface.value.IP(cfg.sessionType).None? then Returned else Done
  }

  function Then(first: Outcome, second: Outcome): Outcome {
    if first == Done then second else first
  }

  function UpOutcome(upf: UPF, prev: Option<UPF>, next: Option<UPF>, cfg: Config): Outcome {
    Then(Lookup(if prev.None? then upf.N3Interfaces else upf.N9Interfaces, cfg, Returned),
         if next.None? then Done else Lookup(next.value.N9Interfaces, cfg, Panicked))
  }

  function DownOutcome(upf: UPF, prev: Option<UPF>, next: Option<UPF>, cfg: Config): Outcome {
    Then(if next.None? then Done else Lookup(upf.N9Interfaces, cfg, Panicked),
         if prev.None? then Done else Lookup(prev.value.N9Interfaces, cfg, Panicked))
  }

  function NodeOutcome(upf: UPF, prev: Option<UPF>, next: Option<UPF>, cfg: Config): Outcome {
    Then(UpOutcome(upf, prev, next, cfg), DownOutcome(upf, prev, next, cfg))
  }

  /** A node is set up exactly if every address exists that its rules are built from. */
  lemma NodeDone(upf: UPF, prev: Option<UPF>, next: Option<UPF>, cfg: Config)
    ensures NodeOutcome(upf, prev, next, cfg) == Done <==> Addressed(upf, prev, next, cfg)
    ensures NodeOutcome(upf, prev, next, cfg) == Panicked
            ==> NoN9(next, cfg) || NoN9(prev, cfg) || (next.Some? && NoN9(Some(upf), cfg))
  {
  }

  /** It panics exactly if the first address that cannot be had is that of a missing N9
      interface: of the next node, of this one towards the next, or of the previous one. */
  lemma NodePanics(upf: UPF, prev: Option<UPF>, next: Option<UPF>, cfg: Config)
    ensures NodeOutcome(upf, prev, next, cfg) == Panicked <==>
            && (if prev.None? then AddressOf(upf.N3Interfaces, cfg) else N9Address(upf, cfg)).Some?
            && (NoN9(next, cfg)
                || ((next.Some? ==> N9Address(next.value, cfg).Some?)
                    && ((next.Some? && NoN9(Some(upf), cfg))
                        || ((next.Some? ==> N9Address(upf, cfg).Some?) && NoN9(prev, cfg)))))
  {
  }

  /** The first verdict that is not Done decides. */
  function FirstOf(verdicts: seq<Outcome>): Outcome {
    if verdicts == [] then Done else Then(verdicts[0], FirstOf(verdicts[1..]))
  }

  /** All is done if every step is, and fails as its first step that fails. */
  lemma {:induction false} FirstOfMeans(verdicts: seq<Outcome>, failure: Outcome)
    requires failure != Done
    ensures FirstOf(verdicts) == Done <==> forall i :: 0 <= i < |verdicts| ==> verdicts[i] == Done
    ensures FirstOf(verdicts) == failure <==>
            exists k :: 0 <= k < |verdicts| && verdicts[k] == failure && forall i :: 0 <= i < k ==> verdicts[i] == Done
  {
    if verdicts != [] {
      var rest := verdicts[1..];
      FirstOfMeans(rest, failure);
      assert forall i :: 0 < i < |verdicts| ==> verdicts[i] == rest[i - 1];
      if verdicts[0] == Done {
        if k :| 0 <= k < |rest| && rest[k] == failure && forall i :: 0 <= i < k ==> rest[i] == Done {
          assert verdicts[k + 1] == failure;
        }
      }
    }
  }

  lemma {:induction false} FirstOfIs(verdicts: seq<Outcome>, k: nat)
    requires k <= |verdicts| && forall i :: 0 <= i < k ==> verdicts[i] == Done
    ensures FirstOf(verdicts) == if k < |verdicts| then Then(verdicts[k], FirstOf(verdicts[k + 1..])) else Done
  {
    if k > 0 {
      FirstOfIs(verdicts[1..], k - 1);
      assert k < |verdicts| ==> verdicts[1..][k..] == verdicts[k + 1..];
    }
  }

  // The downlink FAR is to be updated at the UPF, with or without an end marker.
  predicate ReAddressed(tunnel: GTPTunnel, endMarker: bool) {
    tunnel.PDR.Some? && var far: FAR := tunnel.PDR.value.FAR;
    far.State == UPDATE && far.params.Some? && far.params.value.sendEndMarker == endMarker
  }

  // Nothing of the PDR changed but the action of its FAR.
  predicate OnlyFAR(was: GTPTunnel, now: GTPTunnel) {
    && was.PDR.Some? && now.PDR.Some? && now == was.(PDR := now.PDR)
    && var before, after := was.PDR.value, now.PDR.value;
       after == before.(FAR := after.FAR) && after.FAR.FARID == before.FAR.FARID
  }

  ghost function UPFOf(n: DataPathNode?): Option<UPF> {
    if n == null then None else Some(n.upf)
  }

  // --- Data paths ---

  function At(nodes: seq<DataPathNode>, i: int): DataPathNode? {
    if 0 <= i < |nodes| then nodes[i] else null
  }

  class DataPath {
    var PathID: int
    var Activated: bool
    var IsDefaultPath: bool
    var GBRFlow: bool
    var FirstDPNode: DataPathNode?
    ghost const nodes: seq<DataPathNode>
    ghost const Repr: set<DataPathNode>
    ghost const UPFSet: set<UPF>

    constructor NewDataPath(first: DataPathNode?, ghost nodes: seq<DataPathNode>)
      requires first == At(nodes, 0) && forall i, j :: 0 <= i < j < |nodes| ==> nodes[i] != nodes[j]
      ensures (forall n <- Repr :: n in nodes) && forall u <- UPFSet :: u in UPFs()
      ensures PathID == 0 && !Activated && !IsDefaultPath && !GBRFlow && FirstDPNode == first && this.nodes == nodes
      ensures List()
    {
      PathID, Activated, IsDefaultPath, GBRFlow, FirstDPNode, this.nodes := 0, false, false, false, first, nodes;
      Repr, UPFSet := set n <- nodes, set n <- nodes :: n.upf;
      new;
      forall u <- UPFSet ensures u in UPFs() {
        var i :| 0 <= i < |nodes| && nodes[i].upf == u;
        assert UPFs()[i] == u;
      }
    }

    ghost function UPFs(): (upfs: seq<UPF>)
      ensures |upfs| == |nodes| && forall i :: 0 <= i < |upfs| ==> upfs[i] == nodes[i].upf
    {
      seq(|nodes|, i requires 0 <= i < |nodes| => nodes[i].upf)
    }

    /** The list is made of the distinct `nodes`. */
    ghost predicate List()
      reads this
    {
      && FirstDPNode == At(nodes, 0)
      && (forall i :: 0 <= i < |nodes| ==> nodes[i] in Repr && nodes[i].upf in UPFSet)
      && (forall i, j :: 0 <= i < j < |nodes| ==> nodes[i] != nodes[j])
    }

    /** Next goes through the list, and Prev is its inverse. */
    ghost predicate Chained()
      reads Repr
    {
      forall i {:trigger nodes[i].Next()} {:trigger nodes[i].Prev()} :: 0 <= i < |nodes| ==>
        nodes[i] in Repr && (nodes[i].Next(), nodes[i].Prev()) == (At(nodes, i + 1), At(nodes, i - 1))
    }

    ghost predicate DistinctUPFs() {
      forall i, j :: 0 <= i < j < |nodes| ==> nodes[i].upf != nodes[j].upf
    }

    // What the UPFs of the path have room for.
    ghost function Rooms(): Rooms
      reads UPFSet
    {
      map u | u in UPFSet :: u.Room()
    }

    /** Every UPF has room for the two PDRs and FARs of each of its nodes. */
    ghost predicate RoomForRules()
      reads UPFSet
    {
      Fit(UPFs(), Rooms())
    }

    /** Every node has its PDRs. */
    ghost predicate HasPDRs()
      reads Repr
    {
      forall i :: 0 <= i < |nodes| ==> nodes[i] in Repr && nodes[i].HasPDRs()
    }

    // The first loop of ActivateTunnelAndPDR.
    method ActivateTunnels(ctx: SMContext) returns (ok: bool)
      requires List() && Chained()
      modifies Repr, UPFSet`pdrIDs, UPFSet`farIDs
      ensures Chained()
      ensures ok <==> old(RoomForRules())
      ensures ok <==> HasPDRs()
      ensures ok ==> forall u :: u in UPFSet ==> u.Room().2 == old(u.Room()).2
      ensures ok ==> Prepared(|nodes|, ctx.cfg)
      ensures ok && DistinctUPFs() ==> Held(|nodes|, old(IDsInUse()))
    {
      var node := FirstDPNode;
      ghost var k, rooms, ids := 0, Rooms(), IDsInUse();
      while node != null
        invariant 0 <= k <= |nodes| && node == At(nodes, k)
        invariant Chained() && Prepared(k, ctx.cfg)
        invariant RoomSoFar(UPFs(), k, true, rooms, Rooms())
        invariant DistinctUPFs() ==> Held(k, ids)
        decreases |nodes| - k
      {
        ok := StepTunnels(k, node, ctx.cfg, rooms, ids);
        if !ok {
          RoomAtEnd(UPFs(), k + 1, ok, rooms, Rooms());
          assert !nodes[k].HasPDRs();
          return;
        }
        node := node.Next();
        k := k + 1;
      }
      ok := true;
      RoomAtEnd(UPFs(), k, ok, rooms, Rooms());
      assert forall i :: 0 <= i < |nodes| ==> StageOf(nodes[i], ctx.cfg) == Ready && nodes[i].HasPDRs();
    }

    // It leaves room for QERs as it was, and with it what the second loop comes to.
    method PrepareRules(ctx: SMContext) returns (ok: bool)
      requires List() && Chained()
      modifies Repr, UPFSet`pdrIDs, UPFSet`farIDs
      ensures Chained()
      ensures ok <==> old(RoomForRules())
      ensures ok <==> HasPDRs()
      ensures ok ==> Prepared(|nodes|, ctx.cfg) && Verdicts(ctx) == old(Verdicts(ctx))
      ensures ok && DistinctUPFs() ==> Held(|nodes|, old(IDsInUse()))
    {
      ghost var verdicts := Verdicts(ctx);
      ok := ActivateTunnels(ctx);
      assert ok ==> forall i :: 0 <= i < |nodes| ==> Verdict(i, ctx) == verdicts[i];
    }

    // The PDR and FAR ids in use at each node's UPF.
    ghost function IDsInUse(): (ids: seq<(set<nat>, set<nat>)>)
      requires List()
      reads this, UPFSet
    {
      seq(|nodes|, i requires List()
          && 0 <= i < |nodes| reads this, UPFSet => (nodes[i].upf.pdrIDs, nodes[i].upf.farIDs))
    }

    // The first k nodes hold ids that are not among those given, the other UPFs are as they were.
    ghost predicate Held(k: nat, ids: seq<(set<nat>, set<nat>)>)
      reads Repr, UPFSet
    {
      |ids| == |nodes| && forall i {:trigger ids[i]} :: 0 <= i < |nodes| ==>
        nodes[i] in Repr && nodes[i].upf in UPFSet
        && if i < k then Holds(nodes[i], ids[i].0, ids[i].1) else (nodes[i].upf.pdrIDs, nodes[i].upf.farIDs) == ids[i]
    }

    // The first k nodes have blank rules.
    ghost predicate Prepared(k: nat, cfg: Config)
      reads Repr
    {
      forall i {:trigger StageOf(nodes[i], cfg)} :: 0 <= i < |nodes| && i < k
          ==> nodes[i] in Repr && StageOf(nodes[i], cfg) == Ready
    }

    // One round of it.
    method StepTunnels(ghost k: nat, node: DataPathNode, cfg: Config, ghost rooms: Rooms,
                       ghost ids: seq<(set<nat>, set<nat>)>)
      returns (ok: bool)
      requires List() && Chained() && k < |nodes| && node == nodes[k]
      requires RoomSoFar(UPFs(), k, true, rooms, Rooms())
      modifies node, node.upf`pdrIDs, node.upf`farIDs
      ensures Chained()
      ensures ok && DistinctUPFs() && old(Held(k, ids)) ==> Held(k + 1, ids)
      ensures RoomSoFar(UPFs(), k + 1, ok, rooms, Rooms()) && (ok <==> node.HasPDRs())
      ensures ok && old(Prepared(k, cfg)) ==> Prepared(k + 1, cfg)
    {
      ghost var was := Rooms();
      ok := node.ActivateTunnels(cfg);
      RoomNext(UPFs(), k, rooms, was, ok, Rooms());
    }

    // Whether the first node forwards downlink packets: decided when the UE's connection is set up.
    ghost predicate Forwards()
      reads Repr
    {
      nodes != [] && nodes[0] in Repr && nodes[0].DownLinkTunnel.PDR.Some? && nodes[0].DownLinkTunnel.PDR.value.FAR.forw
    }

    // What activation makes of node i, by its place in the list.
    ghost function Target(i: nat, cfg: Config, an: Option<FTeid>, forw: bool): Stage
      requires i < |nodes|
    {
      NodeStage(nodes[i].upf, UPFOf(At(nodes, i - 1)), UPFOf(At(nodes, i + 1)), cfg, an, forw)
    }

    ghost predicate AllRunning(cfg: Config, an: Option<FTeid>)
      reads Repr
    {
      forall i {:trigger StageOf(nodes[i], cfg)} :: 0 <= i < |nodes| ==>
        nodes[i] in Repr && StageOf(nodes[i], cfg) == Target(i, cfg, an, Forwards()) && StageOf(nodes[i], cfg) != Unset
    }

    // What setting up a node comes to.
    ghost function VerdictAt(upf: UPF, prev: DataPathNode?, next: DataPathNode?, ctx: SMContext): Outcome
      reads this, upf, ctx
    {
      Then(ctx.QersOutcome(upf, IsDefaultPath), NodeOutcome(upf, UPFOf(prev), UPFOf(next), ctx.cfg))
    }

    ghost function Verdict(i: nat, ctx: SMContext): Outcome
      requires List() && i < |nodes|
      reads this, UPFSet, ctx
    {
      VerdictAt(nodes[i].upf, At(nodes, i - 1), At(nodes, i + 1), ctx)
    }

    /** The verdicts on all nodes, in the order of the list. */
    ghost function Verdicts(ctx: SMContext): seq<Outcome>
      requires List()
      reads this, UPFSet, ctx
    {
      seq(|nodes|, i requires List() && 0 <= i < |nodes| reads this, UPFSet, ctx => Verdict(i, ctx))
    }

    // The PDRs of the first k nodes list the QERs of the session.
    ghost predicate ListedUpTo(k: nat, ctx: SMContext, precedence: nat)
      reads this`IsDefaultPath, this`GBRFlow, Repr, UPFSet, ctx
    {
      forall i {:trigger nodes[i]} :: 0 <= i < |nodes| && i < k ==>
        nodes[i] in Repr && nodes[i].upf in UPFSet && nodes[i].Listed(ctx, IsDefaultPath, GBRFlow, precedence)
    }

    /** Both PDRs of every node have the precedence and list the QERs that the session and the kind
        of path ask for. */
    ghost predicate AllEnforced(ctx: SMContext, precedence: nat)
      reads this`IsDefaultPath, this`GBRFlow, Repr, UPFSet, ctx
    {
      forall i {:trigger nodes[i]} :: 0 <= i < |nodes| ==>
        && nodes[i] in Repr && nodes[i].upf in UPFSet && nodes[i].HasPDRs()
        && ctx.Enforced(nodes[i].UpLinkTunnel.PDR.value, nodes[i].upf, IsDefaultPath, GBRFlow, precedence)
        && ctx.Enforced(nodes[i].DownLinkTunnel.PDR.value, nodes[i].upf, IsDefaultPath, GBRFlow, precedence)
    }

    lemma ListedMeans(ctx: SMContext, precedence: nat)
      requires List() && ListedUpTo(|nodes|, ctx, precedence)
      ensures AllEnforced(ctx, precedence)
    {
      forall i {:trigger nodes[i]} | 0 <= i < |nodes|
        ensures nodes[i] in Repr && nodes[i].upf in UPFSet && nodes[i].HasPDRs()
        ensures ctx.Enforced(nodes[i].UpLinkTunnel.PDR.value, nodes[i].upf, IsDefaultPath, GBRFlow, precedence)
        ensures ctx.Enforced(nodes[i].DownLinkTunnel.PDR.value, nodes[i].upf, IsDefaultPath, GBRFlow, precedence)
      {
        assert nodes[i].Listed(ctx, IsDefaultPath, GBRFlow, precedence);
        ctx.ListsMeans(nodes[i].UpLinkTunnel.PDR.value, nodes[i].upf, IsDefaultPath, GBRFlow, precedence);
        ctx.ListsMeans(nodes[i].DownLinkTunnel.PDR.value, nodes[i].upf, IsDefaultPath, GBRFlow, precedence);
      }
    }

    // The second loop of ActivateTunnelAndPDR.
    method SetupRules(ctx: SMContext, precedence: nat, an: Option<FTeid>, ghost verdicts: seq<Outcome>,
                      ghost ids: seq<(set<nat>, set<nat>)>)
      returns (outcome: Outcome)
      requires List() && Chained() && Prepared(|nodes|, ctx.cfg) && Verdicts(ctx) == verdicts
      modifies this`Activated, Repr, UPFSet`qerIDs, ctx
      ensures Activated == (outcome == Done || old(Activated))
      ensures Chained() && (old(Held(|nodes|, ids)) ==> Held(|nodes|, ids))
      ensures old(HasPDRs()) ==> HasPDRs()
      ensures outcome == FirstOf(verdicts)
      ensures outcome == Done ==> AllRunning(ctx.cfg, an) && !Forwards() && AllEnforced(ctx, precedence)
    {
      assert forall i :: 0 <= i < |nodes| ==> Verdict(i, ctx) == verdicts[i];
      outcome := SetupFrom(ctx, precedence, an, verdicts, ids);
      if outcome == Done {
        Activated := true;
        SetIsRunning(ctx.cfg, an);
        ListedMeans(ctx, precedence);
      }
    }

    method SetupFrom(ctx: SMContext, precedence: nat, an: Option<FTeid>, ghost verdicts: seq<Outcome>,
                     ghost ids: seq<(set<nat>, set<nat>)>)
      returns (outcome: Outcome)
      requires List() && Chained() && SetUp(0, ctx.cfg, an)
      requires |verdicts| == |nodes| && forall i :: 0 <= i < |nodes| ==> Verdict(i, ctx) == verdicts[i]
      modifies Repr, UPFSet`qerIDs, ctx
      ensures Chained() && (old(Held(|nodes|, ids)) ==> Held(|nodes|, ids))
      ensures old(HasPDRs()) ==> HasPDRs()
      ensures outcome == FirstOf(verdicts)
      ensures outcome == Done ==> SetUp(|nodes|, ctx.cfg, an) && ListedUpTo(|nodes|, ctx, precedence)
    {
      var node := FirstDPNode;
      ghost var k := 0;
      while node != null
        invariant 0 <= k <= |nodes| && node == At(nodes, k)
        invariant Chained() && (old(Held(|nodes|, ids)) ==> Held(|nodes|, ids)) && (old(HasPDRs()) ==> HasPDRs())
        invariant forall i :: 0 <= i < k ==> verdicts[i] == Done
        invariant forall i :: k <= i < |nodes| ==> Verdict(i, ctx) == verdicts[i]
        invariant SetUp(k, ctx.cfg, an) && ListedUpTo(k, ctx, precedence)
        decreases |nodes| - k
      {
        FirstOfIs(verdicts, k);
        outcome := SetupNode(k, node, ctx, precedence, an, ids);
        if outcome != Done { return; }
        node := node.Next();
        k := k + 1;
      }
      FirstOfIs(verdicts, k);
      outcome := Done;
    }

    // The first k nodes have been set up, the others have blank rules.
    ghost predicate SetUp(k: nat, cfg: Config, an: Option<FTeid>)
      reads Repr
    {
      forall i {:trigger StageOf(nodes[i], cfg)} :: 0 <= i < |nodes| ==>
        nodes[i] in Repr && StageOf(nodes[i], cfg) != Unset && StageOf(nodes[i], cfg) == if i < k
            then Target(i, cfg, an, false) else Ready
    }

    lemma SetIsRunning(cfg: Config, an: Option<FTeid>)
      requires List() && SetUp(|nodes|, cfg, an)
      ensures !Forwards() && AllRunning(cfg, an)
    {
      if nodes != [] { assert StageOf(nodes[0], cfg) == Target(0, cfg, an, false); }
    }

    // One round of it.
    method SetupNode(ghost k: nat, node: DataPathNode, ctx: SMContext, precedence: nat, an: Option<FTeid>,
                     ghost ids: seq<(set<nat>, set<nat>)>)
      returns (outcome: Outcome)
      requires List() && Chained() && k < |nodes| && nodes[k] == node && SetUp(k, ctx.cfg, an)
      modifies node, node.upf`qerIDs, ctx
      ensures Chained() && (old(Held(|nodes|, ids)) ==> Held(|nodes|, ids))
      ensures old(HasPDRs()) ==> HasPDRs()
      ensures outcome == old(Verdict(k, ctx))
      ensures outcome == Done ==> SetUp(k + 1, ctx.cfg, an)
      ensures outcome == Done && old(ListedUpTo(k, ctx, precedence)) ==> ListedUpTo(k + 1, ctx, precedence)
      ensures outcome == Done
              ==> forall i {:trigger Verdict(i, ctx)} :: k < i < |nodes| ==> Verdict(i, ctx) == old(Verdict(i, ctx))
    {
      assert StageOf(node, ctx.cfg) == Ready;
      assert k > 0 ==> StageOf(nodes[k - 1], ctx.cfg) != Unset;
      assert k + 1 < |nodes| ==> StageOf(nodes[k + 1], ctx.cfg) != Unset;
      outcome := SetupAmong(k, node, ctx, precedence, an, ids);
    }

    // The same, of the stages of the nodes.
    method SetupAmong(ghost k: nat, node: DataPathNode, ctx: SMContext, precedence: nat, an: Option<FTeid>,
                      ghost ids: seq<(set<nat>, set<nat>)>)
      returns (outcome: Outcome)
      requires List() && Chained() && k < |nodes| && nodes[k] == node && StageOf(node, ctx.cfg) == Ready
      requires k > 0 ==> StageOf(nodes[k - 1], ctx.cfg) != Unset
      requires k + 1 < |nodes| ==> StageOf(nodes[k + 1], ctx.cfg) != Unset
      modifies node, node.upf`qerIDs, ctx
      ensures Chained() && (old(Held(|nodes|, ids)) ==> Held(|nodes|, ids))
      ensures old(HasPDRs()) ==> HasPDRs()
      ensures outcome == old(Verdict(k, ctx))
      ensures outcome == Done
              ==> StageOf(node, ctx.cfg) == Target(k, ctx.cfg, an, false) && StageOf(node, ctx.cfg) != Unset
      ensures forall i {:trigger StageOf(nodes[i], ctx.cfg)} ::
                0 <= i < |nodes| && i != k ==> StageOf(nodes[i], ctx.cfg) == old(StageOf(nodes[i], ctx.cfg))
      ensures outcome == Done && old(ListedUpTo(k, ctx, precedence)) ==> ListedUpTo(k + 1, ctx, precedence)
      ensures outcome == Done
              ==> forall i {:trigger Verdict(i, ctx)} :: k < i < |nodes| ==> Verdict(i, ctx) == old(Verdict(i, ctx))
    {
      ghost var prev, next := At(nodes, k - 1), At(nodes, k + 1);
      assert (node.Prev(), node.Next()) == (prev, next);
      outcome := SetupNext(k, node, ctx, precedence, an, prev, next, ids);
      assert forall i :: 0 <= i < |nodes| && i != k ==> nodes[i] != node;
    }

    // The same, told its neighbours and, of the other nodes, only what they list.
    method SetupNext(ghost k: nat, node: DataPathNode, ctx: SMContext, precedence: nat, an: Option<FTeid>,
                     ghost prev: DataPathNode?, ghost next: DataPathNode?, ghost ids: seq<(set<nat>, set<nat>)>)
      returns (outcome: Outcome)
      requires List() && k < |nodes| && nodes[k] == node
      requires StageOf(node, ctx.cfg) == Ready && (node.Prev(), node.Next()) == (prev, next)
      requires (next != null ==> Tunnelled(next, ctx.cfg)) && (prev != null ==> Tunnelled(prev, ctx.cfg))
      modifies node, node.upf`qerIDs, ctx
      ensures (node.Prev(), node.Next()) == (prev, next) && (old(Held(|nodes|, ids)) ==> Held(|nodes|, ids))
      ensures node.HasPDRs()
      ensures outcome == old(VerdictAt(node.upf, prev, next, ctx))
      ensures outcome == Done
              ==> StageOf(node, ctx.cfg) == NodeStage(node.upf, UPFOf(prev), UPFOf(next), ctx.cfg, an, false)
      ensures outcome == Done ==> StageOf(node, ctx.cfg) != Unset
      ensures outcome == Done && old(ListedUpTo(k, ctx, precedence)) ==> ListedUpTo(k + 1, ctx, precedence)
      ensures outcome == Done ==> forall u {:trigger ctx.QersOutcome(u, IsDefaultPath)} :: old(allocated(u)) ==>
                ctx.QersOutcome(u, IsDefaultPath) == old(ctx.QersOutcome(u, IsDefaultPath))
    {
      outcome := SetupAt(node, ctx, precedence, an, prev, next, ids);
      forall i | 0 <= i < k && outcome == Done && old(ListedUpTo(k, ctx, precedence))
        ensures nodes[i] in Repr && nodes[i].upf in UPFSet && nodes[i].Listed(ctx, IsDefaultPath, GBRFlow, precedence)
      {
        assert old(nodes[i].Listed(ctx, IsDefaultPath, GBRFlow, precedence));
      }
    }

    // The same, told only its neighbours.
    method SetupAt(node: DataPathNode, ctx: SMContext, precedence: nat, an: Option<FTeid>,
                   ghost prev: DataPathNode?, ghost next: DataPathNode?, ghost ids: seq<(set<nat>, set<nat>)>)
      returns (outcome: Outcome)
      requires StageOf(node, ctx.cfg) == Ready && (node.Prev(), node.Next()) == (prev, next)
      requires (next != null ==> Tunnelled(next, ctx.cfg)) && (prev != null ==> Tunnelled(prev, ctx.cfg))
      modifies node, node.upf`qerIDs, ctx
      ensures (node.Prev(), node.Next()) == (prev, next) && (old(Held(|nodes|, ids)) ==> Held(|nodes|, ids))
      ensures node.HasPDRs()
      ensures outcome == old(VerdictAt(node.upf, prev, next, ctx))
      ensures outcome == Done
              ==> StageOf(node, ctx.cfg) == NodeStage(node.upf, UPFOf(prev), UPFOf(next), ctx.cfg, an, false)
      ensures outcome == Done ==> StageOf(node, ctx.cfg) != Unset
      ensures outcome == Done ==> node.Listed(ctx, IsDefaultPath, GBRFlow, precedence)
      ensures forall u {:trigger ctx.QersOf(u, IsDefaultPath)} ::
                old(allocated(u)) && old(ctx.QersOf(u, IsDefaultPath)).Some?
                ==> ctx.QersOf(u, IsDefaultPath) == old(ctx.QersOf(u, IsDefaultPath))
      ensures outcome == Done ==> forall u {:trigger ctx.QersOutcome(u, IsDefaultPath)} :: old(allocated(u)) ==>
                ctx.QersOutcome(u, IsDefaultPath) == old(ctx.QersOutcome(u, IsDefaultPath))
    {
      outcome := node.Setup(ctx, precedence, an, IsDefaultPath, GBRFlow);
      forall i | 0 <= i < |nodes| && old(Held(|nodes|, ids))
        ensures nodes[i] in Repr && nodes[i].upf in UPFSet && Holds(nodes[i], ids[i].0, ids[i].1)
      {
        assert old(Holds(nodes[i], ids[i].0, ids[i].1)) && IDsOf(nodes[i]) == old(IDsOf(nodes[i]));
      }
    }

    /** ActivateTunnelAndPDR. It completes exactly if every UPF has room for the rules and QERs, the
        session rule is there where it is read, its rates convert, and every address exists that
        the rules are built from; otherwise the first step that fails decides whether it returns or
        panics. When it completes, every node runs the rules that its place in the list asks for,
        with the precedence given and with the QERs of the session AMBR (but for GBR flows) and, on
        the default path, of the default flow; when it does not, some node is without PDRs exactly
        if a UPF had no room for the rules. */
    method ActivateTunnelAndPDR(ctx: SMContext, precedence: nat, an: Option<FTeid>) returns (outcome: Outcome)
      requires List() && Chained()
      modifies this`Activated, Repr, UPFSet, ctx
      ensures Chained()
      ensures outcome == if old(RoomForRules()) then FirstOf(old(Verdicts(ctx))) else Returned
      ensures HasPDRs() <==> old(RoomForRules())
      ensures Activated == (outcome == Done || old(Activated))
      ensures outcome == Done ==> AllRunning(ctx.cfg, an) && !Forwards() && AllEnforced(ctx, precedence)
      ensures outcome == Done && DistinctUPFs() ==> Held(|nodes|, old(IDsInUse()))
    {
      ghost var verdicts := Verdicts(ctx);
      var ok := PrepareRules(ctx);
      outcome := Returned;
      if ok { outcome := SetupRules(ctx, precedence, an, verdicts, old(IDsInUse())); }
    }

    /** DeactivateTunnelAndPDR. */
    method DeactivateTunnelAndPDR()
      requires List() && Chained() && DistinctUPFs()
      modifies this`Activated, UPFSet
      ensures !Activated
      ensures forall i {:trigger nodes[i]} :: 0 <= i < |nodes| && nodes[i].upf.Associated ==>
                forall pdrIDs, farIDs :: old(Holds(nodes[i], pdrIDs, farIDs))
                    ==> nodes[i].upf.pdrIDs == pdrIDs && nodes[i].upf.farIDs == farIDs
    {
      var targetNodes: seq<DataPathNode> := [];
      var node := FirstDPNode;
      while node != null
        invariant |targetNodes| <= |nodes| && targetNodes == nodes[..|targetNodes|] && node == At(nodes, |targetNodes|)
        decreases |nodes| - |targetNodes|
      {
        targetNodes := targetNodes + [node];
        node := node.Next();
      }
      for k := 0 to |targetNodes|
        invariant targetNodes == nodes
        invariant forall i {:trigger nodes[i]} :: k <= i < |nodes| ==> unchanged(nodes[i].upf)
        invariant forall i {:trigger nodes[i]} :: 0 <= i < k && nodes[i].upf.Associated ==>
                    forall pdrIDs, farIDs :: old(Holds(nodes[i], pdrIDs, farIDs))
                        ==> nodes[i].upf.pdrIDs == pdrIDs && nodes[i].upf.farIDs == farIDs
      {
        targetNodes[k].DeactivateTunnels();
      }
      Activated := false;
    }

    /** What the answer to the resource setup request does to an activated path before the access
        network's new address is stored: the first node forwards, for now without a header. */
    method Resume(ghost cfg: Config, ghost before: Option<FTeid>)
      requires List() && Chained() && nodes != [] && AllRunning(cfg, before)
      modifies nodes[0]
      ensures Chained() && AllRunning(cfg, None) && Forwards()
      ensures nodes[0].UpLinkTunnel == old(nodes[0].UpLinkTunnel)
              && OnlyFAR(old(nodes[0].DownLinkTunnel), nodes[0].DownLinkTunnel)
    {
      assert StageOf(nodes[0], cfg) == Target(0, cfg, before, Forwards());
      var pdr: PDR := FirstDPNode.DownLinkTunnel.PDR.value;
      var params := ForwardingParameters(Access, Some(pdr.PDI.value.networkInstance), None, "", false);
      FirstDPNode.DownLinkTunnel := FirstDPNode.DownLinkTunnel.(PDR := Some(pdr.(FAR := pdr.FAR.(forw := true,
          params := Some(params), State := UPDATE))));
      assert forall i :: 0 <= i < |nodes| ==> (nodes[i].Next(), nodes[i].Prev()) == (old(nodes[i].Next()),
             old(nodes[i].Prev()));
      assert StageOf(nodes[0], cfg) == Target(0, cfg, None, true);
      assert forall i :: 0 < i < |nodes| ==> Target(i, cfg, None, true) == Target(i, cfg, before, old(Forwards()));
    }

    /** What UpdateANInformation does to one activated path. */
    method UpdateAN(ghost cfg: Config, ghost before: Option<FTeid>, an: FTeid)
      requires List() && Chained() && nodes != [] && AllRunning(cfg, before)
      modifies nodes[0]
      ensures Chained() && AllRunning(cfg, Some(an)) && Forwards() == old(Forwards())
      ensures ReAddressed(nodes[0].DownLinkTunnel, before.Some?)
      ensures nodes[0].UpLinkTunnel == old(nodes[0].UpLinkTunnel)
              && OnlyFAR(old(nodes[0].DownLinkTunnel), nodes[0].DownLinkTunnel)
    {
      assert StageOf(nodes[0], cfg) == Target(0, cfg, before, Forwards());
      var pdr: PDR := FirstDPNode.DownLinkTunnel.PDR.value;
      var params := pdr.FAR.params.value;
      if params.outerHeaderCreation.Some? { params := params.(sendEndMarker := true); }
      params := params.(outerHeaderCreation := Some(an));
      FirstDPNode.DownLinkTunnel := FirstDPNode.DownLinkTunnel.(PDR := Some(pdr.(FAR := pdr.FAR.(params := Some(params),
          State := UPDATE))));
      assert forall i :: 0 <= i < |nodes| ==> (nodes[i].Next(), nodes[i].Prev()) == (old(nodes[i].Next()),
             old(nodes[i].Prev()));
      assert StageOf(nodes[0], cfg) == Target(0, cfg, Some(an), Forwards());
      assert forall i :: 0 < i < |nodes| ==> Target(i, cfg, Some(an), Forwards()) == Target(i, cfg, before, Forwards());
    }
  }

  // The list of GenerateDataPath.
  method BuildList(upPath: seq<UPF>) returns (root: DataPathNode?, ghost nodes: seq<DataPathNode>)
    ensures |nodes| == |upPath| && root == At(nodes, 0)
    ensures forall i, j :: 0 <= i < j < |nodes| ==> nodes[i] != nodes[j]
    ensures forall i :: 0 <= i < |nodes| ==> fresh(nodes[i]) && nodes[i].upf == upPath[i]
    ensures forall i {:trigger nodes[i].UpLinkTunnel} ::
              0 <= i < |nodes| ==> nodes[i].UpLinkTunnel == NEW_TUNNEL.(SrcEndPoint := At(nodes, i - 1))
    ensures forall i {:trigger nodes[i].DownLinkTunnel} ::
              0 <= i < |nodes| ==> nodes[i].DownLinkTunnel == NEW_TUNNEL.(SrcEndPoint := At(nodes, i + 1))
  {
    var prev: DataPathNode? := null;
    root, nodes := null, [];
    for idx := 0 to |upPath|
      invariant |nodes| == idx && root == At(nodes, 0) && prev == At(nodes, idx - 1)
      invariant forall i, j :: 0 <= i < j < idx ==> nodes[i] != nodes[j]
      invariant forall i :: 0 <= i < idx ==> fresh(nodes[i]) && nodes[i].upf == upPath[i]
      invariant forall i {:trigger nodes[i].UpLinkTunnel} ::
                0 <= i < idx ==> nodes[i].UpLinkTunnel == NEW_TUNNEL.(SrcEndPoint := At(nodes, i - 1))
      invariant forall i {:trigger nodes[i].DownLinkTunnel} ::
                0 <= i < idx ==> nodes[i].DownLinkTunnel == NEW_TUNNEL.(SrcEndPoint := At(nodes, i + 1))
    {
      var node := new DataPathNode.NewDataPathNode(upPath[idx]);
      node.AddNext(null);
      node.AddPrev(prev); // nil for the root
      if prev == null { root := node; } else { prev.AddNext(node); }
      prev := node;
      nodes := nodes + [node];
    }
  }

  /** GenerateDataPath. */
  method GenerateDataPath(upPath: seq<UPF>) returns (path: DataPath?)
    ensures path == null <==> upPath == []
    ensures path != null ==> fresh(path) && path.List() && path.Chained() && path.UPFs() == upPath && !path.Activated && !path.IsDefaultPath
    ensures path != null ==> fresh(path.Repr) && forall u <- path.UPFSet :: u in path.UPFs()
    ensures path != null
            ==> forall n <- path.nodes :: fresh(n) && n.UpLinkTunnel.PDR.None? && n.DownLinkTunnel.PDR.None?
  {
    if |upPath| < 1 { return null; }
    ghost var nodes;
    var root;
    root, nodes := BuildList(upPath);
    path := new DataPath.NewDataPath(root, nodes);
    assert forall i :: 0 <= i < |upPath| ==> path.UPFs()[i] == upPath[i];
  }

  /** One path on which activation panics: a UPF with an N3 address, followed by one that has no
      N9 interface. */
  method MissingN9Panics(ctx: SMContext) returns (outcome: Outcome)
    requires ctx.cfg.sessionType == 1 && ctx.rule.Some? && ctx.rule.value.ambr.Some?
    requires ctx.rule.value.ambr.value.uplink.Some? && ctx.rule.value.ambr.value.downlink.Some?
    modifies ctx
    ensures outcome == Panicked
  {
    var path := PathWithoutN9(ctx.cfg.dnn);
    AtLeast({}, MAX_RULE_ID, {1, 2});
    assert path.Verdict(0, ctx) == Panicked;
    assert path.Verdicts(ctx)[0] == Panicked;
    outcome := path.ActivateTunnelAndPDR(ctx, 255, None);
  }

  method PathWithoutN9(dnn: string) returns (path: DataPath)
    ensures fresh(path) && path.List() && path.Chained() && path.RoomForRules() && !path.Activated
    ensures fresh(path.Repr) && forall u <- path.UPFSet :: fresh(u)
    ensures |path.nodes| == 2 && forall n <- path.nodes :: n.UpLinkTunnel.PDR.None? && n.DownLinkTunnel.PDR.None?
    ensures path.nodes[0].upf.Associated && path.nodes[0].upf.qerIDs == {} && !path.IsDefaultPath
    ensures path.nodes[0].upf.N3Interfaces == [Interface([dnn], ["192.0.2.1"], [], None)]
    ensures path.nodes[1].upf.N9Interfaces == []
  {
    var first := new UPF([Interface([dnn], ["192.0.2.1"], [], None)], []);
    var second := new UPF([], []);
    first.Associated, second.Associated := true, true;
    path := PathOverTwo(first, second);
  }

  // A path over two UPFs without rules.
  method PathOverTwo(first: UPF, second: UPF) returns (path: DataPath)
    requires first != second && first.Associated && second.Associated
    requires first.pdrIDs == first.farIDs == second.pdrIDs == second.farIDs == {}
    ensures fresh(path) && path.List() && path.Chained() && path.RoomForRules() && !path.Activated
            && !path.IsDefaultPath
    ensures fresh(path.Repr) && forall u <- path.UPFSet :: u == first || u == second
    ensures |path.nodes| == 2 && forall n <- path.nodes :: n.UpLinkTunnel.PDR.None? && n.DownLinkTunnel.PDR.None?
    ensures path.nodes[0].upf == first && path.nodes[1].upf == second
  {
    var made := GenerateDataPath([first, second]);
    path := made;
    AtLeast({}, MAX_PDR_ID, {1, 2});
    AtLeast({}, MAX_RULE_ID, {1, 2});
    assert path.UPFs() == [first, second] && path.nodes[0].upf == first && path.nodes[1].upf == second;
    assert multiset(path.UPFs()) == multiset{first, second};
  }

  method PathOverOne() returns (path: DataPath)
    ensures fresh(path) && path.List() && path.Chained() && path.RoomForRules() && fresh(path.Repr)
    ensures forall u <- path.UPFSet :: fresh(u)
    ensures |path.nodes| == 1 && path.nodes[0].upf.Associated && path.nodes[0].upf.qerIDs == {}
  {
    var upf := new UPF([], []);
    upf.Associated := true;
    var made := GenerateDataPath([upf]);
    path := made;
    AtLeast({}, MAX_PDR_ID, {1, 2});
    AtLeast({}, MAX_RULE_ID, {1, 2});
    assert path.UPFs() == [upf] && path.nodes[0].upf == upf && multiset(path.UPFs()) == multiset{upf};
  }

  /** Without a session rule, or with one that has no AMBR, activation panics already on a path of
      one UPF. */
  method MissingAmbrPanics(cfg: Config, rule: Option<SessionRule>) returns (outcome: Outcome)
    requires rule.None? || rule.value.ambr.None?
    ensures outcome == Panicked
  {
    var ctx := new SMContext(cfg, rule);
    var path := PathOverOne();
    AtLeast({}, MAX_RULE_ID, {1, 2});
    assert path.Verdicts(ctx)[0] == path.Verdict(0, ctx) == Panicked;
    outcome := path.ActivateTunnelAndPDR(ctx, 255, None);
  }
}
