/** internal/context/sm_context_policy.go, with the path creation and QFI table of sm_context.go:
    a policy decision is merged into the installed PCC rules, and the data paths it replaces
    are dropped once the UPFs have answered. */
module PolicyRules {
  import opened PolicyMerges
  import opened PolicyQfis
  import opened Wrappers

  class SMContext {
    const routes: set<string> // the DNAIs that the user plane has a path to
    var PCCRules: map<string, PCCRule>
    var datas: Datas
    var tunnel: Tunnel
    var qfis: QfiTable

    constructor (routes: set<string>)
      ensures this.routes == routes && Valid() && PCCRules == map[] && tunnel == EMPTY && datas == NO_DATAS
      ensures qfis == QfiState(map[], {})
    {
      this.routes, PCCRules, datas, tunnel, qfis := routes, map[], NO_DATAS, EMPTY, QfiState(map[], {});
    }

    ghost predicate Valid()
      reads this
    {
      InOrder(PCCRules, tunnel)
    }

    method RemoveQFI(qosId: string)
      modifies this`qfis
      ensures qfis.table == old(qfis.table) - {qosId}
    {
      if qosId in qfis.table {
        OneToOneDrops(qfis, qosId);
        qfis := QfiState(qfis.table - {qosId}, qfis.used - {qfis.table[qosId]});
      }
    }

    // QFI 0 if all of 2..63 are taken.
    method AssignQFI(qosId: string) returns (qfi: nat)
      modifies this`qfis
      ensures if qfi == 0 then qfis == old(qfis) && qosId !in qfis.table && forall v :: 2 <= v <= 63 ==> v in qfis.used
              else qfis.table == old(qfis.table)[qosId := qfi]
      ensures qosId in old(qfis.table) ==> qfis == old(qfis)
      ensures Grew(old(qfis), qfis, {qosId}) && qfi == QfiOf(qfis, qosId)
    {
      if qosId in qfis.table {
        assert qfis.table[qosId] in qfis.table.Values;
        return qfis.table[qosId];
      }
      if newId :| 2 <= newId <= 63 && newId !in qfis.used {
        OneToOneAdds(qfis, qosId, newId);
        qfis := QfiState(qfis.table[qosId := newId], qfis.used + {newId});
        qfi := newId;
      } else {
        qfi := 0;
      }
    }

    method PreRemoveDataPath(dp: Option<int>)
      requires dp.Some? ==> dp.value in tunnel.pool
      modifies this`tunnel
      ensures tunnel.pool.Keys == old(tunnel.pool.Keys) && tunnel.ids == old(tunnel.ids)
      ensures tunnel.toBeRemoved == old(tunnel.toBeRemoved) + if dp.Some? then {dp.value} else {}
    {
      if dp.None? { return; }
      var path := tunnel.pool[dp.value].(marked := true);
      tunnel := tunnel.(pool := tunnel.pool[dp.value := path], toBeRemoved := tunnel.toBeRemoved + {dp.value});
    }

    /** PostRemoveDataPath, after the UPFs have answered. */
    method PostRemoveDataPath()
      requires Valid()
      modifies this`tunnel
      ensures Valid() && NonPccPaths(PCCRules, tunnel) == old(NonPccPaths(PCCRules, tunnel))
      ensures tunnel.toBeRemoved == {} && tunnel.ids == old(tunnel.ids) - old(tunnel.toBeRemoved)
      ensures tunnel.pool == old(tunnel.pool) - old(tunnel.toBeRemoved)
    {
      var todo := tunnel.toBeRemoved;
      ghost var done: set<int> := {};
      while todo != {}
        invariant todo + done == old(tunnel.toBeRemoved) && tunnel.toBeRemoved == todo && todo !! done
        invariant tunnel.pool == old(tunnel.pool) - done && tunnel.ids == old(tunnel.ids) - done
        decreases todo
      {
        var id := AnyOf(todo);
        todo := todo - {id};
        tunnel := TunnelState(tunnel.pool - {id}, tunnel.ids - {id}, tunnel.toBeRemoved - {id});
        done := done + {id};
      }
    }

    /** CreatePccRuleDataPath, where `setup` is what becomes of the new path. The path is the default
        one exactly if there is none yet and its rule has the last precedence, and a GBR flow exactly
        if its QoS data are. The caller sees to it
        that the generator still has ids; without one the source would go on with a path outside
        the pool. */
    method CreatePccRuleDataPath(m: PccModel, tcData: Option<TcData>, qosData: Option<QosData>, setup: Setup)
      returns (verdict: Verdict, path: Option<int>)
      requires |tunnel.ids| < MAX_PATH_ID
      modifies this`tunnel
      ensures path.Some? <==> Routed(tcData, routes) && !setup.ActivationPanics?
      ensures path.Some? ==>
                if tcData.None? || tcData.value.routeToLocs == [] then "" in routes
                else tcData.value.routeToLocs[0].Some? && tcData.value.routeToLocs[0].value in routes
      ensures verdict == if !Routed(tcData, routes) then Refused
                         else if setup.ActivationPanics? || setup.LaterPanics? then Panicked else Accepted
      ensures path.None? ==> tunnel == old(tunnel)
      ensures |tunnel.ids| <= old(|tunnel.ids|) + 1 && Widened(old(tunnel), tunnel)
      ensures path.Some? ==> path.value !in old(tunnel.ids) && tunnel.toBeRemoved == old(tunnel.toBeRemoved)
                             && tunnel.ids == old(tunnel.ids) + {path.value}
                             && tunnel.pool.Keys == old(tunnel.pool.Keys) + {path.value}
      ensures path.Some? ==>
                && tunnel.pool - {path.value} == old(tunnel.pool) && !tunnel.pool[path.value].marked
                && (tunnel.pool[path.value].gbrFlow <==> qosData.Some? && qosData.value.gbr)
                && (tunnel.pool[path.value].isDefaultPath
                    <==> m.precedence == 255 && forall p <- old(tunnel.pool) :: !old(tunnel.pool)[p].isDefaultPath)
    {
      var dnai := Dnai(tcData);
      if dnai.None? || dnai.value !in routes { return Refused, None; }
      if setup.ActivationPanics? { return Panicked, None; }
      var pathID := AddDataPath(m.precedence, qosData.Some? && qosData.value.gbr);
      return if setup.LaterPanics? then Panicked else Accepted, Some(pathID);
    }

    // The new path is the default one if there is none and its rule comes last.
    method AddDataPath(precedence: nat, gbrFlow: bool) returns (pathID: int)
      requires |tunnel.ids| < MAX_PATH_ID
      modifies this`tunnel
      ensures |tunnel.ids| <= old(|tunnel.ids|) + 1 && pathID !in old(tunnel.ids)
      ensures tunnel.toBeRemoved == old(tunnel.toBeRemoved) && tunnel.ids == old(tunnel.ids) + {pathID}
      ensures tunnel.pool.Keys == old(tunnel.pool.Keys) + {pathID} && tunnel.pool - {pathID} == old(tunnel.pool)
      ensures !tunnel.pool[pathID].marked && tunnel.pool[pathID].gbrFlow == gbrFlow
      ensures tunnel.pool[pathID].isDefaultPath
              <==> precedence == 255 && forall p <- old(tunnel.pool) :: !old(tunnel.pool)[p].isDefaultPath
    {
      var isDefaultPath := (forall p <- tunnel.pool :: !tunnel.pool[p].isDefaultPath) && precedence == 255;
      FreePathID(tunnel.ids, MAX_PATH_ID);
      pathID :| 1 <= pathID <= MAX_PATH_ID && pathID !in tunnel.ids;
      AddPath(tunnel, pathID, isDefaultPath, gbrFlow);
      PoolWith(tunnel.pool, pathID, Path(isDefaultPath, gbrFlow, false));
      tunnel := tunnel.(pool := tunnel.pool[pathID := Path(isDefaultPath, gbrFlow, false)],
                        ids := tunnel.ids + {pathID});
    }

    /** processRule. The path of an installed rule with this id is to be removed however it ends. A
        rule that the decision does not name is the installed object itself, so that its new QFI
        and path show in the table of rules at once. */
    method ProcessRule(id: string, rule: PCCRule, d: Decision, setup: Setup)
      returns (verdict: Verdict, created: PCCRule)
      requires |tunnel.ids| < MAX_PATH_ID && rule.model.level.Some?
      requires id in PCCRules ==> PCCRules[id].datapath.Some? && PCCRules[id].datapath.value in tunnel.pool
      modifies this`tunnel, this`qfis, this`PCCRules
      ensures |tunnel.ids| <= old(|tunnel.ids|) + 1
      ensures verdict == VerdictOn(d, datas, rule.model, routes, setup)
      ensures tunnel.toBeRemoved == old(tunnel.toBeRemoved) + if id in old(PCCRules)
              then {old(PCCRules)[id].datapath.value} else {}
      ensures Widened(old(tunnel), tunnel) && created.model == rule.model
      ensures PCCRules == if id in d.pccRules then old(PCCRules) else old(PCCRules)[id := created]
      ensures HasQfi(created, rule.QFI, qfis) && Grew(old(qfis), qfis, {rule.model.RefQosDataID()} - {""})
      ensures if GetsPath(d, datas, rule.model, routes, setup)
              then created.datapath.Some? && created.datapath.value !in old(tunnel.ids)
                   && tunnel.ids == old(tunnel.ids) + {created.datapath.value}
                   && tunnel.pool.Keys == old(tunnel.pool.Keys) + {created.datapath.value}
              else created.datapath == rule.datapath
    {
      verdict, created := Recreate(id, rule, d, setup);
      Write(id, created, d);
      if verdict == Accepted { verdict := ApplyFlowInfoOrPFD(rule.model, setup); }
    }

    // The rule gets its QFI and its path.
    method Recreate(id: string, rule: PCCRule, d: Decision, setup: Setup) returns (verdict: Verdict, created: PCCRule)
      requires |tunnel.ids| < MAX_PATH_ID
      requires id in PCCRules ==> PCCRules[id].datapath.Some? && PCCRules[id].datapath.value in tunnel.pool
      modifies this`tunnel, this`qfis
      ensures |tunnel.ids| <= old(|tunnel.ids|) + 1 && Widened(old(tunnel), tunnel) && created.model == rule.model
      ensures verdict == if !Routed(Merged(d, datas, rule.model).0, routes) then Refused
                         else if setup.ActivationPanics? || setup.LaterPanics? then Panicked else Accepted
      ensures tunnel.toBeRemoved == old(tunnel.toBeRemoved) + if id in PCCRules then {PCCRules[id].datapath.value}
              else {}
      ensures HasQfi(created, rule.QFI, qfis) && Grew(old(qfis), qfis, {rule.model.RefQosDataID()} - {""})
      ensures if GetsPath(d, datas, rule.model, routes, setup)
              then created.datapath.Some? && created.datapath.value !in old(tunnel.ids)
                   && tunnel.ids == old(tunnel.ids) + {created.datapath.value}
                   && tunnel.pool.Keys == old(tunnel.pool.Keys) + {created.datapath.value}
              else created.datapath == rule.datapath
    {
      created := SetQFI(rule);
      var path;
      verdict, path := ReplacePath(id, rule.model, d, setup);
      if path.Some? { created := created.(datapath := path); }
    }

    method SetQFI(rule: PCCRule) returns (r: PCCRule)
      modifies this`qfis
      ensures r == rule.(QFI := r.QFI) && HasQfi(r, rule.QFI, qfis)
      ensures Grew(old(qfis), qfis, {rule.model.RefQosDataID()} - {""})
    {
      r := rule;
      if rule.model.RefQosDataID() != "" {
        var qfi := AssignQFI(rule.model.RefQosDataID());
        r := r.(QFI := qfi);
      }
    }

    // A rule object that is in the table changes there.
    method Write(id: string, rule: PCCRule, d: Decision)
      modifies this`PCCRules
      ensures PCCRules == if id in d.pccRules then old(PCCRules) else old(PCCRules)[id := rule]
    {
      if id !in d.pccRules { PCCRules := PCCRules[id := rule]; }
    }

    // The path of an installed rule with this id is to be removed, and a new one is made.
    method ReplacePath(id: string, m: PccModel, d: Decision, setup: Setup) returns (verdict: Verdict, path: Option<int>)
      requires |tunnel.ids| < MAX_PATH_ID
      requires id in PCCRules ==> PCCRules[id].datapath.Some? && PCCRules[id].datapath.value in tunnel.pool
      modifies this`tunnel
      ensures |tunnel.ids| <= old(|tunnel.ids|) + 1 && Widened(old(tunnel), tunnel)
      ensures path.Some? <==> GetsPath(d, datas, m, routes, setup)
      ensures verdict == if !Routed(Merged(d, datas, m).0, routes) then Refused
                         else if setup.ActivationPanics? || setup.LaterPanics? then Panicked else Accepted
      ensures tunnel.toBeRemoved == old(tunnel.toBeRemoved) + if id in PCCRules then {PCCRules[id].datapath.value}
              else {}
      ensures path.Some? ==> path.value !in old(tunnel.ids) && tunnel.ids == old(tunnel.ids) + {path.value}
                             && tunnel.pool.Keys == old(tunnel.pool.Keys) + {path.value}
    {
      var (tcData, qosData, chgData) := Merged(d, datas, m);
      PreRemoveDataPath(if id in PCCRules then PCCRules[id].datapath else None);
      verdict, path := CreatePccRuleDataPath(m, tcData, qosData, setup);
    }

    // The flow description is written into the PDRs of every node of the rule's path.
    method ApplyFlowInfoOrPFD(m: PccModel, setup: Setup) returns (verdict: Verdict)
      ensures verdict == if !FlowsApply(m) then Refused else if setup.NoPdrs? then Panicked else Accepted
    {
      if !m.hasFlowInfos && !m.hasAppId { return Refused; }
      if !m.hasFlowDescription && !m.hasPfd { return Refused; }
      return if setup.NoPdrs? then Panicked else Accepted;
    }

    // The merge that is under way started from s.
    ghost predicate Runs(s: Start, d: Decision, setups: map<string, Setup>)
      reads this`datas
    {
      s == s.(d := d, datas := datas, routes := routes, setups := setups) && TargetOk(s)
    }

    // The step of the merge that processing a queued rule is.
    method ProcessQueued(id: string, rule: PCCRule, d: Decision, setups: map<string, Setup>, ghost h: History,
                         ghost s: Start)
      returns (verdict: Verdict, created: PCCRule, ghost h': History)
      requires |tunnel.ids| < MAX_PATH_ID && Outcome(h).tunnel == tunnel && Outcome(h).s == s && id !in Outcome(h).final
      requires Runs(s, d, setups) && PCCRules == InPlace(Outcome(h)) && Queued(rule, id, s)
      modifies this`tunnel, this`qfis, this`PCCRules
      ensures |tunnel.ids| <= old(|tunnel.ids|) + 1
      ensures verdict == s.Verdict(id)
      ensures QfisMoved(s, old(qfis), old(PCCRules), qfis, PCCRules) && GivenQfi(s, id, created, qfis)
      ensures verdict != Accepted
              ==> h' == h && Tried(Outcome(h), id, tunnel) && LeftAt(Outcome(h), id, PCCRules, tunnel)
      ensures verdict == Accepted ==> created.model == rule.model && PCCRules == InPlace(Outcome(h'))
      ensures verdict == Accepted ==> var m := Outcome(h);
                Outcome(h') == MergeState(s, m.gone + {id}, m.final[id := created],
                    WithDatas(m.datas, rule.model, d, datas), tunnel)
    {
      QueuedUntouched(Outcome(h), rule, id);
      OldPath(PCCRules, id, h);
      ghost var was, before := PCCRules, qfis;
      verdict, created := ProcessRule(id, rule, d, if id in setups then setups[id] else FullySetUp);
      OneMoved(s, was, before, qfis, id, rule, created);
      h' := h;
      ghost var m := Outcome(h);
      if verdict == Accepted {
        ghost var next := MergeState(s, m.gone + {id}, m.final[id := created], WithDatas(m.datas, rule.model, d, datas),
                                     tunnel);
        assert CreateStep(m, id, created, next);
        h' := Extend(h, next);
        PlaceCreated(m, id, created, next);
      } else {
        LeftByRule(m, id, rule, created, PCCRules, tunnel);
      }
    }

    // One round of a pass.
    method ProcessNext(id: string, rule: PCCRule, d: Decision, setups: map<string, Setup>, final0: map<string, PCCRule>,
                       datas0: Datas, ghost todo: set<string>, ghost p: Pass, ghost h: History)
      returns (verdict: Verdict, final: map<string, PCCRule>, finalDatas: Datas, ghost h': History)
      requires |tunnel.ids| < MAX_PATH_ID && Runs(p.s, d, setups) && p.At(h, todo, final0, datas0, PCCRules, tunnel)
      requires id in todo && id in p.queue && id !in p.final && Queued(rule, id, p.s)
      modifies this`tunnel, this`qfis, this`PCCRules
      ensures |tunnel.ids| <= old(|tunnel.ids|) + 1
      ensures verdict == p.s.Verdict(id)
      ensures QfisMoved(p.s, old(qfis), old(PCCRules), qfis, PCCRules)
      ensures verdict == Accepted
              ==> id in final && final == final0[id := final[id]] && GivenQfi(p.s, id, final[id], qfis)
      ensures verdict == Accepted ==> p.At(h', todo - {id}, final, finalDatas, PCCRules, tunnel)
      ensures verdict != Accepted ==> Stopped(p.h0, h', p.s, p.queue, id, verdict, PCCRules, tunnel)
    {
      final, finalDatas := final0, datas0;
      var created;
      verdict, created, h' := ProcessQueued(id, rule, d, setups, h, p.s);
      if verdict == Accepted {
        final := final[id := created];
        finalDatas := WithDatas(finalDatas, created.model, d, datas);
        ProcessedOne(p.h0, h, h', p.queue, todo, id, p.s);
      }
    }

    /** One pass over a queue of rules: it succeeds exactly if every rule can be created, whatever
        the order, and then all of them have been. */
    method ProcessAll(queue: map<string, PCCRule>, d: Decision, setups: map<string, Setup>,
                      final0: map<string, PCCRule>, datas0: Datas, ghost p: Pass)
      returns (verdict: Verdict, final: map<string, PCCRule>, finalDatas: Datas, ghost h: History, ghost failed: string)
      requires |tunnel.ids| + |queue| <= MAX_PATH_ID && p.queue == queue.Keys && p.queue !! p.final
      requires Runs(p.s, d, setups) && QueuedAll(queue, p.s)
      requires p.At(p.h0, queue.Keys, final0, datas0, PCCRules, tunnel)
      modifies this`tunnel, this`qfis, this`PCCRules
      ensures |tunnel.ids| <= old(|tunnel.ids|) + |queue|
      ensures QfisMoved(p.s, old(qfis), old(PCCRules), qfis, PCCRules)
      ensures verdict == Accepted ==> PassGiven(p.s, queue.Keys, {}, final0, final, qfis)
      ensures verdict == Accepted <==> AllAccepted(queue.Keys, p.s)
      ensures verdict == Accepted ==> p.At(h, {}, final, finalDatas, PCCRules, tunnel)
      ensures verdict != Accepted ==> Stopped(p.h0, h, p.s, p.queue, failed, verdict, PCCRules, tunnel)
    {
      verdict, final, finalDatas, h, failed := Accepted, final0, datas0, p.h0, "";
      var todo := queue.Keys;
      while todo != {}
        invariant todo <= queue.Keys && |tunnel.ids| + |todo| <= old(|tunnel.ids|) + |queue|
        invariant verdict == Accepted && p.At(h, todo, final, finalDatas, PCCRules, tunnel)
        invariant AllAccepted(queue.Keys - todo, p.s)
        invariant QfisMoved(p.s, old(qfis), old(PCCRules), qfis, PCCRules)
        invariant PassGiven(p.s, queue.Keys, todo, final0, final, qfis)
        decreases todo
      {
        var id := AnyOf(todo);
        ghost var was, before, rules := final, qfis, PCCRules;
        verdict, final, finalDatas, h := ProcessNext(id, queue[id], d, setups, final, finalDatas, todo, p, h);
        failed := id;
        MovedOn(p.s, old(qfis), old(PCCRules), before, rules, qfis, PCCRules);
        if verdict != Accepted { break; }
        PassGoesOn(p.s, queue.Keys, todo, final0, was, before, qfis, QosRefs(p.s), id, final[id]);
        OneLess(queue.Keys, todo, id);
        todo := todo - {id};
      }
    }

    // The QFIs of QoS data that the decision nulls are given back.
    method RemoveNulledQFIs(d: Decision)
      modifies this`qfis
      ensures Dropped(d, old(qfis), qfis)
    {
      var todo := d.qosDecs.Keys;
      while todo != {}
        invariant todo <= d.qosDecs.Keys
        invariant forall id :: id in qfis.table <==> id in old(qfis.table) && !(id in d.qosDecs && d.qosDecs[id].None? && id !in todo)
        invariant forall id <- qfis.table :: qfis.table[id] == old(qfis.table)[id]
        decreases todo
      {
        var id := AnyOf(todo);
        todo := todo - {id};
        if d.qosDecs[id].None? { RemoveQFI(id); }
      }
    }

    /** The first scan: rules that the decision nulls are deleted and their paths are to be
        removed; the rules it sets are queued by charging level. It fails exactly if a flow
        description of one of them does not decode. */
    method QueueDecision(d: Decision, ghost h0: History, ghost s: Start)
      returns (ok: bool, pdu: map<string, PCCRule>, flow: map<string, PCCRule>, ghost h: History)
      requires Valid() && Outcome(h0) == MergeState(s, {}, map[], NO_DATAS, tunnel) && s.d == d && s.rules == PCCRules
      requires TargetOk(s)
      modifies this`PCCRules, this`tunnel
      ensures tunnel.ids == old(tunnel.ids)
      ensures ok <==> Decodes(d)
      ensures Stage(h, s, map[], NO_DATAS, tunnel) && PCCRules == s.rules - Outcome(h).gone
      ensures if ok then Outcome(h).gone == Nulled(d) else Outcome(h).gone <= Nulled(d)
      ensures ok ==> Split(pdu, flow, s) && forall id ::
                id in pdu || id in flow <==> id in d.pccRules && d.pccRules[id].Some?
    {
      ok, pdu, flow, h := true, map[], map[], h0;
      var todo := d.pccRules.Keys;
      NothingQueued(s);
      while todo != {}
        invariant todo <= d.pccRules.Keys && tunnel.ids == old(tunnel.ids)
        invariant Stage(h, s, map[], NO_DATAS, tunnel) && DecisionQueued(s, PCCRules, Outcome(h).gone, pdu, flow, todo)
        decreases todo
      {
        var id := AnyOf(todo);
        assert todo == todo - {id} + {id};
        todo := todo - {id};
        if d.pccRules[id].None? {
          DecisionDeletes(s, PCCRules, Outcome(h).gone, pdu, flow, todo, id);
          h := DeleteRule(id, h);
        } else {
          var rule := PCCRule(d.pccRules[id].value, 0, None);
          if rule.model.level.None? { ok := false; return; }
          DecisionAdds(s, PCCRules, Outcome(h).gone, pdu, flow, todo, id, rule);
          if rule.model.level.value == PduSessionCharging { pdu := pdu[id := rule]; } else { flow := flow[id := rule]; }
        }
      }
    }

    method DeleteRule(id: string, ghost h: History) returns (ghost h': History)
      requires Outcome(h).tunnel == tunnel && id !in Outcome(h).final && Untouched(PCCRules, id, Outcome(h).s)
      modifies this`PCCRules, this`tunnel
      ensures PCCRules == old(PCCRules) - {id} && tunnel.ids == old(tunnel.ids)
      ensures Outcome(h') == Outcome(h).(gone := Outcome(h).gone + {id}, tunnel := tunnel)
    {
      OldPath(PCCRules, id, h);
      if id in PCCRules { PreRemoveDataPath(PCCRules[id].datapath); }
      PCCRules := PCCRules - {id};
      ghost var next := Outcome(h).(gone := Outcome(h).gone + {id}, tunnel := tunnel);
      assert RemoveStep(Outcome(h), id, next);
      h' := Extend(h, next);
    }
  
    /** The second scan: installed rules that the decision does not name are kept if their data
        stay the same, and queued to be created anew if not. */
    method QueueInstalled(d: Decision, pdu0: map<string, PCCRule>, flow0: map<string, PCCRule>, ghost h0: History,
                          ghost s: Start)
      returns (final: map<string, PCCRule>, finalDatas: Datas, pdu: map<string, PCCRule>, flow: map<string, PCCRule>,
               ghost h: History)
      requires Stage(h0, s, map[], NO_DATAS, tunnel) && s.d == d && s.datas == datas && Split(pdu0, flow0, s)
      requires forall id <- PCCRules :: id !in d.pccRules ==>
                 && id !in pdu0 && id !in flow0 && id !in Outcome(h0).gone && id in s.rules
                 && PCCRules[id] == s.rules[id]
                 && PCCRules[id].model.level.Some? && Wanted(PCCRules[id].model, id, s)
      ensures Stage(h, s, final, finalDatas, tunnel) && Outcome(h).gone == Outcome(h0).gone
      ensures forall id :: id in final <==> id in PCCRules && id !in d.pccRules && id !in s.target
      ensures forall id :: id in pdu || id in flow <==> id in pdu0 || id in flow0 || (id in PCCRules && id !in d.pccRules && id in s.target)
      ensures Split(pdu, flow, s)
    {
      final, finalDatas, pdu, flow, h := map[], NO_DATAS, pdu0, flow0, h0;
      var todo := PCCRules.Keys;
      while todo != {}
        invariant todo <= PCCRules.Keys
        invariant Stage(h, s, final, finalDatas, tunnel) && Outcome(h).gone == Outcome(h0).gone
        invariant forall id :: id in final <==> id in PCCRules && id !in todo && id !in d.pccRules && id !in s.target
        invariant forall id :: id in pdu || id in flow <==> id in pdu0 || id in flow0 || (id in PCCRules && id !in todo && id !in d.pccRules && id in s.target)
        invariant Split(pdu, flow, s)
        decreases todo
      {
        var id := AnyOf(todo);
        todo := todo - {id};
        if id !in d.pccRules {
          var rule := PCCRules[id];
          assert Wanted(rule.model, id, s);
          if Changed(d, datas, rule.model) {
            SplitGrows(pdu, flow, s, id, rule);
            if rule.model.level.value == PduSessionCharging { pdu := pdu[id := rule]; } else { flow := flow[id := rule]; }
          } else {
            final := final[id := rule];
            finalDatas := WithDatas(finalDatas, rule.model, d, datas);
            assert KeepStep(Outcome(h), id, Outcome(h).(final := final, datas := finalDatas));
            h := Extend(h, Outcome(h).(final := final, datas := finalDatas));
          }
        }
      }
    }

    // The two passes over the queues.
    method TwoPasses(pdu: map<string, PCCRule>, flow: map<string, PCCRule>, d: Decision, setups: map<string, Setup>,
                     final0: map<string, PCCRule>, datas0: Datas, ghost h0: History, ghost s: Start)
      returns (verdict: Verdict, final: map<string, PCCRule>, finalDatas: Datas, ghost h: History, ghost failed: string)
      requires Stage(h0, s, final0, datas0, tunnel) && Runs(s, d, setups) && PCCRules == InPlace(Outcome(h0))
      requires (forall id <- final0 :: id !in pdu && id !in flow) && pdu.Keys !! flow.Keys !! Outcome(h0).gone
      requires |tunnel.ids| + |pdu| + |flow| <= MAX_PATH_ID
      requires QueuedAll(pdu, s) && QueuedAll(flow, s)
      modifies this`tunnel, this`qfis, this`PCCRules
      ensures |tunnel.ids| <= old(|tunnel.ids|) + |pdu| + |flow|
      ensures QfisMoved(s, old(qfis), old(PCCRules), qfis, PCCRules)
      ensures verdict == Accepted ==> AllGiven(s, pdu.Keys + flow.Keys, final, qfis)
      ensures verdict == Accepted <==> AllAccepted(pdu.Keys, s) && AllAccepted(flow.Keys, s)
      ensures verdict == Accepted ==> Stage(h, s, final, finalDatas, tunnel) && Outcome(h0).gone <= Outcome(h).gone
      ensures verdict == Accepted ==> forall id :: id in final <==> id in final0 || id in pdu || id in flow
      ensures verdict != Accepted ==> Stopped(h0, h, s, pdu.Keys + flow.Keys, failed, verdict, PCCRules, tunnel)
      ensures verdict != Accepted ==> PassesInOrder(pdu.Keys, Outcome(h).gone - Outcome(h0).gone, failed)
    {
      ghost var p, before, rules := Pass(h0, s, pdu.Keys, final0.Keys), qfis, PCCRules;
      verdict, final, finalDatas, h, failed := FirstPass(pdu, d, setups, final0, datas0, p, flow.Keys);
      if verdict == Accepted {
        verdict, final, finalDatas, h, failed := SecondPass(flow, d, setups, final, finalDatas, p, h, before, rules,
                                                            final0);
      }
    }

    // The pass over the rules that charge the whole session.
    method FirstPass(pdu: map<string, PCCRule>, d: Decision, setups: map<string, Setup>, final0: map<string, PCCRule>,
                     datas0: Datas, ghost p: Pass, ghost flow: set<string>)
      returns (verdict: Verdict, final: map<string, PCCRule>, finalDatas: Datas, ghost h: History, ghost failed: string)
      requires |tunnel.ids| + |pdu| <= MAX_PATH_ID && p.queue == pdu.Keys && p.queue !! p.final && pdu.Keys !! flow
      requires Runs(p.s, d, setups) && QueuedAll(pdu, p.s)
      requires p.At(p.h0, pdu.Keys, final0, datas0, PCCRules, tunnel)
      modifies this`tunnel, this`qfis, this`PCCRules
      ensures |tunnel.ids| <= old(|tunnel.ids|) + |pdu|
      ensures QfisMoved(p.s, old(qfis), old(PCCRules), qfis, PCCRules)
      ensures verdict == Accepted ==> PassGiven(p.s, pdu.Keys, {}, final0, final, qfis)
      ensures verdict == Accepted <==> AllAccepted(pdu.Keys, p.s)
      ensures verdict == Accepted ==> p.At(h, {}, final, finalDatas, PCCRules, tunnel)
      ensures verdict != Accepted ==> Stopped(p.h0, h, p.s, pdu.Keys + flow, failed, verdict, PCCRules, tunnel)
      ensures verdict != Accepted ==> PassesInOrder(pdu.Keys, Outcome(h).gone - Outcome(p.h0).gone, failed)
    {
      verdict, final, finalDatas, h, failed := ProcessAll(pdu, d, setups, final0, datas0, p);
      if verdict != Accepted { StoppedSooner(p.h0, h, p.s, pdu.Keys, flow, failed, verdict, PCCRules, tunnel); }
    }

    // The pass over the flow level rules, after the first one.
    method SecondPass(flow: map<string, PCCRule>, d: Decision, setups: map<string, Setup>, final0: map<string, PCCRule>,
                      datas0: Datas, ghost p: Pass, ghost between: History, ghost q0: QfiTable,
                      ghost rules0: map<string, PCCRule>, ghost first: map<string, PCCRule>)
      returns (verdict: Verdict, final: map<string, PCCRule>, finalDatas: Datas, ghost h: History, ghost failed: string)
      requires Runs(p.s, d, setups) && p.At(between, {}, final0, datas0, PCCRules, tunnel)
      requires p.queue !! flow.Keys !! Outcome(p.h0).gone && flow.Keys !! p.final
      requires |tunnel.ids| + |flow| <= MAX_PATH_ID && QueuedAll(flow, p.s)
      requires QfisMoved(p.s, q0, rules0, qfis, PCCRules) && PassGiven(p.s, p.queue, {}, first, final0, qfis)
      modifies this`tunnel, this`qfis, this`PCCRules
      ensures |tunnel.ids| <= old(|tunnel.ids|) + |flow|
      ensures QfisMoved(p.s, q0, rules0, qfis, PCCRules)
      ensures verdict == Accepted ==> AllGiven(p.s, p.queue + flow.Keys, final, qfis)
      ensures verdict == Accepted <==> AllAccepted(flow.Keys, p.s)
      ensures verdict == Accepted ==> Stage(h, p.s, final, finalDatas, tunnel) && Outcome(p.h0).gone <= Outcome(h).gone
      ensures verdict == Accepted ==> forall id :: id in final <==> id in p.final || id in p.queue || id in flow
      ensures verdict != Accepted ==> Stopped(p.h0, h, p.s, p.queue + flow.Keys, failed, verdict, PCCRules, tunnel)
      ensures verdict != Accepted ==> PassesInOrder(p.queue, Outcome(h).gone - Outcome(p.h0).gone, failed)
    {
      ghost var q := Pass(between, p.s, flow.Keys, final0.Keys);
      PassBetween(p, q, between, final0, datas0, PCCRules, tunnel);
      ghost var qfis0, rules1 := qfis, PCCRules;
      verdict, final, finalDatas, h, failed := ProcessAll(flow, d, setups, final0, datas0, q);
      MovedOn(p.s, q0, rules0, qfis0, rules1, qfis, PCCRules);
      if verdict == Accepted {
        BothGiven(p.s, p.queue, flow.Keys, first, final0, qfis0, final, qfis);
        PassesDone(p, q, h, final, finalDatas, PCCRules, tunnel);
      } else {
        StoppedLater(p.h0, between, h, p.s, p.queue, flow.Keys, failed, verdict, PCCRules, tunnel);
      }
    }

    // The two scans: together they queue what is to be created and keep the rest.
    method Scan(d: Decision, ghost s: Start)
      returns (ok: bool, final: map<string, PCCRule>, finalDatas: Datas, pdu: map<string, PCCRule>, flow: map<string,
               PCCRule>, ghost h: History)
      requires Valid() && s.rules == PCCRules && s.tunnel == tunnel && s.d == d && s.datas == datas && TargetOk(s)
      modifies this`PCCRules, this`tunnel
      ensures tunnel.ids == old(tunnel.ids)
      ensures ok <==> Decodes(d)
      ensures forall id <- PCCRules :: id in s.rules && PCCRules[id] == s.rules[id]
      ensures !ok ==> Failed(s, Refused, PCCRules, tunnel, Outcome(h).gone, {})
      ensures ok ==> Ready(s, PCCRules, pdu, flow, final.Keys, Outcome(h).gone)
      ensures ok ==> Stage(h, s, final, finalDatas, tunnel)
    {
      h := Begin(s);
      final, finalDatas := map[], NO_DATAS;
      ok, pdu, flow, h := QueueDecision(d, h, s);
      if !ok {
        ScanFailed(h, s, tunnel);
        return;
      }
      final, finalDatas, pdu, flow, h := QueueInstalled(d, pdu, flow, h, s);
      forall id <- s.target ensures id !in final && Untouched(PCCRules, id, s) {
        assert if id in d.pccRules then d.pccRules[id].Some? else id in s.rules;
      }
    }

    // Everything but the replacement of the old rules and data by the new ones.
    method MergeRules(d: Decision, setups: map<string, Setup>, ghost s: Start)
      returns (verdict: Verdict, final: map<string, PCCRule>, finalDatas: Datas, ghost h: History,
               ghost deleted: set<string>, ghost tried: set<string>)
      requires Valid() && |tunnel.ids| + |PCCRules| + |d.pccRules| <= MAX_PATH_ID
      requires s.rules == PCCRules && s.tunnel == tunnel && Runs(s, d, setups)
      modifies this`PCCRules, this`tunnel, this`qfis
      ensures |tunnel.ids| <= old(|tunnel.ids|) + |s.rules| + |s.d.pccRules|
      ensures Grew(old(qfis), qfis, QosRefs(s)) && KeepQfis(s, PCCRules, qfis)
      ensures verdict == Accepted ==> AllGiven(s, s.target.Keys, final, qfis)
      ensures verdict == Accepted <==> AllAccepted(s.target.Keys, s)
      ensures verdict == Accepted ==> Stage(h, s, final, finalDatas, tunnel) && Complete(s, Outcome(h).gone, final.Keys)
      ensures verdict != Accepted ==> Failed(s, verdict, PCCRules, tunnel, deleted, tried)
    {
      var ok, pdu, flow;
      ok, final, finalDatas, pdu, flow, h := Scan(d, s);
      UntouchedKeep(s, PCCRules, qfis);
      verdict, deleted, tried := Refused, Outcome(h).gone, {};
      if ok {
        QueueSizes(pdu, flow, s);
        verdict, final, finalDatas, h, tried := CreateQueued(d, setups, s, pdu, flow, final, finalDatas, h);
      } else {
        Undecodable(s);
      }
    }

    // What the scans have queued is created.
    method CreateQueued(d: Decision, setups: map<string, Setup>, ghost s: Start, pdu: map<string, PCCRule>,
                        flow: map<string, PCCRule>, final0: map<string, PCCRule>, datas0: Datas, ghost h0: History)
      returns (verdict: Verdict, final: map<string, PCCRule>, finalDatas: Datas, ghost h: History,
               ghost tried: set<string>)
      requires |tunnel.ids| + |pdu| + |flow| <= MAX_PATH_ID && Stage(h0, s, final0, datas0, tunnel)
      requires Runs(s, d, setups) && Ready(s, PCCRules, pdu, flow, final0.Keys, Outcome(h0).gone)
      modifies this`tunnel, this`qfis, this`PCCRules
      ensures |tunnel.ids| <= old(|tunnel.ids|) + |pdu| + |flow|
      ensures QfisMoved(s, old(qfis), old(PCCRules), qfis, PCCRules)
      ensures verdict == Accepted ==> AllGiven(s, s.target.Keys, final, qfis)
      ensures verdict == Accepted <==> AllAccepted(s.target.Keys, s)
      ensures verdict == Accepted ==> Stage(h, s, final, finalDatas, tunnel) && Complete(s, Outcome(h).gone, final.Keys)
      ensures verdict != Accepted ==> Failed(s, verdict, PCCRules, tunnel, Nulled(d), tried)
    {
      QueuesReady(s, PCCRules, pdu, flow, final0.Keys, Outcome(h0).gone);
      PlacedAtFirst(h0);
      tried := {};
      ghost var rules, failed := PCCRules, "";
      verdict, final, finalDatas, h, failed := TwoPasses(pdu, flow, d, setups, final0, datas0, h0, s);
      if verdict == Accepted {
        CompleteAfter(s, rules, Outcome(h0).gone, Outcome(h).gone, final0.Keys, pdu, flow, final.Keys);
      } else {
        tried := Outcome(h).gone - Nulled(d) + {failed};
        PassFailed(h0, h, s, pdu, flow, final0.Keys, failed, verdict, rules, PCCRules, tunnel);
      }
    }

    /** Every rule that the decision sets or changes can be created. */
    ghost predicate Applicable(decision: Option<Decision>, setups: map<string, Setup>)
      reads this
    {
      decision.Some? &&
      var s := StartOf(decision.value, PCCRules, datas, tunnel, routes, setups);
      AllAccepted(s.target.Keys, s)
    }

    /** ApplyPccRules, where `setups` is what setting up the path of each rule comes to. It succeeds
        exactly if every rule it has to create can be created. Then the rules are the old ones plus
        those set minus those nulled, the ones it need not create are untouched and the others run
        on new paths of their own, the data maps hold exactly the data that the rules refer to, and
        the paths of no rule have not changed. A rule that was created has the QFI that the table now
        holds for its QoS data, or 0 if these have none because all are in use. Otherwise it ends as the first rule that fails, and
        `Failed` says what it leaves: the rules that the decision nulls are gone, the old paths of
        the rules that were tried are to be removed, and an installed rule keeps such a path exactly
        if it was tried and either the decision names it or its own new path could not be made. */
    method ApplyPccRules(decision: Option<Decision>, setups: map<string, Setup>)
      returns (verdict: Verdict, ghost s: Start, ghost deleted: set<string>, ghost tried: set<string>)
      requires Valid() && (decision.Some? ==> |tunnel.ids| + |PCCRules| + |decision.value.pccRules| <= MAX_PATH_ID)
      modifies this
      ensures decision.Some? ==> s == old(StartOf(decision.value, PCCRules, datas, tunnel, routes, setups))
      ensures |tunnel.ids| <= old(|tunnel.ids|) + |s.rules| + |s.d.pccRules|
      ensures verdict == Accepted <==> decision.Some? && AllAccepted(s.target.Keys, s)
      ensures verdict == Accepted
              ==> Valid() && Applied(s.d, s.target, s.rules, s.datas, s.tunnel, PCCRules, datas, tunnel)
      ensures verdict == Accepted ==> Granted(s, old(qfis), PCCRules, qfis)
      ensures decision.Some? ==> TableMerged(s, old(qfis), qfis)
      ensures verdict != Accepted && decision.Some? ==> KeepQfis(s, PCCRules, qfis)
      ensures verdict != Accepted ==> datas == old(datas)
      ensures verdict != Accepted && decision.Some? ==> Failed(s, verdict, PCCRules, tunnel, deleted, tried)
      ensures verdict != Accepted && decision.Some? ==> forall id <- PCCRules ::
                PCCRules[id].datapath.Some?
                    && (PCCRules[id].datapath.value in tunnel.toBeRemoved <==> Outdated(s, id, tried))
      ensures verdict != Accepted && decision.Some? ==> (Valid() <==> forall id <- PCCRules :: !Outdated(s, id, tried))
      ensures decision.None?
              ==> verdict == Refused && PCCRules == old(PCCRules) && tunnel == old(tunnel) && qfis == old(qfis)
    {
      if decision.None? {
        return Refused, StartOf(Decision(map[], map[], map[], map[]), PCCRules, datas, tunnel, routes, setups), {}, {};
      }
      var d := decision.value;
      s := StartOf(d, PCCRules, datas, tunnel, routes, setups);
      verdict, deleted, tried := ApplyDecision(d, setups, s);
    }

    method ApplyDecision(d: Decision, setups: map<string, Setup>, ghost s: Start)
      returns (verdict: Verdict, ghost deleted: set<string>, ghost tried: set<string>)
      requires Valid() && |tunnel.ids| + |PCCRules| + |d.pccRules| <= MAX_PATH_ID
      requires s == StartOf(d, PCCRules, datas, tunnel, routes, setups)
      modifies this
      ensures |tunnel.ids| <= old(|tunnel.ids|) + |s.rules| + |s.d.pccRules|
      ensures verdict == Accepted <==> AllAccepted(s.target.Keys, s)
      ensures verdict == Accepted
              ==> Valid() && Applied(d, s.target, s.rules, s.datas, s.tunnel, PCCRules, datas, tunnel)
      ensures TableMerged(s, old(qfis), qfis)
      ensures verdict == Accepted ==> Granted(s, old(qfis), PCCRules, qfis)
      ensures verdict != Accepted ==> KeepQfis(s, PCCRules, qfis)
      ensures verdict != Accepted ==> datas == s.datas && Failed(s, verdict, PCCRules, tunnel, deleted, tried)
      ensures verdict != Accepted ==> forall id <- PCCRules ::
                PCCRules[id].datapath.Some?
                    && (PCCRules[id].datapath.value in tunnel.toBeRemoved <==> Outdated(s, id, tried))
      ensures verdict != Accepted ==> (Valid() <==> forall id <- PCCRules :: !Outdated(s, id, tried))
    {
      ToProcessOk(s);
      RemoveNulledQFIs(d);
      ghost var between := qfis;
      var final, finalDatas;
      ghost var h;
      verdict, final, finalDatas, h, deleted, tried := MergeRules(d, setups, s);
      MergedTable(s, old(qfis), between, qfis);
      if verdict == Accepted {
        MergeComplete(h, s, final, finalDatas, tunnel);
        AppliedGranted(s, old(qfis), final, finalDatas, tunnel, qfis);
        PCCRules, datas := final, finalDatas;
      } else {
        FailedPaths(s, verdict, PCCRules, tunnel, deleted, tried);
      }
    }

    /** A policy update and, once the UPFs have answered, the removal of the paths it replaced: the
        tunnel is left with the paths of no rule, as before, and exactly one path for each rule. */
    method UpdatePolicy(decision: Option<Decision>, setups: map<string, Setup>) returns (verdict: Verdict)
      requires Valid() && (decision.Some? ==> |tunnel.ids| + |PCCRules| + |decision.value.pccRules| <= MAX_PATH_ID)
      modifies this
      ensures verdict == Accepted <==> old(Applicable(decision, setups))
      ensures verdict == Accepted ==>
                Valid() && tunnel.toBeRemoved == {}
                    && NonPccPaths(PCCRules, tunnel) == old(NonPccPaths(PCCRules, tunnel))
      ensures verdict == Accepted ==>
                tunnel.pool.Keys == old(NonPccPaths(PCCRules, tunnel)) + PathsOf(PCCRules, PCCRules.Keys)
      ensures verdict == Accepted ==> |PathsOf(PCCRules, PCCRules.Keys)| == |PCCRules|
    {
      ghost var s, deleted, tried;
      verdict, s, deleted, tried := ApplyPccRules(decision, setups);
      if verdict == Accepted {
        assert NonPccPaths(PCCRules, tunnel) == NonPccPaths(s.rules, s.tunnel);
        Settle();
      }
    }

    // The UPFs have answered.
    method Settle()
      requires Valid()
      modifies this`tunnel
      ensures Valid() && tunnel.toBeRemoved == {} && NonPccPaths(PCCRules, tunnel) == old(NonPccPaths(PCCRules, tunnel))
      ensures tunnel.pool.Keys == old(NonPccPaths(PCCRules, tunnel)) + PathsOf(PCCRules, PCCRules.Keys)
      ensures |PathsOf(PCCRules, PCCRules.Keys)| == |PCCRules|
    {
      PostRemoveDataPath();
      CountPaths(PCCRules, PCCRules.Keys, tunnel.pool.Keys);
    }
  }

  // --- Decisions that fail ---

  /** Flows of the whole session, with QoS data "q": of several references the first one counts. */
  const WHOLE := PccModel(Some(PduSessionCharging), true, true, false, false, 1, [], ["q", "p"], [])

  /** Some flows, on the route of traffic control data "t". */
  const EDGE := PccModel(Some(FlowCharging), true, true, false, false, 2, ["t", "u"], [], [])

  function Setting(rules: map<string, Option<PccModel>>, content: string): Decision {
    Decision(rules, map["t" := Some(TcData([Some("edge")]))], map["q" := Some(QosData(content, false))], map[])
  }

  lemma FirstRule(s: Start)
    requires s == StartOf(Setting(map["r" := Some(WHOLE)], "old"), map[], NO_DATAS, s.tunnel, {""}, s.setups)
    ensures s.target == map["r" := WHOLE]
    ensures s.Verdict("r") == if s.Setup("r").FullySetUp? then Accepted else Panicked
  {
    assert Lookup(s.d.qosDecs, "q") == Some(QosData("old", false));
    assert Merged(s.d, s.datas, WHOLE).0 == None;
  }

  lemma FirstData(s: Start, rules: map<string, PCCRule>, datas: Datas, tunnel: Tunnel)
    requires s.d == Setting(map["r" := Some(WHOLE)], "old") && s.rules == map[] && s.target == map["r" := WHOLE]
    requires Applied(s.d, s.target, s.rules, s.datas, s.tunnel, rules, datas, tunnel)
    ensures rules.Keys == {"r"} && rules["r"].model == WHOLE && InstalledOld(datas)
  {
    assert "r" in rules && rules["r"].model == WHOLE;
    assert "q" in Refs(rules, (m: PccModel) => m.RefQosDataID());
    assert Lookup(s.d.qosDecs, "q") == Some(QosData("old", false));
  }

  lemma First(s: Start, rules: map<string, PCCRule>, datas: Datas, tunnel: Tunnel, q: QfiTable)
    requires s == StartOf(Setting(map["r" := Some(WHOLE)], "old"), map[], NO_DATAS, s.tunnel, {""}, map[])
    requires AllAccepted(s.target.Keys, s) ==>
               Applied(s.d, s.target, s.rules, s.datas, s.tunnel, rules, datas, tunnel)
               && Granted(s, QfiState(map[], {}), rules, q)
    ensures AllAccepted(s.target.Keys, s)
    ensures rules.Keys == {"r"} && rules["r"].model == WHOLE && InstalledOld(datas)
    ensures q.table.Keys == {"q"} && rules["r"].QFI == q.table["q"]
  {
    FirstRule(s);
    FirstData(s, rules, datas, tunnel);
    FirstQfi(s, rules, q);
  }

  lemma FirstQfi(s: Start, rules: map<string, PCCRule>, q: QfiTable)
    requires s.target == map["r" := WHOLE] && Granted(s, QfiState(map[], {}), rules, q)
    requires rules.Keys == {"r"} && rules["r"].model == WHOLE
    ensures q.table.Keys == {"q"} && rules["r"].QFI == q.table["q"]
  {
    assert WHOLE.RefQosDataID() == "q" && GivenQfi(s, "r", rules["r"], q);
    forall id <- q.table ensures id == "q" { assert id in QosRefs(s); }
    NotFullAtFirst(q);
  }

  predicate InstalledOld(datas: Datas) {
    "q" in datas.qos && datas.qos["q"] == Some(QosData("old", false)) && "t" !in datas.tc
  }

  // A session with one rule, while there is no path to the edge.
  method OneRule() returns (ctx: SMContext)
    ensures fresh(ctx) && ctx.Valid() && ctx.PCCRules.Keys == {"r"} && ctx.PCCRules["r"].model == WHOLE
    ensures ctx.routes == {""} && InstalledOld(ctx.datas) && |ctx.tunnel.ids| <= 1
    ensures ctx.qfis.table.Keys == {"q"} && ctx.PCCRules["r"].QFI == ctx.qfis.table["q"]
  {
    ctx := new SMContext({""});
    var verdict;
    ghost var s, deleted, tried;
    verdict, s, deleted, tried := ctx.ApplyPccRules(Some(Setting(map["r" := Some(WHOLE)], "old")), map[]);
    First(s, ctx.PCCRules, ctx.datas, ctx.tunnel, ctx.qfis);
  }

  // The QoS data of the installed rule change, and a rule without a route is set.
  lemma SecondRules(s: Start, named: map<string, Option<PccModel>>)
    requires named == map["s" := Some(EDGE)] || named == map["r" := Some(WHOLE), "s" := Some(EDGE)]
    requires s == StartOf(Setting(named, "new"), s.rules, s.datas, s.tunnel, {""}, map[])
    requires s.rules.Keys == {"r"} && s.rules["r"].model == WHOLE && InstalledOld(s.datas)
    ensures s.target == map["r" := WHOLE, "s" := EDGE] && s.Verdict("r") == Accepted && s.Verdict("s") == Refused
    ensures s.Repathed("r") <==> "r" !in named
    ensures Decodes(s.d) && Nulled(s.d) == {}
  {
    assert Lookup(s.d.qosDecs, "q") == Some(QosData("new", false));
    assert Merged(s.d, s.datas, WHOLE).1 == Some(QosData("new", false));
    assert Merged(s.d, s.datas, WHOLE).0 == None;
    assert Lookup(s.d.traffContDecs, "t") == Some(TcData([Some("edge")]));
    assert Dnai(Merged(s.d, s.datas, EDGE).0) == Some("edge");
    assert Changed(s.d, s.datas, WHOLE);
  }

  lemma SecondFails(s: Start, verdict: Verdict, rules: map<string, PCCRule>, tunnel: Tunnel, deleted: set<string>,
                    tried: set<string>)
    requires s.target == map["r" := WHOLE, "s" := EDGE] && s.Verdict("r") == Accepted && s.Verdict("s") == Refused
    requires Decodes(s.d) && Nulled(s.d) == {} && s.rules.Keys == {"r"}
    requires Failed(s, verdict, rules, tunnel, deleted, tried)
    ensures verdict == Refused && rules.Keys == {"r"} && "r" in tried
    ensures PathsOf(s.rules, {"r"}) <= tunnel.toBeRemoved
  {
    var last :| LastTried(s, verdict, tried, last);
    assert last == "s" && "r" in s.target;
  }

  /** The QoS data of an installed rule change, and the decision sets a rule that has no route: it
      is refused, but the installed rule has moved to its new path. */
  method MovedRun() returns (ctx: SMContext, verdict: Verdict, ghost before: Option<int>)
    ensures verdict == Refused && ctx.Valid() && "r" in ctx.PCCRules
    ensures before.Some? && ctx.PCCRules["r"].datapath != before && before.value in ctx.tunnel.toBeRemoved
  {
    ctx := OneRule();
    before := ctx.PCCRules["r"].datapath;
    ghost var s, deleted, tried;
    verdict, s, deleted, tried := ctx.ApplyPccRules(Some(Setting(map["s" := Some(EDGE)], "new")), map[]);
    SecondRules(s, map["s" := Some(EDGE)]);
    SecondFails(s, verdict, ctx.PCCRules, ctx.tunnel, deleted, tried);
    assert s.rules["r"].datapath.value in PathsOf(s.rules, {"r"});
  }

  /** The same where the decision also names the installed rule: that keeps its old path, which is
      to be removed. */
  method MarkedRun() returns (ctx: SMContext, verdict: Verdict)
    ensures verdict == Refused && !ctx.Valid() && "r" in ctx.PCCRules
    ensures ctx.PCCRules["r"].datapath.Some? && ctx.PCCRules["r"].datapath.value in ctx.tunnel.toBeRemoved
  {
    ctx := OneRule();
    ghost var s, deleted, tried;
    var named := map["r" := Some(WHOLE), "s" := Some(EDGE)];
    verdict, s, deleted, tried := ctx.ApplyPccRules(Some(Setting(named, "new")), map[]);
    SecondRules(s, named);
    SecondFails(s, verdict, ctx.PCCRules, ctx.tunnel, deleted, tried);
    assert Outdated(s, "r", tried);
  }

  /** A rule is set whose path cannot get its PDRs. */
  method WithoutPdrsRun() returns (verdict: Verdict)
    ensures verdict == Panicked
  {
    var ctx := new SMContext({""});
    ghost var s, deleted, tried;
    verdict, s, deleted, tried := ctx.ApplyPccRules(Some(Setting(map["r" := Some(WHOLE)], "old")), map["r" := NoPdrs]);
    FirstRule(s);
    assert Decodes(s.d) && "r" in s.target;
  }

  /** The QoS data of an installed rule are nulled: the rule is kept with its QFI, which is free to be
      given to other QoS data. */
  method NulledQfiRun() returns (ctx: SMContext, verdict: Verdict)
    ensures verdict == Accepted && ctx.Valid() && "r" in ctx.PCCRules
    ensures ctx.PCCRules["r"].QFI != 0 && ctx.PCCRules["r"].QFI !in ctx.qfis.used
    ensures !AllCurrent(ctx.PCCRules, ctx.qfis)
  {
    ctx := OneRule();
    ghost var q := ctx.qfis;
    assert q.table["q"] in q.table.Values;
    ghost var s, deleted, tried;
    var d := Decision(map[], map[], map["q" := None], map[]);
    verdict, s, deleted, tried := ctx.ApplyPccRules(Some(d), map[]);
    assert s.target == map[] by { NothingChanged(s); }
    assert Stale(s, "r");
    StaleIsNotCurrent(s, q, ctx.PCCRules, ctx.qfis, "r");
    assert !Current(ctx.PCCRules["r"], ctx.qfis);
    assert ctx.qfis.table.Keys == {};
    assert ctx.qfis.table.Values == {};
  }

  lemma NothingChanged(s: Start)
    requires s == StartOf(Decision(map[], map[], map["q" := None], map[]), s.rules, s.datas, s.tunnel, s.routes,
                          s.setups)
    ensures s.target == map[]
  {
    assert forall m: PccModel :: !Changed(s.d, s.datas, m);
  }
}
