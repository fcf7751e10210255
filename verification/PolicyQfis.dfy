/** internal/context/sm_context_policy.go with the QFI table of sm_context.go: the QFIs that the
    rules of a merge are given. */
module PolicyQfis {
  import opened PolicyMerges
  import opened Wrappers

  /** The QFI of QoS data, 0 while they have none. */
  function QfiOf(q: QfiTable, qosId: string): nat {
    if qosId in q.table then q.table[qosId] else 0
  }

  /** All QFIs from 2 to 63 are in use. */
  ghost predicate Full(q: QfiTable) {
    forall v :: 2 <= v <= 63 ==> v in q.used
  }

  lemma NotFullAtFirst(q: QfiTable)
    ensures q.table.Keys == {} ==> !Full(q)
  {
    if q.table.Keys == {} { assert 2 !in q.table.Values; }
  }

  /** Some of these QoS data have got a QFI, none if all were in use. */
  ghost predicate Grew(q: QfiTable, q': QfiTable, ids: set<string>) {
    && (forall a <- q.table :: a in q'.table && q'.table[a] == q.table[a])
    && (forall a <- q'.table :: a in q.table || a in ids)
    && (Full(q) ==> q' == q)
  }

  lemma GrewOn(q: QfiTable, q': QfiTable, q'': QfiTable, ids: set<string>)
    requires Grew(q, q', ids) && Grew(q', q'', ids)
    ensures Grew(q, q'', ids)
  {
  }

  /** The ids of the QoS data that the rules to be created refer to. */
  ghost function QosRefs(s: Start): set<string> {
    set id <- s.target | s.target[id].RefQosDataID() != "" :: s.target[id].RefQosDataID()
  }

  // The rule has the QFI of its QoS data, and without QoS data the one it came with.
  ghost predicate HasQfi(r: PCCRule, before: nat, q: QfiTable) {
    var qosId := r.model.RefQosDataID();
    if qosId == "" then r.QFI == before else r.QFI == QfiOf(q, qosId) && (qosId in q.table || Full(q))
  }

  /** A rule that was created has the QFI of its QoS data, 0 only if these have none and all are in
      use. Without QoS data a new rule has 0 and an installed one keeps what it has. */
  ghost predicate GivenQfi(s: Start, id: string, r: PCCRule, q: QfiTable) {
    HasQfi(r, if id in s.d.pccRules then 0 else if id in s.rules then s.rules[id].QFI else 0, q)
  }

  lemma StaysGiven(s: Start, id: string, r: PCCRule, q: QfiTable, q': QfiTable, ids: set<string>)
    requires GivenQfi(s, id, r, q) && Grew(q, q', ids)
    ensures GivenQfi(s, id, r, q')
  {
  }

  /** All of these rules were given their QFIs. */
  ghost predicate AllGiven(s: Start, ids: set<string>, rules: map<string, PCCRule>, q: QfiTable) {
    forall id <- ids :: id in rules && GivenQfi(s, id, rules[id], q)
  }

  lemma StayGiven(s: Start, ids: set<string>, rules: map<string, PCCRule>, q: QfiTable, q': QfiTable, refs: set<string>)
    requires AllGiven(s, ids, rules, q) && Grew(q, q', refs)
    ensures AllGiven(s, ids, rules, q')
  {
    forall id <- ids
      ensures id in rules && GivenQfi(s, id, rules[id], q')
    {
      StaysGiven(s, id, rules[id], q, q', refs);
    }
  }

  /** A pass has created the rules of its queue that are not to do, and left the others as they were. */
  ghost predicate PassGiven(s: Start, queue: set<string>, todo: set<string>, rules0: map<string, PCCRule>,
                            rules: map<string, PCCRule>, q: QfiTable) {
    AllGiven(s, queue - todo, rules, q) && forall id <- rules0 :: id in rules && rules[id] == rules0[id]
  }

  lemma PassGoesOn(s: Start, queue: set<string>, todo: set<string>, rules0: map<string, PCCRule>,
                   rules: map<string, PCCRule>, q: QfiTable, q': QfiTable, refs: set<string>, id: string, r: PCCRule)
    requires PassGiven(s, queue, todo, rules0, rules, q) && Grew(q, q', refs) && GivenQfi(s, id, r, q')
    requires id in todo && id !in rules0
    ensures PassGiven(s, queue, todo - {id}, rules0, rules[id := r], q')
  {
    StayGiven(s, queue - todo, rules, q, q', refs);
  }

  // Both passes are over.
  lemma BothGiven(s: Start, pdu: set<string>, flow: set<string>, final0: map<string, PCCRule>,
                  first: map<string, PCCRule>, q: QfiTable, second: map<string, PCCRule>, q': QfiTable)
    requires PassGiven(s, pdu, {}, final0, first, q) && Grew(q, q', QosRefs(s))
    requires PassGiven(s, flow, {}, first, second, q')
    ensures AllGiven(s, pdu + flow, second, q')
  {
    StayGiven(s, pdu - {}, first, q, q', QosRefs(s));
  }

  /** Every installed rule has the QFI it had, or was given one. */
  ghost predicate KeepQfis(s: Start, rules: map<string, PCCRule>, q: QfiTable) {
    forall id <- rules :: id in s.rules && (rules[id].QFI == s.rules[id].QFI || GivenQfi(s, id, rules[id], q))
  }

  lemma UntouchedKeep(s: Start, rules: map<string, PCCRule>, q: QfiTable)
    requires forall id <- rules :: id in s.rules && rules[id] == s.rules[id]
    ensures KeepQfis(s, rules, q)
  {
  }

  /** The table has grown, and installed rules still have the QFIs they had or were given. */
  ghost predicate QfisMoved(s: Start, q: QfiTable, rules: map<string, PCCRule>, q': QfiTable,
                            rules': map<string, PCCRule>) {
    Grew(q, q', QosRefs(s)) && (KeepQfis(s, rules, q) ==> KeepQfis(s, rules', q'))
  }

  lemma MovedOn(s: Start, q: QfiTable, rules: map<string, PCCRule>, q': QfiTable, rules': map<string, PCCRule>,
                q'': QfiTable, rules'': map<string, PCCRule>)
    requires QfisMoved(s, q, rules, q', rules') && QfisMoved(s, q', rules', q'', rules'')
    ensures QfisMoved(s, q, rules, q'', rules'')
  {
    GrewOn(q, q', q'', QosRefs(s));
  }

  // A rule was tried, whose object is in the table of rules if the decision does not name it.
  lemma OneMoved(s: Start, rules: map<string, PCCRule>, q: QfiTable, q': QfiTable, id: string, rule: PCCRule,
                 r: PCCRule)
    requires Queued(rule, id, s) && r.model == rule.model && TargetOk(s)
    requires HasQfi(r, rule.QFI, q') && Grew(q, q', {rule.model.RefQosDataID()} - {""})
    ensures QfisMoved(s, q, rules, q', if id in s.d.pccRules then rules else rules[id := r])
    ensures GivenQfi(s, id, r, q')
  {
    var refs, rules' := QosRefs(s), if id in s.d.pccRules then rules else rules[id := r];
    assert {rule.model.RefQosDataID()} - {""} <= refs;
    if KeepQfis(s, rules, q) {
      forall k <- rules'
        ensures k in s.rules && (rules'[k].QFI == s.rules[k].QFI || GivenQfi(s, k, rules'[k], q'))
      {
        if k != id || id in s.d.pccRules {
          if GivenQfi(s, k, rules[k], q) { StaysGiven(s, k, rules[k], q, q', refs); }
        }
      }
    }
  }

  /** The QoS data that the decision nulls. */
  ghost predicate NullsQos(d: Decision, qosId: string) {
    qosId in d.qosDecs && d.qosDecs[qosId].None?
  }

  // The table after the QFIs of nulled QoS data were given back.
  ghost predicate Dropped(d: Decision, q: QfiTable, q': QfiTable) {
    && (forall a :: a in q'.table <==> a in q.table && !NullsQos(d, a))
    && forall a <- q'.table :: q'.table[a] == q.table[a]
  }

  /** What a merge does to the table: QoS data keep their QFIs unless they are nulled, and only those
      that a rule to be created refers to have got one. */
  ghost predicate TableMerged(s: Start, q: QfiTable, q': QfiTable) {
    && (forall a <- q.table :: !NullsQos(s.d, a) ==> a in q'.table && q'.table[a] == q.table[a])
    && forall a <- q'.table :: (a in q.table && !NullsQos(s.d, a)) || a in QosRefs(s)
  }

  lemma MergedTable(s: Start, q: QfiTable, between: QfiTable, q': QfiTable)
    requires Dropped(s.d, q, between) && Grew(between, q', QosRefs(s))
    ensures TableMerged(s, q, q')
  {
  }

  /** Two of the created rules that have QoS data have the same QFI exactly if they have the same QoS
      data or both have none. */
  lemma DifferentQfis(s: Start, rules: map<string, PCCRule>, q: QfiTable, i: string, j: string)
    requires AllGiven(s, s.target.Keys, rules, q) && i in s.target && j in s.target
    requires rules[i].model.RefQosDataID() != "" && rules[j].model.RefQosDataID() != ""
    ensures rules[i].QFI == rules[j].QFI
            <==> rules[i].model.RefQosDataID() == rules[j].model.RefQosDataID() || rules[i].QFI == rules[j].QFI == 0
  {
    assert forall a <- q.table :: q.table[a] in q.table.Values;
  }

  // --- Installed rules and the table ---

  /** The rule has the QFI that the table holds for its QoS data, or none. */
  predicate Current(r: PCCRule, q: QfiTable) {
    r.QFI == 0 || (r.model.RefQosDataID() != "" && r.QFI == QfiOf(q, r.model.RefQosDataID()))
  }

  ghost predicate AllCurrent(rules: map<string, PCCRule>, q: QfiTable) {
    forall id <- rules :: Current(rules[id], q)
  }

  /** A rule that is kept has a QFI of QoS data that the decision nulls. */
  ghost predicate Stale(s: Start, id: string) {
    id in s.rules && id !in s.d.pccRules && id !in s.target && s.rules[id].QFI != 0
        && NullsQos(s.d, s.rules[id].model.RefQosDataID())
  }

  /** What an accepted decision makes of the rules and of the table. */
  ghost predicate Granted(s: Start, q: QfiTable, rules: map<string, PCCRule>, q': QfiTable) {
    && AllGiven(s, s.target.Keys, rules, q') && TableMerged(s, q, q')
    && (forall id <- s.target :: id in rules && rules[id].model == s.target[id])
    && forall id <- rules :: id !in s.target ==> id in s.rules && id !in s.d.pccRules && rules[id] == s.rules[id]
  }

  lemma AppliedGranted(s: Start, q: QfiTable, rules: map<string, PCCRule>, datas: Datas, tunnel: Tunnel, q': QfiTable)
    requires Applied(s.d, s.target, s.rules, s.datas, s.tunnel, rules, datas, tunnel) && TargetOk(s)
    requires AllGiven(s, s.target.Keys, rules, q') && TableMerged(s, q, q')
    ensures Granted(s, q, rules, q')
  {
  }

  /** The rules stay current, unless one is kept whose QoS data are nulled. */
  lemma StaysCurrent(s: Start, q: QfiTable, rules: map<string, PCCRule>, q': QfiTable)
    requires TargetOk(s) && Granted(s, q, rules, q') && AllCurrent(s.rules, q)
    requires forall id <- rules :: !Stale(s, id)
    ensures AllCurrent(rules, q')
  {
    forall id <- rules
      ensures Current(rules[id], q')
    {
      if id in s.target {
        assert GivenQfi(s, id, rules[id], q');
        if id !in s.d.pccRules { assert Wanted(s.rules[id].model, id, s); }
      }
    }
  }

  /** Such a rule is not current afterwards, but if a rule to be created refers to the same data and
      happens to get the same QFI. */
  lemma StaleIsNotCurrent(s: Start, q: QfiTable, rules: map<string, PCCRule>, q': QfiTable, id: string)
    requires Granted(s, q, rules, q') && Stale(s, id) && id in rules
    ensures var qosId := rules[id].model.RefQosDataID();
            Current(rules[id], q') <==> qosId in QosRefs(s) && QfiOf(q', qosId) == rules[id].QFI
  {
  }

  /** Rules that are current have different QFIs if they have different QoS data. */
  lemma CurrentDiffer(rules: map<string, PCCRule>, q: QfiTable, i: string, j: string)
    requires AllCurrent(rules, q) && i in rules && j in rules && rules[i].QFI == rules[j].QFI != 0
    ensures rules[i].model.RefQosDataID() == rules[j].model.RefQosDataID()
  {
    assert forall a <- q.table :: q.table[a] in q.table.Values;
  }
}
