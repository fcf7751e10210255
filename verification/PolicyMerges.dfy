/** What merging a policy decision of internal/context/sm_context_policy.go means: the rules, data
    and paths it may end with, and its histories, one step for each rule. */
module PolicyMerges {
  import opened Wrappers

  const MAX_PATH_ID := 2147483647

  // --- Decisions and rules ---

  datatype ChargingLevel = PduSessionCharging | FlowCharging

  /** Traffic control data: the DNAI of each route, None for a nil element. */
  datatype TcData = TcData(routeToLocs: seq<Option<string>>)

  datatype QosData = QosData(content: string, gbr: bool)

  datatype ChgData = ChgData(content: string)

  /** A PCC rule as the PCF sends it. `level` is what decoding its flow description gives;
      `hasPfd` says whether the configuration has a flow description for its application. */
  datatype PccModel = PccModel(level: Option<ChargingLevel>, hasFlowInfos: bool, hasFlowDescription: bool,
                               hasAppId: bool, hasPfd: bool, precedence: nat,
                               refTcData: seq<string>, refQosData: seq<string>, refChgData: seq<string>)
  {
    function RefTcDataID(): string { First(refTcData) }
    function RefQosDataID(): string { First(refQosData) }
    function RefChgDataID(): string { First(refChgData) }
  }

  function First(refs: seq<string>): string {
    if |refs| > 0 then refs[0] else ""
  }

  /** A rule object. The source passes it by reference: `ProcessRule` says where that shows. */
  datatype PCCRule = PCCRule(model: PccModel, QFI: nat, datapath: Option<int>)

  /** A map value of None is an explicit null. */
  datatype Decision = Decision(pccRules: map<string, Option<PccModel>>, traffContDecs: map<string, Option<TcData>>,
                               qosDecs: map<string, Option<QosData>>, chgDecs: map<string, Option<ChgData>>)

  datatype Path = Path(isDefaultPath: bool, gbrFlow: bool, marked: bool)

  // --- Referenced data ---

  function Lookup<T>(data: map<string, Option<T>>, id: string): Option<T> {
    if id == "" || id !in data then None else data[id]
  }

  /** The data a rule gets: the decision's, and else what is installed. */
  function Target<T>(decs: map<string, Option<T>>, installed: map<string, Option<T>>, id: string): Option<T> {
    if Lookup(decs, id).Some? then Lookup(decs, id) else Lookup(installed, id)
  }

  /** The data maps and their merge with a decision. */
  datatype Datas = Datas(tc: map<string, Option<TcData>>, qos: map<string, Option<QosData>>, chg: map<string,
      Option<ChgData>>)

  function Merged(d: Decision, installed: Datas, m: PccModel): (Option<TcData>, Option<QosData>, Option<ChgData>) {
    (Target(d.traffContDecs, installed.tc, m.RefTcDataID()), Target(d.qosDecs, installed.qos, m.RefQosDataID()),
     Target(d.chgDecs, installed.chg, m.RefChgDataID()))
  }

  /** An installed rule whose data the decision changes has to be created anew. */
  predicate Changed(d: Decision, installed: Datas, m: PccModel) {
    Merged(d, installed, m) !=
      (Lookup(installed.tc, m.RefTcDataID()), Lookup(installed.qos, m.RefQosDataID()),
          Lookup(installed.chg, m.RefChgDataID()))
  }

  // --- What a decision asks for ---

  /** Rules to be created: those the decision sets and the installed ones it changes. */
  function ToProcess(d: Decision, installed: Datas, rules: map<string, PCCRule>): map<string, PccModel> {
    map id <- d.pccRules.Keys + rules.Keys |
      if id in d.pccRules then d.pccRules[id].Some? else Changed(d, installed, rules[id].model)
      :: if id in d.pccRules then d.pccRules[id].value else rules[id].model
  }

  // Where traffic control data sends a rule; None if the route is missing.
  function Dnai(tc: Option<TcData>): Option<string> {
    if tc.Some? && |tc.value.routeToLocs| > 0 then tc.value.routeToLocs[0] else Some("")
  }

  predicate FlowsApply(m: PccModel) {
    (m.hasFlowInfos || m.hasAppId) && (m.hasFlowDescription || m.hasPfd)
  }

  /** What setting up the path of a rule comes to, from its activation over its forwarding
      parameters to charging and QoS. A path whose activation fails stays, without PDRs on some
      node (`NoPdrs`) or with all of them. A panic comes in the activation or after it. */
  datatype Setup = FullySetUp | NoPdrs | ActivationPanics | LaterPanics

  /** How creating a rule, or a whole merge, ends. */
  datatype Verdict = Accepted | Refused | Panicked

  /** The user plane has a path to the DNAI of the rule's route. */
  predicate Routed(tc: Option<TcData>, routes: set<string>) {
    Dnai(tc).Some? && Dnai(tc).value in routes
  }

  /** A rule to be created gets a new path, whatever else fails. */
  predicate GetsPath(d: Decision, installed: Datas, m: PccModel, routes: set<string>, setup: Setup) {
    Routed(Merged(d, installed, m).0, routes) && !setup.ActivationPanics?
  }

  /** A rule is created if its flow description decodes, there is a path to its route's DNAI, and
      it has flows to apply, which are written into the PDRs of the path whether or not they exist. */
  function VerdictOn(d: Decision, installed: Datas, m: PccModel, routes: set<string>, setup: Setup): Verdict {
    if m.level.None? || !Routed(Merged(d, installed, m).0, routes) then Refused
    else if setup.ActivationPanics? || setup.LaterPanics? then Panicked
    else if !FlowsApply(m) then Refused
    else if setup.NoPdrs? then Panicked
    else Accepted
  }

  /** The ids that the rules refer to. */
  ghost function Refs(rules: map<string, PCCRule>, ref: PccModel -> string): set<string> {
    set id <- rules | ref(rules[id].model) != "" :: ref(rules[id].model)
  }

  lemma RefsGrow(rules: map<string, PCCRule>, id: string, r: PCCRule, ref: PccModel -> string)
    requires id !in rules
    ensures Refs(rules[id := r], ref) == Refs(rules, ref) + if ref(r.model) == "" then {} else {ref(r.model)}
  {
    var rules' := rules[id := r];
    assert rules'[id] == r;
    forall k <- Refs(rules, ref) ensures k in Refs(rules', ref) {
      var i :| i in rules && ref(rules[i].model) != "" && k == ref(rules[i].model);
      assert rules'[i] == rules[i];
    }
  }

  /** A data map holds exactly the ids that the rules refer to, with the merged data. */
  ghost predicate Exact<T>(data: map<string, Option<T>>, refs: set<string>, decs: map<string, Option<T>>,
                           installed: map<string, Option<T>>) {
    data.Keys == refs && forall id <- data :: data[id] == Target(decs, installed, id)
  }

  ghost predicate ExactDatas(datas: Datas, rules: map<string, PCCRule>, d: Decision, installed: Datas) {
    && Exact(datas.tc, Refs(rules, (m: PccModel) => m.RefTcDataID()), d.traffContDecs, installed.tc)
    && Exact(datas.qos, Refs(rules, (m: PccModel) => m.RefQosDataID()), d.qosDecs, installed.qos)
    && Exact(datas.chg, Refs(rules, (m: PccModel) => m.RefChgDataID()), d.chgDecs, installed.chg)
  }

  function WithData<T>(data: map<string, Option<T>>, id: string, decs: map<string, Option<T>>, installed: map<string,
                       Option<T>>): map<string, Option<T>> {
    if id == "" then data else data[id := Target(decs, installed, id)]
  }

  // What a rule adds to the data maps.
  function WithDatas(datas: Datas, m: PccModel, d: Decision, installed: Datas): Datas {
    Datas(WithData(datas.tc, m.RefTcDataID(), d.traffContDecs, installed.tc),
          WithData(datas.qos, m.RefQosDataID(), d.qosDecs, installed.qos),
          WithData(datas.chg, m.RefChgDataID(), d.chgDecs, installed.chg))
  }

  lemma ExactWith<T>(data: map<string, Option<T>>, decs: map<string, Option<T>>, installed: map<string, Option<T>>,
                     rules: map<string, PCCRule>, id: string, r: PCCRule, ref: PccModel -> string)
    requires Exact(data, Refs(rules, ref), decs, installed) && id !in rules
    ensures Exact(WithData(data, ref(r.model), decs, installed), Refs(rules[id := r], ref), decs, installed)
  {
    RefsGrow(rules, id, r, ref);
  }

  lemma ExactGrows(datas: Datas, rules: map<string, PCCRule>, id: string, r: PCCRule, d: Decision, installed: Datas)
    requires ExactDatas(datas, rules, d, installed) && id !in rules
    ensures ExactDatas(WithDatas(datas, r.model, d, installed), rules[id := r], d, installed)
  {
    ExactWith(datas.tc, d.traffContDecs, installed.tc, rules, id, r, (m: PccModel) => m.RefTcDataID());
    ExactWith(datas.qos, d.qosDecs, installed.qos, rules, id, r, (m: PccModel) => m.RefQosDataID());
    ExactWith(datas.chg, d.chgDecs, installed.chg, rules, id, r, (m: PccModel) => m.RefChgDataID());
  }

  // --- Data paths of rules ---

  /** The tunnel's pool of data paths, the ids handed out for them, and the paths to be removed
      when the UPFs have answered. */
  datatype TunnelState = TunnelState(pool: map<int, Path>, ids: set<int>, toBeRemoved: set<int>)

  // Exactly the paths to be removed are marked, and at most one path is the default one.
  predicate TunnelOk(t: TunnelState) {
    && t.toBeRemoved <= t.pool.Keys <= t.ids && (forall p <- t.ids :: 1 <= p <= MAX_PATH_ID)
    && (forall p <- t.pool :: t.pool[p].marked <==> p in t.toBeRemoved)
    && forall i <- t.pool, j <- t.pool :: t.pool[i].isDefaultPath && t.pool[j].isDefaultPath ==> i == j
  }

  type Tunnel = t: TunnelState | TunnelOk(t) witness TunnelState(map[], {}, {})

  datatype QfiState = QfiState(table: map<string, nat>, used: set<nat>)

  // Different QoS data have different QFIs, and these are the ones in use.
  predicate OneToOne(q: QfiState) {
    && q.table.Values == q.used && (forall v <- q.used :: 2 <= v <= 63)
    && forall a <- q.table, b <- q.table :: q.table[a] == q.table[b] ==> a == b
  }

  type QfiTable = q: QfiState | OneToOne(q) witness QfiState(map[], {})

  lemma {:induction false} FreePathID(used: set<int>, max: nat)
    requires |used| < max && forall p <- used :: 1 <= p
    ensures exists p :: 1 <= p <= max && p !in used
  {
    if max in used && forall p :: 1 <= p <= max ==> p in used {
      var rest := used - {max};
      FreePathID(rest, max - 1);
    }
  }

  lemma OneToOneAdds(q: QfiTable, id: string, v: nat)
    requires id !in q.table && v !in q.used && 2 <= v <= 63
    ensures OneToOne(QfiState(q.table[id := v], q.used + {v}))
  {
    var table := q.table[id := v];
    forall w <- q.used + {v} ensures w in table.Values {
      if w == v {
        assert table[id] == v;
      } else {
        var k :| k in q.table && q.table[k] == w;
        assert table[k] == w;
      }
    }
    forall a <- q.table ensures q.table[a] in q.used { assert q.table[a] in q.table.Values; }
  }

  lemma OneToOneDrops(q: QfiTable, id: string)
    requires id in q.table
    ensures OneToOne(QfiState(q.table - {id}, q.used - {q.table[id]}))
  {
    var table := q.table - {id};
    forall v <- q.used - {q.table[id]} ensures v in table.Values {
      var k :| k in q.table && q.table[k] == v;
      assert table[k] == v;
    }
    forall a <- table ensures table[a] in q.used - {q.table[id]} { assert q.table[a] in q.table.Values; }
  }

  /** The data paths of the rules with the given ids. */
  ghost function PathsOf(rules: map<string, PCCRule>, ids: set<string>): set<int> {
    set id <- ids | id in rules && rules[id].datapath.Some? :: rules[id].datapath.value
  }

  lemma AddPath(t: Tunnel, id: int, isDefaultPath: bool, gbrFlow: bool)
    requires id !in t.ids && 1 <= id <= MAX_PATH_ID
    requires (isDefaultPath ==> forall p <- t.pool :: !t.pool[p].isDefaultPath)
    ensures TunnelOk(t.(pool := t.pool[id := Path(isDefaultPath, gbrFlow, false)], ids := t.ids + {id}))
  {
  }

  lemma PoolWith(pool: map<int, Path>, id: int, path: Path)
    requires id !in pool
    ensures pool[id := path].Keys == pool.Keys + {id} && pool[id := path] - {id} == pool
  {
  }

  // Every rule has a data path of its own in the pool, none of which is to be removed.
  ghost predicate OwnPaths(rules: map<string, PCCRule>, paths: set<int>) {
    (forall id <- rules :: rules[id].datapath.Some? && rules[id].datapath.value in paths) && OnePathEach(rules)
  }

  /** Every rule decodes and has a data path of its own, which is not about to be removed. */
  ghost predicate InOrder(rules: map<string, PCCRule>, t: Tunnel) {
    OwnPaths(rules, t.pool.Keys - t.toBeRemoved) && forall id <- rules :: rules[id].model.level.Some?
  }

  /** The paths of a tunnel that belong to no rule and are not about to be removed. */
  ghost function NonPccPaths(rules: map<string, PCCRule>, t: Tunnel): set<int> {
    t.pool.Keys - t.toBeRemoved - PathsOf(rules, rules.Keys)
  }

  // --- Merges ---

  /** What a merge starts from, the rules it is to create, the DNAIs that have a path, and what
      setting up the path of each rule comes to. */
  datatype Start = Start(d: Decision, rules: map<string, PCCRule>, datas: Datas, tunnel: Tunnel,
                         target: map<string, PccModel>, routes: set<string>, setups: map<string, Setup>)
  {
    function Setup(id: string): Setup {
      if id in setups then setups[id] else FullySetUp
    }

    function Verdict(id: string): Verdict
      requires id in target
    {
      VerdictOn(d, datas, target[id], routes, Setup(id))
    }

    /** The rule to be created is the installed object itself, and it gets a new path. */
    predicate Repathed(id: string) {
      id in target && id !in d.pccRules && GetsPath(d, datas, target[id], routes, Setup(id))
    }
  }

  function StartOf(d: Decision, rules: map<string, PCCRule>, datas: Datas, tunnel: Tunnel, routes: set<string>,
                   setups: map<string, Setup>): Start {
    Start(d, rules, datas, tunnel, ToProcess(d, datas, rules), routes, setups)
  }

  datatype MergeState = MergeState(s: Start, gone: set<string>, final: map<string, PCCRule>, datas: Datas,
      tunnel: Tunnel)

  /** A merge under way: the installed rules in `gone` have been deleted or replaced and their
      paths are to be removed, and `final` has rules that are kept as they are and rules that the
      decision asks for, each on a path of its own that is new. */
  ghost predicate Merging(m: MergeState) {
    var s := m.s;
    && OwnPaths(s.rules, s.tunnel.pool.Keys - s.tunnel.toBeRemoved) && s.tunnel.ids <= m.tunnel.ids
    && m.tunnel.toBeRemoved == s.tunnel.toBeRemoved + PathsOf(s.rules, m.gone)
    && m.tunnel.pool.Keys == s.tunnel.pool.Keys + PathsOf(m.final, m.final.Keys)
    && (forall k <- m.final :: FinalOk(s, k, m.final[k], m.gone)) && OnePathEach(m.final)
  }

  // A rule of the merge's result: created as the decision asks, or kept.
  ghost predicate FinalOk(s: Start, k: string, r: PCCRule, gone: set<string>) {
    if k in s.target then Created(r, s.target[k], s.tunnel) && k in gone
        else k in s.rules && k !in gone && r == s.rules[k]
  }

  ghost predicate OnePathEach(rules: map<string, PCCRule>) {
    forall i, j :: i in rules && j in rules && i != j ==> rules[i].datapath != rules[j].datapath
  }

  ghost predicate Created(r: PCCRule, m: PccModel, before: Tunnel) {
    r.model == m && r.datapath.Some? && r.datapath.value !in before.ids
  }

  const EMPTY := TunnelState(map[], {}, {})

  const NO_DATAS := Datas(map[], map[], map[])

  lemma PathsOfGrow(rules: map<string, PCCRule>, id: string, r: PCCRule)
    requires id !in rules && r.datapath.Some?
    ensures PathsOf(rules[id := r], rules[id := r].Keys) == PathsOf(rules, rules.Keys) + {r.datapath.value}
  {
    var rules' := rules[id := r];
    assert rules'[id] == r;
    forall p <- PathsOf(rules, rules.Keys) ensures p in PathsOf(rules', rules'.Keys) {
      var i :| i in rules && rules[i].datapath == Some(p);
      assert rules'[i] == rules[i];
    }
  }

  lemma GoneGrows(rules: map<string, PCCRule>, gone: set<string>, id: string)
    ensures PathsOf(rules, gone + {id}) == PathsOf(rules, gone) + PathsOf(rules, {id})
  {
  }

  // The tunnel may have new paths.
  ghost predicate Widened(t: Tunnel, t': Tunnel) {
    t.pool.Keys <= t'.pool.Keys && t.ids <= t'.ids && (t'.pool.Keys - t.pool.Keys) !! t.ids
  }

  // A rule could not be created: the old path of a rule with its id is to be removed all the same.
  ghost predicate Tried(m: MergeState, id: string, tunnel: Tunnel) {
    tunnel.toBeRemoved == m.tunnel.toBeRemoved + PathsOf(m.s.rules, {id}) && Widened(m.tunnel, tunnel)
  }

  // The old path of a rule, if there is one with this id, is to be removed.
  ghost predicate Drops(m: MergeState, id: string, tunnel: Tunnel) {
    id !in m.final && tunnel.toBeRemoved == m.tunnel.toBeRemoved + PathsOf(m.s.rules, {id})
  }

  // An installed rule that needs no change is kept.
  ghost predicate KeepStep(m: MergeState, id: string, m': MergeState) {
    && id in m.s.rules && id !in m.s.target && id !in m.gone && id !in m.final
    && m' == m.(final := m.final[id := m.s.rules[id]],
        datas := WithDatas(m.datas, m.s.rules[id].model, m.s.d, m.s.datas))
  }

  // An installed rule, if there is one with this id, is deleted.
  ghost predicate RemoveStep(m: MergeState, id: string, m': MergeState) {
    && Drops(m, id, m'.tunnel) && m'.tunnel.ids == m.tunnel.ids && m'.tunnel.pool.Keys == m.tunnel.pool.Keys
    && m' == m.(gone := m.gone + {id}, tunnel := m'.tunnel)
  }

  // A rule the decision asks for is created on a new path in the place of any installed one with its id.
  ghost predicate CreateStep(m: MergeState, id: string, r: PCCRule, m': MergeState) {
    && Drops(m, id, m'.tunnel) && id in m.s.target && m.s.target[id] == r.model
    && r.datapath.Some? && r.datapath.value !in m.tunnel.ids && m'.tunnel.ids == m.tunnel.ids + {r.datapath.value}
    && m'.tunnel.pool.Keys == m.tunnel.pool.Keys + {r.datapath.value}
    && m' == MergeState(m.s, m.gone + {id}, m.final[id := r], WithDatas(m.datas, r.model, m.s.d, m.s.datas), m'.tunnel)
  }

  ghost predicate Step(m: MergeState, m': MergeState) {
    || (exists id :: KeepStep(m, id, m'))
    || (exists id :: RemoveStep(m, id, m'))
    || (exists id, r :: CreateStep(m, id, r, m'))
  }

  ghost predicate Begins(m: MergeState) {
    OwnPaths(m.s.rules, m.s.tunnel.pool.Keys - m.s.tunnel.toBeRemoved)
        && m == MergeState(m.s, {}, map[], NO_DATAS, m.s.tunnel)
  }

  /** How a merge came about, state by state. */
  ghost predicate IsHistory(h: seq<MergeState>) {
    h != [] && Begins(h[0]) && forall i | 0 <= i < |h| - 1 :: StepAt(h, i)
  }

  ghost predicate StepAt(h: seq<MergeState>, i: nat)
    requires i + 1 < |h|
  {
    Step(h[i], h[i + 1])
  }

  type History = h: seq<MergeState> | IsHistory(h)
    ghost witness [MergeState(Start(Decision(map[], map[], map[], map[]), map[], NO_DATAS, EMPTY, map[], {}, map[]), {},
        map[], NO_DATAS, EMPTY)]

  ghost function Outcome(h: History): MergeState {
    h[|h| - 1]
  }

  lemma Begin(s: Start) returns (h: History)
    requires OwnPaths(s.rules, s.tunnel.pool.Keys - s.tunnel.toBeRemoved)
    ensures Outcome(h) == MergeState(s, {}, map[], NO_DATAS, s.tunnel)
  {
    h := [MergeState(s, {}, map[], NO_DATAS, s.tunnel)];
  }

  lemma Extend(h: History, m: MergeState) returns (h': History)
    requires Step(Outcome(h), m)
    ensures Outcome(h') == m
  {
    var longer := h + [m];
    forall i | 0 <= i < |longer| - 1
      ensures StepAt(longer, i)
    {
      if i < |h| - 1 { assert StepAt(h, i) && longer[i] == h[i] && longer[i + 1] == h[i + 1]; }
    }
    h' := longer;
  }

  // The history up to the last step.
  lemma Shorter(h: History) returns (g: History)
    requires |h| > 1
    ensures |g| == |h| - 1 && Step(Outcome(g), Outcome(h))
  {
    var shorter := h[..|h| - 1];
    forall i | 0 <= i < |shorter| - 1
      ensures StepAt(shorter, i)
    {
      assert StepAt(h, i) && shorter[i] == h[i] && shorter[i + 1] == h[i + 1];
    }
    g := shorter;
    assert StepAt(h, |h| - 2);
  }

  lemma {:induction false} LegalMerging(h: History)
    ensures Merging(Outcome(h))
    decreases |h|
  {
    var n := |h| - 1;
    if n == 0 {
      assert PathsOf(h[0].s.rules, {}) == {} && PathsOf(map[], {}) == {};
    } else {
      var g := Shorter(h);
      LegalMerging(g);
      StepMerging(Outcome(g), h[n]);
    }
  }

  lemma StepMerging(m: MergeState, m': MergeState)
    requires Merging(m) && Step(m, m')
    ensures Merging(m')
  {
    if id :| KeepStep(m, id, m') {
      MergingKeeps(m, id);
    } else if id :| RemoveStep(m, id, m') {
      GoneGrows(m.s.rules, m.gone, id);
    } else {
      var id, r :| CreateStep(m, id, r, m');
      MergingCreates(m, id, r, m'.tunnel);
    }
  }

  lemma MergingKeeps(m: MergeState, id: string)
    requires Merging(m) && id in m.s.rules && id !in m.s.target && id !in m.gone && id !in m.final
    ensures Merging(m.(final := m.final[id := m.s.rules[id]],
            datas := WithDatas(m.datas, m.s.rules[id].model, m.s.d, m.s.datas)))
  {
    var r, final := m.s.rules[id], m.final[id := m.s.rules[id]];
    PathsOfGrow(m.final, id, r);
    forall k <- m.final
      ensures m.final[k].datapath != r.datapath
    {
      assert FinalOk(m.s, k, m.final[k], m.gone);
    }
    OnePathMore(m.final, id, r);
    forall k <- final
      ensures FinalOk(m.s, k, final[k], m.gone)
    {
      if k != id { assert FinalOk(m.s, k, m.final[k], m.gone); }
    }
  }

  /** The data gathered on the way are exactly those that the rules refer to. */
  lemma {:induction false} LegalGathers(h: History)
    ensures ExactDatas(Outcome(h).datas, Outcome(h).final, Outcome(h).s.d, Outcome(h).s.datas)
    decreases |h|
  {
    var n := |h| - 1;
    if n > 0 {
      var g := Shorter(h);
      LegalGathers(g);
      StepGathers(Outcome(g), h[n]);
    }
  }

  lemma StepGathers(m: MergeState, m': MergeState)
    requires ExactDatas(m.datas, m.final, m.s.d, m.s.datas) && Step(m, m')
    ensures ExactDatas(m'.datas, m'.final, m'.s.d, m'.s.datas)
  {
    if id :| KeepStep(m, id, m') {
      ExactGrows(m.datas, m.final, id, m.s.rules[id], m.s.d, m.s.datas);
    } else if id, r :| CreateStep(m, id, r, m') {
      ExactGrows(m.datas, m.final, id, r, m.s.d, m.s.datas);
    }
  }

  lemma MergingCreates(m: MergeState, id: string, r: PCCRule, tunnel: Tunnel)
    requires Merging(m) && Drops(m, id, tunnel) && id in m.s.target && m.s.target[id] == r.model
    requires r.datapath.Some? && r.datapath.value !in m.tunnel.ids
    requires tunnel.ids == m.tunnel.ids + {r.datapath.value}
    requires tunnel.pool.Keys == m.tunnel.pool.Keys + {r.datapath.value}
    ensures Merging(MergeState(m.s, m.gone + {id}, m.final[id := r], WithDatas(m.datas, r.model, m.s.d, m.s.datas),
            tunnel))
  {
    GoneGrows(m.s.rules, m.gone, id);
    PathsOfGrow(m.final, id, r);
    OnePathMore(m.final, id, r);
    var final := m.final[id := r];
    forall k <- final
      ensures FinalOk(m.s, k, final[k], m.gone + {id})
    {
      if k != id { assert FinalOk(m.s, k, m.final[k], m.gone); }
    }
  }

  lemma OnePathMore(rules: map<string, PCCRule>, id: string, r: PCCRule)
    requires OnePathEach(rules) && id !in rules && r.datapath.Some? && r.datapath.value !in PathsOf(rules, rules.Keys)
    ensures OnePathEach(rules[id := r])
  {
    assert forall i <- rules :: rules[i].datapath == r.datapath ==> r.datapath.value in PathsOf(rules, rules.Keys);
  }

  /** Once every installed rule has been kept, deleted or replaced, every rule has its own path
      and the paths of no rule are the same as before. */
  lemma MergingEnds(m: MergeState)
    requires Merging(m) && m.s.rules.Keys <= m.gone + m.final.Keys
    ensures OwnPaths(m.final, m.tunnel.pool.Keys - m.tunnel.toBeRemoved)
    ensures NonPccPaths(m.final, m.tunnel) == NonPccPaths(m.s.rules, m.s.tunnel)
  {
    var s := m.s;
    forall p ensures p in PathsOf(s.rules, m.gone) ==> p in s.tunnel.pool && p !in PathsOf(m.final, m.final.Keys) {
    }
    forall p ensures p in PathsOf(s.rules, s.rules.Keys) <==>
                     p in PathsOf(s.rules, m.gone) || (p in PathsOf(m.final, m.final.Keys) && p in s.tunnel.pool) {
      if p in PathsOf(s.rules, s.rules.Keys) {
        var i :| i in s.rules && s.rules[i].datapath == Some(p);
        if i !in m.gone { assert m.final[i] == s.rules[i]; }
      }
    }
  }

  lemma HistoryMerges(h: History)
    ensures Merging(Outcome(h))
    ensures ExactDatas(Outcome(h).datas, Outcome(h).final, Outcome(h).s.d, Outcome(h).s.datas)
  {
    LegalMerging(h);
    LegalGathers(h);
  }

  // The rule with this id is still what it was when the merge started.
  ghost predicate Untouched(rules: map<string, PCCRule>, id: string, s: Start) {
    (id in rules <==> id in s.rules) && (id in rules ==> rules[id] == s.rules[id])
  }

  // The path of a rule that is still untouched.
  lemma OldPath(rules: map<string, PCCRule>, id: string, h: History)
    requires Untouched(rules, id, Outcome(h).s)
    ensures id in rules ==> rules[id].datapath.Some? && rules[id].datapath.value in Outcome(h).tunnel.pool
    ensures PathsOf(Outcome(h).s.rules, {id}) == if id in rules then {rules[id].datapath.value} else {}
  {
    HistoryMerges(h);
  }

  // --- The course of a merge ---

  /** The table of installed rules while rules are being created: one that the decision does not
      name shows its new path as soon as it has it. */
  ghost function InPlace(m: MergeState): map<string, PCCRule> {
    Shown(m.s.rules, Nulled(m.s.d), m.s.d.pccRules.Keys, m.final)
  }

  ghost function Shown(rules: map<string, PCCRule>, nulled: set<string>, named: set<string>,
                       final: map<string, PCCRule>): map<string, PCCRule> {
    map id <- rules | id !in nulled :: if id in final && id !in named then final[id] else rules[id]
  }

  lemma ShownMore(rules: map<string, PCCRule>, nulled: set<string>, named: set<string>, final: map<string, PCCRule>,
                  id: string, r: PCCRule)
    requires id in named || (id in rules && id !in nulled)
    ensures Shown(rules, nulled, named, final[id := r]) ==
            if id in named then Shown(rules, nulled, named, final) else Shown(rules, nulled, named, final)[id := r]
  {
  }

  lemma PlacedAtFirst(h: History)
    requires forall id <- Outcome(h).s.target :: id !in Outcome(h).final
    ensures InPlace(Outcome(h)) == Outcome(h).s.rules - Nulled(Outcome(h).s.d)
  {
    HistoryMerges(h);
    var m := Outcome(h);
    assert forall k <- m.final :: FinalOk(m.s, k, m.final[k], m.gone);
  }

  lemma PlaceCreated(m: MergeState, id: string, r: PCCRule, m': MergeState)
    requires m'.s == m.s && m'.final == m.final[id := r] && id in m.s.target && TargetOk(m.s)
    ensures InPlace(m') == if id in m.s.d.pccRules then InPlace(m) else InPlace(m)[id := r]
  {
    ShownMore(m.s.rules, Nulled(m.s.d), m.s.d.pccRules.Keys, m.final, id, r);
  }

  lemma QueuedUntouched(m: MergeState, r: PCCRule, id: string)
    requires Queued(r, id, m.s) && id !in m.final && TargetOk(m.s)
    ensures Untouched(InPlace(m), id, m.s)
  {
  }

  // Creating the rule has failed: the installed object of a rule that the decision does not name
  // has its new path if there is one.
  ghost predicate LeftAt(m: MergeState, id: string, rules: map<string, PCCRule>, tunnel: Tunnel) {
    && rules.Keys == InPlace(m).Keys
    && (forall k <- rules :: k != id || k in m.s.d.pccRules ==> rules[k] == InPlace(m)[k])
    && (id !in m.s.d.pccRules && id in rules ==> Left(m.s, id, rules[id], m.tunnel, tunnel))
  }

  lemma LeftByRule(m: MergeState, id: string, rule: PCCRule, created: PCCRule, rules: map<string, PCCRule>,
                   tunnel: Tunnel)
    requires Queued(rule, id, m.s) && created.model == rule.model && TargetOk(m.s)
    requires rules == if id in m.s.d.pccRules then InPlace(m) else InPlace(m)[id := created]
    requires if GetsPath(m.s.d, m.s.datas, rule.model, m.s.routes, m.s.Setup(id))
             then created.datapath.Some? && created.datapath.value !in m.tunnel.ids
                 && created.datapath.value in tunnel.pool
             else created.datapath == rule.datapath
    ensures LeftAt(m, id, rules, tunnel)
  {
    if id !in m.s.d.pccRules { assert id in InPlace(m); }
  }

  // What is left of an installed rule that was tried to be created.
  ghost predicate Left(s: Start, id: string, r: PCCRule, before: Tunnel, tunnel: Tunnel)
    requires id in s.rules
  {
    && r.model == s.rules[id].model
    && if s.Repathed(id) then r.datapath.Some? && r.datapath.value !in before.ids && r.datapath.value in tunnel.pool
       else r.datapath == s.rules[id].datapath
  }

  // The rules that a decision nulls.
  ghost function Nulled(d: Decision): set<string> {
    set id <- d.pccRules | d.pccRules[id].None?
  }

  ghost predicate Decodes(d: Decision) {
    forall id <- d.pccRules :: d.pccRules[id].Some? ==> d.pccRules[id].value.level.Some?
  }

  // The first scan has come to the rules of the decision that are not to do.
  ghost predicate DecisionQueued(s: Start, rules: map<string, PCCRule>, gone: set<string>,
                                 pdu: map<string, PCCRule>, flow: map<string, PCCRule>, todo: set<string>) {
    && rules == s.rules - gone && Split(pdu, flow, s)
    && (forall id <- s.d.pccRules | id !in todo :: s.d.pccRules[id].Some? ==> s.d.pccRules[id].value.level.Some?)
    && (forall id :: id in gone <==> id in Nulled(s.d) && id !in todo)
    && forall id :: id in pdu || id in flow <==> id in s.d.pccRules && s.d.pccRules[id].Some? && id !in todo
  }

  lemma DecisionDeletes(s: Start, rules: map<string, PCCRule>, gone: set<string>, pdu: map<string, PCCRule>,
                        flow: map<string, PCCRule>,
                        todo: set<string>, id: string)
    requires DecisionQueued(s, rules, gone, pdu, flow, todo + {id}) && id !in todo && id in Nulled(s.d)
    ensures DecisionQueued(s, rules - {id}, gone + {id}, pdu, flow, todo) && Untouched(rules, id, s)
  {
    assert s.rules - gone - {id} == s.rules - (gone + {id});
  }

  lemma DecisionAdds(s: Start, rules: map<string, PCCRule>, gone: set<string>, pdu: map<string, PCCRule>,
                     flow: map<string, PCCRule>,
                     todo: set<string>, id: string, r: PCCRule)
    requires DecisionQueued(s, rules, gone, pdu, flow, todo + {id}) && id !in todo && TargetOk(s)
    requires id in s.d.pccRules && s.d.pccRules[id] == Some(r.model) && r.model.level.Some?
    requires r == PCCRule(r.model, 0, None)
    ensures r.model.level == Some(PduSessionCharging) ==> DecisionQueued(s, rules, gone, pdu[id := r], flow, todo)
    ensures r.model.level == Some(FlowCharging) ==> DecisionQueued(s, rules, gone, pdu, flow[id := r], todo)
  {
    SplitGrows(pdu, flow, s, id, r);
  }

  lemma NothingQueued(s: Start)
    ensures DecisionQueued(s, s.rules, {}, map[], map[], s.d.pccRules.Keys)
  {
    assert s.rules - {} == s.rules;
  }

  // A pass over a queue has created the rules of it that are not to do.
  ghost predicate Processed(h0: History, h: History, todo: set<string>, queue: set<string>, s: Start) {
    var m0, m := Outcome(h0), Outcome(h);
    && m0.gone <= m.gone && (forall id <- m0.final :: id in m.final)
        && (forall id <- queue :: id !in todo ==> id in m.gone)
    && forall id <- m.gone :: id !in m0.gone ==>
         id in queue && id in m.final && id in s.target && s.Verdict(id) == Accepted
  }

  /** A pass over a queue that began after h0 with some rules already final. */
  datatype Pass = Pass(h0: History, s: Start, queue: set<string>, final: set<string>) {
    // Where it has come to.
    ghost predicate At(h: History, todo: set<string>, final: map<string, PCCRule>, finalDatas: Datas,
                       rules: map<string, PCCRule>, tunnel: Tunnel) {
      && Stage(h, s, final, finalDatas, tunnel) && rules == InPlace(Outcome(h)) && Processed(h0, h, todo, queue, s)
      && forall id :: id in final <==> id in this.final || (id in queue && id !in todo)
    }
  }

  lemma PassBetween(p: Pass, q: Pass, h: History, final: map<string, PCCRule>, finalDatas: Datas,
                    rules: map<string, PCCRule>, tunnel: Tunnel)
    requires p.At(h, {}, final, finalDatas, rules, tunnel) && q == Pass(h, p.s, q.queue, final.Keys)
    requires q.queue !! p.final && q.queue !! p.queue
    ensures q.At(h, q.queue, final, finalDatas, rules, tunnel) && q.queue !! q.final
    ensures Processed(p.h0, h, {}, p.queue, p.s)
  {
  }

  lemma PassesDone(p: Pass, q: Pass, h: History, final: map<string, PCCRule>, finalDatas: Datas,
                   rules: map<string, PCCRule>, tunnel: Tunnel)
    requires q.At(h, {}, final, finalDatas, rules, tunnel) && Processed(p.h0, q.h0, {}, p.queue, p.s) && p.s == q.s
    requires forall id :: id in q.final <==> id in p.final || id in p.queue
    ensures Stage(h, p.s, final, finalDatas, tunnel) && Outcome(p.h0).gone <= Outcome(h).gone
    ensures forall id :: id in final <==> id in p.final || id in p.queue || id in q.queue
  {
  }

  lemma OneLess(queue: set<string>, todo: set<string>, id: string)
    requires id in todo && todo <= queue
    ensures |todo - {id}| == |todo| - 1 && queue - (todo - {id}) == queue - todo + {id}
  {
  }

  lemma ProcessedOne(h0: History, before: History, h: History, queue: set<string>, todo: set<string>, id: string,
                     s: Start)
    requires Processed(h0, before, todo, queue, s) && id in queue
    requires id in s.target && s.Verdict(id) == Accepted && Outcome(h).gone == Outcome(before).gone + {id}
    requires forall k :: k in Outcome(h).final <==> k == id || k in Outcome(before).final
    ensures Processed(h0, h, todo - {id}, queue, s)
  {
  }

  // It has stopped at a rule that cannot be created.
  ghost predicate Stopped(h0: History, h: History, s: Start, queue: set<string>, failed: string, verdict: Verdict,
                          rules: map<string, PCCRule>, tunnel: Tunnel) {
    && Outcome(h).s == s && Processed(h0, h, queue, queue, s)
    && failed in queue && failed in s.target && verdict == s.Verdict(failed) != Accepted
    && Tried(Outcome(h), failed, tunnel) && LeftAt(Outcome(h), failed, rules, tunnel)
  }

  // The second pass begins after the first one has created all of its rules.
  ghost predicate PassesInOrder(pdu: set<string>, created: set<string>, failed: string) {
    if failed in pdu then created <= pdu else pdu <= created
  }

  lemma StoppedSooner(h0: History, h: History, s: Start, pdu: set<string>, flow: set<string>, failed: string,
                      verdict: Verdict, rules: map<string, PCCRule>, tunnel: Tunnel)
    requires Stopped(h0, h, s, pdu, failed, verdict, rules, tunnel) && pdu !! flow
    ensures Stopped(h0, h, s, pdu + flow, failed, verdict, rules, tunnel)
    ensures PassesInOrder(pdu, Outcome(h).gone - Outcome(h0).gone, failed)
  {
  }

  lemma StoppedLater(h0: History, between: History, h: History, s: Start, pdu: set<string>, flow: set<string>,
                     failed: string, verdict: Verdict, rules: map<string, PCCRule>, tunnel: Tunnel)
    requires Processed(h0, between, {}, pdu, s) && pdu !! flow && pdu !! Outcome(h0).gone
    requires Stopped(between, h, s, flow, failed, verdict, rules, tunnel)
    ensures Stopped(h0, h, s, pdu + flow, failed, verdict, rules, tunnel)
    ensures PassesInOrder(pdu, Outcome(h).gone - Outcome(h0).gone, failed)
  {
  }

  ghost predicate AllAccepted(ids: set<string>, s: Start) {
    forall id <- ids :: id in s.target && s.Verdict(id) == Accepted
  }

  /** What a decision that fails leaves: some of the rules it nulls are deleted, and if everything
      decodes all of them; then rules were tried to be created, ones that can be and a last one
      that fails. The old paths of the rules deleted and tried are to be removed. Every rule that
      is left has a path of its own. */
  ghost predicate Failed(s: Start, verdict: Verdict, rules: map<string, PCCRule>, tunnel: Tunnel,
                         deleted: set<string>, tried: set<string>) {
    && deleted <= Nulled(s.d) && rules.Keys == s.rules.Keys - deleted && tried <= s.target.Keys
    && (forall id <- rules :: RuleLeft(s, id, rules[id], tunnel, tried)) && OnePathEach(rules)
    && tunnel.toBeRemoved == s.tunnel.toBeRemoved + PathsOf(s.rules, deleted + tried) && Widened(s.tunnel, tunnel)
    && if Decodes(s.d) then deleted == Nulled(s.d) && exists last :: LastTried(s, verdict, tried, last)
       else tried == {} && verdict == Refused
  }

  ghost predicate RuleLeft(s: Start, id: string, r: PCCRule, tunnel: Tunnel, tried: set<string>)
    requires id in s.rules
  {
    if id in tried && id !in s.d.pccRules then Left(s, id, r, s.tunnel, tunnel) else r == s.rules[id]
  }

  /** The rule was tried, and its old path is still the one it has. */
  ghost predicate Outdated(s: Start, id: string, tried: set<string>) {
    id in tried && !s.Repathed(id)
  }

  /** The merge ends as the last rule tried; rules that charge the whole session come first. */
  ghost predicate LastTried(s: Start, verdict: Verdict, tried: set<string>, last: string) {
    && tried <= s.target.Keys && last in tried && verdict != Accepted
    && (forall id <- tried :: s.Verdict(id) == if id == last then verdict else Accepted)
    && if s.target[last].level == Some(PduSessionCharging)
       then forall id <- tried :: s.target[id].level == Some(PduSessionCharging)
       else forall id <- s.target :: s.target[id].level == Some(PduSessionCharging) ==> id in tried
  }

  lemma ScanFailed(h: History, s: Start, tunnel: Tunnel)
    requires Stage(h, s, map[], NO_DATAS, tunnel) && Outcome(h).gone <= Nulled(s.d) && !Decodes(s.d)
    requires tunnel.ids == s.tunnel.ids
    ensures Failed(s, Refused, s.rules - Outcome(h).gone, tunnel, Outcome(h).gone, {})
  {
    HistoryMerges(h);
    assert PathsOf(map[], {}) == {} && Outcome(h).gone + {} == Outcome(h).gone;
  }

  lemma Undecodable(s: Start)
    requires TargetOk(s) && !Decodes(s.d)
    ensures !AllAccepted(s.target.Keys, s)
  {
    var id :| id in s.d.pccRules && s.d.pccRules[id].Some? && s.d.pccRules[id].value.level.None?;
    assert s.target[id] == s.d.pccRules[id].value && id in s.target.Keys;
  }

  lemma PassFailed(h0: History, h: History, s: Start, pdu: map<string, PCCRule>, flow: map<string, PCCRule>,
                   final: set<string>, failed: string, verdict: Verdict, before: map<string, PCCRule>,
                   rules: map<string, PCCRule>, tunnel: Tunnel)
    requires Ready(s, before, pdu, flow, final, Outcome(h0).gone)
    requires Stopped(h0, h, s, pdu.Keys + flow.Keys, failed, verdict, rules, tunnel)
    requires PassesInOrder(pdu.Keys, Outcome(h).gone - Outcome(h0).gone, failed)
    ensures Failed(s, verdict, rules, tunnel, Nulled(s.d), Outcome(h).gone - Nulled(s.d) + {failed})
  {
    TriedLast(h0, h, s, pdu, flow, failed, verdict, rules, tunnel);
    StoppedLeaves(h0, h, s, pdu.Keys + flow.Keys, failed, verdict, rules, tunnel);
  }

  lemma StoppedLeaves(h0: History, h: History, s: Start, queue: set<string>, failed: string, verdict: Verdict,
                      rules: map<string, PCCRule>, tunnel: Tunnel)
    requires Stopped(h0, h, s, queue, failed, verdict, rules, tunnel) && Outcome(h0).gone == Nulled(s.d) && TargetOk(s)
    ensures rules.Keys == s.rules.Keys - Nulled(s.d) && OnePathEach(rules)
    ensures var tried := Outcome(h).gone - Nulled(s.d) + {failed};
            && (forall id <- rules :: RuleLeft(s, id, rules[id], tunnel, tried))
            && tunnel.toBeRemoved == s.tunnel.toBeRemoved + PathsOf(s.rules, Nulled(s.d) + tried)
                && Widened(s.tunnel, tunnel)
  {
    var m := Outcome(h);
    HistoryMerges(h);
    FailedTunnel(m, failed, tunnel);
    GoneAndFailed(Nulled(s.d), m.gone, failed);
    LeftOnePathEach(m, failed, rules, tunnel);
    PlaceKeys(m);
    GoneCreated(h0, h, queue, s);
    RulesLeft(m, failed, rules, tunnel, m.gone - Nulled(s.d) + {failed});
  }

  lemma PlaceKeys(m: MergeState)
    ensures InPlace(m).Keys == m.s.rules.Keys - Nulled(m.s.d)
  {
  }

  lemma GoneCreated(h0: History, h: History, queue: set<string>, s: Start)
    requires Processed(h0, h, queue, queue, s) && Outcome(h0).gone == Nulled(s.d) && Outcome(h).s == s
    ensures forall k <- Outcome(h).gone :: k !in Nulled(s.d) ==>
              k in Outcome(h).final && k in Outcome(h).s.target && Outcome(h).s.Verdict(k) == Accepted
  {
  }

  lemma RulesLeft(m: MergeState, failed: string, rules: map<string, PCCRule>, tunnel: Tunnel, tried: set<string>)
    requires Merging(m) && TargetOk(m.s) && LeftAt(m, failed, rules, tunnel) && Widened(m.tunnel, tunnel)
    requires forall k <- m.gone :: k !in Nulled(m.s.d) ==> k in m.final && k in m.s.target && m.s.Verdict(k) == Accepted
    requires forall k :: k in tried <==> k == failed || (k in m.gone && k !in Nulled(m.s.d))
    ensures forall id <- rules :: id in m.s.rules && RuleLeft(m.s, id, rules[id], tunnel, tried)
  {
    forall id <- rules
      ensures id in m.s.rules && RuleLeft(m.s, id, rules[id], tunnel, tried)
    {
      OneRuleLeft(m, failed, rules, tunnel, tried, id);
    }
  }

  lemma OneRuleLeft(m: MergeState, failed: string, rules: map<string, PCCRule>, tunnel: Tunnel, tried: set<string>,
                    id: string)
    requires Merging(m) && TargetOk(m.s) && LeftAt(m, failed, rules, tunnel) && Widened(m.tunnel, tunnel) && id in rules
    requires forall k <- m.gone :: k !in Nulled(m.s.d) ==> k in m.final && k in m.s.target && m.s.Verdict(k) == Accepted
    requires forall k :: k in tried <==> k == failed || (k in m.gone && k !in Nulled(m.s.d))
    ensures id in m.s.rules && RuleLeft(m.s, id, rules[id], tunnel, tried)
  {
    if id in m.s.d.pccRules {
      assert rules[id] == m.s.rules[id];
    } else if id == failed {
      assert Left(m.s, id, rules[id], m.tunnel, tunnel);
    } else if id in m.final {
      FinalLeft(m, tunnel, id);
      assert rules[id] == m.final[id];
    } else {
      assert rules[id] == m.s.rules[id] && id !in tried;
    }
  }

  // A rule in the merge's result that the decision does not name.
  lemma FinalLeft(m: MergeState, tunnel: Tunnel, id: string)
    requires Merging(m) && Widened(m.tunnel, tunnel) && id in m.final && id !in m.s.d.pccRules && id in m.s.rules
    requires id in m.gone ==> id in m.s.target && m.s.Verdict(id) == Accepted
    requires id in m.s.target ==> m.s.target[id] == m.s.rules[id].model
    ensures if id in m.gone then Left(m.s, id, m.final[id], m.s.tunnel, tunnel) else m.final[id] == m.s.rules[id]
  {
    assert FinalOk(m.s, id, m.final[id], m.gone);
    if id in m.gone { assert m.final[id].datapath.value in PathsOf(m.final, m.final.Keys); }
  }

  lemma LeftOnePathEach(m: MergeState, failed: string, rules: map<string, PCCRule>, tunnel: Tunnel)
    requires Merging(m) && LeftAt(m, failed, rules, tunnel)
    ensures OnePathEach(rules)
  {
    forall i, j | i in rules && j in rules && i != j
      ensures rules[i].datapath != rules[j].datapath
    {
    }
  }

  lemma GoneAndFailed(nulled: set<string>, gone: set<string>, failed: string)
    requires nulled <= gone
    ensures nulled + (gone - nulled + {failed}) == gone + {failed}
  {
  }

  lemma FailedTunnel(m: MergeState, failed: string, tunnel: Tunnel)
    requires Merging(m) && Tried(m, failed, tunnel)
    ensures tunnel.toBeRemoved == m.s.tunnel.toBeRemoved + PathsOf(m.s.rules, m.gone + {failed})
    ensures Widened(m.s.tunnel, tunnel)
  {
    GoneGrows(m.s.rules, m.gone, failed);
    NewFinalPaths(m);
    WidenedTwice(m.s.tunnel, m.tunnel, tunnel);
  }

  lemma WidenedTwice(a: Tunnel, b: Tunnel, c: Tunnel)
    requires Widened(a, b) && Widened(b, c)
    ensures Widened(a, c)
  {
  }

  lemma TriedLast(h0: History, h: History, s: Start, pdu: map<string, PCCRule>, flow: map<string, PCCRule>,
                  failed: string, verdict: Verdict, rules: map<string, PCCRule>, tunnel: Tunnel)
    requires Outcome(h0).gone == Nulled(s.d) && Split(pdu, flow, s) && forall id <- s.target :: id in pdu || id in flow
    requires Stopped(h0, h, s, pdu.Keys + flow.Keys, failed, verdict, rules, tunnel)
    requires PassesInOrder(pdu.Keys, Outcome(h).gone - Outcome(h0).gone, failed)
    ensures LastTried(s, verdict, Outcome(h).gone - Nulled(s.d) + {failed}, failed)
  {
    SplitByLevel(pdu, flow, s);
    var tried := Outcome(h).gone - Nulled(s.d) + {failed};
    assert forall id <- tried :: id == failed || id in Outcome(h).gone - Outcome(h0).gone;
  }

  lemma SplitByLevel(pdu: map<string, PCCRule>, flow: map<string, PCCRule>, s: Start)
    requires Split(pdu, flow, s) && forall id <- s.target :: id in pdu || id in flow
    ensures forall id <- s.target :: id in pdu <==> s.target[id].level == Some(PduSessionCharging)
  {
    forall id <- s.target
      ensures id in pdu <==> s.target[id].level == Some(PduSessionCharging)
    {
      assert id in pdu || id in flow;
    }
  }

  // The paths of the rules created are new.
  lemma NewFinalPaths(m: MergeState)
    requires Merging(m)
    ensures Widened(m.s.tunnel, m.tunnel)
  {
  }

  lemma FailedPaths(s: Start, verdict: Verdict, rules: map<string, PCCRule>, tunnel: Tunnel, deleted: set<string>,
                    tried: set<string>)
    requires Failed(s, verdict, rules, tunnel, deleted, tried)
    requires InOrder(s.rules, s.tunnel)
    ensures forall id <- rules ::
              rules[id].datapath.Some? && (rules[id].datapath.value in tunnel.toBeRemoved <==> Outdated(s, id, tried))
    ensures InOrder(rules, tunnel) <==> forall id <- rules :: !Outdated(s, id, tried)
  {
    forall id <- rules
      ensures rules[id].model == s.rules[id].model
      ensures rules[id].datapath.Some? && rules[id].datapath.value in tunnel.pool
      ensures rules[id].datapath.value in tunnel.toBeRemoved <==> Outdated(s, id, tried)
    {
      assert RuleLeft(s, id, rules[id], tunnel, tried);
      PathOfOne(s.rules, deleted + tried, id);
    }
  }

  // The path of a rule is among those of some rules exactly if the rule is.
  lemma PathOfOne(rules: map<string, PCCRule>, ids: set<string>, id: string)
    requires OnePathEach(rules) && id in rules && rules[id].datapath.Some?
    ensures rules[id].datapath.value in PathsOf(rules, ids) <==> id in ids
  {
  }

  // Rules on paths of their own have as many paths as there are rules.
  lemma {:induction false} CountPaths(rules: map<string, PCCRule>, ids: set<string>, paths: set<int>)
    requires OwnPaths(rules, paths) && ids <= rules.Keys
    ensures |PathsOf(rules, ids)| == |ids|
  {
    if ids == {} {
      assert PathsOf(rules, ids) == {};
    } else {
      var id :| id in ids;
      CountPaths(rules, ids - {id}, paths);
      GoneGrows(rules, ids - {id}, id);
      assert ids == ids - {id} + {id};
      OnePath(rules, id);
      assert rules[id].datapath.value !in PathsOf(rules, ids - {id});
    }
  }

  lemma OnePath(rules: map<string, PCCRule>, id: string)
    requires id in rules && rules[id].datapath.Some?
    ensures PathsOf(rules, {id}) == {rules[id].datapath.value}
  {
    assert rules[id].datapath.value in PathsOf(rules, {id});
  }

  // Every installed rule is gone or final, and the final rules are those the decision asks for.
  ghost predicate Complete(s: Start, gone: set<string>, final: set<string>) {
    && s.rules.Keys <= gone + final
    && forall id :: id in final <==> if id in s.d.pccRules then s.d.pccRules[id].Some? else id in s.rules
  }

  /** What a decision makes of the rules, their data and the tunnel. */
  ghost predicate Applied(d: Decision, target: map<string, PccModel>, rules: map<string, PCCRule>, datas: Datas,
                          tunnel: Tunnel,
                          rules': map<string, PCCRule>, datas': Datas, tunnel': Tunnel) {
    && (forall id :: id in rules' <==> if id in d.pccRules then d.pccRules[id].Some? else id in rules)
    && (forall id <- rules' ::
        if id in target then Created(rules'[id], target[id], tunnel) else id in rules && rules'[id] == rules[id])
    && ExactDatas(datas', rules', d, datas)
    && NonPccPaths(rules', tunnel') == NonPccPaths(rules, tunnel)
  }

  lemma MergeComplete(h: History, s: Start, final: map<string, PCCRule>, finalDatas: Datas, tunnel: Tunnel)
    requires Stage(h, s, final, finalDatas, tunnel) && Complete(s, Outcome(h).gone, final.Keys)
    requires TargetOk(s) && forall id <- s.rules :: s.rules[id].model.level.Some?
    requires forall id <- s.target :: s.target[id].level.Some?
    ensures Applied(s.d, s.target, s.rules, s.datas, s.tunnel, final, finalDatas, tunnel)
    ensures InOrder(final, tunnel)
  {
    HistoryMerges(h);
    MergingEnds(Outcome(h));
  }

  lemma QueueSizes(pdu: map<string, PCCRule>, flow: map<string, PCCRule>, s: Start)
    requires Split(pdu, flow, s) && TargetOk(s)
    ensures |pdu| + |flow| <= |s.rules| + |s.d.pccRules|
  {
    Subset(pdu.Keys + flow.Keys, s.d.pccRules.Keys + s.rules.Keys);
    assert |pdu.Keys + flow.Keys| == |pdu.Keys| + |flow.Keys|;
  }

  lemma {:induction false} Subset<T>(a: set<T>, b: set<T>)
    requires a <= b
    ensures |a| <= |b|
  {
    if a != {} {
      var x :| x in a;
      Subset(a - {x}, b - {x});
    }
  }

  // An installed rule is to be created anew exactly if its data change.
  ghost predicate Wanted(m: PccModel, id: string, s: Start) {
    (id in s.target <==> Changed(s.d, s.datas, m)) && (id in s.target ==> s.target[id] == m)
  }

  /** The rules to be created are those the decision sets and the installed ones it changes. */
  ghost predicate TargetOk(s: Start) {
    && (forall id <- s.d.pccRules ::
        (id in s.target <==> s.d.pccRules[id].Some?) && (id in s.target ==> s.target[id] == s.d.pccRules[id].value))
    && (forall id <- s.rules :: id !in s.d.pccRules ==> Wanted(s.rules[id].model, id, s))
    && forall id <- s.target :: id in s.d.pccRules || id in s.rules
  }

  lemma ToProcessOk(s: Start)
    requires s.target == ToProcess(s.d, s.datas, s.rules)
    ensures TargetOk(s)
  {
  }

  /** The two queues hold, by charging level, rules that are to be created. */
  ghost predicate Split(pdu: map<string, PCCRule>, flow: map<string, PCCRule>, s: Start) {
    && (forall id <- pdu :: id !in flow)
    && (forall id <- pdu :: InQueue(pdu[id], id, s) && pdu[id].model.level == Some(PduSessionCharging))
    && (forall id <- flow :: InQueue(flow[id], id, s) && flow[id].model.level == Some(FlowCharging))
  }

  // Queueing one more rule, by its charging level.
  lemma SplitGrows(pdu: map<string, PCCRule>, flow: map<string, PCCRule>, s: Start, id: string, r: PCCRule)
    requires Split(pdu, flow, s) && id !in pdu && id !in flow && InQueue(r, id, s) && r.model.level.Some?
    ensures r.model.level == Some(PduSessionCharging) ==> Split(pdu[id := r], flow, s)
    ensures r.model.level == Some(FlowCharging) ==> Split(pdu, flow[id := r], s)
  {
  }

  ghost predicate InQueue(r: PCCRule, id: string, s: Start) {
    && id in s.target && s.target[id] == r.model
    && if id in s.d.pccRules then r == PCCRule(r.model, 0, None) else id in s.rules && r == s.rules[id]
  }

  // Where a merge has come to.
  ghost predicate Stage(h: History, s: Start, final: map<string, PCCRule>, datas: Datas, tunnel: Tunnel) {
    Outcome(h) == MergeState(s, Outcome(h).gone, final, datas, tunnel)
  }

  lemma BothQueues(pdu: map<string, PCCRule>, flow: map<string, PCCRule>, s: Start)
    requires Split(pdu, flow, s) && forall id <- s.target :: id in pdu || id in flow
    ensures AllAccepted(pdu.Keys, s) && AllAccepted(flow.Keys, s) <==> AllAccepted(s.target.Keys, s)
  {
    if AllAccepted(pdu.Keys, s) && AllAccepted(flow.Keys, s) {
      forall id <- s.target ensures s.Verdict(id) == Accepted {
        assert id in pdu || id in flow;
      }
    }
  }

  ghost predicate QueuedAll(queue: map<string, PCCRule>, s: Start) {
    forall id <- queue :: Queued(queue[id], id, s)
  }

  // The scans are done, and every rule to be created is in a queue.
  ghost predicate Ready(s: Start, rules: map<string, PCCRule>, pdu: map<string, PCCRule>, flow: map<string, PCCRule>,
                        final: set<string>, gone: set<string>) {
    && rules == s.rules - Nulled(s.d) && gone == Nulled(s.d) && Decodes(s.d) && TargetOk(s) && Split(pdu, flow, s)
    && (forall id <- s.target :: (id in pdu || id in flow) && id !in final && Untouched(rules, id, s))
    && Complete(s, gone, final + s.target.Keys)
  }

  lemma QueuesReady(s: Start, rules: map<string, PCCRule>, pdu: map<string, PCCRule>, flow: map<string, PCCRule>,
                    final: set<string>, gone: set<string>)
    requires Ready(s, rules, pdu, flow, final, gone)
    ensures QueuedAll(pdu, s) && QueuedAll(flow, s)
    ensures (forall id <- final :: id !in pdu && id !in flow) && pdu.Keys !! flow.Keys !! gone
    ensures AllAccepted(pdu.Keys, s) && AllAccepted(flow.Keys, s) <==> AllAccepted(s.target.Keys, s)
  {
    BothQueues(pdu, flow, s);
  }

  lemma CompleteAfter(s: Start, rules: map<string, PCCRule>, gone0: set<string>, gone: set<string>, final0: set<string>,
                      pdu: map<string, PCCRule>, flow: map<string, PCCRule>, final: set<string>)
    requires Ready(s, rules, pdu, flow, final0, gone0) && gone0 <= gone
    requires forall id :: id in final <==> id in final0 || id in pdu || id in flow
    ensures Complete(s, gone, final)
  {
    assert forall id :: id in final <==> id in final0 + s.target.Keys;
  }

  // A rule in a queue: the decision's, or an installed one.
  ghost predicate Queued(r: PCCRule, id: string, s: Start) {
    InQueue(r, id, s) && r.model.level.Some?
  }
}
