/** internal/sbi/processor/datapath.go: ActivateUPFSession collects the rules of all activated data
    paths by UPF and sends each UPF one request. Over any run of policy changes, updates of the
    access network, requests and removals, every rule is created once and removed once, and no
    request names a rule that its UPF does not have. */
module PfcpSessions {
  import opened PfcpRequests
  import opened RuleStates
  import opened Wrappers

  datatype Node = Node(ip: string, up: Option<PDR>, down: Option<PDR>)

  datatype Path = Path(activated: bool, nodes: seq<Node>)

  // --- Batches ---

  const EMPTY := Batch([], [], [], [])

  function Join(a: Batch, b: Batch): Batch {
    Batch(a.pdrs + b.pdrs, a.fars + b.fars, a.qers + b.qers, a.urrs + b.urrs)
  }

  /** Only the uplink PDR's QERs are collected. */
  function NodeBatch(n: Node): Batch {
    var up := if n.up.Some? then Batch([n.up.value], [n.up.value.far], n.up.value.qers, n.up.value.urrs) else EMPTY;
    var down := if n.down.Some? then Batch([n.down.value], [n.down.value.far], [], n.down.value.urrs) else EMPTY;
    Join(up, down)
  }

  /** What the nodes of one UPF contribute. */
  function BatchFor(nodes: seq<Node>, ip: string): Batch {
    if nodes == [] then EMPTY
    else
      var last := nodes[|nodes| - 1];
      var rest := BatchFor(nodes[..|nodes| - 1], ip);
      if last.ip == ip then Join(rest, NodeBatch(last)) else rest
  }

  function PDRsOf(n: Node): set<PDR> {
    (if n.up.Some? then {n.up.value} else {}) + (if n.down.Some? then {n.down.value} else {})
  }

  // Whose PDRs, FARs, QERs and URRs are in a batch.
  lemma {:induction false} PdrsIn(nodes: seq<Node>, ip: string, e: PDR)
    ensures e in BatchFor(nodes, ip).pdrs <==> exists n <- nodes :: n.ip == ip && e in PDRsOf(n)
  {
    if nodes != [] {
      var rest, last := nodes[..|nodes| - 1], nodes[|nodes| - 1];
      assert nodes == rest + [last];
      PdrsIn(rest, ip, e);
    }
  }

  lemma {:induction false} FarsIn(nodes: seq<Node>, ip: string, f: Rule)
    ensures f in BatchFor(nodes, ip).fars <==> exists n <- nodes, e <- PDRsOf(n) :: n.ip == ip && f == e.far
  {
    if nodes != [] {
      var rest, last := nodes[..|nodes| - 1], nodes[|nodes| - 1];
      assert nodes == rest + [last];
      FarsIn(rest, ip, f);
    }
  }

  lemma {:induction false} QersIn(nodes: seq<Node>, ip: string, q: Rule)
    ensures q in BatchFor(nodes, ip).qers <==> exists n <- nodes :: n.ip == ip && n.up.Some? && q in n.up.value.qers
  {
    if nodes != [] {
      var rest, last := nodes[..|nodes| - 1], nodes[|nodes| - 1];
      assert nodes == rest + [last];
      QersIn(rest, ip, q);
    }
  }

  lemma {:induction false} UrrsInBatch(nodes: seq<Node>, ip: string, u: nat)
    ensures u in BatchFor(nodes, ip).urrs <==> exists n <- nodes, e <- PDRsOf(n) :: n.ip == ip && u in e.urrs
  {
    if nodes != [] {
      var rest, last := nodes[..|nodes| - 1], nodes[|nodes| - 1];
      assert nodes == rest + [last];
      UrrsInBatch(rest, ip, u);
    }
  }

  type Pool = map<int, Path>

  function PdrsAt(pool: Pool, ip: string): set<PDR> {
    set id <- pool, n <- pool[id].nodes, e <- PDRsOf(n) | pool[id].activated && n.ip == ip :: e
  }

  function QersAt(pool: Pool, ip: string): set<Rule> {
    set id <- pool, n <- pool[id].nodes | pool[id].activated && n.ip == ip && n.up.Some?, q <- n.up.value.qers :: q
  }

  // The QERs of a path on one UPF; those of the downlink PDRs are among them.
  function QersOn(path: Path, ip: string): set<Rule> {
    set n <- path.nodes | n.ip == ip && n.up.Some?, q <- n.up.value.qers :: q
  }

  /** The QERs that a session has at each UPF: AddQER puts one in under an id that the UPF's generator
      gives, and RemoveQER takes it out and gives the id back. */
  type QerPool = map<string, set<Rule>>

  function AtUpf(qers: QerPool, ip: string): set<Rule> {
    if ip in qers then qers[ip] else {}
  }

  predicate Apart(qers: set<Rule>) {
    forall q, r :: q in qers && r in qers && q.id == r.id ==> q == r
  }

  // A path comes with QERs that are there and new ones.
  function Using(qers: QerPool, path: Path): QerPool {
    map ip <- qers.Keys + (set n <- path.nodes :: n.ip) :: AtUpf(qers, ip) + QersOn(path, ip)
  }

  function QersOf(pool: Pool, ids: set<int>, ip: string): set<Rule> {
    set id <- ids | id in pool, q <- QersOn(pool[id], ip) :: q
  }

  // Deactivating paths gives back all their QERs, even those that other paths use.
  function GivenBack(qers: QerPool, pool: Pool, ids: set<int>): QerPool {
    map ip <- qers :: qers[ip] - QersOf(pool, ids, ip)
  }

  lemma UsingAt(qers: QerPool, path: Path, ip: string)
    ensures AtUpf(Using(qers, path), ip) == AtUpf(qers, ip) + QersOn(path, ip)
  {
  }

  lemma GivenBackAt(qers: QerPool, pool: Pool, ids: set<int>, ip: string)
    ensures AtUpf(GivenBack(qers, pool, ids), ip) == AtUpf(qers, ip) - QersOf(pool, ids, ip)
  {
  }

  lemma MoreQersAt(pool: Pool, id: int, path: Path, ip: string)
    requires id !in pool
    ensures QersAt(pool[id := path], ip) == QersAt(pool, ip) + if path.activated then QersOn(path, ip) else {}
  {
    var more := pool[id := path];
    forall q
      ensures q in QersAt(more, ip) <==> q in QersAt(pool, ip) || (path.activated && q in QersOn(path, ip))
    {
      if q in QersAt(more, ip) {
        var i, n :| i in more && n in more[i].nodes && more[i].activated && n.ip == ip && n.up.Some?
            && q in n.up.value.qers;
        assert i != id ==> i in pool && pool[i] == more[i];
      }
      if q in QersAt(pool, ip) {
        var i, n :| i in pool && n in pool[i].nodes && pool[i].activated && n.ip == ip && n.up.Some?
            && q in n.up.value.qers;
        assert i in more && more[i] == pool[i];
      }
      if path.activated && q in QersOn(path, ip) { assert id in more && more[id] == path; }
    }
  }

  /** The QERs of a UPF have different ids, and before the first request the paths' QERs are there. */
  ghost predicate QersSound(pool: Pool, qers: QerPool, established: set<string>) {
    && (forall ip: string :: Apart(AtUpf(qers, ip)))
    && forall ip | ip !in established :: QersAt(pool, ip) <= AtUpf(qers, ip)
  }

  lemma QersAdded(pool: Pool, qers: QerPool, established: set<string>, id: int, path: Path)
    requires QersSound(pool, qers, established) && Possible(pool, qers, id, path)
    ensures QersSound(pool[id := path], Using(qers, path), established)
  {
    forall ip: string
      ensures Apart(AtUpf(Using(qers, path), ip))
      ensures ip !in established ==> QersAt(pool[id := path], ip) <= AtUpf(Using(qers, path), ip)
    {
      UsingAt(qers, path, ip);
      MoreQersAt(pool, id, path, ip);
      if n :| n in path.nodes && n.ip == ip {
        assert Apart(AtUpf(qers, n.ip) + QersOn(path, n.ip));
      } else {
        assert QersOn(path, ip) == {} && AtUpf(qers, ip) + QersOn(path, ip) == AtUpf(qers, ip);
      }
    }
  }

  lemma QersDropped(pool: Pool, qers: QerPool, established: set<string>, ids: set<int>)
    requires QersSound(pool, qers, established) && Shapes(pool)
    requires forall ip | ip !in established :: QersAt(pool, ip) == {}
    ensures QersSound(pool - ids, GivenBack(qers, pool, ids), established)
  {
    forall ip: string
      ensures Apart(AtUpf(GivenBack(qers, pool, ids), ip))
      ensures ip !in established ==> QersAt(pool - ids, ip) == {}
    {
      GivenBackAt(qers, pool, ids, ip);
      assert Apart(AtUpf(qers, ip));
      FewerOwned(pool, ids, ip);
    }
  }

  ghost function FarsAt(pool: Pool, ip: string): set<Rule> {
    set e <- PdrsAt(pool, ip) :: e.far
  }

  ghost function UrrsAt(pool: Pool, ip: string): set<nat> {
    set e <- PdrsAt(pool, ip), u <- e.urrs :: u
  }

  /** The batch has what the nodes of one UPF contribute, on all activated paths. */
  ghost predicate BatchAt(b: Batch, pool: Pool, ip: string) {
    && (forall e :: e in b.pdrs <==> e in PdrsAt(pool, ip)) && (forall f :: f in b.fars <==> f in FarsAt(pool, ip))
    && (forall q :: q in b.qers <==> q in QersAt(pool, ip)) && (forall u :: u in b.urrs <==> u in UrrsAt(pool, ip))
  }

  // The visited nodes are those of the activated paths.
  ghost predicate Visits(pool: Pool, visited: seq<Node>) {
    && (forall id <- pool :: pool[id].activated ==> forall n <- pool[id].nodes :: n in visited)
    && forall n <- visited :: exists id <- pool :: pool[id].activated && n in pool[id].nodes
  }

  lemma VisitedBatch(pool: Pool, visited: seq<Node>, ip: string)
    requires Visits(pool, visited)
    ensures BatchAt(BatchFor(visited, ip), pool, ip)
  {
    forall e ensures e in BatchFor(visited, ip).pdrs <==> e in PdrsAt(pool, ip) { PdrsIn(visited, ip, e); }
    forall f ensures f in BatchFor(visited, ip).fars <==> f in FarsAt(pool, ip) { VisitedFars(pool, visited, ip, f); }
    forall q ensures q in BatchFor(visited, ip).qers <==> q in QersAt(pool, ip) { QersIn(visited, ip, q); }
    forall u ensures u in BatchFor(visited, ip).urrs <==> u in UrrsAt(pool, ip) { VisitedUrrs(pool, visited, ip, u); }
  }

  lemma VisitedFars(pool: Pool, visited: seq<Node>, ip: string, f: Rule)
    requires Visits(pool, visited)
    ensures f in BatchFor(visited, ip).fars <==> f in FarsAt(pool, ip)
  {
    FarsIn(visited, ip, f);
    if f in FarsAt(pool, ip) {
      var e :| e in PdrsAt(pool, ip) && e.far == f;
      var id, n :| id in pool && n in pool[id].nodes && e in PDRsOf(n) && pool[id].activated && n.ip == ip;
      assert n in visited;
    }
  }

  lemma VisitedUrrs(pool: Pool, visited: seq<Node>, ip: string, u: nat)
    requires Visits(pool, visited)
    ensures u in BatchFor(visited, ip).urrs <==> u in UrrsAt(pool, ip)
  {
    UrrsInBatch(visited, ip, u);
    if u in UrrsAt(pool, ip) {
      var e :| e in PdrsAt(pool, ip) && u in e.urrs;
      var id, n :| id in pool && n in pool[id].nodes && e in PDRsOf(n) && pool[id].activated && n.ip == ip;
      assert n in visited;
    }
  }

  lemma {:induction false} NoneYet(nodes: seq<Node>, ip: string)
    ensures (forall n <- nodes :: n.ip != ip) ==> BatchFor(nodes, ip) == EMPTY
  {
    if nodes != [] { NoneYet(nodes[..|nodes| - 1], ip); }
  }

  // There is one batch for each UPF that a visited node is on.
  ghost predicate Collected(batches: map<string, Batch>, visited: seq<Node>) {
    && (forall n <- visited :: n.ip in batches)
    && forall ip <- batches :: batches[ip] == BatchFor(visited, ip)
  }

  lemma CollectOne(batches: map<string, Batch>, visited: seq<Node>, node: Node)
    requires Collected(batches, visited)
    ensures Collected(batches[node.ip := Join(if node.ip in batches then batches[node.ip] else EMPTY, NodeBatch(node))],
                      visited + [node])
  {
    var longer := visited + [node];
    assert longer[..|longer| - 1] == visited;
    if node.ip !in batches { NoneYet(visited, node.ip); }
  }

  /** The batches of all activated paths, one for each UPF. */
  ghost predicate AllBatches(batches: map<string, Batch>, pool: Pool) {
    && (forall ip <- batches :: BatchAt(batches[ip], pool, ip))
    && forall id <- pool :: pool[id].activated ==> forall n <- pool[id].nodes :: n.ip in batches
  }

  // --- Rules of a session ---

  // The objects of a PDR belong to its UPF, and PDR and FAR to its data path.
  predicate Home(e: PDR, ip: string, id: int) {
    && e.rule.kind == PdrRule && e.rule.upf == ip && e.rule.path == id
    && e.far.kind == FarRule && e.far.upf == ip && e.far.path == id
    && forall q <- e.qers :: q.kind == QerRule && q.upf == ip
  }

  predicate NodeShape(n: Node, id: int) {
    && (forall e <- PDRsOf(n) :: Home(e, n.ip, id))
    && (n.down.Some? ==> n.up.Some? && forall q <- n.down.value.qers :: q in n.up.value.qers)
  }

  ghost predicate Shapes(pool: Pool) {
    forall id <- pool, n <- pool[id].nodes :: NodeShape(n, id)
  }

  /** The PDR is on the path, with its UPF. */
  ghost predicate OnPath(path: Path, e: PDR) {
    exists n <- path.nodes :: e in PDRsOf(n) && n.ip == e.rule.upf
  }

  /** A PDR or FAR of an activated path. */
  ghost predicate Owned(pool: Pool, r: Rule) {
    && r.path in pool && pool[r.path].activated
    && exists n <- pool[r.path].nodes, e <- PDRsOf(n) :: n.ip == r.upf && (r == e.rule || r == e.far)
  }

  predicate SameId(r: Rule, s: Rule) {
    r.kind == s.kind && r.upf == s.upf && r.id == s.id
  }

  /** PDRs and FARs of the activated paths have ids of their own. */
  ghost predicate IdsApart(pool: Pool) {
    && (forall r, s :: Owned(pool, r) && Owned(pool, s) && SameId(r, s) ==> r == s)
    && forall ip: string, e, d :: e in PdrsAt(pool, ip) && d in PdrsAt(pool, ip) && e.rule == d.rule ==> e == d
  }

  lemma Shaped(pool: Pool, ip: string, e: PDR)
    requires Shapes(pool) && e in PdrsAt(pool, ip)
    ensures Home(e, ip, e.rule.path) && Owned(pool, e.rule) && Owned(pool, e.far)
    ensures e.rule.path in pool && pool[e.rule.path].activated && OnPath(pool[e.rule.path], e)
    ensures (forall q <- e.qers :: q in QersAt(pool, ip))
  {
    var id, n :| id in pool && n in pool[id].nodes && e in PDRsOf(n) && pool[id].activated && n.ip == ip;
    assert NodeShape(n, id);
  }

  lemma ShapedQers(pool: Pool, ip: string)
    requires Shapes(pool)
    ensures forall q <- QersAt(pool, ip) ::
              q.kind == QerRule && q.upf == ip && exists e <- PdrsAt(pool, ip) :: q in e.qers
  {
    forall q <- QersAt(pool, ip)
      ensures q.kind == QerRule && q.upf == ip && exists e <- PdrsAt(pool, ip) :: q in e.qers
    {
      var id, n :| id in pool && n in pool[id].nodes && pool[id].activated && n.ip == ip && n.up.Some?
          && q in n.up.value.qers;
      assert NodeShape(n, id) && n.up.value in PDRsOf(n) && n.up.value in PdrsAt(pool, ip);
    }
  }

  /** The rules are those of their UPF, in lists of one kind. */
  ghost predicate BatchHome(b: Batch, ip: string) {
    && Kinds(b) && forall r <- RulesOf(b) :: r.upf == ip
  }

  lemma BatchIsHome(b: Batch, pool: Pool, ip: string)
    requires BatchAt(b, pool, ip) && Shapes(pool)
    ensures BatchHome(b, ip)
  {
    ShapedQers(pool, ip);
    forall e <- b.pdrs
      ensures e.rule.kind == PdrRule && e.rule.upf == ip
    {
      Shaped(pool, ip, e);
    }
    forall f <- b.fars
      ensures f.kind == FarRule && f.upf == ip
    {
      var e :| e in PdrsAt(pool, ip) && e.far == f;
      Shaped(pool, ip, e);
    }
  }

  // --- What the UPFs have been told ---

  /** The rules that have entered a Create or a Remove list so far, and the URRs created and removed
      at each UPF. */
  datatype Told = Told(created: set<Rule>, removed: set<Rule>, urrs: set<(string, nat)>, gone: set<(string, nat)>)

  const NOTHING := Told({}, {}, {}, {})

  /** The rule states, the registered URRs of each UPF, the UPFs where the session exists, and
      what the UPFs have been told. */
  datatype View = View(st: States, tables: map<string, UrrTable>, established: set<string>, told: Told)

  /** The rules that are at their UPFs. No QER is ever removed. */
  ghost function There(told: Told): set<Rule> {
    told.created - told.removed
  }

  // Its UPF has a rule of this kind with its id.
  ghost predicate Taken(told: Told, r: Rule) {
    exists s <- There(told) :: SameId(s, r)
  }

  // The rules of the list are different, and have never been created.
  ghost predicate New<T>(list: seq<T>, key: T -> Rule, told: Told) {
    && (forall x <- list :: key(x) !in told.created)
    && forall i, j :: 0 <= i < j < |list| ==> key(list[i]) != key(list[j])
  }

  // They have different ids, and none that is in use at their UPF.
  ghost predicate IdsFree<T>(list: seq<T>, key: T -> Rule, told: Told) {
    && (forall x <- list :: !Taken(told, key(x)))
    && forall i, j :: 0 <= i < j < |list| ==> !SameId(key(list[i]), key(list[j]))
  }

  // The rules of the list are different, and at their UPF.
  ghost predicate AllThere<T>(list: seq<T>, key: T -> Rule, told: Told) {
    && (forall x <- list :: key(x) in There(told))
    && forall i, j :: 0 <= i < j < |list| ==> key(list[i]) != key(list[j])
  }

  ghost function Created(msg: Request): set<Rule> {
    Keys(msg.createPDR, RuleOf) + Keys(msg.createFAR, Itself) + Keys(msg.createQER, Itself)
  }

  ghost function Removed(msg: Request): set<Rule> {
    Keys(msg.removePDR, RuleOf) + Keys(msg.removeFAR, Itself)
  }

  // What a PDR refers to is at the UPF, or is created by the same request.
  ghost predicate Refers(told: Told, ip: string, msg: Request, e: PDR) {
    && (forall r :: r == e.far || r in e.qers ==> (r in There(told) || r in Created(msg)) && r !in Removed(msg))
    && forall u <- e.urrs :: ((ip, u) in told.urrs - told.gone || u in msg.createURR) && u !in msg.removeURR
  }

  ghost predicate UrrsClean(told: Told, ip: string, msg: Request) {
    && (forall u <- msg.createURR :: (ip, u) !in told.urrs)
    && forall u <- msg.updateURR + msg.removeURR + msg.queryURR :: (ip, u) in told.urrs - told.gone
  }

  /** A request the UPF can carry out: it creates only what was never created before, PDRs and FARs
      under ids not in use there; it updates, queries and removes only what is there, each rule
      once; and whatever the PDRs it creates refer to is there afterwards. */
  ghost predicate Clean(told: Told, ip: string, msg: Request) {
    && New(msg.createPDR, RuleOf, told) && New(msg.createFAR, Itself, told) && New(msg.createQER, Itself, told)
    && IdsFree(msg.createPDR, RuleOf, told) && IdsFree(msg.createFAR, Itself, told)
    && AllThere(msg.updatePDR, RuleOf, told) && AllThere(msg.updateFAR, Itself, told)
    && AllThere(msg.removePDR, RuleOf, told) && AllThere(msg.removeFAR, Itself, told)
    && UrrsClean(told, ip, msg) && forall e <- msg.createPDR :: Refers(told, ip, msg, e)
  }

  ghost function AfterRequest(told: Told, ip: string, msg: Request): Told {
    Told(told.created + Created(msg), told.removed + Removed(msg), told.urrs + (set u <- msg.createURR :: (ip, u)),
         told.gone + (set u <- msg.removeURR :: (ip, u)))
  }

  /** After requests to several UPFs. */
  ghost function AfterAll(told: Told, requests: map<string, Request>): Told {
    Told(told.created + (set ip <- requests, r <- Created(requests[ip]) :: r),
         told.removed + (set ip <- requests, r <- Removed(requests[ip]) :: r),
         told.urrs + (set ip <- requests, u <- requests[ip].createURR :: (ip, u)),
         told.gone + (set ip <- requests, u <- requests[ip].removeURR :: (ip, u)))
  }

  lemma AfterOneMore(told: Told, requests: map<string, Request>, ip: string, msg: Request)
    requires ip !in requests
    ensures AfterAll(told, requests[ip := msg]) == AfterRequest(AfterAll(told, requests), ip, msg)
  {
    var more := requests[ip := msg];
    assert forall k <- requests :: k in more && more[k] == requests[k];
    assert ip in more && more[ip] == msg;
    assert AfterAll(told, more).created == AfterRequest(AfterAll(told, requests), ip, msg).created;
    assert AfterAll(told, more).removed == AfterRequest(AfterAll(told, requests), ip, msg).removed;
    assert AfterAll(told, more).urrs == AfterRequest(AfterAll(told, requests), ip, msg).urrs;
    assert AfterAll(told, more).gone == AfterRequest(AfterAll(told, requests), ip, msg).gone;
  }

  // --- Sessions in order ---

  // A rule in use: it is in state INITIAL exactly until it has been created.
  ghost predicate Live(v: View, r: Rule) {
    (StateOf(v.st, r) == INITIAL <==> r !in v.told.created) && StateOf(v.st, r) != REMOVE && r !in v.told.removed
  }

  // A rule that is to be removed, and is at its UPF if the session exists there.
  ghost predicate Doomed(v: View, r: Rule) {
    StateOf(v.st, r) == REMOVE && (r in v.told.created <==> r.upf in v.established) && r !in v.told.removed
  }

  // A URR in use.
  ghost predicate UrrLive(v: View, ip: string, u: nat) {
    && ip in v.tables && u in v.tables[ip] && v.tables[ip][u] != REMOVE && (ip, u) !in v.told.gone
    && (v.tables[ip][u] == INITIAL <==> (ip, u) !in v.told.urrs)
  }

  // A URR that lost its last reference: it is to be removed.
  ghost predicate UrrDoomed(v: View, ip: string, u: nat) {
    && ip in v.tables && u in v.tables[ip] && v.tables[ip][u] == REMOVE && (ip, u) !in v.told.gone
    && ((ip, u) in v.told.urrs <==> ip in v.established)
  }

  ghost predicate QerLive(v: View, q: Rule) {
    Live(v, q) && StateOf(v.st, q) in {INITIAL, CREATE}
  }

  ghost predicate PdrOk(v: View, e: PDR, marked: bool) {
    && (if marked then Doomed(v, e.rule) && Doomed(v, e.far)
        else Live(v, e.rule) && Live(v, e.far) && (e.rule in v.told.created <==> e.far in v.told.created))
    && (forall q <- e.qers :: QerLive(v, q))
    && forall u <- e.urrs :: UrrLive(v, e.rule.upf, u) || (marked && UrrDoomed(v, e.rule.upf, u))
  }

  // What the UPFs have belongs to the paths.
  ghost predicate ToldOk(told: Told, established: set<string>, pool: Pool) {
    && (forall r <- told.created :: r.upf in established)
    && (forall r <- There(told) :: r.kind != QerRule ==> Owned(pool, r))
    && forall r <- told.removed :: r.kind != QerRule
  }

  ghost predicate PdrsOk(v: View, pool: Pool, marked: set<int>) {
    forall ip: string, e :: e in PdrsAt(pool, ip) ==> PdrOk(v, e, e.rule.path in marked)
  }

  /** The data paths of a session, some of them marked to be removed. */
  ghost predicate PathsOk(v: View, pool: Pool, marked: set<int>) {
    IdsApart(pool) && ToldOk(v.told, v.established, pool) && PdrsOk(v, pool, marked)
  }

  // --- A request is clean ---

  lemma ChosenNew<T>(v: View, out: seq<T>, list: seq<T>, key: T -> Rule)
    requires Chosen(out, list, key, v.st, INITIAL) && forall x <- list :: Live(v, key(x)) || Doomed(v, key(x))
    ensures New(out, key, v.told)
  {
  }

  lemma ChosenThere<T>(v: View, out: seq<T>, list: seq<T>, key: T -> Rule, s: RuleState)
    requires Chosen(out, list, key, v.st, s) && s != INITIAL
    requires forall x <- list :: (Live(v, key(x)) || Doomed(v, key(x))) && key(x).upf in v.established
    ensures AllThere(out, key, v.told)
  {
  }

  lemma ChosenFree<T>(v: View, pool: Pool, out: seq<T>, key: T -> Rule)
    requires New(out, key, v.told) && ToldOk(v.told, v.established, pool) && IdsApart(pool)
    requires forall x <- out :: Owned(pool, key(x)) && key(x).kind != QerRule
    ensures IdsFree(out, key, v.told)
  {
    forall x <- out
      ensures !Taken(v.told, key(x))
    {
      forall s <- There(v.told) | SameId(s, key(x))
        ensures s == key(x)
      {
        assert Owned(pool, s);
      }
    }
    forall i, j | 0 <= i < j < |out|
      ensures !SameId(key(out[i]), key(out[j]))
    {
      assert out[i] in out && out[j] in out;
    }
  }

  /** A batch of rules that are in order, with what its PDRs refer to. */
  ghost predicate BatchOk(v: View, b: Batch, ip: string) {
    && BatchHome(b, ip)
    && (forall e <- b.pdrs :: PdrOk(v, e, StateOf(v.st, e.rule) == REMOVE))
    && (forall e <- b.pdrs :: e.far in b.fars && (forall q <- e.qers :: q in b.qers) && forall u <- e.urrs ::
        u in b.urrs)
    && (forall f <- b.fars :: Live(v, f) || Doomed(v, f)) && (forall q <- b.qers :: QerLive(v, q))
    && forall u <- b.urrs :: UrrLive(v, ip, u) || UrrDoomed(v, ip, u)
  }

  lemma BatchIsOk(v: View, pool: Pool, marked: set<int>, b: Batch, ip: string)
    requires PathsOk(v, pool, marked) && Shapes(pool) && BatchAt(b, pool, ip)
    ensures BatchOk(v, b, ip)
    ensures forall e <- b.pdrs :: Owned(pool, e.rule) && (StateOf(v.st, e.rule) == REMOVE <==> e.rule.path in marked)
    ensures forall f <- b.fars :: Owned(pool, f)
  {
    BatchIsHome(b, pool, ip);
    ShapedQers(pool, ip);
    forall e <- b.pdrs
      ensures PdrOk(v, e, StateOf(v.st, e.rule) == REMOVE)
      ensures (StateOf(v.st, e.rule) == REMOVE <==> e.rule.path in marked)
      ensures e.far in b.fars && (forall q <- e.qers :: q in b.qers) && (forall u <- e.urrs :: u in b.urrs)
      ensures Owned(pool, e.rule) && Owned(pool, e.far) && e.rule.upf == ip
    {
      Shaped(pool, ip, e);
      assert PdrOk(v, e, e.rule.path in marked);
    }
    forall f <- b.fars
      ensures (Live(v, f) || Doomed(v, f)) && Owned(pool, f)
    {
      var e :| e in PdrsAt(pool, ip) && e.far == f;
      assert e in b.pdrs;
    }
    forall q <- b.qers
      ensures QerLive(v, q)
    {
      var e :| e in PdrsAt(pool, ip) && q in e.qers;
      assert e in b.pdrs;
    }
    forall u <- b.urrs
      ensures UrrLive(v, ip, u) || UrrDoomed(v, ip, u)
    {
      var e :| e in PdrsAt(pool, ip) && u in e.urrs;
      assert e in b.pdrs;
    }
  }

  // A rule in use that is in the batch is at the UPF afterwards.
  lemma ThereAfter(v: View, b: Batch, ip: string, msg: Request, r: Rule)
    requires BatchOk(v, b, ip) && Contents(b, ip in v.established, v.st, TableOf(v.tables, ip), msg)
    requires Live(v, r) && (r in b.fars || r in b.qers)
    ensures (r in There(v.told) || r in Created(msg)) && r !in Removed(msg)
  {
    if StateOf(v.st, r) == INITIAL {
      assert r in Keys(if r in b.fars then msg.createFAR else msg.createQER, Itself);
      assert r in Created(msg);
    }
  }

  lemma CreatedRefers(v: View, b: Batch, ip: string, msg: Request, e: PDR)
    requires BatchOk(v, b, ip) && Contents(b, ip in v.established, v.st, TableOf(v.tables, ip), msg)
    requires e in msg.createPDR
    ensures Refers(v.told, ip, msg, e)
  {
    assert PdrOk(v, e, false);
    ThereAfter(v, b, ip, msg, e.far);
    forall q <- e.qers
      ensures (q in There(v.told) || q in Created(msg)) && q !in Removed(msg)
    {
      ThereAfter(v, b, ip, msg, q);
    }
    forall u <- e.urrs
      ensures ((ip, u) in v.told.urrs - v.told.gone || u in msg.createURR) && u !in msg.removeURR
    {
      assert UrrLive(v, ip, u);
    }
  }

  lemma UrrsAreClean(v: View, b: Batch, ip: string, msg: Request)
    requires BatchOk(v, b, ip) && Contents(b, ip in v.established, v.st, TableOf(v.tables, ip), msg)
    ensures UrrsClean(v.told, ip, msg)
  {
    forall u <- msg.createURR
      ensures (ip, u) !in v.told.urrs
    {
      assert UrrLive(v, ip, u) || UrrDoomed(v, ip, u);
    }
    forall u <- msg.updateURR + msg.removeURR + msg.queryURR
      ensures (ip, u) in v.told.urrs - v.told.gone
    {
      assert UrrLive(v, ip, u) || UrrDoomed(v, ip, u);
    }
  }

  /** Every request that is built while the session is in order is clean. */
  lemma RequestClean(v: View, pool: Pool, marked: set<int>, b: Batch, ip: string, msg: Request)
    requires PathsOk(v, pool, marked) && Shapes(pool) && BatchAt(b, pool, ip)
    requires Contents(b, ip in v.established, v.st, TableOf(v.tables, ip), msg)
    ensures Clean(v.told, ip, msg)
  {
    BatchIsOk(v, pool, marked, b, ip);
    CreatesClean(v, pool, b, ip, msg);
    assert Contents(b, ip in v.established, v.st, TableOf(v.tables, ip), msg);
    if ip in v.established { ChangesClean(v, b, ip, msg); }
    UrrsAreClean(v, b, ip, msg);
    forall e <- msg.createPDR
      ensures Refers(v.told, ip, msg, e)
    {
      CreatedRefers(v, b, ip, msg, e);
    }
  }

  lemma CreatesClean(v: View, pool: Pool, b: Batch, ip: string, msg: Request)
    requires BatchOk(v, b, ip) && ToldOk(v.told, v.established, pool) && IdsApart(pool)
    requires (forall e <- b.pdrs :: Owned(pool, e.rule)) && forall f <- b.fars :: Owned(pool, f)
    requires Chosen(msg.createPDR, b.pdrs, RuleOf, v.st, INITIAL)
    requires Chosen(msg.createFAR, b.fars, Itself, v.st, INITIAL)
    requires Chosen(msg.createQER, b.qers, Itself, v.st, INITIAL)
    ensures New(msg.createPDR, RuleOf, v.told) && New(msg.createFAR, Itself, v.told)
    ensures New(msg.createQER, Itself, v.told)
    ensures IdsFree(msg.createPDR, RuleOf, v.told) && IdsFree(msg.createFAR, Itself, v.told)
  {
    ChosenNew(v, msg.createPDR, b.pdrs, RuleOf);
    ChosenNew(v, msg.createFAR, b.fars, Itself);
    ChosenNew(v, msg.createQER, b.qers, Itself);
    ChosenFree(v, pool, msg.createPDR, RuleOf);
    ChosenFree(v, pool, msg.createFAR, Itself);
  }

  lemma ChangesClean(v: View, b: Batch, ip: string, msg: Request)
    requires BatchOk(v, b, ip) && ip in v.established && Changes(b, v.st, TableOf(v.tables, ip), msg)
    ensures AllThere(msg.updatePDR, RuleOf, v.told) && AllThere(msg.updateFAR, Itself, v.told)
    ensures AllThere(msg.removePDR, RuleOf, v.told) && AllThere(msg.removeFAR, Itself, v.told)
  {
    forall e <- b.pdrs
      ensures (Live(v, RuleOf(e)) || Doomed(v, RuleOf(e))) && RuleOf(e).upf in v.established
    {
      assert PdrOk(v, e, StateOf(v.st, e.rule) == REMOVE) && e.rule in Keys(b.pdrs, RuleOf);
    }
    ChosenThere(v, msg.updatePDR, b.pdrs, RuleOf, UPDATE);
    ChosenThere(v, msg.removePDR, b.pdrs, RuleOf, REMOVE);
    forall f <- b.fars
      ensures Itself(f).upf in v.established
    {
      assert f in Keys(b.fars, Itself);
    }
    ChosenThere(v, msg.updateFAR, b.fars, Itself, UPDATE);
    ChosenThere(v, msg.removeFAR, b.fars, Itself, REMOVE);
  }

  // --- QER ids ---

  /** New QERs of the paths on one UPF have ids that no other QER has, neither a new one nor one
      that the UPF was told of. */
  ghost predicate QerIdsNew(told: Told, pool: Pool, ip: string) {
    forall q, r :: q in QersAt(pool, ip) && q !in told.created && (r in QersAt(pool, ip) || r in told.created) && SameId(q, r) ==> q == r
  }

  /** A request creates its QERs under free ids exactly if that is so: QERs are never removed from
      the UPF, but their ids are given back with the paths. */
  lemma QerIdsExactly(v: View, pool: Pool, marked: set<int>, b: Batch, ip: string, msg: Request)
    requires PathsOk(v, pool, marked) && Shapes(pool) && BatchAt(b, pool, ip)
    requires Contents(b, ip in v.established, v.st, TableOf(v.tables, ip), msg)
    ensures IdsFree(msg.createQER, Itself, v.told) <==> QerIdsNew(v.told, pool, ip)
  {
    BatchIsOk(v, pool, marked, b, ip);
    if QerIdsNew(v.told, pool, ip) { NewQersFree(v, pool, b, ip, msg.createQER); }
    forall q, r | q in QersAt(pool, ip) && q !in v.told.created && (r in QersAt(pool, ip) || r in v.told.created)
          && SameId(q, r) && q != r
      ensures !IdsFree(msg.createQER, Itself, v.told)
    {
      UsedQerId(v, b, ip, msg.createQER, q, r);
    }
  }

  lemma NewQersFree(v: View, pool: Pool, b: Batch, ip: string, out: seq<Rule>)
    requires BatchOk(v, b, ip) && (forall q <- b.qers :: q in QersAt(pool, ip)) && QerIdsNew(v.told, pool, ip)
    requires Chosen(out, b.qers, Itself, v.st, INITIAL)
    ensures IdsFree(out, Itself, v.told)
  {
    forall q <- out
      ensures !Taken(v.told, Itself(q)) && q in QersAt(pool, ip) && q !in v.told.created
    {
      assert QerLive(v, q);
    }
    forall i, j | 0 <= i < j < |out|
      ensures !SameId(Itself(out[i]), Itself(out[j]))
    {
      assert out[i] in out && out[j] in out;
    }
  }

  // Two different QERs have one id, and the first is new.
  lemma UsedQerId(v: View, b: Batch, ip: string, out: seq<Rule>, q: Rule, r: Rule)
    requires BatchOk(v, b, ip) && Chosen(out, b.qers, Itself, v.st, INITIAL)
    requires (forall x <- v.told.removed :: x.kind != QerRule) && q in b.qers && q !in v.told.created && SameId(q, r)
    requires q != r && (r in b.qers || r in v.told.created)
    ensures !IdsFree(out, Itself, v.told)
  {
    assert QerLive(v, q) && q in RulesOf(b) && q in Keys(out, Itself);
    if r in v.told.created {
      assert r in There(v.told) && Taken(v.told, Itself(q));
    } else {
      assert QerLive(v, r) && r in Keys(out, Itself);
      var i :| 0 <= i < |out| && out[i] == q;
      var j :| 0 <= j < |out| && out[j] == r;
      assert SameId(Itself(out[i]), Itself(out[j])) && SameId(Itself(out[j]), Itself(out[i]));
    }
  }

  // --- What the requests leave behind ---

  ghost function AfterSending(v: View, ip: string, msg: Request, st: States, table: UrrTable): View {
    View(st, v.tables[ip := table], v.established + {ip}, AfterRequest(v.told, ip, msg))
  }

  function TableOf(tables: map<string, UrrTable>, ip: string): UrrTable {
    if ip in tables then tables[ip] else map[]
  }

  ghost predicate StatesSent(st: States, st': States, batches: map<string, Batch>, done: set<string>) {
    forall r :: StateOf(st', r) ==
                if r.upf in done && r.upf in batches && r in RulesOf(batches[r.upf]) then CREATE else StateOf(st, r)
  }

  ghost predicate TablesSent(v: View, tables: map<string, UrrTable>, batches: map<string, Batch>, done: set<string>) {
    && (forall ip <- batches | ip in done ::
          ip in tables && UrrsSent(batches[ip].urrs, SentStates(ip in v.established), TableOf(v.tables, ip),
              tables[ip]))
    && forall ip | ip !in done :: (ip in tables <==> ip in v.tables) && TableOf(tables, ip) == TableOf(v.tables, ip)
  }

  ghost predicate AllContents(v: View, batches: map<string, Batch>, requests: map<string, Request>) {
    forall ip <- requests ::
        ip in batches && Contents(batches[ip], ip in v.established, v.st, TableOf(v.tables, ip), requests[ip])
  }

  /** The UPFs in `done` have each got the request that follows from its batch. */
  ghost predicate SentTo(v: View, v': View, batches: map<string, Batch>, done: set<string>, requests: map<string,
                         Request>) {
    && requests.Keys == done && AllContents(v, batches, requests)
    && StatesSent(v.st, v'.st, batches, done) && TablesSent(v, v'.tables, batches, done)
    && v'.established == v.established + done && v'.told == AfterAll(v.told, requests)
  }

  ghost predicate AllHome(batches: map<string, Batch>) {
    forall ip <- batches :: BatchHome(batches[ip], ip)
  }

  lemma ChosenSame<T>(out: seq<T>, list: seq<T>, key: T -> Rule, st: States, st': States, s: RuleState)
    requires Chosen(out, list, key, st, s) && forall x <- list :: StateOf(st', key(x)) == StateOf(st, key(x))
    ensures Chosen(out, list, key, st', s)
  {
  }

  // A request follows from the states of its own rules.
  lemma SameContents(b: Batch, known: bool, st: States, st': States, table: UrrTable, msg: Request)
    requires Contents(b, known, st, table, msg) && forall r <- RulesOf(b) :: StateOf(st', r) == StateOf(st, r)
    ensures Contents(b, known, st', table, msg)
  {
    assert forall e <- b.pdrs :: RuleOf(e) in Keys(b.pdrs, RuleOf);
    assert forall f <- b.fars :: Itself(f) in Keys(b.fars, Itself);
    assert forall q <- b.qers :: Itself(q) in Keys(b.qers, Itself);
    ChosenSame(msg.createPDR, b.pdrs, RuleOf, st, st', INITIAL);
    ChosenSame(msg.createFAR, b.fars, Itself, st, st', INITIAL);
    ChosenSame(msg.createQER, b.qers, Itself, st, st', INITIAL);
    if known {
      ChosenSame(msg.updatePDR, b.pdrs, RuleOf, st, st', UPDATE);
      ChosenSame(msg.updateFAR, b.fars, Itself, st, st', UPDATE);
      ChosenSame(msg.removePDR, b.pdrs, RuleOf, st, st', REMOVE);
      ChosenSame(msg.removeFAR, b.fars, Itself, st, st', REMOVE);
    }
  }

  // One more request.
  lemma SentOneMore(v: View, now: View, batches: map<string, Batch>, done: set<string>, requests: map<string, Request>,
                    ip: string, msg: Request, st: States, table: UrrTable)
    requires SentTo(v, now, batches, done, requests) && AllHome(batches) && ip in batches && ip !in done
    requires Contents(batches[ip], ip in now.established, now.st, TableOf(now.tables, ip), msg)
    requires Leaves(batches[ip], ip in now.established, now.st, TableOf(now.tables, ip), st, table)
    ensures SentTo(v, AfterSending(now, ip, msg, st, table), batches, done + {ip}, requests[ip := msg])
  {
    assert BatchHome(batches[ip], ip) && (ip in now.established <==> ip in v.established);
    AfterOneMore(v.told, requests, ip, msg);
    assert forall r <- RulesOf(batches[ip]) :: StateOf(v.st, r) == StateOf(now.st, r);
    SameContents(batches[ip], ip in v.established, now.st, v.st, TableOf(v.tables, ip), msg);
    ContentsOneMore(v, batches, requests, ip, msg);
    StatesOneMore(v.st, now.st, batches, done, ip, st);
    TablesOneMore(v, now.tables, batches, done, ip, table);
    var after := AfterSending(now, ip, msg, st, table);
    assert after.st == st && after.tables == now.tables[ip := table];
    SetsOneMore(v.established, done, requests, ip, msg);
  }

  lemma SetsOneMore(established: set<string>, done: set<string>, requests: map<string, Request>, ip: string,
                    msg: Request)
    requires requests.Keys == done
    ensures requests[ip := msg].Keys == done + {ip} && established + done + {ip} == established + (done + {ip})
  {
  }

  lemma ContentsOneMore(v: View, batches: map<string, Batch>, requests: map<string, Request>, ip: string, msg: Request)
    requires AllContents(v, batches, requests) && ip in batches
    requires Contents(batches[ip], ip in v.established, v.st, TableOf(v.tables, ip), msg)
    ensures AllContents(v, batches, requests[ip := msg])
  {
  }

  lemma TablesOneMore(v: View, now: map<string, UrrTable>, batches: map<string, Batch>, done: set<string>, ip: string,
                      table: UrrTable)
    requires TablesSent(v, now, batches, done) && ip in batches && ip !in done
    requires UrrsSent(batches[ip].urrs, SentStates(ip in v.established), TableOf(now, ip), table)
    ensures TablesSent(v, now[ip := table], batches, done + {ip})
  {
  }

  lemma StatesOneMore(st0: States, now: States, batches: map<string, Batch>, done: set<string>, ip: string, st: States)
    requires StatesSent(st0, now, batches, done) && ip in batches && ip !in done && BatchHome(batches[ip], ip)
    requires Sent(RulesOf(batches[ip]), now, st)
    ensures StatesSent(st0, st, batches, done + {ip})
  {
  }

  lemma ChosenKeys<T>(out: seq<T>, list: seq<T>, key: T -> Rule, st: States, s: RuleState)
    requires Chosen(out, list, key, st, s)
    ensures forall r :: r in Keys(out, key) <==> r in Keys(list, key) && StateOf(st, r) == s
  {
  }

  // What a request creates and removes.
  lemma RequestActs(b: Batch, ip: string, known: bool, st: States, table: UrrTable, msg: Request)
    requires BatchHome(b, ip) && Contents(b, known, st, table, msg)
    ensures forall r :: r in Created(msg) <==> r in RulesOf(b) && StateOf(st, r) == INITIAL
    ensures forall r :: r in Removed(msg) <==> known && r in RulesOf(b) && StateOf(st, r) == REMOVE && r.kind != QerRule
  {
    ChosenKeys(msg.createPDR, b.pdrs, RuleOf, st, INITIAL);
    ChosenKeys(msg.createFAR, b.fars, Itself, st, INITIAL);
    ChosenKeys(msg.createQER, b.qers, Itself, st, INITIAL);
    if known {
      ChosenKeys(msg.removePDR, b.pdrs, RuleOf, st, REMOVE);
      ChosenKeys(msg.removeFAR, b.fars, Itself, st, REMOVE);
    }
  }

  /** All UPFs of the activated paths have been sent their requests. */
  ghost predicate Sends(v: View, v': View, pool: Pool, batches: map<string, Batch>, requests: map<string, Request>) {
    AllBatches(batches, pool) && AllHome(batches) && SentTo(v, v', batches, batches.Keys, requests)
  }

  // What becomes of one rule.
  ghost predicate RuleMoves(v: View, v': View, batches: map<string, Batch>, r: Rule) {
    var sent := r.upf in batches && r in RulesOf(batches[r.upf]);
    var removed := sent && r.upf in v.established && StateOf(v.st, r) == REMOVE && r.kind != QerRule;
    && StateOf(v'.st, r) == (if sent then CREATE else StateOf(v.st, r))
    && (r in v'.told.created <==> r in v.told.created || (sent && StateOf(v.st, r) == INITIAL))
    && (r in v'.told.removed <==> r in v.told.removed || removed)
  }

  lemma RuleAfter(v: View, v': View, pool: Pool, batches: map<string, Batch>, requests: map<string, Request>, r: Rule)
    requires Sends(v, v', pool, batches, requests)
    ensures RuleMoves(v, v', batches, r)
  {
    forall ip <- requests
      ensures r in Created(requests[ip]) <==> r in RulesOf(batches[ip]) && StateOf(v.st, r) == INITIAL
      ensures r in Removed(requests[ip])
              <==> ip in v.established && r in RulesOf(batches[ip]) && StateOf(v.st, r) == REMOVE && r.kind != QerRule
      ensures r in RulesOf(batches[ip]) ==> r.upf == ip
    {
      RequestActs(batches[ip], ip, ip in v.established, v.st, TableOf(v.tables, ip), requests[ip]);
    }
  }

  lemma UrrsMove(b: Batch, known: bool, table: UrrTable, table': UrrTable, u: nat)
    requires UrrsSent(b.urrs, SentStates(known), table, table') && u in table && table[u] != REMOVE
    ensures u in table' && table'[u] != REMOVE && (table'[u] == INITIAL <==> table[u] == INITIAL && u !in b.urrs)
  {
  }

  lemma UrrAfter(v: View, v': View, pool: Pool, batches: map<string, Batch>, requests: map<string, Request>, ip: string,
                 u: nat)
    requires Sends(v, v', pool, batches, requests) && UrrLive(v, ip, u)
    ensures UrrLive(v', ip, u)
    ensures ip in batches && u in batches[ip].urrs ==> (ip, u) in v'.told.urrs
  {
    if ip in batches {
      assert ip in requests;
      UrrsMove(batches[ip], ip in v.established, v.tables[ip], v'.tables[ip], u);
      assert requests[ip].createURR == UrrsIn(batches[ip].urrs, v.tables[ip], INITIAL);
    }
    ToldUrr(v.told, requests, ip, u);
  }

  // A URR that is to be removed is not at the UPF afterwards.
  lemma UrrDoomedAfter(v: View, v': View, pool: Pool, batches: map<string, Batch>, requests: map<string, Request>,
                       ip: string, u: nat)
    requires Sends(v, v', pool, batches, requests) && UrrDoomed(v, ip, u) && ip in batches && u in batches[ip].urrs
    ensures UrrGone(v', ip, u)
  {
    assert ip in requests;
    assert requests[ip].createURR == UrrsIn(batches[ip].urrs, v.tables[ip], INITIAL);
    ToldUrr(v.told, requests, ip, u);
  }

  lemma ToldUrr(told: Told, requests: map<string, Request>, ip: string, u: nat)
    ensures (ip, u) in AfterAll(told, requests).urrs
            <==> (ip, u) in told.urrs || (ip in requests && u in requests[ip].createURR)
    ensures (ip, u) in AfterAll(told, requests).gone
            <==> (ip, u) in told.gone || (ip in requests && u in requests[ip].removeURR)
  {
  }

  /** What the paths have at their UPFs after the requests. */
  ghost predicate PdrSent(v: View, e: PDR, marked: bool) {
    && (if marked then RuleGone(v, e.rule) && RuleGone(v, e.far) else RuleUsed(v, e.rule) && RuleUsed(v, e.far))
    && (forall q <- e.qers :: QerLive(v, q) && q in There(v.told))
    && forall u <- e.urrs :: UrrUsed(v, e.rule.upf, u) || (marked && UrrGone(v, e.rule.upf, u))
  }

  ghost predicate UrrUsed(v: View, ip: string, u: nat) {
    UrrLive(v, ip, u) && (ip, u) in v.told.urrs
  }

  ghost predicate UrrGone(v: View, ip: string, u: nat) {
    (ip, u) in v.told.urrs ==> (ip, u) in v.told.gone
  }

  ghost predicate RuleUsed(v: View, r: Rule) {
    Live(v, r) && r in There(v.told)
  }

  ghost predicate RuleGone(v: View, r: Rule) {
    r in v.told.created ==> r in v.told.removed
  }

  lemma LiveAfter(v: View, v': View, batches: map<string, Batch>, r: Rule)
    requires RuleMoves(v, v', batches, r) && Live(v, r) && r.upf in batches && r in RulesOf(batches[r.upf])
    ensures RuleUsed(v', r) && (QerLive(v, r) ==> QerLive(v', r))
  {
  }

  lemma DoomedAfter(v: View, v': View, batches: map<string, Batch>, r: Rule)
    requires RuleMoves(v, v', batches, r) && Doomed(v, r) && r.upf in batches && r in RulesOf(batches[r.upf])
    requires r.kind != QerRule
    ensures RuleGone(v', r)
  {
  }

  lemma PdrAfter(v: View, v': View, pool: Pool, marked: set<int>, batches: map<string, Batch>, requests: map<string,
                 Request>,
                 ip: string, e: PDR)
    requires PathsOk(v, pool, marked) && Shapes(pool) && Sends(v, v', pool, batches, requests) && e in PdrsAt(pool, ip)
    ensures PdrSent(v', e, e.rule.path in marked)
  {
    InSomeBatch(v, pool, marked, batches, ip, e);
    assert PdrOk(v, e, e.rule.path in marked);
    RuleAfter(v, v', pool, batches, requests, e.rule);
    RuleAfter(v, v', pool, batches, requests, e.far);
    if e.rule.path in marked {
      DoomedAfter(v, v', batches, e.rule);
      DoomedAfter(v, v', batches, e.far);
    } else {
      LiveAfter(v, v', batches, e.rule);
      LiveAfter(v, v', batches, e.far);
    }
    forall q <- e.qers
      ensures QerLive(v', q) && q in There(v'.told)
    {
      RuleAfter(v, v', pool, batches, requests, q);
      LiveAfter(v, v', batches, q);
    }
    forall u <- e.urrs
      ensures UrrUsed(v', e.rule.upf, u) || (e.rule.path in marked && UrrGone(v', e.rule.upf, u))
    {
      if UrrLive(v, ip, u) {
        UrrAfter(v, v', pool, batches, requests, ip, u);
      } else {
        UrrDoomedAfter(v, v', pool, batches, requests, ip, u);
      }
    }
  }

  lemma InSomeBatch(v: View, pool: Pool, marked: set<int>, batches: map<string, Batch>, ip: string, e: PDR)
    requires PathsOk(v, pool, marked) && Shapes(pool) && AllBatches(batches, pool) && e in PdrsAt(pool, ip)
    ensures ip in batches && e.rule in RulesOf(batches[ip]) && e.far in RulesOf(batches[ip]) && Home(e, ip, e.rule.path)
    ensures (forall q <- e.qers :: q in RulesOf(batches[ip])) && forall u <- e.urrs :: u in batches[ip].urrs
  {
    Shaped(pool, ip, e);
    var id, n :| id in pool && n in pool[id].nodes && e in PDRsOf(n) && pool[id].activated && n.ip == ip;
    BatchIsOk(v, pool, marked, batches[ip], ip);
    assert e in batches[ip].pdrs && e.rule in Keys(batches[ip].pdrs, RuleOf) && e.far in Keys(batches[ip].fars, Itself);
    forall q <- e.qers
      ensures q in RulesOf(batches[ip])
    {
      assert q in Keys(batches[ip].qers, Itself);
    }
  }

  lemma OwnerOf(pool: Pool, r: Rule) returns (e: PDR)
    requires Owned(pool, r) && Shapes(pool)
    ensures e in PdrsAt(pool, r.upf) && (r == e.rule || r == e.far) && e.rule.path == r.path
  {
    var n, d :| n in pool[r.path].nodes && d in PDRsOf(n) && n.ip == r.upf && (r == d.rule || r == d.far);
    assert NodeShape(n, r.path);
    e := d;
  }

  lemma ToldAfterAll(v: View, v': View, pool: Pool, marked: set<int>, batches: map<string, Batch>, requests: map<string,
                     Request>)
    requires PathsOk(v, pool, marked) && Shapes(pool) && Sends(v, v', pool, batches, requests)
    ensures ToldOk(v'.told, v'.established, pool - marked)
  {
    forall r
      ensures r in v'.told.created ==> r.upf in v'.established
      ensures r in There(v'.told) && r.kind != QerRule ==> Owned(pool - marked, r)
      ensures r in v'.told.removed ==> r.kind != QerRule
    {
      RuleAfter(v, v', pool, batches, requests, r);
      if r in There(v'.told) && r.kind != QerRule { StillOwned(v, v', pool, marked, batches, requests, r); }
    }
  }

  lemma StillOwned(v: View, v': View, pool: Pool, marked: set<int>, batches: map<string, Batch>, requests: map<string,
                   Request>, r: Rule)
    requires PathsOk(v, pool, marked) && Shapes(pool) && Sends(v, v', pool, batches, requests)
    requires r in There(v'.told) && r.kind != QerRule
    ensures Owned(pool - marked, r)
  {
    RuleAfter(v, v', pool, batches, requests, r);
    OwnedBefore(v, v', pool, marked, batches, r);
    var e := OwnerOf(pool, r);
    PdrAfter(v, v', pool, marked, batches, requests, r.upf, e);
  }

  lemma OwnedBefore(v: View, v': View, pool: Pool, marked: set<int>, batches: map<string, Batch>, r: Rule)
    requires PathsOk(v, pool, marked) && Shapes(pool) && AllBatches(batches, pool) && RuleMoves(v, v', batches, r)
    requires r in There(v'.told) && r.kind != QerRule
    ensures Owned(pool, r)
  {
    if r !in v.told.created {
      BatchIsOk(v, pool, marked, batches[r.upf], r.upf);
    } else {
      assert r in There(v.told);
    }
  }

  lemma FewerOwned(pool: Pool, marked: set<int>, ip: string)
    requires Shapes(pool)
    ensures forall r :: Owned(pool - marked, r) ==> Owned(pool, r)
    ensures forall e :: e in PdrsAt(pool - marked, ip) ==> e in PdrsAt(pool, ip) && e.rule.path !in marked
    ensures forall q :: q in QersAt(pool - marked, ip) ==> q in QersAt(pool, ip)
  {
    forall e | e in PdrsAt(pool - marked, ip)
      ensures e in PdrsAt(pool, ip) && e.rule.path !in marked
    {
      var id, n :| id in pool - marked && n in pool[id].nodes && e in PDRsOf(n) && pool[id].activated && n.ip == ip;
      assert NodeShape(n, id);
    }
  }

  /** After the requests the session without the paths that were to be removed is in order. */
  lemma SessionAfter(v: View, v': View, pool: Pool, marked: set<int>, batches: map<string, Batch>, requests: map<string,
                     Request>)
    requires PathsOk(v, pool, marked) && Shapes(pool) && Sends(v, v', pool, batches, requests)
    ensures PathsOk(v', pool - marked, {})
    ensures forall ip: string, e :: e in PdrsAt(pool, ip) ==> PdrSent(v', e, e.rule.path in marked)
  {
    forall ip: string, e | e in PdrsAt(pool, ip)
      ensures PdrSent(v', e, e.rule.path in marked)
    {
      PdrAfter(v, v', pool, marked, batches, requests, ip, e);
    }
    ToldAfterAll(v, v', pool, marked, batches, requests);
    forall ip: string, e | e in PdrsAt(pool - marked, ip)
      ensures PdrOk(v', e, false)
    {
      FewerOwned(pool, marked, ip);
      assert PdrSent(v', e, false);
    }
    FewerApart(pool, marked);
  }

  lemma FewerApart(pool: Pool, marked: set<int>)
    requires Shapes(pool) && IdsApart(pool)
    ensures IdsApart(pool - marked)
  {
    forall ip: string, e, d | e in PdrsAt(pool - marked, ip) && d in PdrsAt(pool - marked, ip) && e.rule == d.rule
      ensures e == d
    {
      FewerOwned(pool, marked, ip);
    }
    FewerOwned(pool, marked, "");
  }

  // --- Changes of the rule states ---

  ghost function PathRules(nodes: seq<Node>): set<Rule> {
    (set n <- nodes, e <- PDRsOf(n) :: e.rule) + (set n <- nodes, e <- PDRsOf(n) :: e.far)
  }

  ghost predicate SetTo(rules: set<Rule>, s: RuleState, st: States, st': States) {
    forall r :: StateOf(st', r) == if r in rules then s else StateOf(st, r)
  }

  // RemovePDR for one tunnel of a node.
  function Mark(st: States, e: Option<PDR>): States {
    if e.Some? then st[e.value.rule := REMOVE][e.value.far := REMOVE] else st
  }

  ghost function NodeRules(n: Node): set<Rule> {
    (set e <- PDRsOf(n) :: e.rule) + (set e <- PDRsOf(n) :: e.far)
  }

  lemma MarkGrows(nodes: seq<Node>, n: Node, st: States, now: States)
    requires SetTo(PathRules(nodes), REMOVE, st, now)
    ensures SetTo(PathRules(nodes + [n]), REMOVE, st, Mark(Mark(now, n.down), n.up))
  {
    RulesGrow(nodes, n);
    MarkNode(n, now);
  }

  lemma MarkNode(n: Node, st: States)
    ensures SetTo(NodeRules(n), REMOVE, st, Mark(Mark(st, n.down), n.up))
  {
    assert forall r :: r in NodeRules(n) <==> (n.up.Some? && (r == n.up.value.rule || r == n.up.value.far))
                                              || (n.down.Some? && (r == n.down.value.rule || r == n.down.value.far));
  }

  lemma RulesGrow(nodes: seq<Node>, n: Node)
    ensures PathRules(nodes + [n]) == PathRules(nodes) + NodeRules(n)
  {
    var all := nodes + [n];
    assert forall m <- nodes :: m in all;
    assert n in all;
  }

  /** The PDRs and FARs of the path have been created at each UPF where the session exists. */
  ghost predicate Installed(v: View, path: Path) {
    forall n <- path.nodes, e <- PDRsOf(n) | n.ip in v.established :: e.rule in v.told.created
          && e.far in v.told.created
  }

  lemma PathRulesAre(pool: Pool, id: int, ip: string, e: PDR)
    requires Shapes(pool) && id in pool && e in PdrsAt(pool, ip)
    ensures e.rule.path != id ==> e.rule !in PathRules(pool[id].nodes) && e.far !in PathRules(pool[id].nodes)
    ensures e.rule.path == id ==> e.rule in PathRules(pool[id].nodes) && e.far in PathRules(pool[id].nodes)
    ensures forall q <- e.qers :: q !in PathRules(pool[id].nodes)
  {
    Shaped(pool, ip, e);
    forall n <- pool[id].nodes, d <- PDRsOf(n)
      ensures Home(d, n.ip, id)
    {
      assert NodeShape(n, id);
    }
  }

  // Marking a path whose rules are at their UPFs keeps the session in order.
  lemma MarkedPaths(v: View, pool: Pool, marked: set<int>, id: int, st: States)
    requires PathsOk(v, pool, marked) && Shapes(pool) && id in pool && id !in marked
    requires SetTo(PathRules(pool[id].nodes), REMOVE, v.st, st) && (pool[id].activated ==> Installed(v, pool[id]))
    ensures PathsOk(v.(st := st), pool, marked + {id})
  {
    MarkedPdrs(v, pool, marked, id, st);
  }

  lemma MarkedPdrs(v: View, pool: Pool, marked: set<int>, id: int, st: States)
    requires PdrsOk(v, pool, marked) && Shapes(pool) && id in pool && id !in marked
    requires SetTo(PathRules(pool[id].nodes), REMOVE, v.st, st) && (pool[id].activated ==> Installed(v, pool[id]))
    requires forall r <- v.told.created :: r.upf in v.established
    ensures PdrsOk(v.(st := st), pool, marked + {id})
  {
    forall ip: string, e | e in PdrsAt(pool, ip)
      ensures PdrOk(v.(st := st), e, e.rule.path in marked + {id})
    {
      PathRulesAre(pool, id, ip, e);
      Shaped(pool, ip, e);
      assert e.rule.path == id ==> pool[id].activated && OnPath(pool[id], e);
      MarkedPdr(v, st, PathRules(pool[id].nodes), e, e.rule.path in marked);
    }
  }

  lemma MarkedPdr(v: View, st: States, rules: set<Rule>, e: PDR, marked: bool)
    requires PdrOk(v, e, marked) && SetTo(rules, REMOVE, v.st, st) && (e.rule in rules <==> e.far in rules)
    requires (forall q <- e.qers :: q !in rules) && Home(e, e.rule.upf, e.rule.path)
    requires e.rule in rules ==> !marked && (e.rule in v.told.created <==> e.rule.upf in v.established)
                                 && (e.far in v.told.created <==> e.far.upf in v.established)
    ensures PdrOk(v.(st := st), e, marked || e.rule in rules)
  {
    assert forall u <- e.urrs :: UrrLive(v, e.rule.upf, u) || (marked && UrrDoomed(v, e.rule.upf, u));
  }

  // Otherwise a request asks a UPF to remove what is not there.
  lemma MarkedTooEarly(v: View, pool: Pool, id: int, st: States) returns (ip: string)
    requires Shapes(pool) && id in pool && pool[id].activated && !Installed(v, pool[id])
    requires SetTo(PathRules(pool[id].nodes), REMOVE, v.st, st)
    ensures exists n <- pool[id].nodes :: n.ip == ip
    ensures forall b, msg :: BatchAt(b, pool, ip) && Contents(b, ip in v.established, st, TableOf(v.tables, ip), msg)
                             ==> !Clean(v.told, ip, msg)
  {
    var n, e :| n in pool[id].nodes && e in PDRsOf(n) && n.ip in v.established
        && !(e.rule in v.told.created && e.far in v.told.created);
    ip := n.ip;
    forall b, msg | BatchAt(b, pool, ip) && Contents(b, ip in v.established, st, TableOf(v.tables, ip), msg)
      ensures !Clean(v.told, ip, msg)
    {
      assert e in b.pdrs && e.far in b.fars && Changes(b, st, TableOf(v.tables, ip), msg);
      assert e.rule in Keys(msg.removePDR, RuleOf) && e.far in Keys(msg.removeFAR, Itself);
    }
  }

  // An update of a FAR that is at its UPF keeps the session in order.
  lemma UpdatedPaths(v: View, pool: Pool, marked: set<int>, ip: string, e: PDR)
    requires PathsOk(v, pool, marked) && Shapes(pool) && e in PdrsAt(pool, ip) && e.rule.path !in marked
    requires e.far in v.told.created
    ensures PathsOk(v.(st := v.st[e.far := UPDATE]), pool, marked)
  {
    UpdatedPdrs(v, pool, marked, ip, e);
  }

  lemma UpdatedPdrs(v: View, pool: Pool, marked: set<int>, ip: string, e: PDR)
    requires PdrsOk(v, pool, marked) && Shapes(pool) && e in PdrsAt(pool, ip) && e.rule.path !in marked
    requires e.far in v.told.created
    ensures PdrsOk(v.(st := v.st[e.far := UPDATE]), pool, marked)
  {
    Shaped(pool, ip, e);
    assert PdrOk(v, e, false);
    forall ip': string, d | d in PdrsAt(pool, ip')
      ensures PdrOk(v.(st := v.st[e.far := UPDATE]), d, d.rule.path in marked)
    {
      Shaped(pool, ip', d);
      UpdatedPdr(v, e.far, d, d.rule.path in marked);
    }
  }

  lemma UpdatedPdr(v: View, far: Rule, d: PDR, marked: bool)
    requires PdrOk(v, d, marked) && Live(v, far) && far in v.told.created && (marked ==> d.far != far)
    requires Home(d, d.rule.upf, d.rule.path) && far.kind == FarRule
    ensures PdrOk(v.(st := v.st[far := UPDATE]), d, marked)
  {
    var v' := v.(st := v.st[far := UPDATE]);
    assert forall r :: r != far ==> StateOf(v'.st, r) == StateOf(v.st, r);
    assert forall q <- d.qers :: QerLive(v, q) && q != far;
    assert forall u <- d.urrs :: UrrLive(v, d.rule.upf, u) || (marked && UrrDoomed(v, d.rule.upf, u));
  }

  // Otherwise a PDR is created that refers to a FAR that is not there.
  lemma UpdatedTooEarly(v: View, pool: Pool, marked: set<int>, ip: string, e: PDR)
    requires PathsOk(v, pool, marked) && Shapes(pool) && e in PdrsAt(pool, ip) && e.rule.path !in marked
    requires e.far !in v.told.created
    ensures forall b, msg :: BatchAt(b, pool, ip) && Contents(b, ip in v.established, v.st[e.far := UPDATE],
            TableOf(v.tables, ip), msg)
                             ==> !Clean(v.told, ip, msg)
  {
    var st := v.st[e.far := UPDATE];
    assert PdrOk(v, e, false);
    Shaped(pool, ip, e);
    forall b, msg | BatchAt(b, pool, ip) && Contents(b, ip in v.established, st, TableOf(v.tables, ip), msg)
      ensures !Clean(v.told, ip, msg)
    {
      BatchIsHome(b, pool, ip);
      assert forall d <- b.pdrs :: d.rule == e.rule ==> d == e;
      WithoutFar(b, ip, ip in v.established, st, TableOf(v.tables, ip), msg, v.told, e);
    }
  }

  lemma WithoutFar(b: Batch, ip: string, known: bool, st: States, table: UrrTable, msg: Request, told: Told, e: PDR)
    requires BatchHome(b, ip) && Contents(b, known, st, table, msg) && e in b.pdrs
    requires forall d <- b.pdrs :: d.rule == e.rule ==> d == e
    requires StateOf(st, e.rule) == INITIAL && StateOf(st, e.far) != INITIAL && e.far !in told.created
    ensures !Clean(told, ip, msg)
  {
    RequestActs(b, ip, known, st, table, msg);
    assert e.rule in Keys(b.pdrs, RuleOf) && e.rule in Keys(msg.createPDR, RuleOf);
    var d :| d in msg.createPDR && d.rule == e.rule;
    assert d == e && !Refers(told, ip, msg, e);
  }

  /** A URR that a PDR lists is updated or queried while it is at the UPF, and released when no path
      that stays lists it and it is at the UPF if the session is. That nobody else lists it is what
      `UrrTable.MarksLastReference` says of the URRs that a release marks. */
  ghost predicate Suits(v: View, pool: Pool, marked: set<int>, ip: string, u: nat, s: RuleState) {
    u in UrrsAt(pool, ip) ==>
      if s == REMOVE then
        && ((ip, u) in v.told.urrs <==> ip in v.established)
        && forall e <- PdrsAt(pool, ip) :: u in e.urrs ==> e.rule.path in marked
      else s == INITIAL <==> (ip, u) !in v.told.urrs
  }

  lemma UrrSet(v: View, v': View, pool: Pool, marked: set<int>, ip: string, u: nat, s: RuleState)
    requires PathsOk(v, pool, marked) && Shapes(pool) && Suits(v, pool, marked, ip, u, s)
    requires v' == v.(tables := v'.tables)
    requires v'.tables == if ip in v.tables then v.tables[ip := SetUrrState(v.tables[ip], u, s)] else v.tables
    ensures PathsOk(v', pool, marked)
  {
    forall ip': string, e | e in PdrsAt(pool, ip')
      ensures PdrOk(v', e, e.rule.path in marked)
    {
      Shaped(pool, ip', e);
      assert PdrOk(v, e, e.rule.path in marked);
      assert ip' == ip && u in e.urrs ==> u in UrrsAt(pool, ip);
      UrrSetFor(v, v', e, e.rule.path in marked, ip, u, s);
    }
  }

  // Registering a URR changes nothing for those that are registered.
  lemma UrrRegistered(v: View, v': View, pool: Pool, marked: set<int>, ip: string, u: nat)
    requires PathsOk(v, pool, marked)
    requires v' == v.(tables := v.tables[ip := TableOf(v.tables, ip)[u := UrrState(TableOf(v.tables, ip), u)]])
    ensures PathsOk(v', pool, marked)
  {
    forall ip': string, e | e in PdrsAt(pool, ip')
      ensures PdrOk(v', e, e.rule.path in marked)
    {
      assert PdrOk(v, e, e.rule.path in marked);
      UrrsKept(v, v', e, e.rule.path in marked, ip, u);
    }
  }

  lemma UrrsKept(v: View, v': View, e: PDR, marked: bool, ip: string, u: nat)
    requires PdrOk(v, e, marked)
    requires v' == v.(tables := v.tables[ip := TableOf(v.tables, ip)[u := UrrState(TableOf(v.tables, ip), u)]])
    ensures PdrOk(v', e, marked)
  {
    forall w <- e.urrs
      ensures UrrLive(v', e.rule.upf, w) || (marked && UrrDoomed(v', e.rule.upf, w))
    {
      assert UrrLive(v, e.rule.upf, w) || (marked && UrrDoomed(v, e.rule.upf, w));
    }
    assert forall q <- e.qers :: QerLive(v, q) && QerLive(v', q);
  }

  lemma UrrSetFor(v: View, v': View, e: PDR, marked: bool, ip: string, u: nat, s: RuleState)
    requires PdrOk(v, e, marked) && v' == v.(tables := v'.tables)
    requires v'.tables == if ip in v.tables then v.tables[ip := SetUrrState(v.tables[ip], u, s)] else v.tables
    requires e.rule.upf == ip && u in e.urrs ==>
               if s == REMOVE then marked && ((ip, u) in v.told.urrs <==> ip in v.established)
               else s == INITIAL <==> (ip, u) !in v.told.urrs
    ensures PdrOk(v', e, marked)
  {
    forall w <- e.urrs
      ensures UrrLive(v', e.rule.upf, w) || (marked && UrrDoomed(v', e.rule.upf, w))
    {
      assert UrrLive(v, e.rule.upf, w) || (marked && UrrDoomed(v, e.rule.upf, w));
    }
    assert forall q <- e.qers :: QerLive(v, q) && QerLive(v', q);
  }

  /** A rule that was never created and will not be: it is not in state INITIAL any more. */
  ghost predicate Stuck(v: View, r: Rule) {
    StateOf(v.st, r) != INITIAL && r !in v.told.created
  }

  ghost predicate StuckStays(v: View, v': View) {
    forall r :: Stuck(v, r) ==> Stuck(v', r)
  }

  lemma SendingStuck(v: View, v': View, pool: Pool, batches: map<string, Batch>, requests: map<string, Request>)
    requires Sends(v, v', pool, batches, requests)
    ensures StuckStays(v, v')
  {
    forall r | Stuck(v, r)
      ensures Stuck(v', r)
    {
      RuleAfter(v, v', pool, batches, requests, r);
    }
  }

  /** What can be added to the pool at all: new QERs have ids that are not in use. */
  predicate Possible(pool: Pool, qers: QerPool, id: int, path: Path) {
    && id !in pool && (forall n <- path.nodes :: NodeShape(n, id))
    && forall n <- path.nodes :: Apart(AtUpf(qers, n.ip) + QersOn(path, n.ip))
  }

  // A new path.
  ghost predicate Fresh(v: View, pool: Pool, id: int, path: Path) {
    path.activated ==> IdsApart(pool[id := path]) && forall n <- path.nodes, e <- PDRsOf(n) :: PdrOk(v, e, false)
  }

  lemma AddedPaths(v: View, pool: Pool, marked: set<int>, id: int, path: Path)
    requires PathsOk(v, pool, marked) && id !in pool && id !in marked && Shapes(pool[id := path])
    requires Fresh(v, pool, id, path)
    ensures PathsOk(v, pool[id := path], marked)
  {
    var more := pool[id := path];
    forall ip: string, e | e in PdrsAt(more, ip)
      ensures PdrOk(v, e, e.rule.path in marked)
    {
      var i, n :| i in more && n in more[i].nodes && e in PDRsOf(n) && more[i].activated && n.ip == ip;
      assert NodeShape(n, i);
      if i != id { assert e in PdrsAt(pool, ip); }
    }
    assert forall r :: Owned(pool, r) ==> Owned(more, r);
    if !path.activated { SameOwned(pool, id, path); }
  }

  lemma SameOwned(pool: Pool, id: int, path: Path)
    requires id !in pool && !path.activated && IdsApart(pool)
    ensures IdsApart(pool[id := path])
  {
    var more := pool[id := path];
    assert forall r :: Owned(more, r) ==> Owned(pool, r);
    forall ip: string, e | e in PdrsAt(more, ip)
      ensures e in PdrsAt(pool, ip)
    {
      var i, n :| i in more && n in more[i].nodes && e in PDRsOf(n) && more[i].activated && n.ip == ip;
    }
  }

  ghost predicate DifferentIds(qers: seq<Rule>) {
    forall q <- qers, r <- qers :: q.id == r.id ==> q == r
  }

  ghost predicate Sending(v: View, v': View, batches: map<string, Batch>, todo: set<string>, requests: map<string,
                          Request>) {
    todo <= batches.Keys && SentTo(v, v', batches, batches.Keys - todo, requests)
  }

  lemma NothingSent(v: View, batches: map<string, Batch>)
    ensures Sending(v, v, batches, batches.Keys, map[])
  {
  }

  lemma OneLess(all: set<string>, todo: set<string>, ip: string)
    requires todo <= all && ip in todo
    ensures todo - {ip} <= all && all - (todo - {ip}) == all - todo + {ip}
  {
  }

  lemma AllSent(v: View, v': View, batches: map<string, Batch>, requests: map<string, Request>)
    requires Sending(v, v', batches, {}, requests)
    ensures SentTo(v, v', batches, batches.Keys, requests)
  {
    assert batches.Keys - {} == batches.Keys;
  }

  // --- Sessions ---

  class PfcpSession {
    var pool: Pool
    var toBeRemoved: set<int>
    var st: States
    var tables: map<string, UrrTable>
    var established: set<string>
    var qerPool: QerPool
    ghost var told: Told

    constructor ()
      ensures Valid() && pool == map[] && toBeRemoved == {} && qerPool == map[]
              && V() == View(map[], map[], {}, NOTHING)
    {
      pool, toBeRemoved, st, tables, established, qerPool, told := map[], {}, map[], map[], {}, map[], NOTHING;
    }

    ghost function V(): View
      reads this`st, this`tables, this`established, this`told
    {
      View(st, tables, established, told)
    }

    // What holds of the objects whatever is done with them.
    ghost predicate Sound()
      reads this`pool, this`toBeRemoved, this`established, this`qerPool
    {
      toBeRemoved <= pool.Keys && Shapes(pool) && QersSound(pool, qerPool, established)
    }

    ghost predicate Valid()
      reads this
    {
      Sound() && PathsOk(V(), pool, toBeRemoved)
    }

    // The batches of all activated paths, by UPF.
    method Collect() returns (batches: map<string, Batch>)
      ensures AllBatches(batches, pool)
      ensures forall ip <- batches :: exists id <- pool, n <- pool[id].nodes :: n.ip == ip
    {
      batches := map[];
      ghost var visited: seq<Node> := [];
      var todo := pool.Keys;
      while todo != {}
        invariant todo <= pool.Keys && Collected(batches, visited)
        invariant forall id <- pool :: id !in todo && pool[id].activated ==> forall n <- pool[id].nodes :: n in visited
        invariant forall n <- visited :: exists id <- pool :: pool[id].activated && n in pool[id].nodes
        invariant forall ip <- batches :: exists n <- visited :: n.ip == ip
        decreases todo
      {
        var id := AnyOf(todo);
        todo := todo - {id};
        if pool[id].activated { batches, visited := CollectPath(pool[id], batches, visited); }
      }
      forall ip <- batches
        ensures BatchAt(batches[ip], pool, ip)
      {
        VisitedBatch(pool, visited, ip);
      }
    }

    static method CollectPath(path: Path, batches0: map<string, Batch>, ghost visited0: seq<Node>)
      returns (batches: map<string, Batch>, ghost visited: seq<Node>)
      requires Collected(batches0, visited0) && forall ip <- batches0 :: exists n <- visited0 :: n.ip == ip
      ensures visited == visited0 + path.nodes && Collected(batches, visited)
      ensures forall ip <- batches :: exists n <- visited :: n.ip == ip
    {
      batches, visited := batches0, visited0;
      for i := 0 to |path.nodes|
        invariant visited == visited0 + path.nodes[..i] && Collected(batches, visited)
        invariant forall ip <- batches :: exists n <- visited :: n.ip == ip
      {
        var node := path.nodes[i];
        CollectOne(batches, visited, node);
        batches := batches[node.ip := Join(if node.ip in batches then batches[node.ip] else EMPTY, NodeBatch(node))];
        visited := visited + [node];
        assert path.nodes[..i + 1] == path.nodes[..i] + [node];
      }
      assert path.nodes[..|path.nodes|] == path.nodes;
    }

    /** One UPF's request, delivered and accepted: an establishment request where the session does
        not exist yet, else a modification request. */
    method Send(ip: string, b: Batch) returns (msg: Request, ghost st': States, ghost table': UrrTable)
      requires BatchHome(b, ip) && (ip !in established ==> DifferentIds(b.qers))
      modifies this`st, this`tables, this`established, this`told
      ensures Contents(b, ip in old(established), old(st), TableOf(old(tables), ip), msg)
      ensures Leaves(b, ip in old(established), old(st), TableOf(old(tables), ip), st', table')
      ensures V() == AfterSending(old(V()), ip, msg, st', table')
    {
      var after, table;
      if ip !in established {
        ghost var qers;
        msg, after, table, qers := BuildPfcpSessionEstablishmentRequest(b, st, TableOf(tables, ip));
        AllUnique(b.qers, qers);
        SameQers(b, qers, false, st, TableOf(tables, ip), msg, after, table);
      } else {
        msg, after, table := BuildPfcpSessionModificationRequest(b, st, TableOf(tables, ip));
      }
      st', table' := after, table;
      st, tables, established, told := after, tables[ip := table], established + {ip}, AfterRequest(told, ip, msg);
    }

    method SendAll(batches: map<string, Batch>) returns (requests: map<string, Request>)
      requires AllHome(batches)
      requires forall ip <- batches | ip !in established :: DifferentIds(batches[ip].qers)
      modifies this`st, this`tables, this`established, this`told
      ensures SentTo(old(V()), V(), batches, batches.Keys, requests)
    {
      requests := map[];
      var todo := batches.Keys;
      ghost var v := V();
      NothingSent(v, batches);
      while todo != {}
        invariant Sending(v, V(), batches, todo, requests)
        decreases todo
      {
        var ip := AnyOf(todo);
        requests := SendNext(ip, batches, todo, requests, v);
        todo := todo - {ip};
      }
      AllSent(v, V(), batches, requests);
    }

    method SendNext(ip: string, batches: map<string, Batch>, ghost todo: set<string>, requests0: map<string, Request>,
                    ghost v: View)
      returns (requests: map<string, Request>)
      requires Sending(v, V(), batches, todo, requests0) && AllHome(batches) && ip in todo
      requires ip !in v.established ==> DifferentIds(batches[ip].qers)
      modifies this`st, this`tables, this`established, this`told
      ensures Sending(v, V(), batches, todo - {ip}, requests)
    {
      ghost var now, st', table' := V(), st, TableOf(tables, ip);
      var msg;
      msg, st', table' := Send(ip, batches[ip]);
      SentOneMore(v, now, batches, batches.Keys - todo, requests0, ip, msg, st', table');
      OneLess(batches.Keys, todo, ip);
      requests := requests0[ip := msg];
    }

    /** ActivateUPFSession, with every request delivered and accepted: every UPF of an activated path
        gets the request that follows from the rule states, and while the session is in order every
        request is clean. */
    method ActivateUPFSession() returns (requests: map<string, Request>, ghost batches: map<string, Batch>)
      requires Sound()
      modifies this`st, this`tables, this`established, this`told
      ensures Sound() && Sends(old(V()), V(), pool, batches, requests)
      ensures forall ip | ip !in established :: QersAt(pool, ip) == {}
      ensures old(Valid()) ==> AllClean(old(told), requests) && QersExactly(old(told), pool, requests)
    {
      var collected := Collect();
      batches := collected;
      ghost var v := V();
      forall ip <- batches
        ensures BatchHome(batches[ip], ip)
      {
        BatchIsHome(batches[ip], pool, ip);
      }
      forall ip <- batches | ip !in established
        ensures DifferentIds(batches[ip].qers)
      {
        assert Apart(AtUpf(qerPool, ip));
      }
      requests := SendAll(collected);
      assert forall ip | ip !in established :: QersAt(pool, ip) == {};
      if old(Valid()) {
        RequestsClean(v, pool, toBeRemoved, batches, requests);
        RequestsQers(v, pool, toBeRemoved, batches, requests);
      }
    }

    /** PostRemoveDataPath, after the requests have been delivered: the paths are dropped, and their
        QERs given back. */
    method PostRemoveDataPath()
      requires Sound() && forall ip | ip !in established :: QersAt(pool, ip) == {}
      modifies this`pool, this`toBeRemoved, this`qerPool
      ensures Sound() && toBeRemoved == {} && pool == old(pool) - old(toBeRemoved)
      ensures qerPool == GivenBack(old(qerPool), old(pool), old(toBeRemoved))
    {
      QersDropped(pool, qerPool, established, toBeRemoved);
      qerPool := GivenBack(qerPool, pool, toBeRemoved);
      pool := pool - toBeRemoved;
      toBeRemoved := {};
    }

    /** A round: the requests are sent, and what is to be removed is dropped. Every PDR, FAR and QER
        of the paths that stay is at its UPF then, and no PDR or FAR of the others. */
    method Round() returns (requests: map<string, Request>)
      requires Sound()
      modifies this
      ensures Sound() && toBeRemoved == {} && pool == old(pool) - old(toBeRemoved)
      ensures qerPool == GivenBack(old(qerPool), old(pool), old(toBeRemoved))
      ensures told == AfterAll(old(told), requests) && StuckStays(old(V()), V())
      ensures exists batches :: Sends(old(V()), V(), old(pool), batches, requests)
      ensures old(Valid()) ==> Valid() && AllClean(old(told), requests) && QersExactly(old(told), old(pool), requests)
      ensures old(Valid()) ==> forall ip: string, e ::
                e in PdrsAt(old(pool), ip) ==> PdrSent(V(), e, e.rule.path in old(toBeRemoved))
    {
      ghost var v, batches := V(), map[];
      requests, batches := ActivateUPFSession();
      SendingStuck(v, V(), pool, batches, requests);
      if old(Valid()) { SessionAfter(v, V(), pool, toBeRemoved, batches, requests); }
      PostRemoveDataPath();
    }

    /** A new path: its PDRs and FARs are new objects under ids of their own, its QERs new or in
        use, its URRs registered. */
    method AddDataPath(id: int, path: Path)
      requires Sound() && Possible(pool, qerPool, id, path)
      modifies this`pool, this`qerPool
      ensures Sound() && pool == old(pool)[id := path] && qerPool == Using(old(qerPool), path)
      ensures old(Valid()) && Fresh(V(), old(pool), id, path) ==> Valid()
    {
      QersAdded(pool, qerPool, established, id, path);
      assert Shapes(pool[id := path]);
      if Valid() && Fresh(V(), pool, id, path) { AddedPaths(V(), pool, toBeRemoved, id, path); }
      pool, qerPool := pool[id := path], Using(qerPool, path);
    }

    method RegisterUrr(ip: string, u: nat)
      modifies this`tables
      ensures tables == old(tables)[ip := TableOf(old(tables), ip)[u := UrrState(TableOf(old(tables), ip), u)]]
      ensures old(Valid()) ==> Valid()
    {
      ghost var v := V();
      tables := tables[ip := TableOf(tables, ip)[u := UrrState(TableOf(tables, ip), u)]];
      if old(Valid()) { UrrRegistered(v, V(), pool, toBeRemoved, ip, u); }
    }

    /** SetUrrState: a quota update, a query or the release of a URR. The session stays in order if
        it suits the URR. */
    method SetUrrState(ip: string, u: nat, s: RuleState)
      requires Sound()
      modifies this`tables
      ensures tables == if ip in old(tables) then old(tables)[ip := PfcpRequests.SetUrrState(old(tables)[ip], u, s)]
              else old(tables)
      ensures Sound() && (old(Valid()) && Suits(V(), pool, toBeRemoved, ip, u, s) ==> Valid())
    {
      ghost var v := V();
      if ip in tables { tables := tables[ip := PfcpRequests.SetUrrState(tables[ip], u, s)]; }
      if old(Valid()) && Suits(V(), pool, toBeRemoved, ip, u, s) { UrrSet(v, V(), pool, toBeRemoved, ip, u, s); }
    }

    /** PreRemoveDataPath with RemovePDR. The session stays in order if the path's PDRs and FARs have
        been created at each UPF where the session exists. */
    method PreRemoveDataPath(id: int)
      requires Sound() && id in pool
      modifies this`st, this`toBeRemoved
      ensures Sound() && toBeRemoved == old(toBeRemoved) + {id} && SetTo(PathRules(pool[id].nodes), REMOVE, old(st), st)
      ensures old(Valid()) && id !in old(toBeRemoved) && (pool[id].activated ==> Installed(V(), pool[id])) ==> Valid()
    {
      ghost var v := V();
      RemovePDR(pool[id]);
      assert V() == v.(st := st);
      if old(Valid()) && id !in toBeRemoved && (pool[id].activated ==> Installed(v, pool[id])) {
        MarkedPaths(v, pool, toBeRemoved, id, st);
      }
      toBeRemoved := toBeRemoved + {id};
    }

    method RemovePDR(path: Path)
      modifies this`st
      ensures SetTo(PathRules(path.nodes), REMOVE, old(st), st)
    {
      var nodes := path.nodes;
      for i := 0 to |nodes|
        invariant SetTo(PathRules(nodes[..i]), REMOVE, old(st), st)
      {
        assert nodes[..i + 1] == nodes[..i] + [nodes[i]];
        MarkGrows(nodes[..i], nodes[i], old(st), st);
        st := Mark(Mark(st, nodes[i].down), nodes[i].up);
      }
      assert nodes[..|nodes|] == nodes;
    }

    /** The requests that follow a path's removal are all clean exactly if its PDRs and FARs have been
        created at each UPF where the session exists: an establishment request removes nothing, but a
        modification request asks for the removal whether or not the rule is there. */
    method RemoveAndSend(id: int) returns (requests: map<string, Request>)
      requires Valid() && id in pool && id !in toBeRemoved
      modifies this`st, this`toBeRemoved, this`tables, this`established, this`told
      ensures AllClean(old(told), requests) <==> (pool[id].activated ==> Installed(old(V()), pool[id]))
    {
      ghost var v, batches, ip := V(), map[], "";
      PreRemoveDataPath(id);
      ghost var marked := V();
      if pool[id].activated && !Installed(v, pool[id]) { ip := MarkedTooEarly(v, pool, id, st); }
      requests, batches := ActivateUPFSession();
      if pool[id].activated && !Installed(v, pool[id]) { OneRefused(marked, V(), pool, batches, requests, ip); }
    }

    /** UpdateANInformation marks a first node's downlink FAR. */
    method UpdateFAR(e: PDR)
      requires Sound()
      modifies this`st
      ensures Sound() && st == old(st)[e.far := UPDATE]
      ensures forall ip: string ::
                old(Valid()) && e in PdrsAt(pool, ip) && e.rule.path !in toBeRemoved && e.far in told.created
                ==> Valid()
    {
      forall ip: string | Valid() && e in PdrsAt(pool, ip) && e.rule.path !in toBeRemoved && e.far in told.created
        ensures PathsOk(V().(st := st[e.far := UPDATE]), pool, toBeRemoved)
      {
        UpdatedPaths(V(), pool, toBeRemoved, ip, e);
      }
      st := st[e.far := UPDATE];
    }

    /** The requests that follow are all clean exactly if the FAR has been created; if not, the PDR is
        created without its FAR, and `Run` shows that the FAR never is. */
    method UpdateAndSend(ghost ip: string, e: PDR) returns (requests: map<string, Request>)
      requires Valid() && e in PdrsAt(pool, ip) && e.rule.path !in toBeRemoved
      modifies this`st, this`tables, this`established, this`told
      ensures AllClean(old(told), requests) <==> e.far in old(told).created
      ensures Sound() && (e.far !in old(told).created ==> Stuck(V(), e.far))
    {
      ghost var v, batches := V(), map[];
      UpdateFAR(e);
      ghost var updated := V();
      if e.far !in told.created { UpdatedTooEarly(v, pool, toBeRemoved, ip, e); }
      requests, batches := ActivateUPFSession();
      SendingStuck(updated, V(), pool, batches, requests);
      if e.far !in v.told.created { OneRefused(updated, V(), pool, batches, requests, ip); }
    }

    ghost function S(): State
      reads this
    {
      State(pool, toBeRemoved, V(), qerPool)
    }

    /** Any run, with the states it goes through. What is stuck stays so. If every event is proper in
        the state in which it comes, the session stays in order and all requests are clean in turn,
        so that `OnceInLog` holds of them. */
    method Run(events: seq<Event>) returns (log: seq<map<string, Request>>, ghost trace: seq<State>)
      requires Sound()
      modifies this
      ensures Sound() && Ran(old(S()), events, log, trace, S())
      ensures old(Valid()) && AllProper(trace, events) ==> Valid() && AllInOrder(trace) && CleanLog(old(told), log)
    {
      log, trace := [], [S()];
      ghost var s := S();
      for i := 0 to |events|
        invariant Sound() && Ran(s, events[..i], log, trace, S()) && RunsWell(s, events[..i], log, trace)
      {
        assert events[..i + 1] == events[..i] + [events[i]];
        log, trace := RunOn(s, events[..i], events[i], log, trace);
      }
      assert events[..|events|] == events;
    }

    method RunOn(ghost s: State, ghost events: seq<Event>, e: Event, log0: seq<map<string, Request>>,
                 ghost trace0: seq<State>)
      returns (log: seq<map<string, Request>>, ghost trace: seq<State>)
      requires Sound() && Ran(s, events, log0, trace0, S()) && RunsWell(s, events, log0, trace0)
      modifies this
      ensures Sound() && Ran(s, events + [e], log, trace, S()) && RunsWell(s, events + [e], log, trace)
    {
      ghost var before, valid := S(), Valid();
      var requests := Step(e);
      RanFurther(s, events, log0, trace0, before, e, requests, S());
      log, trace := log0 + [requests], trace0 + [S()];
      RunsOnWell(s, events, log0, trace0, before, e, requests, S());
    }

    method Step(e: Event) returns (requests: map<string, Request>)
      requires Sound()
      modifies this
      ensures Sound() && StuckStays(old(V()), V())
      ensures told == AfterAll(old(told), requests) && Next(old(S()), e, S(), requests)
      ensures old(Valid()) && Proper(old(S()), e) ==> Valid() && AllClean(old(told), requests)
    {
      if e == Activate {
        requests := Round();
      } else {
        requests := map[];
        AfterNothing(told);
        if e.Register? || e.SetUrr? { ChangeUrrs(e); } else { ChangePaths(e); }
      }
    }

    // The events that send nothing.
    method ChangeUrrs(e: Event)
      requires Sound() && (e.Register? || e.SetUrr?)
      modifies this`tables
      ensures Sound() && Next(old(S()), e, S(), map[])
      ensures old(Valid()) && Proper(old(S()), e) ==> Valid()
    {
      match e
      case Register(ip, u) => RegisterUrr(ip, u);
      case SetUrr(ip, u, state) => SetUrrState(ip, u, state);
    }

    method ChangePaths(e: Event)
      requires Sound() && (e.Add? || e.PreRemove? || e.UpdateAN?)
      modifies this`pool, this`toBeRemoved, this`st, this`qerPool
      ensures Sound() && StuckStays(old(V()), V()) && Next(old(S()), e, S(), map[])
      ensures old(Valid()) && Proper(old(S()), e) ==> Valid()
    {
      match e
      case Add(id, path) =>
        if Possible(pool, qerPool, id, path) { AddDataPath(id, path); }
      case PreRemove(id) =>
        if id in pool { PreRemoveDataPath(id); }
      case UpdateAN(ip, e) =>
        if e in PdrsAt(pool, ip) { UpdateFAR(e); }
    }
  }

  ghost predicate AllClean(told: Told, requests: map<string, Request>) {
    forall ip <- requests :: Clean(told, ip, requests[ip])
  }

  lemma RequestsClean(v: View, pool: Pool, marked: set<int>, batches: map<string, Batch>, requests: map<string,
                      Request>)
    requires PathsOk(v, pool, marked) && Shapes(pool) && AllBatches(batches, pool) && AllContents(v, batches, requests)
    ensures AllClean(v.told, requests)
  {
    forall ip <- requests
      ensures Clean(v.told, ip, requests[ip])
    {
      RequestClean(v, pool, marked, batches[ip], ip, requests[ip]);
    }
  }

  /** Where QER ids are free exactly if they are new. */
  ghost predicate QersExactly(told: Told, pool: Pool, requests: map<string, Request>) {
    forall ip <- requests :: IdsFree(requests[ip].createQER, Itself, told) <==> QerIdsNew(told, pool, ip)
  }

  lemma RequestsQers(v: View, pool: Pool, marked: set<int>, batches: map<string, Batch>, requests: map<string, Request>)
    requires PathsOk(v, pool, marked) && Shapes(pool) && AllBatches(batches, pool) && AllContents(v, batches, requests)
    ensures QersExactly(v.told, pool, requests)
  {
    forall ip <- requests
      ensures IdsFree(requests[ip].createQER, Itself, v.told) <==> QerIdsNew(v.told, pool, ip)
    {
      QerIdsExactly(v, pool, marked, batches[ip], ip, requests[ip]);
    }
  }

  lemma OneRefused(v: View, v': View, pool: Pool, batches: map<string, Batch>, requests: map<string, Request>,
                   ip: string)
    requires Sends(v, v', pool, batches, requests)
    requires exists id <- pool, n <- pool[id].nodes :: pool[id].activated && n.ip == ip
    requires forall b, msg :: BatchAt(b, pool, ip) && Contents(b, ip in v.established, v.st, TableOf(v.tables, ip), msg)
                              ==> !Clean(v.told, ip, msg)
    ensures !AllClean(v.told, requests)
  {
    assert ip in batches && ip in requests;
  }

  // --- Runs ---

  datatype Event =
    | Add(id: int, path: Path)
    | Register(ip: string, urr: nat)
    | SetUrr(ip: string, urr: nat, state: RuleState)
    | PreRemove(id: int)
    | UpdateAN(ip: string, pdr: PDR)
    | Activate

  datatype State = State(pool: Pool, toBeRemoved: set<int>, view: View, qers: QerPool)

  /** What an event does, and the requests it leads to. */
  ghost predicate Next(s: State, e: Event, s': State, requests: map<string, Request>) {
    match e
    case Add(id, path) =>
      requests == map[] && s' == if Possible(s.pool, s.qers, id, path)
          then s.(pool := s.pool[id := path], qers := Using(s.qers, path)) else s
    case Register(ip, u) =>
      var table := TableOf(s.view.tables, ip);
      requests == map[] && s' == s.(view := s.view.(tables := s.view.tables[ip := table[u := UrrState(table, u)]]))
    case SetUrr(ip, u, state) =>
      var tables := s.view.tables;
      requests == map[] && s' == if ip in tables
          then s.(view := s.view.(tables := tables[ip := SetUrrState(tables[ip], u, state)])) else s
    case PreRemove(id) =>
      requests == map[] && if id in s.pool then Marked(s, id, s') else s' == s
    case UpdateAN(ip, e) =>
      requests == map[] && s' == if e in PdrsAt(s.pool, ip) then s.(view := s.view.(st := s.view.st[e.far := UPDATE]))
          else s
    case Activate =>
      s'.pool == s.pool - s.toBeRemoved && s'.toBeRemoved == {} && s'.qers == GivenBack(s.qers, s.pool, s.toBeRemoved)
      && exists batches :: Sends(s.view, s'.view, s.pool, batches, requests)
  }

  ghost predicate Marked(s: State, id: int, s': State)
    requires id in s.pool
  {
    s' == State(s.pool, s.toBeRemoved + {id}, s.view.(st := s'.view.st), s.qers)
        && SetTo(PathRules(s.pool[id].nodes), REMOVE, s.view.st, s'.view.st)
  }

  /** When an event leaves a session in order. */
  ghost predicate Proper(s: State, e: Event) {
    match e
    case Add(id, path) => Possible(s.pool, s.qers, id, path) ==> Fresh(s.view, s.pool, id, path)
    case Register(ip, u) => true
    case SetUrr(ip, u, state) => Suits(s.view, s.pool, s.toBeRemoved, ip, u, state)
    case PreRemove(id) => id in s.pool
        ==> id !in s.toBeRemoved && (s.pool[id].activated ==> Installed(s.view, s.pool[id]))
    case UpdateAN(ip, e) => e in PdrsAt(s.pool, ip) ==> e.rule.path !in s.toBeRemoved && e.far in s.view.told.created
    case Activate => true
  }

  ghost predicate Traced(s: State, events: seq<Event>, log: seq<map<string, Request>>, trace: seq<State>) {
    && |log| == |events| && |trace| == |events| + 1 && trace[0] == s
    && forall i :: 0 <= i < |events| ==> Next(trace[i], events[i], trace[i + 1], log[i])
  }

  lemma AfterNothing(told: Told)
    ensures AfterAll(told, map[]) == told
  {
  }

  /** The requests of each round are clean in turn, starting from what the UPFs were told before. */
  ghost predicate CleanLog(told: Told, log: seq<map<string, Request>>) {
    log == [] || (CleanLog(told, log[..|log| - 1]) && AllClean(ToldAfter(told, log[..|log| - 1]), log[|log| - 1]))
  }

  ghost function ToldAfter(told: Told, log: seq<map<string, Request>>): Told {
    if log == [] then told else AfterAll(ToldAfter(told, log[..|log| - 1]), log[|log| - 1])
  }

  lemma LogGrows(told: Told, log: seq<map<string, Request>>, requests: map<string, Request>)
    ensures ToldAfter(told, log + [requests]) == AfterAll(ToldAfter(told, log), requests)
    ensures CleanLog(told, log + [requests]) <==> CleanLog(told, log) && AllClean(ToldAfter(told, log), requests)
  {
    assert (log + [requests])[..|log|] == log;
  }

  ghost predicate AllProper(trace: seq<State>, events: seq<Event>) {
    |events| < |trace| && forall i :: 0 <= i < |events| ==> Proper(trace[i], events[i])
  }

  ghost predicate InOrder(s: State) {
    && s.toBeRemoved <= s.pool.Keys && Shapes(s.pool) && QersSound(s.pool, s.qers, s.view.established)
    && PathsOk(s.view, s.pool, s.toBeRemoved)
  }

  /** The session is in order in every state of a run. */
  ghost predicate AllInOrder(trace: seq<State>) {
    forall i :: 0 <= i < |trace| ==> InOrder(trace[i])
  }

  ghost predicate RunsWell(s: State, events: seq<Event>, log: seq<map<string, Request>>, trace: seq<State>) {
    InOrder(s) && AllProper(trace, events) ==> AllInOrder(trace) && CleanLog(s.view.told, log)
  }

  lemma RunsOnWell(s: State, events: seq<Event>, log: seq<map<string, Request>>, trace: seq<State>, before: State,
                   e: Event, requests: map<string, Request>, after: State)
    requires Ran(s, events, log, trace, before) && RunsWell(s, events, log, trace)
    requires InOrder(before) && Proper(before, e) ==> InOrder(after) && AllClean(before.view.told, requests)
    ensures RunsWell(s, events + [e], log + [requests], trace + [after])
  {
    ProperGrows(trace, events, before, e, after);
    LogGrows(s.view.told, log, requests);
    if InOrder(s) && AllProper(trace, events) { assert InOrder(trace[|events|]); }
  }

  /** A run of the events leads from s through the trace to s', and the log has its requests. */
  ghost predicate Ran(s: State, events: seq<Event>, log: seq<map<string, Request>>, trace: seq<State>, s': State) {
    && Traced(s, events, log, trace) && trace[|events|] == s'
    && s'.view.told == ToldAfter(s.view.told, log) && StuckStays(s.view, s'.view)
  }

  lemma RanFurther(s: State, events: seq<Event>, log: seq<map<string, Request>>, trace: seq<State>, s': State,
                   e: Event, requests: map<string, Request>, s'': State)
    requires Ran(s, events, log, trace, s') && Next(s', e, s'', requests)
    requires StuckStays(s'.view, s''.view) && s''.view.told == AfterAll(s'.view.told, requests)
    ensures Ran(s, events + [e], log + [requests], trace + [s''], s'')
  {
    LogGrows(s.view.told, log, requests);
    TraceGrows(s, events, e, log, requests, trace, s'');
  }

  lemma TraceGrows(s: State, events: seq<Event>, e: Event, log: seq<map<string, Request>>,
                   requests: map<string, Request>, trace: seq<State>, s': State)
    requires Traced(s, events, log, trace) && Next(trace[|events|], e, s', requests)
    ensures Traced(s, events + [e], log + [requests], trace + [s'])
  {
  }

  lemma ProperGrows(trace: seq<State>, events: seq<Event>, s: State, e: Event, s': State)
    requires |trace| == |events| + 1 && trace[|events|] == s
    ensures AllProper(trace + [s'], events + [e]) <==> AllProper(trace, events) && Proper(s, e)
  {
    var longer, all := trace + [s'], events + [e];
    if AllProper(longer, all) {
      assert Proper(longer[|events|], all[|events|]);
      forall i | 0 <= i < |events|
        ensures Proper(trace[i], events[i])
      {
        assert Proper(longer[i], all[i]);
      }
    }
  }

  // --- QER ids that are given out again ---

  /** The QERs that the paths or the UPF have. */
  ghost function KnownQers(told: Told, pool: Pool, ip: string): set<Rule> {
    QersAt(pool, ip) + set r <- told.created | r.kind == QerRule && r.upf == ip
  }

  /** One of them was given back, so that a new QER may get its id. */
  ghost predicate Loose(s: State, ip: string) {
    !(KnownQers(s.view.told, s.pool, ip) <= AtUpf(s.qers, ip))
  }

  /** As long as none was, QERs are created under free ids. */
  lemma TightIsNew(s: State, ip: string)
    requires InOrder(s) && !Loose(s, ip)
    ensures QerIdsNew(s.view.told, s.pool, ip)
  {
    ShapedQers(s.pool, ip);
    assert Apart(AtUpf(s.qers, ip));
    forall q, r | q in QersAt(s.pool, ip) && q !in s.view.told.created
                  && (r in QersAt(s.pool, ip) || r in s.view.told.created) && SameId(q, r)
      ensures q == r
    {
      assert q in KnownQers(s.view.told, s.pool, ip) && r in KnownQers(s.view.told, s.pool, ip);
    }
  }

  /** A path with a new QER under the id of one that was given back breaks it. */
  lemma LooseIsReused(s: State, ip: string, r: Rule, id: int, path: Path, q: Rule)
    requires InOrder(s) && r in KnownQers(s.view.told, s.pool, ip) && r !in AtUpf(s.qers, ip)
    requires Possible(s.pool, s.qers, id, path) && path.activated && q in QersOn(path, ip)
    requires q !in KnownQers(s.view.told, s.pool, ip) && q.id == r.id
    ensures !QerIdsNew(s.view.told, s.pool[id := path], ip)
  {
    MoreQersAt(s.pool, id, path, ip);
    ShapedQers(s.pool, ip);
    var n :| n in path.nodes && n.ip == ip && n.up.Some? && q in n.up.value.qers;
    assert NodeShape(n, id) && n.up.value in PDRsOf(n);
    assert SameId(q, r) && q in QersAt(s.pool[id := path], ip);
  }

  /** A path brings QERs that are in use, or new ones. */
  ghost predicate Disciplined(s: State, e: Event) {
    e.Add? ==> forall ip: string, q ::
        q in QersOn(e.path, ip) ==> q in AtUpf(s.qers, ip) || q !in KnownQers(s.view.told, s.pool, ip)
  }

  /** A removed path gives back a QER of the UPF. */
  ghost predicate Drops(s: State, e: Event, ip: string) {
    e == Activate && QersOf(s.pool, s.toBeRemoved, ip) * KnownQers(s.view.told, s.pool, ip) != {}
  }

  lemma KnownStays(v: View, v': View, pool: Pool, marked: set<int>, batches: map<string, Batch>,
                   requests: map<string, Request>, ip: string)
    requires PathsOk(v, pool, marked) && Shapes(pool) && Sends(v, v', pool, batches, requests)
    ensures KnownQers(v'.told, pool - marked, ip) == KnownQers(v.told, pool, ip)
  {
    ShapedQers(pool, ip);
    FewerOwned(pool, marked, ip);
    forall r | r in QersAt(pool, ip)
      ensures r in v'.told.created && r.kind == QerRule && r.upf == ip
    {
      var e :| e in PdrsAt(pool, ip) && r in e.qers;
      PdrAfter(v, v', pool, marked, batches, requests, ip, e);
    }
    forall r: Rule | r.kind == QerRule && r.upf == ip
      ensures r in v'.told.created <==> r in v.told.created || r in QersAt(pool, ip)
    {
      RuleAfter(v, v', pool, batches, requests, r);
      if r in v'.told.created && r !in v.told.created {
        RulesOfBatch(batches[ip], pool, ip);
        OwnedKinds(pool, r);
      }
    }
  }

  // Exactly those events make a QER loose.
  lemma LooseStep(s: State, e: Event, s': State, requests: map<string, Request>, ip: string)
    requires InOrder(s) && Next(s, e, s', requests) && Disciplined(s, e)
    ensures Loose(s', ip) <==> Loose(s, ip) || Drops(s, e, ip)
  {
    match e
    case Add(id, path) =>
      if Possible(s.pool, s.qers, id, path) {
        UsingAt(s.qers, path, ip);
        MoreQersAt(s.pool, id, path, ip);
      }
    case Activate =>
      var batches :| Sends(s.view, s'.view, s.pool, batches, requests);
      KnownStays(s.view, s'.view, s.pool, s.toBeRemoved, batches, requests, ip);
      GivenBackAt(s.qers, s.pool, s.toBeRemoved, ip);
      LooseByDrop(KnownQers(s.view.told, s.pool, ip), AtUpf(s.qers, ip), QersOf(s.pool, s.toBeRemoved, ip));
    case _ =>
  }

  lemma LooseByDrop(known: set<Rule>, held: set<Rule>, dropped: set<Rule>)
    ensures known <= held - dropped <==> known <= held && dropped * known == {}
  {
    if known <= held - dropped {
      assert forall r <- known :: r in held - dropped;
    } else {
      var r :| r in known && r !in held - dropped;
      assert r in held ==> r in dropped * known;
    }
  }

  ghost predicate AllDisciplined(trace: seq<State>, events: seq<Event>) {
    |events| < |trace| && forall i :: 0 <= i < |events| ==> Disciplined(trace[i], events[i])
  }

  ghost predicate DropsBefore(trace: seq<State>, events: seq<Event>, n: nat, ip: string) {
    exists i :: 0 <= i < n && i < |events| && i < |trace| && Drops(trace[i], events[i], ip)
  }

  /** In a run in which the session is in order, a QER id of a UPF can be given out while the UPF
      still has it exactly after a round that dropped a path with a QER there. */
  lemma {:induction false} LooseExactly(s: State, events: seq<Event>, log: seq<map<string, Request>>, trace: seq<State>,
                                        n: nat, ip: string)
    requires Traced(s, events, log, trace) && AllInOrder(trace) && AllDisciplined(trace, events) && n <= |events|
    ensures Loose(trace[n], ip) <==> Loose(s, ip) || DropsBefore(trace, events, n, ip)
  {
    if n > 0 {
      LooseExactly(s, events, log, trace, n - 1, ip);
      assert InOrder(trace[n - 1]) && Next(trace[n - 1], events[n - 1], trace[n], log[n - 1])
             && Disciplined(trace[n - 1], events[n - 1]);
      LooseStep(trace[n - 1], events[n - 1], trace[n], log[n - 1], ip);
    }
  }

  ghost predicate CreatedIn(requests: map<string, Request>, r: Rule) {
    exists ip <- requests :: r in Created(requests[ip])
  }

  ghost predicate RemovedIn(requests: map<string, Request>, r: Rule) {
    exists ip <- requests :: r in Removed(requests[ip])
  }

  lemma {:induction false} ToldGrows(told: Told, log: seq<map<string, Request>>, i: nat, r: Rule)
    requires i < |log|
    ensures CreatedIn(log[i], r) ==> r in ToldAfter(told, log).created
    ensures RemovedIn(log[i], r) ==> r in ToldAfter(told, log).removed
    ensures r in ToldAfter(told, log[..i]).created ==> r in ToldAfter(told, log).created
  {
    var rest := log[..|log| - 1];
    if i < |rest| {
      assert rest[..i] == log[..i];
      ToldGrows(told, rest, i, r);
    }
  }

  /** In such a log no rule is created twice or removed twice, and what is removed was created
      before: earlier in the log or before it. */
  lemma {:induction false} OnceInLog(told: Told, log: seq<map<string, Request>>, i: nat, j: nat, r: Rule)
    requires CleanLog(told, log) && i < j < |log|
    ensures !(CreatedIn(log[i], r) && CreatedIn(log[j], r)) && !(RemovedIn(log[i], r) && RemovedIn(log[j], r))
    ensures RemovedIn(log[j], r) ==> r in ToldAfter(told, log[..j]).created
  {
    var rest, last := log[..|log| - 1], log[|log| - 1];
    if j < |rest| {
      assert rest[..j] == log[..j];
      OnceInLog(told, rest, i, j, r);
    } else {
      ToldGrows(told, rest, i, r);
      forall ip <- last
        ensures r in Created(last[ip]) ==> r !in ToldAfter(told, rest).created
        ensures r in Removed(last[ip]) ==> r in There(ToldAfter(told, rest))
      {
        CleanActs(ToldAfter(told, rest), ip, last[ip], r);
      }
    }
  }

  ghost predicate UrrCreatedIn(requests: map<string, Request>, ip: string, u: nat) {
    ip in requests && u in requests[ip].createURR
  }

  ghost predicate UrrRemovedIn(requests: map<string, Request>, ip: string, u: nat) {
    ip in requests && u in requests[ip].removeURR
  }

  lemma {:induction false} ToldUrrGrows(told: Told, log: seq<map<string, Request>>, i: nat, ip: string, u: nat)
    requires i < |log|
    ensures UrrCreatedIn(log[i], ip, u) ==> (ip, u) in ToldAfter(told, log).urrs
    ensures UrrRemovedIn(log[i], ip, u) ==> (ip, u) in ToldAfter(told, log).gone
  {
    var rest, last := log[..|log| - 1], log[|log| - 1];
    ToldUrr(ToldAfter(told, rest), last, ip, u);
    if i < |rest| { ToldUrrGrows(told, rest, i, ip, u); }
  }

  /** The same of URRs, which are not touched either once they have been removed. */
  lemma {:induction false} UrrOnceInLog(told: Told, log: seq<map<string, Request>>, i: nat, j: nat, ip: string, u: nat)
    requires CleanLog(told, log) && i < j < |log|
    ensures !(UrrCreatedIn(log[i], ip, u) && UrrCreatedIn(log[j], ip, u))
    ensures UrrRemovedIn(log[j], ip, u) ==> (ip, u) in ToldAfter(told, log[..j]).urrs
    ensures UrrRemovedIn(log[i], ip, u) && ip in log[j] ==>
              u !in log[j][ip].updateURR && u !in log[j][ip].queryURR && u !in log[j][ip].removeURR
  {
    var rest := log[..|log| - 1];
    if j < |rest| {
      assert rest[..j] == log[..j];
      UrrOnceInLog(told, rest, i, j, ip, u);
    } else {
      ToldUrrGrows(told, rest, i, ip, u);
      if ip in log[j] { CleanUrrs(ToldAfter(told, rest), ip, log[j][ip], u); }
    }
  }

  lemma CleanUrrs(told: Told, ip: string, msg: Request, u: nat)
    requires Clean(told, ip, msg)
    ensures u in msg.createURR ==> (ip, u) !in told.urrs
    ensures u in msg.updateURR || u in msg.removeURR || u in msg.queryURR ==> (ip, u) in told.urrs - told.gone
  {
  }

  lemma CleanActs(told: Told, ip: string, msg: Request, r: Rule)
    requires Clean(told, ip, msg)
    ensures r in Created(msg) ==> r !in told.created
    ensures r in Removed(msg) ==> r in There(told)
  {
  }

  // --- Inputs for which requests are not clean ---

  function OnePdr(id: nat, qers: seq<Rule>): PDR {
    PDR(Rule(0, PdrRule, "A", id, id), Rule(0, FarRule, "A", id, id), qers, [])
  }

  /** A path over one UPF, with one PDR. */
  function OneNode(id: nat, qers: seq<Rule>): Path {
    Path(true, [Node("A", Some(OnePdr(id, qers)), None)])
  }

  /** A pool of such paths, where path `id` has these QERs. */
  function SimplePool(qers: map<nat, seq<Rule>>): Pool {
    map id <- qers :: id := OneNode(id, qers[id])
  }

  ghost predicate QerLists(qers: map<nat, seq<Rule>>) {
    forall id <- qers, q <- qers[id] :: q.kind == QerRule && q.upf == "A"
  }

  lemma SimplePdrs(qers: map<nat, seq<Rule>>, ip: string)
    ensures forall e :: e in PdrsAt(SimplePool(qers), ip) <==> ip == "A" && exists i <- qers :: e == OnePdr(i, qers[i])
  {
    forall e
      ensures e in PdrsAt(SimplePool(qers), ip) <==> ip == "A" && exists i <- qers :: e == OnePdr(i, qers[i])
    {
      if i :| i in qers && e == OnePdr(i, qers[i]) && ip == "A" {
        var n := OneNode(i, qers[i]).nodes[0];
        assert i in SimplePool(qers) && n in SimplePool(qers)[i].nodes && e in PDRsOf(n);
      }
    }
  }

  lemma SimpleQers(qers: map<nat, seq<Rule>>, ip: string)
    ensures forall q :: q in QersAt(SimplePool(qers), ip) <==> ip == "A" && exists i <- qers :: q in qers[i]
  {
    forall q
      ensures q in QersAt(SimplePool(qers), ip) <==> ip == "A" && exists i <- qers :: q in qers[i]
    {
      if i :| i in qers && q in qers[i] && ip == "A" {
        assert i in SimplePool(qers) && OneNode(i, qers[i]).nodes[0] in SimplePool(qers)[i].nodes;
      }
    }
  }

  lemma SimpleOwned(qers: map<nat, seq<Rule>>)
    ensures forall r :: Owned(SimplePool(qers), r) ==> r == Rule(0, r.kind, "A", r.id, r.id) && r.path == r.id
  {
  }

  lemma SimpleApart(qers: map<nat, seq<Rule>>)
    requires QerLists(qers)
    ensures Shapes(SimplePool(qers)) && IdsApart(SimplePool(qers))
  {
    SimpleOwned(qers);
    forall ip: string, e, d | e in PdrsAt(SimplePool(qers), ip) && d in PdrsAt(SimplePool(qers), ip) && e.rule == d.rule
      ensures e == d
    {
      SimplePdrs(qers, ip);
    }
  }

  // No PDR or FAR of the path is known.
  ghost predicate Unused(v: View, id: int) {
    forall r: Rule :: r.path == id && r.kind != QerRule
      ==> StateOf(v.st, r) == INITIAL && r !in v.told.created && r !in v.told.removed
  }

  // Another such path can be added, to paths without QERs.
  lemma NextNode(v: View, qers: map<nat, seq<Rule>>, known: QerPool, id: nat, list: seq<Rule>)
    requires Unused(v, id) && id !in qers && (forall i <- qers :: qers[i] == []) && |list| <= 1
    requires forall q <- list :: q.kind == QerRule && q.upf == "A" && QerLive(v, q)
    requires Apart(AtUpf(known, "A")) && (list == [] || AtUpf(known, "A") == {})
    ensures Possible(SimplePool(qers), known, id, OneNode(id, list))
    ensures Fresh(v, SimplePool(qers), id, OneNode(id, list))
    ensures SimplePool(qers)[id := OneNode(id, list)] == SimplePool(qers[id := list])
  {
    var more := qers[id := list];
    OneMoreNode(qers, id, list);
    SimpleApart(more);
    OneNodeQers(id, list);
    assert list == [] ==> AtUpf(known, "A") + QersOn(OneNode(id, list), "A") == AtUpf(known, "A");
    NewPdr(v, id, list);
  }

  lemma OneNodeQers(id: nat, list: seq<Rule>)
    ensures QersOn(OneNode(id, list), "A") == set q <- list
  {
    assert OneNode(id, list).nodes[0] in OneNode(id, list).nodes;
  }

  lemma OneMoreNode(qers: map<nat, seq<Rule>>, id: nat, list: seq<Rule>)
    ensures SimplePool(qers)[id := OneNode(id, list)] == SimplePool(qers[id := list])
  {
  }

  lemma NewPdr(v: View, id: nat, list: seq<Rule>)
    requires Unused(v, id) && forall q <- list :: QerLive(v, q)
    ensures forall n <- OneNode(id, list).nodes, e <- PDRsOf(n) :: PdrOk(v, e, false)
  {
    assert PDRsOf(OneNode(id, list).nodes[0]) == {OnePdr(id, list)};
  }

  lemma RulesOfBatch(b: Batch, pool: Pool, ip: string)
    requires BatchAt(b, pool, ip) && Shapes(pool)
    ensures forall r <- RulesOf(b) :: Owned(pool, r) || r in QersAt(pool, ip)
  {
    forall e <- b.pdrs
      ensures Owned(pool, e.rule)
    {
      Shaped(pool, ip, e);
    }
    forall f <- b.fars
      ensures Owned(pool, f)
    {
      var e :| e in PdrsAt(pool, ip) && e.far == f;
      Shaped(pool, ip, e);
    }
  }

  // A rule that no path has is left alone.
  lemma Untouched(v: View, v': View, pool: Pool, batches: map<string, Batch>, requests: map<string, Request>, r: Rule)
    requires Sends(v, v', pool, batches, requests) && Shapes(pool) && !Owned(pool, r) && r !in QersAt(pool, r.upf)
    ensures StateOf(v'.st, r) == StateOf(v.st, r)
    ensures (r in v'.told.created <==> r in v.told.created) && (r in v'.told.removed <==> r in v.told.removed)
  {
    RuleAfter(v, v', pool, batches, requests, r);
    if r.upf in batches { RulesOfBatch(batches[r.upf], pool, r.upf); }
  }

  lemma StillUnused(v: View, v': View, pool: Pool, requests: map<string, Request>, id: int)
    requires Shapes(pool) && id !in pool && Unused(v, id) && exists batches :: Sends(v, v', pool, batches, requests)
    ensures Unused(v', id)
  {
    var batches :| Sends(v, v', pool, batches, requests);
    forall r: Rule | r.path == id && r.kind != QerRule
      ensures StateOf(v'.st, r) == INITIAL && r !in v'.told.created && r !in v'.told.removed
    {
      ShapedQers(pool, r.upf);
      Untouched(v, v', pool, batches, requests, r);
    }
  }

  // Another such path is added, to paths without QERs.
  method AddNext(session: PfcpSession, ghost qers: map<nat, seq<Rule>>, id: nat, list: seq<Rule>)
    requires session.Valid() && session.pool == SimplePool(qers) && Unused(session.V(), id)
    requires id !in qers && (forall i <- qers :: qers[i] == []) && |list| <= 1
    requires forall q <- list :: q.kind == QerRule && q.upf == "A" && QerLive(session.V(), q)
    requires list == [] || AtUpf(session.qerPool, "A") == {}
    modifies session`pool, session`qerPool
    ensures session.Valid() && session.pool == SimplePool(qers[id := list])
    ensures session.qerPool == Using(old(session.qerPool), OneNode(id, list))
  {
    assert Apart(AtUpf(session.qerPool, "A"));
    NextNode(session.V(), qers, session.qerPool, id, list);
    session.AddDataPath(id, OneNode(id, list));
  }

  // A session with one path, before its first request.
  method OnePath(list: seq<Rule>) returns (session: PfcpSession)
    requires |list| <= 1 && forall q <- list :: q.kind == QerRule && q.upf == "A"
    ensures fresh(session) && session.Valid() && session.toBeRemoved == {} && session.pool == SimplePool(map[1 := list])
    ensures session.V() == View(map[], map[], {}, NOTHING) && OneKnown(session.V(), list)
    ensures session.qerPool == Using(map[], OneNode(1, list))
  {
    session := new PfcpSession();
    assert SimplePool(map[]) == map[];
    AddNext(session, map[], 1, list);
  }

  // No QER but these is known.
  ghost predicate NoOtherQers(v: View, list: seq<Rule>) {
    forall q: Rule :: q.kind == QerRule && q !in list
        ==> StateOf(v.st, q) == INITIAL && q !in v.told.created && q !in v.told.removed
  }

  lemma StillNoOthers(v: View, v': View, qers: map<nat, seq<Rule>>, requests: map<string, Request>, list: seq<Rule>)
    requires QerLists(qers) && NoOtherQers(v, list) && forall i <- qers, q <- qers[i] :: q in list
    requires exists batches :: Sends(v, v', SimplePool(qers), batches, requests)
    ensures NoOtherQers(v', list)
  {
    var batches :| Sends(v, v', SimplePool(qers), batches, requests);
    SimpleApart(qers);
    forall q: Rule | q.kind == QerRule && q !in list
      ensures StateOf(v'.st, q) == INITIAL && q !in v'.told.created && q !in v'.told.removed
    {
      SimpleQers(qers, q.upf);
      OwnedKinds(SimplePool(qers), q);
      Untouched(v, v', SimplePool(qers), batches, requests, q);
    }
  }

  // The session has one path, and knows no other QERs than its own.
  ghost predicate OneKnown(v: View, q: seq<Rule>) {
    Unused(v, 2) && NoOtherQers(v, q)
  }

  // A request of a session with one path.
  method OneRound(session: PfcpSession, ghost list: seq<Rule>)
    requires session.Valid() && session.pool == SimplePool(map[1 := list]) && QerLists(map[1 := list])
    requires OneKnown(session.V(), list)
    modifies session
    ensures session.Valid() && session.toBeRemoved == {} && session.pool == old(session.pool) - old(session.toBeRemoved)
    ensures OneKnown(session.V(), list) && "A" in session.established
    ensures session.qerPool == GivenBack(old(session.qerPool), old(session.pool), old(session.toBeRemoved))
    ensures PdrSent(session.V(), OnePdr(1, list), 1 in old(session.toBeRemoved))
  {
    ghost var v := session.V();
    OnePdrThere(list);
    var requests := session.Round();
    SentOnce(v, session.V(), requests, list);
  }

  lemma OnePdrThere(list: seq<Rule>)
    ensures OnePdr(1, list) in PdrsAt(SimplePool(map[1 := list]), "A")
  {
    var qers := map[1 := list];
    SimplePdrs(qers, "A");
    assert 1 in qers && OnePdr(1, list) == OnePdr(1, qers[1]);
  }

  lemma SentOnce(v: View, v': View, requests: map<string, Request>, list: seq<Rule>)
    requires OneKnown(v, list) && QerLists(map[1 := list])
    requires exists batches :: Sends(v, v', SimplePool(map[1 := list]), batches, requests)
    ensures "A" in v'.established && OneKnown(v', list)
  {
    SimpleApart(map[1 := list]);
    StillUnused(v, v', SimplePool(map[1 := list]), requests, 2);
    StillNoOthers(v, v', map[1 := list], requests, list);
    Established(v, v', SimplePool(map[1 := list]), requests, list);
  }

  method OnePathSent(list: seq<Rule>) returns (session: PfcpSession)
    requires |list| <= 1 && forall q <- list :: q.kind == QerRule && q.upf == "A"
    ensures fresh(session) && session.Valid() && session.toBeRemoved == {} && session.pool == SimplePool(map[1 := list])
    ensures OneSent(session.V(), list) && session.qerPool == Using(map[], OneNode(1, list))
  {
    session := OnePath(list);
    OnePool(list);
    OneRound(session, list);
    NoneGivenBack(Using(map[], OneNode(1, list)), session.pool);
  }

  lemma NoneGivenBack(qers: QerPool, pool: Pool)
    ensures GivenBack(qers, pool, {}) == qers
  {
    assert forall ip: string :: QersOf(pool, {}, ip) == {};
    assert forall ip <- qers :: qers[ip] - {} == qers[ip];
  }

  lemma OneGivenBack(list: seq<Rule>)
    ensures AtUpf(GivenBack(Using(map[], OneNode(1, list)), SimplePool(map[1 := list]), {1}), "A") == {}
  {
    var qers, pool := Using(map[], OneNode(1, list)), SimplePool(map[1 := list]);
    UsingAt(map[], OneNode(1, list), "A");
    GivenBackAt(qers, pool, {1}, "A");
    assert pool[1] == OneNode(1, list) && forall q <- QersOn(OneNode(1, list), "A") :: q in QersOf(pool, {1}, "A");
  }

  /** After the first request. */
  ghost predicate OneSent(v: View, list: seq<Rule>) {
    "A" in v.established && OneKnown(v, list) && PdrSent(v, OnePdr(1, list), false)
  }

  lemma OnePool(list: seq<Rule>)
    ensures SimplePool(map[1 := list]) - {} == SimplePool(map[1 := list])
    ensures SimplePool(map[1 := list]) - {1} == map[] == SimplePool(map[])
  {
  }

  lemma OwnedKinds(pool: Pool, r: Rule)
    requires Shapes(pool) && r.kind == QerRule
    ensures !Owned(pool, r)
  {
    if Owned(pool, r) { var e := OwnerOf(pool, r); }
  }

  // The first path is at its UPF, the second is new.
  method TwoPaths() returns (session: PfcpSession)
    ensures fresh(session) && session.Valid() && session.toBeRemoved == {}
    ensures session.pool == SimplePool(map[1 := [], 2 := []]) && !Installed(session.V(), OneNode(2, []))
  {
    session := OnePathSent([]);
    ghost var v := session.V();
    NotInstalled(v);
    AddNext(session, map[1 := []], 2, []);
    assert session.V() == v;
  }

  /** The first path is at its UPF; the second is marked before its rules are created there. */
  method MarkedTooEarlyRun() returns (requests: map<string, Request>, ghost told: Told)
    ensures !AllClean(told, requests)
  {
    var session := TwoPaths();
    assert session.pool[2] == OneNode(2, []);
    told := session.told;
    requests := session.RemoveAndSend(2);
  }

  lemma NotInstalled(v: View)
    requires "A" in v.established && Unused(v, 2)
    ensures !Installed(v, OneNode(2, []))
  {
    var n := OneNode(2, []).nodes[0];
    assert n in OneNode(2, []).nodes && OnePdr(2, []) in PDRsOf(n);
  }

  /** A path is removed, and the id of its QER is given to a QER of the next path: the UPF is asked
      to create it under an id that it still has. */
  method QerIdReusedRun() returns (request: Request, ghost told: Told)
    ensures !IdsFree(request.createQER, Itself, told)
  {
    var first, second := Rule(1, QerRule, "A", 7, 0), Rule(2, QerRule, "A", 7, 0);
    var session := OnePathRemoved(first);
    assert session.pool == SimplePool(map[]);
    AddNext(session, map[], 2, [second]);
    told := session.told;
    ghost var v, batches := session.V(), map[];
    var requests;
    requests, batches := session.ActivateUPFSession();
    request := TakenId(v, session.V(), session.pool, batches, requests, first, second);
  }

  // The first path is removed again, but not its QER.
  method OnePathRemoved(q: Rule) returns (session: PfcpSession)
    requires q.kind == QerRule && q.upf == "A"
    ensures fresh(session) && session.Valid() && session.toBeRemoved == {} && session.pool == map[]
    ensures OneKnown(session.V(), [q]) && q in There(session.told) && AtUpf(session.qerPool, "A") == {}
  {
    session := OnePathSent([q]);
    OnePool([q]);
    OneGivenBack([q]);
    MarkOnePath(session, [q]);
    OneRound(session, [q]);
  }

  method MarkOnePath(session: PfcpSession, ghost list: seq<Rule>)
    requires session.Valid() && session.toBeRemoved == {} && session.pool == SimplePool(map[1 := list])
    requires OneSent(session.V(), list)
    modifies session`st, session`toBeRemoved
    ensures session.Valid() && session.toBeRemoved == {1} && OneKnown(session.V(), list)
  {
    ghost var before := session.V();
    InstalledOne(before, list);
    session.PreRemoveDataPath(1);
    assert session.V() == before.(st := session.st);
    StillOne(before, session.st, list);
  }

  lemma InstalledOne(v: View, list: seq<Rule>)
    requires OneSent(v, list)
    ensures Installed(v, OneNode(1, list))
  {
    assert RuleUsed(v, OnePdr(1, list).rule) && RuleUsed(v, OnePdr(1, list).far);
  }

  lemma StillOne(v: View, st: States, list: seq<Rule>)
    requires OneSent(v, list) && SetTo(PathRules(OneNode(1, list).nodes), REMOVE, v.st, st)
    ensures OneKnown(v.(st := st), list)
  {
    assert forall r <- PathRules(OneNode(1, list).nodes) :: r.path == 1 && r.kind != QerRule;
  }

  lemma NotNew(told: Told, pool: Pool, ip: string, q: Rule, r: Rule)
    requires pool == SimplePool(map[2 := [q]]) && ip == "A" && q !in told.created && r in told.created && SameId(q, r)
    requires q != r
    ensures !QerIdsNew(told, pool, ip)
  {
    var qers := map[2 := [q]];
    SimpleQers(qers, "A");
    assert 2 in qers && q in qers[2];
    assert q in QersAt(pool, ip);
  }

  method TakenId(ghost v: View, ghost v': View, ghost pool: Pool, ghost batches: map<string, Batch>,
                 requests: map<string, Request>,
                 ghost first: Rule, ghost second: Rule) returns (request: Request)
    requires Sends(v, v', pool, batches, requests) && PathsOk(v, pool, {}) && Shapes(pool)
    requires pool == SimplePool(map[2 := [second]])
    requires SameId(first, second) && first in v.told.created && second !in v.told.created && first != second
    ensures "A" in requests && request == requests["A"] && !IdsFree(request.createQER, Itself, v.told)
  {
    assert OneNode(2, [second]).nodes[0] in pool[2].nodes;
    request := requests["A"];
    NotNew(v.told, pool, "A", second, first);
    QerIdsExactly(v, pool, {}, batches["A"], "A", request);
  }

  /** The access network's address arrives before the first request. */
  method UpdatedTooEarlyRun() returns (session: PfcpSession, requests: map<string, Request>)
    ensures session.Sound() && !AllClean(NOTHING, requests) && Stuck(session.V(), OnePdr(1, []).far)
  {
    session := OnePath([]);
    SimplePdrs(map[1 := []], "A");
    requests := session.UpdateAndSend("A", OnePdr(1, []));
  }

  // A UPF that is sent a request is established.
  lemma Established(v: View, v': View, pool: Pool, requests: map<string, Request>, list: seq<Rule>)
    requires 1 in pool && pool[1] == OneNode(1, list) && exists batches :: Sends(v, v', pool, batches, requests)
    ensures "A" in v'.established
  {
    var batches :| Sends(v, v', pool, batches, requests);
    assert OneNode(1, list).nodes[0] in pool[1].nodes;
  }
}
