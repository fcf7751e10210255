/** internal/pfcp/message/build.go and the batching of internal/sbi/processor/datapath.go: the
    state of every rule decides which list of a PFCP request (3GPP TS 29.244, sections 7.5.2
    and 7.5.4) it enters. */
module PfcpRequests {
  import opened RuleStates
  import opened Wrappers

  datatype Kind = PdrRule | FarRule | QerRule

  /** A rule object: `object` tells apart objects that were given the same id one after the
      other, and `path` is the data path that a PDR or FAR belongs to. */
  datatype Rule = Rule(object: nat, kind: Kind, upf: string, id: nat, path: int)

  datatype PDR = PDR(rule: Rule, far: Rule, qers: seq<Rule>, urrs: seq<nat>)

  /** The State fields of the rule objects; a new object is in state INITIAL. */
  type States = map<Rule, RuleState>

  function StateOf(st: States, r: Rule): RuleState {
    if r in st then st[r] else INITIAL
  }

  datatype Request = Request(createPDR: seq<PDR>, updatePDR: seq<PDR>, removePDR: seq<PDR>,
                             createFAR: seq<Rule>, updateFAR: seq<Rule>, removeFAR: seq<Rule>,
                             createQER: seq<Rule>,
                             createURR: set<nat>, updateURR: set<nat>, removeURR: set<nat>, queryURR: set<nat>)

  // --- What a list of rules contributes to a request ---

  function RuleOf(p: PDR): Rule {
    p.rule
  }

  function Itself(r: Rule): Rule {
    r
  }

  ghost function Keys<T>(list: seq<T>, key: T -> Rule): set<Rule> {
    set x <- list :: key(x)
  }

  /** `out` has those elements of the list whose rule was in state s, each rule once. */
  ghost predicate Chosen<T>(out: seq<T>, list: seq<T>, key: T -> Rule, st: States, s: RuleState) {
    && (forall x <- out :: x in list && StateOf(st, key(x)) == s)
    && (forall x <- list :: StateOf(st, key(x)) == s ==> key(x) in Keys(out, key))
    && forall i, j :: 0 <= i < j < |out| ==> key(out[i]) != key(out[j])
  }

  /** All rules of the list are in state CREATE afterwards, and no other rule has changed. */
  ghost predicate Sent(rules: set<Rule>, st: States, st': States) {
    forall r :: StateOf(st', r) == if r in rules then CREATE else StateOf(st, r)
  }

  lemma KeysGrow<T>(list: seq<T>, x: T, key: T -> Rule)
    ensures Keys(list + [x], key) == Keys(list, key) + {key(x)}
  {
  }

  // One more element of the list, whose rule is then set to CREATE.
  lemma SentGrows<T>(list: seq<T>, x: T, key: T -> Rule, st: States, now: States)
    requires Sent(Keys(list, key), st, now)
    ensures Sent(Keys(list + [x], key), st, now[key(x) := CREATE])
  {
    KeysGrow(list, x, key);
  }

  lemma ChosenGrows<T>(out: seq<T>, list: seq<T>, x: T, key: T -> Rule, st: States, s: RuleState, now: States)
    requires Chosen(out, list, key, st, s) && s != CREATE && Sent(Keys(list, key), st, now)
    ensures Chosen(if StateOf(now, key(x)) == s then out + [x] else out, list + [x], key, st, s)
  {
    KeysGrow(out, x, key);
    assert StateOf(now, key(x)) == if key(x) in Keys(list, key) then CREATE else StateOf(st, key(x));
    if StateOf(now, key(x)) == s {
      var out' := out + [x];
      forall i, j | 0 <= i < j < |out'| ensures key(out'[i]) != key(out'[j]) {
        assert out[i] in out && key(out[i]) in Keys(list, key);
      }
    } else if StateOf(st, key(x)) == s {
      var y :| y in list && key(y) == key(x);
      assert key(y) in Keys(out, key);
    }
  }

  /** The loops of BuildPfcpSessionModificationRequest over the PDRs and over the FARs. */
  method Modify<T>(list: seq<T>, key: T -> Rule, st: States)
    returns (create: seq<T>, update: seq<T>, remove: seq<T>, st': States)
    ensures Chosen(create, list, key, st, INITIAL) && Chosen(update, list, key, st, UPDATE)
    ensures Chosen(remove, list, key, st, REMOVE)
    ensures Sent(Keys(list, key), st, st')
  {
    create, update, remove, st' := [], [], [], st;
    for i := 0 to |list|
      invariant Chosen(create, list[..i], key, st, INITIAL) && Chosen(update, list[..i], key, st, UPDATE)
      invariant Chosen(remove, list[..i], key, st, REMOVE)
      invariant Sent(Keys(list[..i], key), st, st')
    {
      var x := list[i];
      assert list[..i + 1] == list[..i] + [x];
      SentGrows(list[..i], x, key, st, st');
      ChosenGrows(create, list[..i], x, key, st, INITIAL, st');
      ChosenGrows(update, list[..i], x, key, st, UPDATE, st');
      ChosenGrows(remove, list[..i], x, key, st, REMOVE, st');
      match StateOf(st', key(x)) {
        case INITIAL => create := create + [x];
        case UPDATE => update := update + [x];
        case REMOVE => remove := remove + [x];
        case _ =>
      }
      st' := st'[key(x) := CREATE];
    }
    assert list[..|list|] == list;
  }

  /** The loops of BuildPfcpSessionEstablishmentRequest, and of the modification request over the
      QERs: whatever state a rule is in, only INITIAL makes it enter the request. */
  method Establish<T>(list: seq<T>, key: T -> Rule, st: States) returns (create: seq<T>, st': States)
    ensures Chosen(create, list, key, st, INITIAL) && Sent(Keys(list, key), st, st')
  {
    create, st' := [], st;
    for i := 0 to |list|
      invariant Chosen(create, list[..i], key, st, INITIAL) && Sent(Keys(list[..i], key), st, st')
    {
      var x := list[i];
      assert list[..i + 1] == list[..i] + [x];
      SentGrows(list[..i], x, key, st, st');
      ChosenGrows(create, list[..i], x, key, st, INITIAL, st');
      if StateOf(st', key(x)) == INITIAL { create := create + [x]; }
      st' := st'[key(x) := CREATE];
    }
    assert list[..|list|] == list;
  }

  // --- Requests ---

  datatype Batch = Batch(pdrs: seq<PDR>, fars: seq<Rule>, qers: seq<Rule>, urrs: seq<nat>)

  /** The URRs of one UPF that are registered in the session, with their states. */
  type UrrTable = map<nat, RuleState>

  function UrrState(table: UrrTable, u: nat): RuleState {
    if u in table then table[u] else INITIAL
  }

  ghost function UrrsIn(urrs: seq<nat>, table: UrrTable, s: RuleState): set<nat> {
    set u <- urrs | UrrState(table, u) == s
  }

  // The registered URRs of the list that were in one of the states are in state CREATE afterwards.
  ghost predicate UrrsSent(urrs: seq<nat>, states: set<RuleState>, table: UrrTable, table': UrrTable) {
    && table'.Keys == table.Keys
    && forall u <- table :: table'[u] == if u in urrs && table[u] in states then CREATE else table[u]
  }

  // SetUrrState does nothing for a URR that is not registered.
  function SetUrrState(table: UrrTable, u: nat, s: RuleState): UrrTable {
    if u in table then table[u := s] else table
  }

  method EstablishUrrs(urrs: seq<nat>, table: UrrTable) returns (create: set<nat>, table': UrrTable)
    ensures create == UrrsIn(urrs, table, INITIAL) && UrrsSent(urrs, {INITIAL}, table, table')
  {
    create, table' := {}, table;
    var todo := set u <- urrs;
    while todo != {}
      invariant forall u <- todo :: u in urrs
      invariant forall u :: u in create <==> u in urrs && u !in todo && UrrState(table, u) == INITIAL
      invariant table'.Keys == table.Keys
      invariant forall u <- table ::
                table'[u] == if u in urrs && u !in todo && table[u] == INITIAL then CREATE else table[u]
      decreases todo
    {
      var u := AnyOf(todo);
      todo := todo - {u};
      if UrrState(table', u) == INITIAL {
        create := create + {u};
        table' := SetUrrState(table', u, CREATE);
      }
    }
  }

  method ModifyUrrs(urrs: seq<nat>, table: UrrTable)
    returns (create: set<nat>, update: set<nat>, remove: set<nat>, query: set<nat>, table': UrrTable)
    ensures create == UrrsIn(urrs, table, INITIAL) && update == UrrsIn(urrs, table, UPDATE)
    ensures remove == UrrsIn(urrs, table, REMOVE) && query == UrrsIn(urrs, table, QUERY)
    ensures UrrsSent(urrs, {INITIAL, UPDATE, QUERY}, table, table')
  {
    create, update, remove, query, table' := {}, {}, {}, {}, table;
    var todo := set u <- urrs;
    while todo != {}
      invariant forall u <- todo :: u in urrs
      invariant forall u :: u in create <==> u in urrs && u !in todo && UrrState(table, u) == INITIAL
      invariant forall u :: u in update <==> u in urrs && u !in todo && UrrState(table, u) == UPDATE
      invariant forall u :: u in remove <==> u in urrs && u !in todo && UrrState(table, u) == REMOVE
      invariant forall u :: u in query <==> u in urrs && u !in todo && UrrState(table, u) == QUERY
      invariant table'.Keys == table.Keys
      invariant forall u <- table :: table'[u] == if u in urrs && u !in todo && table[u] in {INITIAL, UPDATE, QUERY}
                then CREATE else table[u]
      decreases todo
    {
      var u := AnyOf(todo);
      todo := todo - {u};
      match UrrState(table', u) {
        case INITIAL => create := create + {u}; table' := SetUrrState(table', u, CREATE);
        case CREATE =>
        case UPDATE => update := update + {u}; table' := SetUrrState(table', u, CREATE);
        case REMOVE => remove := remove + {u};
        case QUERY => query := query + {u}; table' := SetUrrState(table', u, CREATE);
      }
    }
  }

  // The QER is the last of the list with its id.
  ghost predicate LastAt(qers: seq<Rule>, q: Rule) {
    exists i :: 0 <= i < |qers| && qers[i] == q && forall j :: i < j < |qers| ==> qers[j].id != q.id
  }

  lemma LastMore(qers: seq<Rule>, i: nat, q: Rule)
    requires i < |qers| && LastAt(qers[..i], q) && qers[i].id != q.id
    ensures LastAt(qers[..i + 1], q)
  {
    var k :| 0 <= k < i && qers[..i][k] == q && forall j :: k < j < i ==> qers[..i][j].id != q.id;
    assert qers[..i + 1][k] == q && forall j :: k < j < i ==> qers[..i + 1][j] == qers[..i][j];
  }

  /** For each id of the list one QER with that id, the last one. */
  ghost predicate LastPerId(qers: seq<Rule>, unique: seq<Rule>) {
    && (forall q <- unique :: LastAt(qers, q))
    && forall q <- qers :: exists u <- unique :: u.id == q.id
  }

  method UniqueById(qers: seq<Rule>) returns (unique: seq<Rule>)
    ensures LastPerId(qers, unique)
  {
    var byId: map<nat, Rule> := map[];
    for i := 0 to |qers|
      invariant forall id <- byId :: byId[id].id == id && LastAt(qers[..i], byId[id])
      invariant forall k :: 0 <= k < i ==> qers[k].id in byId
    {
      forall id <- byId | id != qers[i].id
        ensures LastAt(qers[..i + 1], byId[id])
      {
        LastMore(qers, i, byId[id]);
      }
      assert qers[..i + 1][i] == qers[i] && LastAt(qers[..i + 1], qers[i]);
      byId := byId[qers[i].id := qers[i]];
    }
    assert qers[..|qers|] == qers;
    unique := [];
    var todo := byId.Keys;
    while todo != {}
      invariant todo <= byId.Keys && forall q <- unique :: q.id in byId && byId[q.id] == q
      invariant forall id <- byId :: id !in todo ==> byId[id] in unique
      decreases todo
    {
      var id := AnyOf(todo);
      todo := todo - {id};
      unique := unique + [byId[id]];
    }
    forall q <- qers
      ensures exists u <- unique :: u.id == q.id
    {
      assert byId[q.id] in unique;
    }
  }

  // If different QERs have different ids, none is left out.
  lemma AllUnique(qers: seq<Rule>, unique: seq<Rule>)
    requires LastPerId(qers, unique) && forall q <- qers, r <- qers :: q.id == r.id ==> q == r
    ensures forall q :: q in unique <==> q in qers
  {
    forall q <- qers
      ensures q in unique
    {
      var u :| u in unique && u.id == q.id;
      assert u in qers;
    }
  }

  /** What a request has to contain for a batch: rules in state INITIAL are created, and if the
      session exists at the UPF already (`known`), rules in state UPDATE or REMOVE are updated or
      removed. */
  ghost predicate Contents(b: Batch, known: bool, st: States, table: UrrTable, msg: Request) {
    && Chosen(msg.createPDR, b.pdrs, RuleOf, st, INITIAL) && Chosen(msg.createFAR, b.fars, Itself, st, INITIAL)
    && Chosen(msg.createQER, b.qers, Itself, st, INITIAL) && msg.createURR == UrrsIn(b.urrs, table, INITIAL)
    && if known then Changes(b, st, table, msg) else NoChanges(msg)
  }

  ghost predicate Changes(b: Batch, st: States, table: UrrTable, msg: Request) {
    && Chosen(msg.updatePDR, b.pdrs, RuleOf, st, UPDATE) && Chosen(msg.updateFAR, b.fars, Itself, st, UPDATE)
    && Chosen(msg.removePDR, b.pdrs, RuleOf, st, REMOVE) && Chosen(msg.removeFAR, b.fars, Itself, st, REMOVE)
    && msg.updateURR == UrrsIn(b.urrs, table, UPDATE) && msg.removeURR == UrrsIn(b.urrs, table, REMOVE)
    && msg.queryURR == UrrsIn(b.urrs, table, QUERY)
  }

  ghost predicate NoChanges(msg: Request) {
    && msg.updatePDR == [] && msg.updateFAR == [] && msg.removePDR == [] && msg.removeFAR == []
    && msg.updateURR == msg.removeURR == msg.queryURR == {}
  }

  ghost function RulesOf(b: Batch): set<Rule> {
    Keys(b.pdrs, RuleOf) + Keys(b.fars, Itself) + Keys(b.qers, Itself)
  }

  /** What it leaves behind: every rule of the batch is in state CREATE. */
  ghost predicate Leaves(b: Batch, known: bool, st: States, table: UrrTable, st': States, table': UrrTable) {
    && Sent(RulesOf(b), st, st')
    && UrrsSent(b.urrs, SentStates(known), table, table')
  }

  function SentStates(known: bool): set<RuleState> {
    if known then {INITIAL, UPDATE, QUERY} else {INITIAL}
  }

  // The three kinds of rules of a batch are different objects.
  ghost predicate Kinds(b: Batch) {
    && (forall p <- b.pdrs :: p.rule.kind == PdrRule) && (forall r <- b.fars :: r.kind == FarRule)
    && forall r <- b.qers :: r.kind == QerRule
  }

  // A list whose rules have not been touched by what was sent before it.
  lemma ChosenLater<T>(out: seq<T>, list: seq<T>, key: T -> Rule, st: States, now: States, s: RuleState,
                       others: set<Rule>)
    requires Sent(others, st, now) && Keys(list, key) !! others && Chosen(out, list, key, now, s)
    ensures Chosen(out, list, key, st, s)
  {
    forall x <- list ensures StateOf(st, key(x)) == StateOf(now, key(x)) { assert key(x) in Keys(list, key); }
  }

  lemma SentTwice(a: set<Rule>, b: set<Rule>, st: States, st1: States, st2: States)
    requires Sent(a, st, st1) && Sent(b, st1, st2)
    ensures Sent(a + b, st, st2)
  {
  }

  method BuildPfcpSessionModificationRequest(b: Batch, st: States, table: UrrTable)
    returns (msg: Request, st': States, table': UrrTable)
    requires Kinds(b)
    ensures Contents(b, true, st, table, msg) && Leaves(b, true, st, table, st', table')
  {
    var createPDR, updatePDR, removePDR, st1 := Modify(b.pdrs, RuleOf, st);
    var createFAR, updateFAR, removeFAR, st2 := Modify(b.fars, Itself, st1);
    ChosenLater(createFAR, b.fars, Itself, st, st1, INITIAL, Keys(b.pdrs, RuleOf));
    ChosenLater(updateFAR, b.fars, Itself, st, st1, UPDATE, Keys(b.pdrs, RuleOf));
    ChosenLater(removeFAR, b.fars, Itself, st, st1, REMOVE, Keys(b.pdrs, RuleOf));
    SentTwice(Keys(b.pdrs, RuleOf), Keys(b.fars, Itself), st, st1, st2);
    var createQER;
    createQER, st' := Establish(b.qers, Itself, st2);
    ChosenLater(createQER, b.qers, Itself, st, st2, INITIAL, Keys(b.pdrs, RuleOf) + Keys(b.fars, Itself));
    SentTwice(Keys(b.pdrs, RuleOf) + Keys(b.fars, Itself), Keys(b.qers, Itself), st, st2, st');
    var createURR, updateURR, removeURR, queryURR;
    createURR, updateURR, removeURR, queryURR, table' := ModifyUrrs(b.urrs, table);
    msg := Request(createPDR, updatePDR, removePDR, createFAR, updateFAR, removeFAR, createQER,
                   createURR, updateURR, removeURR, queryURR);
  }

  /** Of QERs with the same id only the last one is looked at (`qers`). */
  method BuildPfcpSessionEstablishmentRequest(b: Batch, st: States, table: UrrTable)
    returns (msg: Request, st': States, table': UrrTable, ghost qers: seq<Rule>)
    requires Kinds(b)
    ensures Chosen(msg.createPDR, b.pdrs, RuleOf, st, INITIAL) && Chosen(msg.createFAR, b.fars, Itself, st, INITIAL)
    ensures NoChanges(msg)
    ensures LastPerId(b.qers, qers)
    ensures Contents(b.(qers := qers), false, st, table, msg) && Leaves(b.(qers := qers), false, st, table, st', table')
  {
    var createPDR, st1 := Establish(b.pdrs, RuleOf, st);
    var createFAR, st2 := Establish(b.fars, Itself, st1);
    ChosenLater(createFAR, b.fars, Itself, st, st1, INITIAL, Keys(b.pdrs, RuleOf));
    SentTwice(Keys(b.pdrs, RuleOf), Keys(b.fars, Itself), st, st1, st2);
    var unique := UniqueById(b.qers);
    qers := unique;
    var createQER;
    createQER, st' := Establish(unique, Itself, st2);
    ChosenLater(createQER, qers, Itself, st, st2, INITIAL, Keys(b.pdrs, RuleOf) + Keys(b.fars, Itself));
    SentTwice(Keys(b.pdrs, RuleOf) + Keys(b.fars, Itself), Keys(qers, Itself), st, st2, st');
    var createURR;
    createURR, table' := EstablishUrrs(b.urrs, table);
    msg := Request(createPDR, [], [], createFAR, [], [], createQER, createURR, {}, {}, {});
  }

  // QERs that are the same set make the same request.
  lemma SameQers(b: Batch, qers: seq<Rule>, known: bool, st: States, table: UrrTable, msg: Request, st': States,
                 table': UrrTable)
    requires forall q :: q in qers <==> q in b.qers
    requires Contents(b.(qers := qers), known, st, table, msg)
    requires Leaves(b.(qers := qers), known, st, table, st', table')
    ensures Contents(b, known, st, table, msg) && Leaves(b, known, st, table, st', table')
  {
    assert Keys(qers, Itself) == Keys(b.qers, Itself);
    if known { assert Changes(b, st, table, msg); }
  }
}
