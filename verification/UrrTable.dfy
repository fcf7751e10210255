/** internal/context/pfcp_rules.go and internal/context/datapath.go: the usage reporting rules
    of a session and how many references of PDRs each of them has. */
module UrrTable {
  import opened RuleStates

  /** A URR of a UPF. */
  datatype Key = Key(upf: nat, urr: nat)

  /** A PDR object. Ids are given to other objects later on. */
  datatype Pdr = Pdr(object_: nat, upf: nat, id: nat)

  datatype Entry = Entry(state: RuleState, refCount: int, pdrIds: seq<nat>)

  type Table = map<Key, Entry>

  type Lists = map<Pdr, seq<nat>>

  function ListOf(lists: Lists, p: Pdr): seq<nat> {
    if p in lists then lists[p] else []
  }

  // --- The references that PDRs hold ---

  /** How often a list of URRs of the PDR has the URR of an entry. */
  function Times(k: Key, p: Pdr, urrs: seq<nat>): nat {
    if k.upf == p.upf then multiset(urrs)[k.urr] else 0
  }

  function Ids(owners: seq<Pdr>): (ids: seq<nat>)
    ensures |ids| == |owners| && forall i :: 0 <= i < |ids| ==> ids[i] == owners[i].id
  {
    seq(|owners|, i requires 0 <= i < |owners| => owners[i].id)
  }

  ghost predicate SameElements(a: seq<nat>, b: seq<nat>) {
    forall x :: multiset(a)[x] == multiset(b)[x]
  }

  /** The second list has the element so many times less. */
  ghost predicate Fewer(a: seq<nat>, b: seq<nat>, x: nat, times: nat) {
    forall y :: multiset(b)[y] == if y != x then multiset(a)[y]
        else if multiset(a)[x] > times then multiset(a)[x] - times else 0
  }

  /** The entry's references are those of the owners, and these are the PDRs that hold the URR, each
      as often as it holds it. */
  ghost predicate Owns(k: Key, e: Entry, held: Lists, owners: seq<Pdr>) {
    && e.refCount == |owners| && SameElements(e.pdrIds, Ids(owners))
    && forall p :: multiset(owners)[p] == Times(k, p, ListOf(held, p))
  }

  ghost predicate Counted(k: Key, e: Entry, held: Lists) {
    exists owners :: Owns(k, e, held, owners)
  }

  /** Every entry counts exactly the references held, and entries only are referenced. */
  ghost predicate Sound(table: Table, held: Lists) {
    && (forall k :: k in table ==> Counted(k, table[k], held))
    && Registered(table, held)
  }

  ghost predicate Registered(table: Table, held: Lists) {
    forall p, u :: p in held && u in held[p] ==> Key(p.upf, u) in table
  }

  // --- Attaching ---

  function AttachOne(table: Table, pdr: Pdr, urr: nat): Table {
    var k := Key(pdr.upf, urr);
    if k in table then table[k := Entry(table[k].state, table[k].refCount + 1, table[k].pdrIds + [pdr.id])] else table
  }

  /** Every URR of the list that is registered gets a reference of the PDR. */
  function AttachAll(table: Table, pdr: Pdr, more: seq<nat>): Table {
    if more == [] then table else AttachOne(AttachAll(table, pdr, more[..|more| - 1]), pdr, more[|more| - 1])
  }

  lemma AttachNext(table: Table, pdr: Pdr, more: seq<nat>, i: nat)
    requires i < |more|
    ensures AttachAll(table, pdr, more[..i + 1]) == AttachOne(AttachAll(table, pdr, more[..i]), pdr, more[i])
  {
    assert more[..i + 1][..i] == more[..i];
  }

  function Extended(held: Lists, pdr: Pdr, more: seq<nat>): Lists {
    held[pdr := ListOf(held, pdr) + more]
  }

  lemma IdsMore(owners: seq<Pdr>, p: Pdr)
    ensures Ids(owners + [p]) == Ids(owners) + [p.id]
  {
  }

  lemma ExtendedList(held: Lists, pdr: Pdr, more: seq<nat>, urr: nat)
    ensures Extended(Extended(held, pdr, more), pdr, [urr]) == Extended(held, pdr, more + [urr])
    ensures forall p :: ListOf(Extended(held, pdr, []), p) == ListOf(held, p)
  {
    assert ListOf(held, pdr) + more + [urr] == ListOf(held, pdr) + (more + [urr]);
    assert Extended(held, pdr, more)[pdr] == ListOf(held, pdr) + more;
  }

  lemma AttachCounted(k: Key, e: Entry, held: Lists, pdr: Pdr, urr: nat)
    requires Counted(k, e, held)
    ensures Counted(k, if k == Key(pdr.upf, urr) then Entry(e.state, e.refCount + 1, e.pdrIds + [pdr.id])
            else e, Extended(held, pdr, [urr]))
  {
    var owners :| Owns(k, e, held, owners);
    var held', hit := Extended(held, pdr, [urr]), k == Key(pdr.upf, urr);
    var e' := if hit then Entry(e.state, e.refCount + 1, e.pdrIds + [pdr.id]) else e;
    var owners' := if hit then owners + [pdr] else owners;
    IdsMore(owners, pdr);
    OneMore(e.pdrIds, Ids(owners), pdr.id);
    forall p
      ensures multiset(owners')[p] == Times(k, p, ListOf(held', p))
    {
      TimesExtended(k, held, pdr, urr, p);
    }
    assert Owns(k, e', held', owners');
  }

  lemma OneMore(a: seq<nat>, b: seq<nat>, x: nat)
    requires SameElements(a, b)
    ensures SameElements(a + [x], b + [x])
  {
  }

  lemma TimesExtended(k: Key, held: Lists, pdr: Pdr, urr: nat, p: Pdr)
    ensures Times(k, p, ListOf(Extended(held, pdr, [urr]), p)) ==
            Times(k, p, ListOf(held, p)) + if p == pdr && k == Key(pdr.upf, urr) then 1 else 0
  {
    if p == pdr { TimesMore(k, pdr, ListOf(held, pdr), urr); }
  }

  lemma {:induction false} AttachAllCounted(table: Table, held: Lists, pdr: Pdr, more: seq<nat>, k: Key)
    requires k in table && Counted(k, table[k], held)
    ensures k in AttachAll(table, pdr, more) && Counted(k, AttachAll(table, pdr, more)[k], Extended(held, pdr, more))
  {
    if more == [] {
      AttachNone(k, table[k], held, pdr);
    } else {
      var rest, last := more[..|more| - 1], more[|more| - 1];
      AttachAllCounted(table, held, pdr, rest, k);
      assert more == rest + [last];
      ExtendedList(held, pdr, rest, last);
      var e := AttachAll(table, pdr, rest)[k];
      AttachCounted(k, e, Extended(held, pdr, rest), pdr, last);
      AttachedEntry(AttachAll(table, pdr, rest), pdr, last, k);
    }
  }

  lemma AttachedEntry(table: Table, pdr: Pdr, urr: nat, k: Key)
    requires k in table
    ensures k in AttachOne(table, pdr, urr)
    ensures var e := table[k];
            AttachOne(table, pdr, urr)[k] == if k == Key(pdr.upf, urr)
                then Entry(e.state, e.refCount + 1, e.pdrIds + [pdr.id]) else e
  {
  }

  lemma AttachNone(k: Key, e: Entry, held: Lists, pdr: Pdr)
    requires Counted(k, e, held)
    ensures Counted(k, e, Extended(held, pdr, []))
  {
    var owners :| Owns(k, e, held, owners);
    ExtendedList(held, pdr, [], 0);
    assert Owns(k, e, Extended(held, pdr, []), owners);
  }

  lemma {:induction false} AttachKeys(table: Table, pdr: Pdr, more: seq<nat>)
    ensures AttachAll(table, pdr, more).Keys == table.Keys
  {
    if more != [] { AttachKeys(table, pdr, more[..|more| - 1]); }
  }

  /** The counts stay right exactly if all URRs of the list are registered. */
  lemma AttachSound(table: Table, held: Lists, pdr: Pdr, more: seq<nat>)
    requires Sound(table, held)
    ensures Sound(AttachAll(table, pdr, more), Extended(held, pdr, more))
            <==> forall u :: u in more ==> Key(pdr.upf, u) in table
  {
    AttachKeys(table, pdr, more);
    forall k | k in table
      ensures Counted(k, AttachAll(table, pdr, more)[k], Extended(held, pdr, more))
    {
      AttachAllCounted(table, held, pdr, more, k);
    }
    assert forall u :: u in Extended(held, pdr, more)[pdr] <==> u in ListOf(held, pdr) || u in more;
  }

  // --- Giving references back ---

  /** The index of an element, or the length. */
  function IndexOf(s: seq<nat>, x: nat): (i: nat)
    ensures i <= |s| && (i < |s| ==> s[i] == x) && (x in s <==> i < |s|)
  {
    if s == [] then 0 else if s[0] == x then 0 else 1 + IndexOf(s[1..], x)
  }

  /** A list without the first occurrence of an element. */
  function Dropped(s: seq<nat>, x: nat): seq<nat> {
    var i := IndexOf(s, x);
    if i < |s| then s[..i] + s[i + 1..] else s
  }

  lemma DroppedOnce(s: seq<nat>, x: nat)
    ensures Fewer(s, Dropped(s, x), x, 1)
  {
    var i := IndexOf(s, x);
    if i < |s| {
      assert s == s[..i] + [s[i]] + s[i + 1..];
    }
  }

  method DropFirst(s: seq<nat>, x: nat) returns (r: seq<nat>)
    ensures r == Dropped(s, x)
  {
    var i := 0;
    while i < |s|
      invariant i <= |s| && IndexOf(s, x) == i + IndexOf(s[i..], x)
    {
      if s[i] == x { return s[..i] + s[i + 1..]; }
      assert s[i..][1..] == s[i + 1..];
      i := i + 1;
    }
    return s;
  }

  function DetachOne(table: Table, pdr: Pdr, urr: nat): Table {
    var k := Key(pdr.upf, urr);
    if k in table then
      var refCount := table[k].refCount - 1;
      table[k := Entry(if refCount <= 0 then REMOVE else table[k].state, refCount, Dropped(table[k].pdrIds, pdr.id))]
    else table
  }

  function DetachAll(table: Table, pdr: Pdr, gone: seq<nat>): Table {
    if gone == [] then table else DetachOne(DetachAll(table, pdr, gone[..|gone| - 1]), pdr, gone[|gone| - 1])
  }

  lemma DetachNext(table: Table, pdr: Pdr, gone: seq<nat>, i: nat)
    requires i < |gone|
    ensures DetachAll(table, pdr, gone[..i + 1]) == DetachOne(DetachAll(table, pdr, gone[..i]), pdr, gone[i])
  {
    assert gone[..i + 1][..i] == gone[..i];
  }

  /** What giving back a reference so many times does to an entry. */
  ghost predicate Detached(before: Entry, after: Entry, id: nat, times: nat) {
    && after.refCount == before.refCount - times
    && after.state == (if times > 0 && after.refCount <= 0 then REMOVE else before.state)
    && Fewer(before.pdrIds, after.pdrIds, id, times)
  }

  lemma TimesMore(k: Key, p: Pdr, urrs: seq<nat>, u: nat)
    ensures Times(k, p, urrs + [u]) == Times(k, p, urrs) + if k == Key(p.upf, u) then 1 else 0
  {
  }

  lemma {:induction false} DetachAllIs(table: Table, pdr: Pdr, gone: seq<nat>, k: Key)
    requires k in table
    ensures DetachAll(table, pdr, gone).Keys == table.Keys
    ensures Detached(table[k], DetachAll(table, pdr, gone)[k], pdr.id, Times(k, pdr, gone))
  {
    KeysKept(table, pdr, gone);
    if gone != [] {
      var rest, last := gone[..|gone| - 1], gone[|gone| - 1];
      DetachAllIs(table, pdr, rest, k);
      KeysKept(table, pdr, rest);
      assert gone == rest + [last];
      TimesMore(k, pdr, rest, last);
      DetachEntry(table[k], DetachAll(table, pdr, rest), pdr, last, k, Times(k, pdr, rest));
    }
  }

  lemma DetachEntry(before: Entry, now: Table, pdr: Pdr, urr: nat, k: Key, times: nat)
    requires k in now && Detached(before, now[k], pdr.id, times)
    ensures k in DetachOne(now, pdr, urr)
    ensures Detached(before, DetachOne(now, pdr, urr)[k], pdr.id, times + if k == Key(pdr.upf, urr) then 1 else 0)
  {
    DroppedOnce(now[k].pdrIds, pdr.id);
  }

  function Without(owners: seq<Pdr>, p: Pdr): seq<Pdr> {
    if owners == [] then []
    else
      var rest, last := owners[..|owners| - 1], owners[|owners| - 1];
      if last == p then Without(rest, p) else Without(rest, p) + [last]
  }

  lemma {:induction false} WithoutIs(owners: seq<Pdr>, p: Pdr)
    ensures forall q :: multiset(Without(owners, p))[q] == if q == p then 0 else multiset(owners)[q]
    ensures |Without(owners, p)| == |owners| - multiset(owners)[p]
  {
    if owners != [] {
      var rest, last := owners[..|owners| - 1], owners[|owners| - 1];
      assert owners == rest + [last];
      WithoutIs(rest, p);
    }
  }

  lemma {:induction false} IdsWithout(owners: seq<Pdr>, p: Pdr)
    ensures Fewer(Ids(owners), Ids(Without(owners, p)), p.id, multiset(owners)[p])
    ensures multiset(Ids(owners))[p.id] >= multiset(owners)[p]
  {
    if owners != [] {
      var rest, last := owners[..|owners| - 1], owners[|owners| - 1];
      assert owners == rest + [last];
      IdsWithout(rest, p);
      IdsMore(rest, last);
      IdsMore(Without(rest, p), last);
    }
  }

  // Two lists of owners of an entry are equally long.
  lemma SameOwners(k: Key, held: Lists, a: seq<Pdr>, b: seq<Pdr>)
    requires forall p :: multiset(a)[p] == Times(k, p, ListOf(held, p))
    requires forall p :: multiset(b)[p] == Times(k, p, ListOf(held, p))
    ensures |a| == |b|
  {
    assert multiset(a) == multiset(b);
    assert |a| == |multiset(a)| && |b| == |multiset(b)|;
  }

  // The entry of a URR that a PDR lists, after its references were given back.
  lemma DetachCounted(k: Key, before: Entry, after: Entry, held: Lists, pdr: Pdr, listed: seq<nat>)
    requires Counted(k, before, held) && Detached(before, after, pdr.id, Times(k, pdr, listed))
    ensures Counted(k, after, held - {pdr}) <==> Times(k, pdr, listed) == Times(k, pdr, ListOf(held, pdr))
  {
    var owners :| Owns(k, before, held, owners);
    var rest, held' := Without(owners, pdr), held - {pdr};
    WithoutIs(owners, pdr);
    forall p
      ensures multiset(rest)[p] == Times(k, p, ListOf(held', p))
    {
      TimesWithout(k, held, pdr, p);
    }
    if Times(k, pdr, listed) == Times(k, pdr, ListOf(held, pdr)) {
      IdsWithout(owners, pdr);
      FewerOfSame(before.pdrIds, after.pdrIds, Ids(owners), Ids(rest), pdr.id, Times(k, pdr, listed));
      assert Owns(k, after, held', rest);
    }
    forall others | Owns(k, after, held', others)
      ensures Times(k, pdr, listed) == Times(k, pdr, ListOf(held, pdr))
    {
      SameOwners(k, held', rest, others);
    }
  }

  lemma FewerOfSame(a: seq<nat>, a': seq<nat>, b: seq<nat>, b': seq<nat>, x: nat, times: nat)
    requires SameElements(a, b) && Fewer(a, a', x, times) && Fewer(b, b', x, times)
    ensures SameElements(a', b')
  {
  }

  lemma TimesWithout(k: Key, held: Lists, pdr: Pdr, p: Pdr)
    ensures Times(k, p, ListOf(held - {pdr}, p)) == if p == pdr then 0 else Times(k, p, ListOf(held, p))
  {
  }

  /** The PDR holds every URR of its list that is in the table as often as it lists it. */
  predicate HoldsAll(table: Table, held: Lists, pdr: Pdr, listed: seq<nat>) {
    forall u :: u in listed && Key(pdr.upf, u) in table ==> multiset(listed)[u] == multiset(ListOf(held, pdr))[u]
  }

  // What a PDR holds is in its list at least as often.
  ghost predicate Contains(listed: seq<nat>, held: seq<nat>) {
    multiset(held) <= multiset(listed)
  }

  ghost predicate AllContained(urrs: Lists, held: Lists) {
    forall p :: Contains(ListOf(urrs, p), ListOf(held, p))
  }

  lemma AttachContains(urrs: Lists, held: Lists, pdr: Pdr, more: seq<nat>)
    requires AllContained(urrs, held)
    ensures AllContained(Extended(urrs, pdr, more), Extended(held, pdr, more))
  {
    forall p
      ensures Contains(ListOf(Extended(urrs, pdr, more), p), ListOf(Extended(held, pdr, more), p))
    {
      assert Contains(ListOf(urrs, p), ListOf(held, p));
    }
  }

  /** Giving back what a PDR lists keeps the counts right exactly if it holds all of it: nothing of
      what is in the table was given back before. */
  lemma ReleaseSound(table: Table, held: Lists, pdr: Pdr, listed: seq<nat>)
    requires Sound(table, held) && Contains(listed, ListOf(held, pdr))
    ensures Sound(DetachAll(table, pdr, listed), held - {pdr}) <==> HoldsAll(table, held, pdr, listed)
  {
    KeysKept(table, pdr, listed);
    forall k | k in table
      ensures Counted(k, DetachAll(table, pdr, listed)[k], held - {pdr}) <==> HoldsHere(k, held, pdr, listed)
    {
      DetachAllIs(table, pdr, listed, k);
      DetachCounted(k, table[k], DetachAll(table, pdr, listed)[k], held, pdr, listed);
    }
    HoldsEverywhere(table, held, pdr, listed);
  }

  predicate HoldsHere(k: Key, held: Lists, pdr: Pdr, listed: seq<nat>) {
    Times(k, pdr, listed) == Times(k, pdr, ListOf(held, pdr))
  }

  lemma HoldsEverywhere(table: Table, held: Lists, pdr: Pdr, listed: seq<nat>)
    requires Contains(listed, ListOf(held, pdr))
    ensures HoldsAll(table, held, pdr, listed) <==> forall k :: k in table ==> HoldsHere(k, held, pdr, listed)
  {
    forall u | u in listed && Key(pdr.upf, u) in table
      ensures HoldsHere(Key(pdr.upf, u), held, pdr, listed) <==> multiset(listed)[u] == multiset(ListOf(held, pdr))[u]
    {
    }
    forall k | k in table && !(k.upf == pdr.upf && k.urr in listed)
      ensures HoldsHere(k, held, pdr, listed)
    {
    }
    assert forall k: Key :: k == Key(k.upf, k.urr);
  }

  lemma {:induction false} KeysKept(table: Table, pdr: Pdr, gone: seq<nat>)
    ensures DetachAll(table, pdr, gone).Keys == table.Keys
  {
    if gone != [] { KeysKept(table, pdr, gone[..|gone| - 1]); }
  }

  /** An entry counts nothing exactly if no PDR holds its URR. */
  lemma NoneHeld(k: Key, e: Entry, held: Lists)
    requires Counted(k, e, held)
    ensures e.refCount >= 0 && (e.refCount == 0 <==> forall p :: Times(k, p, ListOf(held, p)) == 0)
  {
    var owners :| Owns(k, e, held, owners);
    if owners != [] {
      assert multiset(owners)[owners[0]] > 0;
    } else {
      assert multiset(owners) == multiset{};
    }
  }

  /** Such a release marks for removal exactly the entries whose last reference it gives back. */
  lemma MarksLastReference(table: Table, held: Lists, pdr: Pdr, listed: seq<nat>, k: Key)
    requires Sound(table, held) && Contains(listed, ListOf(held, pdr)) && HoldsAll(table, held, pdr, listed)
    requires k in table
    ensures var after, last := DetachAll(table, pdr, listed), forall p ::
            p != pdr ==> Times(k, p, ListOf(held, p)) == 0;
            && k in after
            && after[k].state == if Times(k, pdr, ListOf(held, pdr)) > 0 && last then REMOVE else table[k].state
  {
    var after := DetachAll(table, pdr, listed);
    ReleaseSound(table, held, pdr, listed);
    DetachAllIs(table, pdr, listed, k);
    DetachCounted(k, table[k], after[k], held, pdr, listed);
    NoneHeld(k, after[k], held - {pdr});
    forall p
      ensures Times(k, p, ListOf(held - {pdr}, p)) == if p == pdr then 0 else Times(k, p, ListOf(held, p))
    {
      TimesWithout(k, held, pdr, p);
    }
  }

  class SMContext {
    var table: Table
    // The URR list of each PDR object, as the object has it.
    var urrs: Lists
    // What of these lists has not been given back. The source keeps no such record.
    var held: Lists

    constructor ()
      ensures Valid() && table == map[] && urrs == map[] && held == map[]
    {
      table, urrs, held := map[], map[], map[];
      new;
      assert Sound(table, held);
    }

    ghost predicate Valid()
      reads this
    {
      Sound(table, held) && AllContained(urrs, held)
    }

    method RegisterUrr(upf: nat, urr: nat)
      requires Valid()
      modifies this`table
      ensures Valid()
      ensures table == if Key(upf, urr) in old(table) then old(table)
              else old(table)[Key(upf, urr) := Entry(INITIAL, 0, [])]
    {
      var k := Key(upf, urr);
      if k !in table {
        NewEntry(table, held, k);
        table := table[k := Entry(INITIAL, 0, [])];
      }
    }

    method SetUrrState(upf: nat, urr: nat, state: RuleState)
      requires Valid()
      modifies this`table
      ensures Valid()
      ensures var k := Key(upf, urr); table == if k in old(table) then old(table)[k := old(table[k]).(state := state)]
              else old(table)
    {
      var k := Key(upf, urr);
      if k in table {
        SameCounted(k, table[k], state, held);
        table := table[k := table[k].(state := state)];
      }
    }

    function GetUrrState(upf: nat, urr: nat): RuleState
      reads this
    {
      if Key(upf, urr) in table then table[Key(upf, urr)].state else INITIAL
    }

    /** Attaches URRs to a PDR. The counts stay right exactly if all of them are registered. */
    method PDRAppendURRs(pdr: Pdr, more: seq<nat>)
      requires Valid()
      modifies this
      ensures urrs == Extended(old(urrs), pdr, more) && held == Extended(old(held), pdr, more)
      ensures table == AttachAll(old(table), pdr, more)
      ensures Valid() <==> forall u :: u in more ==> Key(pdr.upf, u) in old(table)
    {
      AttachSound(table, held, pdr, more);
      AttachContains(urrs, held, pdr, more);
      AppendAll(pdr, more);
      held := Extended(held, pdr, more);
    }

    // The loop over the URRs.
    method AppendAll(pdr: Pdr, more: seq<nat>)
      modifies this`table, this`urrs
      ensures urrs == Extended(old(urrs), pdr, more) && table == AttachAll(old(table), pdr, more)
    {
      ghost var listed := ListOf(urrs, pdr);
      urrs := urrs[pdr := ListOf(urrs, pdr)];
      assert listed + more[..0] == listed && more[..0] == [];
      var i := 0;
      while i < |more|
        invariant i <= |more| && urrs == old(urrs)[pdr := listed + more[..i]]
        invariant table == AttachAll(old(table), pdr, more[..i])
      {
        AttachNext(old(table), pdr, more, i);
        assert listed + more[..i + 1] == listed + more[..i] + [more[i]];
        urrs := urrs[pdr := urrs[pdr] + [more[i]]];
        table := AttachOne(table, pdr, more[i]);
        i := i + 1;
      }
      assert more[..i] == more;
    }

    /** Gives back what a PDR lists. The counts stay right exactly if nothing of it that is in the
        table was given back before. */
    method PDRReleaseURRs(pdr: Pdr)
      requires Valid()
      modifies this`table, this`held
      ensures held == old(held) - {pdr} && table == DetachAll(old(table), pdr, ListOf(urrs, pdr))
      ensures Valid() <==> HoldsAll(old(table), old(held), pdr, ListOf(urrs, pdr))
    {
      ReleaseSound(table, held, pdr, ListOf(urrs, pdr));
      var list := ListOf(urrs, pdr);
      var i := 0;
      while i < |list|
        invariant i <= |list| && held == old(held) && table == DetachAll(old(table), pdr, list[..i])
      {
        DetachNext(old(table), pdr, list, i);
        ReleaseOne(pdr, list[i]);
        i := i + 1;
      }
      assert list[..i] == list;
      held := held - {pdr};
    }

    method ReleaseOne(pdr: Pdr, urr: nat)
      modifies this`table
      ensures table == DetachOne(old(table), pdr, urr)
    {
      var k := Key(pdr.upf, urr);
      if k in table {
        var refCount := table[k].refCount - 1;
        var pdrIds := DropFirst(table[k].pdrIds, pdr.id);
        table := table[k := Entry(if refCount <= 0 then REMOVE else table[k].state, refCount, pdrIds)];
      }
    }

    /** Frees what a PDR lists and is marked for removal, when a tunnel is deactivated; the
        URRs that it hands to RemoveURR, in order. */
    method FreeMarkedUrrs(pdr: Pdr) returns (freed: seq<nat>)
      modifies this`table
      ensures Frees(old(table), pdr.upf, ListOf(urrs, pdr), freed)
      ensures table == WithoutUrrs(old(table), pdr.upf, freed)
    {
      freed := [];
      var list := ListOf(urrs, pdr);
      var i := 0;
      while i < |list|
        invariant i <= |list|
        invariant Frees(old(table), pdr.upf, list[..i], freed)
        invariant table == WithoutUrrs(old(table), pdr.upf, freed)
      {
        if GetUrrState(pdr.upf, list[i]) == REMOVE {
          freed := freed + [list[i]];
          DeleteFromUrrTable(pdr.upf, list[i]);
        }
        i := i + 1;
      }
      assert list[..i] == list;
    }

    method DeleteFromUrrTable(upf: nat, urr: nat)
      modifies this`table
      ensures table == WithoutUrrs(old(table), upf, [urr])
    {
      table := table - {Key(upf, urr)};
    }

    /** Deactivating a node frees each marked URR of its two PDRs once, though both list it. The
        counts stay right exactly if no PDR still references a URR that is freed. */
    method DeactivateNode(upLink: Pdr, downLink: Pdr) returns (freed: seq<nat>)
      requires Valid() && upLink.upf == downLink.upf
      modifies this`table
      ensures Frees(old(table), upLink.upf, ListOf(urrs, upLink) + ListOf(urrs, downLink), freed)
      ensures table == WithoutUrrs(old(table), upLink.upf, freed)
      ensures Valid() <==> forall u :: u in freed ==> Unreferenced(old(table), Key(upLink.upf, u))
    {
      var first := FreeMarkedUrrs(upLink);
      var second := FreeMarkedUrrs(downLink);
      freed := first + second;
      FreedOnce(old(table), upLink.upf, ListOf(urrs, upLink), ListOf(urrs, downLink), first, second);
      WithoutBoth(old(table), upLink.upf, first, second);
      FreedSound(old(table), held, upLink.upf, freed);
    }

    /** What a caller may do: attach registered URRs, give an attachment back once at most, and
        deactivate a node when its marked URRs are not referenced any more. */
    predicate Allowed(op: Op)
      reads this
    {
      match op
      case Append(pdr, more) => forall u :: u in more ==> Key(pdr.upf, u) in table
      case Release(pdr) => HoldsAll(table, held, pdr, ListOf(urrs, pdr))
      case Deactivate(upLink, downLink) =>
        && upLink.upf == downLink.upf
        && forall u :: u in ListOf(urrs, upLink) + ListOf(urrs, downLink) && Marked(table, Key(upLink.upf, u))
             ==> Unreferenced(table, Key(upLink.upf, u))
      case _ => true
    }

    /** Over any run of allowed operations every count is the number of references held, though
        PDR objects come and go and their ids recur. */
    method Run(ops: seq<Op>)
      requires Valid()
      modifies this
      ensures Valid()
    {
      for i := 0 to |ops|
        invariant Valid()
      {
        if Allowed(ops[i]) { Step(ops[i]); }
      }
    }

    /** An allowed operation keeps the counts right, and one that is not allowed does not. */
    method Step(op: Op)
      requires Valid() && (op.Deactivate? ==> op.upLink.upf == op.downLink.upf)
      modifies this
      ensures Valid() <==> old(Allowed(op))
    {
      match op
      case Register(upf, urr) => RegisterUrr(upf, urr);
      case SetState(upf, urr, state) => SetUrrState(upf, urr, state);
      case Append(pdr, more) => PDRAppendURRs(pdr, more);
      case Release(pdr) => PDRReleaseURRs(pdr);
      case Deactivate(upLink, downLink) => var freed := DeactivateNode(upLink, downLink);
    }
  }

  datatype Op =
    | Register(upf: nat, urr: nat)
    | SetState(upf: nat, urr: nat, state: RuleState)
    | Append(pdr: Pdr, more: seq<nat>)
    | Release(pdr: Pdr)
    | Deactivate(upLink: Pdr, downLink: Pdr)

  predicate Marked(table: Table, k: Key) {
    k in table && table[k].state == REMOVE
  }

  predicate Unreferenced(table: Table, k: Key) {
    k in table && table[k].refCount == 0
  }

  /** The URRs of the list that are marked, each once. */
  ghost predicate Frees(table: Table, upf: nat, list: seq<nat>, freed: seq<nat>) {
    && (forall u :: u in freed <==> u in list && Marked(table, Key(upf, u)))
    && forall i, j :: 0 <= i < j < |freed| ==> freed[i] != freed[j]
  }

  lemma FreedOnce(table: Table, upf: nat, a: seq<nat>, b: seq<nat>, first: seq<nat>, second: seq<nat>)
    requires Frees(table, upf, a, first) && Frees(WithoutUrrs(table, upf, first), upf, b, second)
    ensures Frees(table, upf, a + b, first + second)
  {
    assert forall j :: 0 <= j < |second| ==> second[j] in second && second[j] !in first;
  }

  lemma NewEntry(table: Table, held: Lists, k: Key)
    requires Sound(table, held) && k !in table
    ensures Sound(table[k := Entry(INITIAL, 0, [])], held)
  {
    forall p
      ensures Times(k, p, ListOf(held, p)) == 0
    {
      assert k == Key(k.upf, k.urr);
    }
    assert Owns(k, Entry(INITIAL, 0, []), held, []);
  }

  lemma SameCounted(k: Key, e: Entry, state: RuleState, held: Lists)
    requires Counted(k, e, held)
    ensures Counted(k, e.(state := state), held)
  {
    var owners :| Owns(k, e, held, owners);
    assert Owns(k, e.(state := state), held, owners);
  }

  lemma WithoutBoth(table: Table, upf: nat, a: seq<nat>, b: seq<nat>)
    ensures WithoutUrrs(WithoutUrrs(table, upf, a), upf, b) == WithoutUrrs(table, upf, a + b)
  {
  }

  function WithoutUrrs(table: Table, upf: nat, urrs: seq<nat>): Table {
    map k | k in table && (k.upf == upf ==> k.urr !in urrs) :: table[k]
  }

  lemma FreedSound(before: Table, held: Lists, upf: nat, freed: seq<nat>)
    requires Sound(before, held) && forall u :: u in freed ==> Key(upf, u) in before
    ensures Sound(WithoutUrrs(before, upf, freed), held)
            <==> forall u :: u in freed ==> before[Key(upf, u)].refCount == 0
  {
    var after := WithoutUrrs(before, upf, freed);
    forall u | u in freed
      ensures before[Key(upf, u)].refCount == 0 <==> forall p :: Times(Key(upf, u), p, ListOf(held, p)) == 0
    {
      NoneHeld(Key(upf, u), before[Key(upf, u)], held);
    }
    if forall u :: u in freed ==> before[Key(upf, u)].refCount == 0 {
      forall p, u | p in held && u in held[p]
        ensures Key(p.upf, u) in after
      {
        assert Times(Key(p.upf, u), p, ListOf(held, p)) > 0;
      }
    }
    if Registered(after, held) {
      forall u | u in freed
        ensures before[Key(upf, u)].refCount == 0
      {
        forall p
          ensures Times(Key(upf, u), p, ListOf(held, p)) == 0
        {
          assert Key(upf, u) !in after;
        }
      }
    }
  }
}
