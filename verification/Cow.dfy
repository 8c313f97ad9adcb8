/**
 Copy-on-write user memory (kernel/vm.c, kernel/trap.c) over the reference-counting allocator.

 A page table is a map from slots to entries (module PageSlots). `own` is PTE_W on user slots; the kernel writes
 table pages through their slot, so it is set on table slots as well. Beside the map of each process the machine
 carries the three-level tree that stands in memory, and every change is made to both.
 */
module Cow {
  import opened Riscv
  import opened Wrappers
  import opened Kalloc
  import opened PageSlots
  import PT = PageTable

  datatype Proc = Proc(sz: nat, pt: map<Slot, Entry>)
  type Procs = map<nat, Proc>

  predicate At(procs: Procs, pid: nat, s: Slot) {
    pid in procs && s in procs[pid].pt
  }

  function Ent(procs: Procs, pid: nat, s: Slot): (r: Entry)
    requires At(procs, pid, s)
  {
    procs[pid].pt[s]
  }

  // Everything that refers to page p.
  ghost function Users(procs: Procs, p: nat): (r: set<(nat, Slot)>) {
    set pid, s | pid in procs && s in procs[pid].pt && procs[pid].pt[s].ppn == p :: (pid, s)
  }

  function SetEntry(procs: Procs, pid: nat, s: Slot, e: Entry): (r: Procs)
    requires pid in procs
  {
    procs[pid := procs[pid].(pt := procs[pid].pt[s := e])]
  }

  function DropEntry(procs: Procs, pid: nat, s: Slot): (r: Procs)
    requires pid in procs
  {
    procs[pid := procs[pid].(pt := procs[pid].pt - {s})]
  }

  // ----- Invariant -----

  // References are exactly the page-table slots and what the kernel holds in `held`: a page between
  // kalloc and its mapping, or a count raised for a mapping that failed.
  ghost predicate CountOk(refs: multiset<nat>, held: multiset<nat>, procs: Procs) {
    forall p: nat :: refs[p] == |Users(procs, p)| + held[p]
  }

  // A slot through which a page may be written is that page's only user.
  ghost predicate OwnOk(procs: Procs) {
    forall pid, s, pid', s' ::
      At(procs, pid, s) && At(procs, pid', s')
      && Ent(procs, pid, s).own && Ent(procs, pid', s').ppn == Ent(procs, pid, s).ppn
      ==> pid' == pid && s' == s
  }

  // Within one process no page appears twice.
  ghost predicate Once(procs: Procs) {
    forall pid, s, s' :: At(procs, pid, s) && At(procs, pid, s') && s != s'
                         ==> Ent(procs, pid, s).ppn != Ent(procs, pid, s').ppn
  }

  ghost predicate TablesOwned(procs: Procs) {
    forall pid, s :: At(procs, pid, s) && s.Table? ==> Ent(procs, pid, s).own
  }

  ghost predicate InRam(procs: Procs, lo: nat) {
    forall pid, s :: At(procs, pid, s) ==> lo <= Ent(procs, pid, s).ppn < PHYSTOP_PAGE
  }

  ghost predicate MapsOk(procs: Procs, refs: multiset<nat>, held: multiset<nat>, lo: nat) {
    CountOk(refs, held, procs) && OwnOk(procs) && Once(procs) && TablesOwned(procs) && InRam(procs, lo)
  }

  // The user slots of a table are exactly the pages below n.
  ghost predicate Dense(pt: map<Slot, Entry>, n: nat) {
    forall v: nat :: User(v) in pt <==> v < n
  }

  // ----- How the users of a page change -----

  lemma UsersAfterSet(procs: Procs, pid: nat, s: Slot, e: Entry, p: nat)
    requires pid in procs
    ensures Users(SetEntry(procs, pid, s, e), p)
         == (Users(procs, p) - {(pid, s)}) + (if e.ppn == p then {(pid, s)} else {})
  {}

  lemma UsersAfterDrop(procs: Procs, pid: nat, s: Slot, p: nat)
    requires pid in procs
    ensures Users(DropEntry(procs, pid, s), p) == Users(procs, p) - {(pid, s)}
  {}

  // A mapped page has a reference.
  lemma MappedIsReferenced(procs: Procs, refs: multiset<nat>, held: multiset<nat>, pid: nat, s: Slot)
    requires CountOk(refs, held, procs) && pid in procs && s in procs[pid].pt
    ensures procs[pid].pt[s].ppn in refs
  {
    var p := procs[pid].pt[s].ppn;
    assert (pid, s) in Users(procs, p);
    assert refs[p] == |Users(procs, p)| + held[p];
  }

  // A page with no reference is mapped nowhere.
  lemma UnreferencedIsUnmapped(procs: Procs, refs: multiset<nat>, held: multiset<nat>, p: nat)
    requires CountOk(refs, held, procs) && refs[p] <= held[p]
    ensures forall pid, s :: pid in procs && s in procs[pid].pt ==> procs[pid].pt[s].ppn != p
  {
    assert refs[p] == |Users(procs, p)| + held[p];
    forall pid, s | pid in procs && s in procs[pid].pt ensures procs[pid].pt[s].ppn != p {
      assert (pid, s) !in Users(procs, p);
    }
  }

  lemma CountAfterMap(procs: Procs, refs: multiset<nat>, held: multiset<nat>, pid: nat, s: Slot, e: Entry)
    requires CountOk(refs, held, procs) && pid in procs && s !in procs[pid].pt && held[e.ppn] >= 1
    ensures CountOk(refs, held - multiset{e.ppn}, SetEntry(procs, pid, s, e))
  {
    forall p: nat ensures refs[p] == |Users(SetEntry(procs, pid, s, e), p)| + (held - multiset{e.ppn})[p] {
      UsersAfterSet(procs, pid, s, e, p);
      assert (pid, s) !in Users(procs, p);
      assert refs[p] == |Users(procs, p)| + held[p];
    }
  }

  lemma CountAfterUnmap(procs: Procs, refs: multiset<nat>, held: multiset<nat>, pid: nat, s: Slot)
    requires CountOk(refs, held, procs) && pid in procs && s in procs[pid].pt
    ensures CountOk(refs, held + multiset{procs[pid].pt[s].ppn}, DropEntry(procs, pid, s))
  {
    var ppn := procs[pid].pt[s].ppn;
    forall p: nat ensures refs[p] == |Users(DropEntry(procs, pid, s), p)| + (held + multiset{ppn})[p] {
      UsersAfterDrop(procs, pid, s, p);
      assert (pid, s) in Users(procs, p) <==> p == ppn;
      assert refs[p] == |Users(procs, p)| + held[p];
    }
  }

  lemma CountAfterProtect(procs: Procs, refs: multiset<nat>, held: multiset<nat>, pid: nat, s: Slot)
    requires CountOk(refs, held, procs) && pid in procs && s in procs[pid].pt
    ensures CountOk(refs, held, SetEntry(procs, pid, s, procs[pid].pt[s].(own := false)))
  {
    var e := procs[pid].pt[s].(own := false);
    forall p: nat ensures refs[p] == |Users(SetEntry(procs, pid, s, e), p)| + held[p] {
      UsersAfterSet(procs, pid, s, e, p);
      assert (pid, s) in Users(procs, p) <==> p == e.ppn;
      assert Users(SetEntry(procs, pid, s, e), p) == Users(procs, p);
      assert refs[p] == |Users(procs, p)| + held[p];
    }
  }

  lemma SetAt(procs: Procs, pid: nat, s: Slot, e: Entry)
    requires pid in procs
    ensures At(SetEntry(procs, pid, s, e), pid, s) && Ent(SetEntry(procs, pid, s, e), pid, s) == e
    ensures forall pid': nat, s' :: (pid', s') != (pid, s) ==>
              && (At(SetEntry(procs, pid, s, e), pid', s') <==> At(procs, pid', s'))
              && (At(procs, pid', s') ==> Ent(SetEntry(procs, pid, s, e), pid', s') == Ent(procs, pid', s'))
  {}

  lemma DropAt(procs: Procs, pid: nat, s: Slot)
    requires pid in procs
    ensures forall pid': nat, s' ::
              && (At(DropEntry(procs, pid, s), pid', s') <==> At(procs, pid', s') && (pid', s') != (pid, s))
              && (At(DropEntry(procs, pid, s), pid', s') ==>
                    Ent(DropEntry(procs, pid, s), pid', s') == Ent(procs, pid', s'))
  {}

  lemma OwnAfterMap(procs: Procs, pid: nat, s: Slot, e: Entry)
    requires OwnOk(procs) && pid in procs
    requires forall pid', s' :: At(procs, pid', s') && Ent(procs, pid', s').ppn == e.ppn
                                ==> !e.own && !Ent(procs, pid', s').own
    ensures OwnOk(SetEntry(procs, pid, s, e))
  {
    hide At, Ent, SetEntry;
    SetAt(procs, pid, s, e);
  }

  lemma HeldIsReferenced(procs: Procs, refs: multiset<nat>, held: multiset<nat>, p: nat)
    requires CountOk(refs, held, procs) && held[p] >= 1
    ensures p in refs
  {}

  // A held reference becomes a new mapping.
  lemma PageReferenced(procs: Procs, refs: multiset<nat>, held: multiset<nat>, lo: nat, p: nat)
    requires MapsOk(procs, refs, held, lo) && held[p] >= 1
    ensures p in refs
  {
    HeldIsReferenced(procs, refs, held, p);
  }

  lemma MapKeepsInv(procs: Procs, refs: multiset<nat>, held: multiset<nat>, lo: nat, pid: nat, s: Slot, e: Entry)
    requires MapsOk(procs, refs, held, lo) && pid in procs && !At(procs, pid, s)
    requires held[e.ppn] >= 1 && lo <= e.ppn < PHYSTOP_PAGE && (s.Table? ==> e.own)
    requires forall s' :: At(procs, pid, s') ==> Ent(procs, pid, s').ppn != e.ppn
    requires forall pid', s' :: At(procs, pid', s') && Ent(procs, pid', s').ppn == e.ppn
                                ==> !e.own && !Ent(procs, pid', s').own
    ensures MapsOk(SetEntry(procs, pid, s, e), refs, held - multiset{e.ppn}, lo)
  {
    CountAfterMap(procs, refs, held, pid, s, e);
    OwnAfterMap(procs, pid, s, e);
    hide CountOk, OwnOk, At, Ent, SetEntry;
    SetAt(procs, pid, s, e);
  }

  // A mapping becomes a held reference.
  lemma UnmapKeepsInv(procs: Procs, refs: multiset<nat>, held: multiset<nat>, lo: nat, pid: nat, s: Slot)
    requires MapsOk(procs, refs, held, lo) && At(procs, pid, s)
    ensures MapsOk(DropEntry(procs, pid, s), refs, held + multiset{Ent(procs, pid, s).ppn}, lo)
  {
    CountAfterUnmap(procs, refs, held, pid, s);
    hide CountOk, At, Ent, DropEntry;
    DropAt(procs, pid, s);
  }

  // Taking write permission away.
  lemma ProtectKeepsInv(procs: Procs, refs: multiset<nat>, held: multiset<nat>, lo: nat, pid: nat, s: Slot)
    requires MapsOk(procs, refs, held, lo) && At(procs, pid, s) && s.User?
    ensures MapsOk(SetEntry(procs, pid, s, Ent(procs, pid, s).(own := false)), refs, held, lo)
  {
    CountAfterProtect(procs, refs, held, pid, s);
    hide CountOk, At, Ent, SetEntry;
    SetAt(procs, pid, s, Ent(procs, pid, s).(own := false));
  }

  // One more or one fewer reference in the kernel's hands.
  lemma HoldKeepsInv(procs: Procs, refs: multiset<nat>, held: multiset<nat>, lo: nat, p: nat)
    requires MapsOk(procs, refs, held, lo)
    ensures MapsOk(procs, refs + multiset{p}, held + multiset{p}, lo)
    ensures held[p] >= 1 ==> MapsOk(procs, refs - multiset{p}, held - multiset{p}, lo)
  {}

  // ----- What a process sees -----

  function Frame(mem: seq<Page>, p: nat): (r: Page) {
    if p < |mem| then mem[p] else Filled(0)
  }

  // The contents of a process's user pages.
  function Space(mem: seq<Page>, pt: map<Slot, Entry>): (r: map<Slot, Page>) {
    map s | s in pt && s.User? :: Frame(mem, pt[s].ppn)
  }

  function View(mem: seq<Page>, procs: Procs): (r: Spaces) {
    map pid | pid in procs :: Space(mem, procs[pid].pt)
  }

  type Spaces = map<nat, map<Slot, Page>>

  function PutPage(view: Spaces, pid: nat, v: nat, data: Page): (r: Spaces)
    requires pid in view
  {
    var space: map<Slot, Page> :=
      map s | s in view[pid].Keys + {User(v)} :: if s == User(v) then data else view[pid][s];
    view[pid := space]
  }

  // Writing a page that nobody maps, or changing what is not a user slot, is not seen.
  lemma ViewUnchanged(mem: seq<Page>, procs: Procs, mem': seq<Page>, procs': Procs)
    requires procs.Keys == procs'.Keys
    requires forall pid, s: Slot :: s.User? ==> (At(procs, pid, s) <==> At(procs', pid, s))
    requires forall pid, s: Slot :: s.User? && At(procs, pid, s) ==>
               Frame(mem', Ent(procs', pid, s).ppn) == Frame(mem, Ent(procs, pid, s).ppn)
    ensures View(mem', procs') == View(mem, procs)
  {
    forall pid | pid in procs ensures Space(mem', procs'[pid].pt) == Space(mem, procs[pid].pt) {
      var a, b := Space(mem', procs'[pid].pt), Space(mem, procs[pid].pt);
      forall s ensures s in a <==> s in b { assert s.User? ==> (At(procs, pid, s) <==> At(procs', pid, s)); }
      forall s | s in a ensures a[s] == b[s] { assert At(procs, pid, s); }
    }
  }

  // walk finds the tables of every mapped page.
  ghost predicate Reached(procs: Procs) {
    forall pid, v: nat :: At(procs, pid, User(v)) ==> At(procs, pid, TableSlot(1, v)) && At(procs, pid, TableSlot(0, v))
  }

  lemma TablesWith(procs: Procs, pid: nat, s: Slot, e: Entry)
    requires pid in procs
    ensures TablesOf(SetEntry(procs, pid, s, e)[pid].pt) == TablesOf(procs[pid].pt) + if s.Table? then {s} else {}
    ensures s.Table? ==> (s in TablesOf(procs[pid].pt) <==> s in procs[pid].pt)
    ensures s.Table? && s in procs[pid].pt ==> TablesOf(procs[pid].pt) + {s} == TablesOf(procs[pid].pt)
  {}

  // Only pid's page-table pages may have been added; no user slot changed.
  ghost predicate OnlyTables(o: Procs, n: Procs, pid: nat) {
    && pid in o && pid in n && n == o[pid := o[pid].(pt := n[pid].pt)]
    && (forall s :: s in o[pid].pt ==> s in n[pid].pt && n[pid].pt[s] == o[pid].pt[s])
    && (forall s :: s in n[pid].pt && s.User? ==> s in o[pid].pt)
  }

  lemma UnmappedWrite(mem: seq<Page>, procs: Procs, p: nat, data: Page)
    requires p < |mem|
    requires forall pid, s :: At(procs, pid, s) ==> Ent(procs, pid, s).ppn != p
    ensures View(mem[p := data], procs) == View(mem, procs)
  {
    ViewUnchanged(mem, procs, mem[p := data], procs);
  }

  lemma TableAdded(procs: Procs, pid: nat, t: Slot, e: Entry)
    requires Reached(procs) && pid in procs && t.Table? && !At(procs, pid, t)
    ensures var q := SetEntry(procs, pid, t, e);
            && Reached(q) && OnlyTables(procs, q, pid) && At(q, pid, t) && q.Keys == procs.Keys
            && (forall pid, s: Slot :: s.User? ==> (At(procs, pid, s) <==> At(q, pid, s)))
            && (forall pid, s: Slot :: s.User? && At(procs, pid, s) ==> Ent(q, pid, s) == Ent(procs, pid, s))
  {
    var q := SetEntry(procs, pid, t, e);
    forall pid', v: nat | At(q, pid', User(v))
      ensures At(q, pid', TableSlot(1, v)) && At(q, pid', TableSlot(0, v))
    {
      assert At(procs, pid', User(v));
    }
  }

  // Mapping a user page once its tables are there.
  lemma UserAdded(mem0: seq<Page>, p0: Procs, mem: seq<Page>, procs: Procs, pid: nat, v: nat, e: Entry)
    requires OnlyTables(p0, procs, pid) && Reached(procs)
    requires TableSlot(1, v) in procs[pid].pt && TableSlot(0, v) in procs[pid].pt
    requires View(mem, procs) == View(mem0, p0) && Frame(mem, e.ppn) == Frame(mem0, e.ppn)
    ensures OnlyTables(SetEntry(p0, pid, User(v), e), SetEntry(procs, pid, User(v), e), pid)
    ensures View(mem, SetEntry(procs, pid, User(v), e)) == View(mem0, SetEntry(p0, pid, User(v), e))
  {
    ViewAfterSet(mem, procs, pid, v, e);
    ViewAfterSet(mem0, p0, pid, v, e);
  }

  lemma ReachedAfterAdd(procs: Procs, pid: nat, v: nat, e: Entry)
    requires Reached(procs) && pid in procs && TableSlot(1, v) in procs[pid].pt && TableSlot(0, v) in procs[pid].pt
    ensures Reached(SetEntry(procs, pid, User(v), e))
  {
    var q := SetEntry(procs, pid, User(v), e);
    forall pid', w: nat | At(q, pid', User(w))
      ensures At(q, pid', TableSlot(1, w)) && At(q, pid', TableSlot(0, w))
    {
      if pid' != pid || w != v { assert At(procs, pid', User(w)); }
    }
  }

  lemma ViewAfterSet(mem: seq<Page>, procs: Procs, pid: nat, v: nat, e: Entry)
    requires pid in procs
    ensures View(mem, SetEntry(procs, pid, User(v), e))
         == PutPage(View(mem, procs), pid, v, Frame(mem, e.ppn))
  {
    var q := SetEntry(procs, pid, User(v), e);
    assert Space(mem, q[pid].pt) == PutPage(View(mem, procs), pid, v, Frame(mem, e.ppn))[pid];
  }

  function DropPages(view: Spaces, pid: nat, from: nat, to: nat): (r: Spaces)
    requires pid in view
  {
    var space: map<Slot, Page> := map s | s in view[pid] && !(s.User? && from <= s.vpn < to) :: view[pid][s];
    view[pid := space]
  }

  lemma ViewAfterDrop(mem: seq<Page>, procs: Procs, pid: nat, v: nat)
    requires At(procs, pid, User(v))
    ensures View(mem, DropEntry(procs, pid, User(v))) == DropPages(View(mem, procs), pid, v, v + 1)
    ensures Reached(procs) ==> Reached(DropEntry(procs, pid, User(v)))
  {
    var q := DropEntry(procs, pid, User(v));
    assert Space(mem, q[pid].pt) == DropPages(View(mem, procs), pid, v, v + 1)[pid];
    if Reached(procs) {
      forall pid', w: nat | At(q, pid', User(w))
        ensures At(q, pid', TableSlot(1, w)) && At(q, pid', TableSlot(0, w))
      {
        assert At(procs, pid', User(w));
      }
    }
  }

  // Replacing the page behind a slot by a fresh copy of it.
  lemma CopyKeepsInv(procs: Procs, refs: multiset<nat>, held: multiset<nat>, lo: nat, pid: nat, v: nat, e: Entry)
    requires MapsOk(procs, refs, held, lo) && At(procs, pid, User(v))
    requires held[e.ppn] >= 1 && lo <= e.ppn < PHYSTOP_PAGE
    requires forall pid', s :: At(procs, pid', s) ==> Ent(procs, pid', s).ppn != e.ppn
    ensures MapsOk(SetEntry(procs, pid, User(v), e), refs,
                   held + multiset{Ent(procs, pid, User(v)).ppn} - multiset{e.ppn}, lo)
    ensures Reached(procs) ==> Reached(SetEntry(procs, pid, User(v), e))
  {
    UnmapKeepsInv(procs, refs, held, lo, pid, User(v));
    var d := DropEntry(procs, pid, User(v));
    DropAt(procs, pid, User(v));
    assert (procs[pid].pt - {User(v)})[User(v) := e] == procs[pid].pt[User(v) := e];
    assert SetEntry(d, pid, User(v), e) == SetEntry(procs, pid, User(v), e);
    var h := held + multiset{Ent(procs, pid, User(v)).ppn};
    hide MapsOk, SetEntry, DropEntry, At, Ent;
    MapKeepsInv(d, refs, h, lo, pid, User(v), e) by {
      assert MapsOk(d, refs, h, lo);
    }
    ReachedAfterReplace(procs, pid, v, e);
  }

  lemma ReachedAfterReplace(procs: Procs, pid: nat, v: nat, e: Entry)
    requires At(procs, pid, User(v))
    ensures Reached(procs) ==> Reached(SetEntry(procs, pid, User(v), e))
  {
    var q := SetEntry(procs, pid, User(v), e);
    if Reached(procs) {
      forall pid', w: nat | At(q, pid', User(w))
        ensures At(q, pid', TableSlot(1, w)) && At(q, pid', TableSlot(0, w))
      {
        assert At(procs, pid', User(w));
      }
    }
  }

  // ----- The trees -----

  ghost predicate TreesOk(trees: map<nat, PT.Tree>, procs: Procs) {
    trees.Keys == procs.Keys && forall pid :: pid in procs ==> Represents(trees[pid], procs[pid].pt)
  }

  // walk's new table page, of level 1 or 0, on the tree of pid.
  lemma GrownTree(trees: map<nat, PT.Tree>, procs: Procs, pid: nat, level: nat, v: nat, c: nat) returns (t: PT.Tree)
    requires TreesOk(trees, procs) && pid in procs && level <= 1 && v < MAXVPN && TableSlot(level, v) !in procs[pid].pt
    requires level == 0 ==> TableSlot(1, v) in procs[pid].pt
    requires forall s :: At(procs, pid, s) ==> Ent(procs, pid, s).ppn != c
    ensures TreesOk(trees[pid := t], SetEntry(procs, pid, TableSlot(level, v), TableEntry(c)))
    ensures var p := if level == 1 then trees[pid].root else procs[pid].pt[TableSlot(1, v)].ppn;
            var i := PT.Index(level + 1, v);
            PT.CanAdd(trees[pid], p, i, c) && t == PT.AddTable(trees[pid], p, i, c)
  {
    hide Represents, PT.AddTable, PT.TreeOk, PT.Index;
    var t0, pt := trees[pid], procs[pid].pt;
    forall s | s in pt ensures pt[s].ppn != c { assert At(procs, pid, s); }
    NotInTree(t0, pt, c);
    if level == 1 {
      AddLevel1(t0, pt, v, c);
      t := PT.AddTable(t0, t0.root, PT.Index(2, v), c);
    } else {
      AddLevel0(t0, pt, v, c);
      t := PT.AddTable(t0, pt[TableSlot(1, v)].ppn, PT.Index(1, v), c);
    }
  }

  lemma NotInTree(t: PT.Tree, pt: map<Slot, Entry>, c: nat)
    requires Represents(t, pt) && forall s :: s in pt ==> pt[s].ppn != c
    ensures c !in t.tab
  {
    assert IsTable(pt, c) <==> c in t.tab;
  }

  // The leaf entry of page v, where its tables exist.
  lemma WrittenTree(trees: map<nat, PT.Tree>, procs: Procs, pid: nat, v: nat, e: Entry) returns (t: PT.Tree)
    requires TreesOk(trees, procs) && pid in procs && v < MAXVPN && TableSlot(0, v) in procs[pid].pt
    ensures TreesOk(trees[pid := t], SetEntry(procs, pid, User(v), e))
    ensures var t0 := trees[pid];
            && PT.Leaf(t0, v).Some? && PT.Here(t0, PT.Leaf(t0, v).value)
            && t == PT.SetPte(t0, PT.Leaf(t0, v).value, PT.Index(0, v), Pte(e))
  {
    hide Represents, PT.Index, PT.Leaf, Pte;
    SetUser(trees[pid], procs[pid].pt, v, e);
    t := PT.SetPte(trees[pid], PT.Leaf(trees[pid], v).value, PT.Index(0, v), Pte(e));
  }

  lemma UserBelow(t: PT.Tree, pt: map<Slot, Entry>, v: nat)
    requires Represents(t, pt) && User(v) in pt
    ensures v < MAXVPN
  {
    assert SlotOk(User(v));
  }

  lemma ReplacedTree(trees: map<nat, PT.Tree>, procs: Procs, pid: nat, v: nat, e: Entry) returns (t: PT.Tree)
    requires TreesOk(trees, procs) && At(procs, pid, User(v)) && Reached(procs)
    ensures TreesOk(trees[pid := t], SetEntry(procs, pid, User(v), e))
    ensures var t0 := trees[pid];
            && PT.Leaf(t0, v).Some? && PT.Here(t0, PT.Leaf(t0, v).value)
            && t == PT.SetPte(t0, PT.Leaf(t0, v).value, PT.Index(0, v), Pte(e))
  {
    hide Represents, PT.Index, PT.Leaf, Pte;
    assert At(procs, pid, TableSlot(0, v));
    UserBelow(trees[pid], procs[pid].pt, v);
    t := WrittenTree(trees, procs, pid, v, e);
  }

  lemma ClearedTree(trees: map<nat, PT.Tree>, procs: Procs, pid: nat, v: nat) returns (t: PT.Tree)
    requires TreesOk(trees, procs) && At(procs, pid, User(v))
    ensures TreesOk(trees[pid := t], DropEntry(procs, pid, User(v)))
    ensures var t0 := trees[pid];
            && PT.Leaf(t0, v).Some? && PT.Here(t0, PT.Leaf(t0, v).value)
            && t == PT.SetPte(t0, PT.Leaf(t0, v).value, PT.Index(0, v), 0)
  {
    hide Represents, PT.Index, PT.Leaf;
    ClearUser(trees[pid], procs[pid].pt, v);
    t := PT.SetPte(trees[pid], PT.Leaf(trees[pid], v).value, PT.Index(0, v), 0);
  }

  lemma NewTree(trees: map<nat, PT.Tree>, procs: Procs, pid: nat, root: nat) returns (t: PT.Tree)
    requires TreesOk(trees, procs) && pid !in procs
    ensures t == EmptyTree(root) && TreesOk(trees[pid := t], procs[pid := Proc(0, map[ROOT := TableEntry(root)])])
  {
    hide Represents;
    CreateRepresents(root);
    t := EmptyTree(root);
  }

  lemma NotElsewhere(procs: Procs, p1: Procs, pid: nat, c: nat)
    requires p1 == procs[pid := Proc(0, map[])] && forall pid', s :: At(procs, pid', s) ==> Ent(procs, pid', s).ppn != c
    ensures forall pid', s :: At(p1, pid', s) ==> Ent(p1, pid', s).ppn != c
  {
    forall pid', s | At(p1, pid', s) ensures Ent(p1, pid', s).ppn != c { assert At(procs, pid', s); }
  }

  lemma TreesSame(trees: map<nat, PT.Tree>, o: Procs, n: Procs)
    requires TreesOk(trees, o) && n.Keys == o.Keys && forall pid :: pid in o ==> n[pid].pt == o[pid].pt
    ensures TreesOk(trees, n)
  {
    hide Represents;
  }

  lemma TreesLess(trees: map<nat, PT.Tree>, procs: Procs, pid: nat)
    requires TreesOk(trees, procs)
    ensures TreesOk(trees - {pid}, procs - {pid})
  {
    hide Represents;
  }

  lemma DenseIsFree(trees: map<nat, PT.Tree>, procs: Procs, pid: nat)
    requires TreesOk(trees, procs) && pid in procs && Dense(procs[pid].pt, 0)
    ensures var t := trees[pid];
            && PT.NoLeafBelow(t, t.root) && PT.LeavesProper(t)
            && forall p :: p in PT.Sub(t, t.root) <==> IsTable(procs[pid].pt, p)
  {
    hide Represents, PT.NoLeafBelow, PT.LeavesProper, PT.Sub, IsTable;
    FreeWalkReady(trees[pid], procs[pid].pt);
  }

  // What the hardware finds for page v through the tree is what the map says.
  lemma TreeTranslates(trees: map<nat, PT.Tree>, procs: Procs, pid: nat, v: nat)
    requires TreesOk(trees, procs) && pid in procs && v < MAXVPN
    ensures PT.IsValid(PT.Flat(trees[pid], v)) <==> At(procs, pid, User(v))
    ensures At(procs, pid, User(v)) ==>
              var pte, e := PT.Flat(trees[pid], v), Ent(procs, pid, User(v));
              && PT.PtePage(pte) == e.ppn
              && PT.PteFlags(pte) == 3 + (if e.own then 4 else 0) + (if e.exec then 8 else 0) + if e.user then 16 else 0
  {
    PageFacts(trees[pid], procs[pid].pt, v);
    hide Represents, PT.Flat, PT.MakePte, PT.PtePage, PT.PteFlags;
    if At(procs, pid, User(v)) { PT.PteRoundTrip(Ent(procs, pid, User(v)).ppn, Bits(Ent(procs, pid, User(v)))); }
  }

  class Machine {
    const kmem: Kmem
    var procs: Procs
    ghost var held: multiset<nat>

    ghost var trees: map<nat, PT.Tree>

    ghost predicate Core()
      reads this, kmem
    {
      && kmem.Valid() && kmem.pending == kmem.leaked == multiset{}
      && MapsOk(procs, kmem.refs, held, kmem.lo) && Reached(procs)
    }

    ghost predicate Valid0()
      reads this, kmem
    {
      Core() && TreesOk(trees, procs)
    }

    ghost function Seen(): (r: Spaces)
      reads this, kmem
    {
      View(kmem.mem, procs)
    }

    constructor (kmem: Kmem)
      requires kmem.Valid() && kmem.refs == kmem.pending == kmem.leaked == multiset{}
      ensures this.kmem == kmem && procs == map[] && held == multiset{}
      ensures Valid0()
    {
      this.kmem, procs, held, trees := kmem, map[], multiset{}, map[];
    }

    // kalloc: the page is in the kernel's hands and mapped nowhere.
    method Take() returns (r: Option<nat>)
      requires Core()
      modifies kmem, this`held
      ensures Core() && Seen() == old(Seen())
      ensures r.None? <==> old(kmem.chain) == []
      ensures r.None? ==> held == old(held) && kmem.chain == []
      ensures r.Some? ==> held == old(held) + multiset{r.value} && kmem.lo <= r.value < PHYSTOP_PAGE
      ensures r.Some? ==> r.value !in old(kmem.refs) && |kmem.chain| == |old(kmem.chain)| - 1
      ensures r.Some? ==> |old(kmem.refcnt)| == PHYSTOP_PAGE && kmem.refcnt == old(kmem.refcnt)[r.value := 1]
      ensures r.Some? ==> forall pid, s :: At(procs, pid, s) ==> Ent(procs, pid, s).ppn != r.value
      ensures forall q :: 0 <= q < PHYSTOP_PAGE && q in old(kmem.refs) ==> kmem.mem[q] == old(kmem.mem)[q]
    {
      hide Kalloc.Inv, ChainOk, TreesOk, CountOk;
      ghost var mem0, refs0 := kmem.mem, kmem.refs;
      r := kmem.Kalloc();
      if r.Some? {
        HoldKeepsInv(procs, refs0, held, kmem.lo, r.value);
        UnreferencedIsUnmapped(procs, refs0, held, r.value);
        held := held + multiset{r.value};
        ViewUnchanged(mem0, procs, kmem.mem, procs);
      }
    }

    // kfree of a reference in the kernel's hands.
    method Give(p: nat)
      requires Core() && held[p] >= 1
      modifies kmem, this`held
      ensures Core() && Seen() == old(Seen())
      ensures held == old(held) - multiset{p} && p < |old(kmem.refcnt)|
      ensures kmem.refcnt == old(kmem.refcnt)[p := old(kmem.refcnt)[p] - 1]
      ensures |kmem.chain| == |old(kmem.chain)| + if old(kmem.refcnt)[p] == 1 then 1 else 0
      ensures forall q :: 0 <= q < PHYSTOP_PAGE && q != p ==> kmem.mem[q] == old(kmem.mem)[q]
    {
      hide Kalloc.Inv, ChainOk, TreesOk, CountOk;
      ghost var mem0, refs0 := kmem.mem, kmem.refs;
      HeldIsReferenced(procs, refs0, held, p);
      ReferencedPage(kmem.Abs(), p);
      kmem.Kfree(p);
      HoldKeepsInv(procs, refs0, held, kmem.lo, p);
      held := held - multiset{p};
      if kmem.mem != mem0 {
        UnreferencedIsUnmapped(procs, kmem.refs, held, p);
      }
      ViewUnchanged(mem0, procs, kmem.mem, procs);
    }

    // A zeroed page in the kernel's hands becomes a table page of pid.
    method Link(pid: nat, level: nat, v: nat, c: nat)
      requires Valid0() && pid in procs && level <= 1 && v < MAXVPN && TableSlot(level, v) !in procs[pid].pt
      requires level == 0 ==> TableSlot(1, v) in procs[pid].pt
      requires held[c] >= 1 && kmem.lo <= c < PHYSTOP_PAGE
      requires forall pid', s :: At(procs, pid', s) ==> Ent(procs, pid', s).ppn != c
      modifies this`held, this`procs, this`trees
      ensures Valid0() && Seen() == old(Seen()) && held == old(held) - multiset{c}
      ensures procs == SetEntry(old(procs), pid, TableSlot(level, v), TableEntry(c))
      ensures OnlyTables(old(procs), procs, pid)
    {
      hide Kalloc.Inv, ChainOk, TreesOk, MapsOk, PT.Here, PT.Index, PT.CanAdd, PT.AddTable;
      ghost var p0, e := procs, TableEntry(c);
      MapKeepsInv(procs, kmem.refs, held, kmem.lo, pid, TableSlot(level, v), e);
      TableAdded(procs, pid, TableSlot(level, v), e);
      ghost var tree := GrownTree(trees, procs, pid, level, v, c);
      hide View, Reached;
      procs, trees := SetEntry(procs, pid, TableSlot(level, v), TableEntry(c)), trees[pid := tree];
      held := held - multiset{c};
      hide Ent, At, SetEntry;
      ViewUnchanged(kmem.mem, p0, kmem.mem, procs);
    }

    // One level of walk with alloc != 0: the table page exists, or is allocated and zeroed.
    method WalkLevel(pid: nat, level: nat, v: nat) returns (ok: bool)
      requires Valid0() && pid in procs && level <= 1 && v < MAXVPN
      requires level == 0 ==> TableSlot(1, v) in procs[pid].pt
      modifies kmem, this`held, this`procs, this`trees
      ensures Valid0() && Seen() == old(Seen()) && held == old(held)
      ensures OnlyTables(old(procs), procs, pid)
      ensures ok <==> TableSlot(level, v) in procs[pid].pt
      ensures forall s :: At(procs, pid, s) && !At(old(procs), pid, s) ==> Ent(procs, pid, s).ppn !in old(kmem.refs)
      ensures ok <==> TableSlot(level, v) in old(procs)[pid].pt || old(kmem.chain) != []
      ensures |kmem.chain| == |old(kmem.chain)| - if ok && TableSlot(level, v) !in old(procs)[pid].pt then 1 else 0
      ensures TablesOf(procs[pid].pt) == TablesOf(old(procs)[pid].pt) + if ok then {TableSlot(level, v)} else {}
      ensures forall q :: 0 <= q < PHYSTOP_PAGE && q in old(kmem.refs) ==> kmem.mem[q] == old(kmem.mem)[q]
    {
      hide Kalloc.Inv, ChainOk, TreesOk, MapsOk, View, Reached, TablesOf;
      TablesWith(procs, pid, TableSlot(level, v), TableEntry(0));
      if TableSlot(level, v) in procs[pid].pt {
        return true;
      }
      var r := Take();
      if r.None? {
        return false;
      }
      UnmappedWrite(kmem.mem, procs, r.value, Filled(0));
      kmem.WritePage(r.value, Filled(0));
      TablesWith(procs, pid, TableSlot(level, v), TableEntry(r.value));
      Link(pid, level, v, r.value);
      ok := true;
    }

    // The entry for page v is written; its tables exist.
    method Enter(pid: nat, v: nat, e: Entry)
      requires Valid0() && pid in procs && v < MAXVPN && !At(procs, pid, User(v))
      requires TableSlot(1, v) in procs[pid].pt && TableSlot(0, v) in procs[pid].pt
      requires held[e.ppn] >= 1 && kmem.lo <= e.ppn < PHYSTOP_PAGE
      requires forall s :: At(procs, pid, s) ==> Ent(procs, pid, s).ppn != e.ppn
      requires forall pid', s :: At(procs, pid', s) && Ent(procs, pid', s).ppn == e.ppn
                                 ==> !e.own && !Ent(procs, pid', s).own
      modifies this`held, this`procs, this`trees
      ensures Valid0() && procs == SetEntry(old(procs), pid, User(v), e) && held == old(held) - multiset{e.ppn}
    {
      hide Kalloc.Inv, ChainOk, TreesOk, MapsOk, Reached, PT.Leaf, PT.Here, PT.SetPte, PT.Index;
      MapKeepsInv(procs, kmem.refs, held, kmem.lo, pid, User(v), e);
      ReachedAfterAdd(procs, pid, v, e);
      ghost var tree := WrittenTree(trees, procs, pid, v, e);
      procs, trees := SetEntry(procs, pid, User(v), e), trees[pid := tree];
      held := held - multiset{e.ppn};
    }

    // walk with alloc != 0 for page v, while the kernel has page c: the missing table pages, as far as there is memory.
    method WalkAlloc(pid: nat, v: nat, c: nat) returns (ok: bool)
      requires Valid0() && pid in procs && v < MAXVPN && held[c] >= 1 && kmem.lo <= c < PHYSTOP_PAGE
      requires forall s :: At(procs, pid, s) ==> Ent(procs, pid, s).ppn != c
      modifies kmem, this`held, this`procs, this`trees
      ensures Valid0() && held == old(held) && Seen() == old(Seen()) && OnlyTables(old(procs), procs, pid)
      ensures kmem.mem[c] == old(kmem.mem)[c] && forall s :: At(procs, pid, s) ==> Ent(procs, pid, s).ppn != c
      ensures var have, lack := TablesOf(old(procs)[pid].pt), Lack(TablesOf(old(procs)[pid].pt), v);
              && (ok <==> |old(kmem.chain)| >= lack) && (ok ==> |kmem.chain| == |old(kmem.chain)| - lack)
              && TablesOf(procs[pid].pt) == have + if ok then Path(v) else Begun(v, |old(kmem.chain)|)
      ensures ok ==> TableSlot(1, v) in procs[pid].pt && TableSlot(0, v) in procs[pid].pt
    {
      hide Kalloc.Inv, ChainOk, TreesOk, MapsOk, View, Reached, TablesOf, Lack;
      ghost var p0, mem0, t0 := procs, kmem.mem, TablesOf(procs[pid].pt);
      LackOf(t0, v);
      TablesWith(procs, pid, TableSlot(1, v), TableEntry(c));
      TablesWith(procs, pid, TableSlot(0, v), TableEntry(c));
      var level := 2;
      while level > 0
        invariant 0 <= level <= 2 && Valid0() && OnlyTables(p0, procs, pid)
        invariant held == old(held) && Seen() == old(Seen())
        invariant kmem.mem[c] == mem0[c]
        invariant forall s :: At(procs, pid, s) ==> Ent(procs, pid, s).ppn != c
        invariant level < 2 ==> TableSlot(1, v) in procs[pid].pt
        invariant level < 1 ==> TableSlot(0, v) in procs[pid].pt
        invariant |kmem.chain| == |old(kmem.chain)| - Missing(t0, v, level)
        invariant TablesOf(procs[pid].pt) == t0 + Above(v, level)
      {
        PageReferenced(procs, kmem.refs, held, kmem.lo, c);
        TablesWith(procs, pid, TableSlot(level - 1, v), TableEntry(c));
        ok := WalkLevel(pid, level - 1, v);
        if !ok { return; }
        level := level - 1;
      }
      ok := true;
    }

    // mappages for one page: walk allocates the missing table pages, then the entry is written.
    method MapPage(pid: nat, v: nat, e: Entry) returns (ok: bool)
      requires Valid0() && pid in procs && v < MAXVPN && !At(procs, pid, User(v))
      requires held[e.ppn] >= 1 && kmem.lo <= e.ppn < PHYSTOP_PAGE
      requires forall s :: At(procs, pid, s) ==> Ent(procs, pid, s).ppn != e.ppn
      requires forall pid', s :: At(procs, pid', s) && Ent(procs, pid', s).ppn == e.ppn
                                 ==> !e.own && !Ent(procs, pid', s).own
      modifies kmem, this`held, this`procs, this`trees
      ensures Valid0()
      ensures OnlyTables(if ok then SetEntry(old(procs), pid, User(v), e) else old(procs), procs, pid)
      ensures held == if ok then old(held) - multiset{e.ppn} else old(held)
      ensures Seen() == if ok then View(old(kmem.mem), SetEntry(old(procs), pid, User(v), e)) else old(Seen())
      ensures var have, lack := TablesOf(old(procs)[pid].pt), Lack(TablesOf(old(procs)[pid].pt), v);
              && (ok <==> |old(kmem.chain)| >= lack) && (ok ==> |kmem.chain| == |old(kmem.chain)| - lack)
              && pid in procs && TablesOf(procs[pid].pt) == have + if ok then Path(v) else Begun(v, |old(kmem.chain)|)
    {
      hide Kalloc.Inv, ChainOk, TreesOk, MapsOk, View, Reached, TablesOf, Lack, Path, Begun;
      ghost var p0, mem0 := procs, kmem.mem;
      PageReferenced(procs, kmem.refs, held, kmem.lo, e.ppn);
      ok := WalkAlloc(pid, v, e.ppn);
      if !ok { return; }
      forall pid', s | At(procs, pid', s) && Ent(procs, pid', s).ppn == e.ppn
        ensures !e.own && !Ent(procs, pid', s).own
      {
        assert At(p0, pid', s) && Ent(p0, pid', s) == Ent(procs, pid', s);
      }
      UserAdded(mem0, p0, kmem.mem, procs, pid, v, e);
      TablesWith(procs, pid, User(v), e);
      Enter(pid, v, e);
    }

    // One turn of uvmunmap's loop with do_free: neither of its panics can occur on a mapped page.
    method UnmapPage(pid: nat, v: nat)
      requires Valid0() && At(procs, pid, User(v))
      modifies kmem, this`held, this`procs, this`trees
      ensures Valid0() && held == old(held)
      ensures procs == DropEntry(old(procs), pid, User(v))
      ensures Seen() == DropPages(old(Seen()), pid, v, v + 1)
    {
      hide Kalloc.Inv, ChainOk, TreesOk, MapsOk, View, PT.Leaf, PT.Here, PT.SetPte, PT.Index, PT.CanAdd, PT.AddTable;
      var ppn := procs[pid].pt[User(v)].ppn;
      UnmapKeepsInv(procs, kmem.refs, held, kmem.lo, pid, User(v));
      ViewAfterDrop(kmem.mem, procs, pid, v);
      ghost var tree := ClearedTree(trees, procs, pid, v);
      procs, trees := DropEntry(procs, pid, User(v)), trees[pid := tree];
      held := held + multiset{ppn};
      Give(ppn);
    }

    // A copy of page v in the kernel's hands takes its place; the original is in the kernel's hands.
    method Swap(pid: nat, v: nat, e: Entry)
      requires Valid0() && At(procs, pid, User(v)) && held[e.ppn] >= 1 && kmem.lo <= e.ppn < PHYSTOP_PAGE
      requires forall pid', s :: At(procs, pid', s) ==> Ent(procs, pid', s).ppn != e.ppn
      requires Frame(kmem.mem, e.ppn) == Frame(kmem.mem, Ent(procs, pid, User(v)).ppn)
      modifies this`held, this`procs, this`trees
      ensures Valid0() && Seen() == old(Seen()) && procs == SetEntry(old(procs), pid, User(v), e)
      ensures held == old(held) + multiset{Ent(old(procs), pid, User(v)).ppn} - multiset{e.ppn}
    {
      hide Kalloc.Inv, ChainOk, TreesOk, MapsOk, View, Reached, PT.Leaf, PT.Here, PT.SetPte, PT.Index, Frame;
      CopyKeepsInv(procs, kmem.refs, held, kmem.lo, pid, v, e);
      SameContents(kmem.mem, procs, pid, v, e);
      ghost var tree := ReplacedTree(trees, procs, pid, v, e);
      held := held + multiset{procs[pid].pt[User(v)].ppn} - multiset{e.ppn};
      procs, trees := SetEntry(procs, pid, User(v), e), trees[pid := tree];
    }

    // The same, and the kernel drops the original.
    method Replace(pid: nat, v: nat, e: Entry)
      requires Valid0() && At(procs, pid, User(v)) && held[e.ppn] >= 1 && kmem.lo <= e.ppn < PHYSTOP_PAGE
      requires forall pid', s :: At(procs, pid', s) ==> Ent(procs, pid', s).ppn != e.ppn
      requires Frame(kmem.mem, e.ppn) == Frame(kmem.mem, Ent(procs, pid, User(v)).ppn)
      modifies kmem, this`held, this`procs, this`trees
      ensures Valid0() && held == old(held) - multiset{e.ppn} && Seen() == old(Seen())
      ensures procs == SetEntry(old(procs), pid, User(v), e)
      ensures var pa1 := Ent(old(procs), pid, User(v)).ppn;
              && pa1 < |old(kmem.refcnt)| && kmem.refcnt == old(kmem.refcnt)[pa1 := old(kmem.refcnt)[pa1] - 1]
              && |kmem.chain| == |old(kmem.chain)| + if old(kmem.refcnt)[pa1] == 1 then 1 else 0
    {
      hide Kalloc.Inv, ChainOk, TreesOk, MapsOk, View, Reached, Frame, SetEntry;
      ghost var h0 := held;
      var pa1 := procs[pid].pt[User(v)].ppn;
      assert pa1 != e.ppn by { assert At(procs, pid, User(v)); }
      Swap(pid, v, e);
      Give(pa1);
      assert held == h0 - multiset{e.ppn};
    }

    // cowHandler: the faulting page is replaced by a writable private copy, shared or not.
    method CowHandler(pid: nat, va: nat) returns (ok: bool)
      requires Valid0() && pid in procs
      modifies kmem, this`held, this`procs, this`trees
      ensures Valid0() && held == old(held) && Seen() == old(Seen())
      ensures var v := va / PGSIZE;
              ok <==> && 0 < va < 0x40_0000_0000 && At(old(procs), pid, User(v)) && Ent(old(procs), pid, User(v)).user
                      && old(kmem.chain) != []
      ensures ok ==> exists ppn :: procs == SetEntry(old(procs), pid, User(va / PGSIZE), Entry(ppn, true, true, true))
      ensures !ok ==> procs == old(procs) && kmem.chain == old(kmem.chain)
      ensures ok ==> |kmem.chain| == |old(kmem.chain)| - Costs(old(kmem.refcnt), old(procs), pid, va / PGSIZE)
      ensures ok ==> SameBut(old(procs), old(kmem.refcnt), procs, kmem.refcnt, pid, va / PGSIZE)
    {
      hide Kalloc.Inv, ChainOk, TreesOk, MapsOk, View, Reached, SameBut;
      var v := va / PGSIZE;
      if va >= MAXVA || va == 0 || !At(procs, pid, User(v)) || !procs[pid].pt[User(v)].user {
        return false;
      }
      var pa1 := procs[pid].pt[User(v)].ppn;
      EntryInRam(procs, kmem.refs, held, kmem.lo, pid, User(v));
      MappedCount(kmem, procs, held, pid, v);
      var r := Take();
      if r.None? {
        return false;
      }
      OnceOf(procs, kmem.refs, held, kmem.lo);
      UnmappedWrite(kmem.mem, procs, r.value, kmem.mem[pa1]);
      kmem.WritePage(r.value, kmem.mem[pa1]);
      CopyCosts(procs, old(kmem.refcnt), pid, v, r.value);
      Replace(pid, v, Entry(r.value, true, true, true));
      ok := true;
    }

    // A store through a slot that has write permission reaches that process alone.
    method Poke(pid: nat, v: nat, data: Page)
      requires Valid0() && At(procs, pid, User(v)) && Ent(procs, pid, User(v)).own
      modifies kmem`mem
      ensures Valid0() && Seen() == PutPage(old(Seen()), pid, v, data)
    {
      hide Kalloc.Inv, ChainOk, TreesOk, View;
      EntryInRam(procs, kmem.refs, held, kmem.lo, pid, User(v));
      OwnedWrite(kmem.mem, procs, pid, v, data);
      kmem.WritePage(procs[pid].pt[User(v)].ppn, data);
    }

    // A one-byte store by user code: it goes through if the page is user-writable; otherwise it
    // faults, usertrap calls cowHandler, and the store is retried or the process is killed.
    method UserStore(pid: nat, va: nat, b: int) returns (ok: bool)
      requires Valid0() && pid in procs && va < MAXVA
      modifies kmem, this`held, this`procs, this`trees
      ensures Valid0() && held == old(held) && SameSlots(old(procs), procs)
      ensures pid in Seen() && Seen() == old(Seen())[pid := Seen()[pid]]
      ensures Stored(old(Seen())[pid], Seen()[pid], va, if ok then [b] else [])
      ensures ok <==> && At(old(procs), pid, User(va / PGSIZE)) && Ent(old(procs), pid, User(va / PGSIZE)).user
                      && (Ent(old(procs), pid, User(va / PGSIZE)).own || (va > 0 && old(kmem.chain) != []))
      ensures StoreDid(old(procs), procs, pid, va / PGSIZE, ok)
    {
      hide Kalloc.Inv, ChainOk, TreesOk, MapsOk, View;
      ViewKeys(kmem.mem, procs);
      var v := va / PGSIZE;
      var direct := At(procs, pid, User(v)) && procs[pid].pt[User(v)].user && procs[pid].pt[User(v)].own;
      if !direct {
        ok := CowHandler(pid, va);
        if !ok { return; }
      }
      ViewKeys(kmem.mem, procs);
      EntryInRam(procs, kmem.refs, held, kmem.lo, pid, User(v));
      var page := kmem.mem[procs[pid].pt[User(v)].ppn];
      ghost var before := Seen();
      SeenPage(kmem.mem, procs, pid, v);
      var data := Splice(page, va % PGSIZE, [b]);
      Poke(pid, v, data);
      SpliceStored(before, pid, va, [b]);
      ok := true;
    }

    // One turn of copyout's loop: n bytes within one page.
    method CopyOutPage(pid: nat, dstva: nat, chunk: seq<int>) returns (ok: bool)
      requires Valid0() && pid in procs && dstva % PGSIZE + |chunk| <= PGSIZE
      modifies kmem, this`held, this`procs, this`trees
      ensures Valid0() && held == old(held) && SameSlots(old(procs), procs)
      ensures pid in Seen() && Seen() == old(Seen())[pid := Seen()[pid]]
      ensures Stored(old(Seen())[pid], Seen()[pid], dstva, if ok then chunk else [])
      ensures ok <==> Accepts(old(procs), pid, dstva) && old(kmem.chain) != []
      ensures !ok ==> Seen() == old(Seen()) && procs == old(procs) && kmem.chain == old(kmem.chain)
      ensures ok ==> |kmem.chain| == |old(kmem.chain)| - Costs(old(kmem.refcnt), old(procs), pid, dstva / PGSIZE)
      ensures ok ==> SameBut(old(procs), old(kmem.refcnt), procs, kmem.refcnt, pid, dstva / PGSIZE)
      ensures var s := User(dstva / PGSIZE);
              ok ==> exists ppn :: procs == SetEntry(old(procs), pid, s, Entry(ppn, true, true, true))
    {
      hide Kalloc.Inv, ChainOk, TreesOk, MapsOk, View, SameBut, Costs;
      ViewKeys(kmem.mem, procs);
      var va0 := dstva - dstva % PGSIZE;
      if va0 > MAXVA {
        return false;
      }
      ok := CowHandler(pid, va0);
      if !ok { return; }
      var v := dstva / PGSIZE;
      assert va0 / PGSIZE == v;
      ViewKeys(kmem.mem, procs);
      EntryInRam(procs, kmem.refs, held, kmem.lo, pid, User(v));
      SeenPage(kmem.mem, procs, pid, v);
      ghost var before := Seen();
      var data := Splice(kmem.mem[procs[pid].pt[User(v)].ppn], dstva % PGSIZE, chunk);
      Poke(pid, v, data);
      SpliceStored(before, pid, dstva, chunk);
    }

    // copyout. On failure a prefix, cut at a page boundary, has been written.
    method CopyOut(pid: nat, dstva: nat, src: seq<int>) returns (ok: bool, ghost done: nat)
      requires Valid0() && pid in procs
      modifies kmem, this`held, this`procs, this`trees
      ensures Valid0() && held == old(held) && SameSlots(old(procs), procs)
      ensures done <= |src| && (ok <==> done == |src|)
      ensures pid in Seen() && Seen() == old(Seen())[pid := Seen()[pid]]
      ensures Stored(old(Seen())[pid], Seen()[pid], dstva, src[..done])
      ensures done == 0 || ok || (dstva + done) % PGSIZE == 0
      ensures ok <==> CopyFits(old(procs), old(kmem.refcnt), |old(kmem.chain)|, pid, dstva, |src|)
      ensures !ok ==> kmem.chain == [] || !Accepts(old(procs), pid, dstva + done)
      ensures CopiedOver(old(procs), procs, pid, dstva / PGSIZE, PageAfter(dstva, done))
    {
      hide Kalloc.Inv, ChainOk, TreesOk, MapsOk, View, Stored, Reached, At, Ent, Accepts, SameSlots, SameBut, Costs,
           CopyFits, Copying, CopiedOver, SetEntry, PageAfter;
      ghost var v0, p0, rc0, free := Seen(), procs, kmem.refcnt, |kmem.chain|;
      CopyingStart(p0, rc0, pid, dstva, |src|, free);
      NothingCopied(p0, pid, dstva);
      SlotsRefl(procs);
      ViewKeys(kmem.mem, procs);
      StoredNothing(v0[pid], dstva);
      var i := 0;
      assert src[..0] == [];
      while i < |src|
        invariant 0 <= i <= |src| && Valid0() && held == old(held) && SameSlots(old(procs), procs)
        invariant pid in procs && pid in Seen() && Seen() == v0[pid := Seen()[pid]]
        invariant Stored(v0[pid], Seen()[pid], dstva, src[..i])
        invariant i == 0 || i == |src| || (dstva + i) % PGSIZE == 0
        invariant Copying(p0, rc0, free, procs, kmem.refcnt, |kmem.chain|, pid, dstva, |src|, i)
        invariant CopiedOver(p0, procs, pid, dstva / PGSIZE, PageAfter(dstva, i))
      {
        var n := PGSIZE - (dstva + i) % PGSIZE;
        if n > |src| - i { n := |src| - i; }
        ghost var p1, rc1, free1, mid := procs, kmem.refcnt, |kmem.chain|, Seen()[pid];
        ok := CopyOutPage(pid, dstva + i, src[i..i + n]);
        SlotsTrans(old(procs), p1, procs);
        if !ok {
          CopyingStops(p0, rc0, free, procs, rc1, free1, pid, dstva, |src|, i);
          done := i;
          return;
        }
        CopyingOn(p0, rc0, free, p1, rc1, free1, procs, kmem.refcnt, |kmem.chain|, pid, dstva, |src|, i, n);
        PageCopied(p0, p1, procs, pid, dstva, i, n) by { AcceptedIsMapped(p1, pid, dstva + i); }
        StoredMore(v0[pid], mid, Seen()[pid], dstva, src[..i], src[i..i + n]);
        assert src[..i] + src[i..i + n] == src[..i + n];
        i := i + n;
      }
      assert src[..|src|] == src;
      CopyingEnds(p0, rc0, free, procs, kmem.refcnt, |kmem.chain|, pid, dstva, |src|);
      ok, done := true, i;
    }

    // copyin: succeeds exactly when every page touched is mapped for the user below MAXVA. dst holds the
    // bytes the process sees, up to the first page that is not.
    method CopyIn(pid: nat, srcva: nat, len: nat) returns (ok: bool, dst: seq<int>)
      requires Valid0() && pid in procs
      ensures ok <==> forall at: nat :: srcva <= at < srcva + len ==> Readable(procs, pid, at)
      ensures |dst| <= len && (ok <==> |dst| == len) && pid in Seen()
      ensures !ok ==> !Readable(procs, pid, srcva + |dst|) && (dst == [] || (srcva + |dst|) % PGSIZE == 0)
      ensures forall at: nat :: srcva <= at < srcva + |dst| ==>
                Mapped(Seen()[pid], at) && dst[at - srcva] == Byte(Seen()[pid], at)
    {
      hide Kalloc.Inv, ChainOk, TreesOk, MapsOk, View, Byte, Mapped;
      dst := [];
      ViewKeys(kmem.mem, procs);
      while |dst| < len
        invariant |dst| <= len && (dst == [] || |dst| == len || (srcva + |dst|) % PGSIZE == 0)
        invariant forall at: nat :: srcva <= at < srcva + |dst| ==>
                    && Readable(procs, pid, at)
                    && Mapped(Seen()[pid], at) && dst[at - srcva] == Byte(Seen()[pid], at)
      {
        var va := srcva + |dst|;
        var v := va / PGSIZE;
        if va - va % PGSIZE >= MAXVA || !At(procs, pid, User(v)) || !procs[pid].pt[User(v)].user {
          assert !Readable(procs, pid, va);
          return false, dst;
        }
        EntryInRam(procs, kmem.refs, held, kmem.lo, pid, User(v));
        var n := PGSIZE - va % PGSIZE;
        if n > len - |dst| { n := len - |dst|; }
        ghost var d0 := dst;
        dst := dst + kmem.mem[procs[pid].pt[User(v)].ppn][va % PGSIZE..va % PGSIZE + n];
        forall at: nat | va <= at < va + n
          ensures && Readable(procs, pid, at)
                  && Mapped(Seen()[pid], at) && dst[at - srcva] == Byte(Seen()[pid], at)
        {
          assert at / PGSIZE == v && at % PGSIZE == va % PGSIZE + (at - va);
          SeenByte(kmem.mem, procs, pid, at);
        }
      }
      ok := true;
    }

    // uvmunmap with do_free: frees user pages from .. from+n-1, all of which are mapped.
    method UvmUnmap(pid: nat, from: nat, n: nat)
      requires Valid0() && pid in procs
      requires forall v: nat :: from <= v < from + n ==> At(procs, pid, User(v))
      modifies kmem, this`held, this`procs, this`trees
      ensures Valid0() && held == old(held)
      ensures procs == DropRange(old(procs), pid, from, from + n)
      ensures Seen() == DropPages(old(Seen()), pid, from, from + n)
    {
      hide Kalloc.Inv, ChainOk, TreesOk, MapsOk, View, Reached, DropPages;
      var v := from;
      ghost var p0, s0 := procs, Seen();
      ViewKeys(kmem.mem, procs);
      DropNone(p0, s0, pid, from);
      while v < from + n
        invariant from <= v <= from + n && Valid0() && held == old(held)
        invariant procs == DropRange(p0, pid, from, v)
        invariant Seen() == DropPages(s0, pid, from, v)
      {
        assert At(p0, pid, User(v));
        UnmapPage(pid, v);
        DropOneMore(p0, s0, pid, from, v);
        v := v + 1;
      }
    }

    // uvmdealloc
    method UvmDealloc(pid: nat, oldsz: nat, newsz: nat) returns (r: nat)
      requires Valid0() && pid in procs && Dense(procs[pid].pt, NPages(oldsz))
      modifies kmem, this`held, this`procs, this`trees
      ensures Valid0() && held == old(held)
      ensures r == if newsz >= oldsz then oldsz else newsz
      ensures procs == DropRange(old(procs), pid, NPages(r), NPages(oldsz))
      ensures Dense(procs[pid].pt, NPages(r))
      ensures Seen() == DropPages(old(Seen()), pid, NPages(r), NPages(oldsz))
    {
      hide Kalloc.Inv, ChainOk, TreesOk, MapsOk, View, Reached;
      ViewKeys(kmem.mem, procs);
      if newsz >= oldsz {
        DropNone(procs, Seen(), pid, NPages(oldsz));
        return oldsz;
      }
      if NPages(newsz) < NPages(oldsz) {
        UvmUnmap(pid, NPages(newsz), NPages(oldsz) - NPages(newsz));
      } else {
        DropNone(procs, Seen(), pid, NPages(oldsz));
      }
      r := newsz;
    }

    // One turn of uvmalloc's loop: a zeroed page is mapped at v.
    method AllocPage(pid: nat, v: nat, w: bool, x: bool) returns (ok: bool)
      requires Valid0() && pid in procs && Dense(procs[pid].pt, v)
      modifies kmem, this`held, this`procs, this`trees
      ensures Valid0() && held == old(held) && Grown(old(procs), procs, pid, v)
      ensures Dense(procs[pid].pt, if ok then v + 1 else v)
      ensures ok ==> Flagged(procs[pid].pt, v, w, x)
      ensures var have, lack := TablesOf(old(procs)[pid].pt), Lack(TablesOf(old(procs)[pid].pt), v);
              && (ok <==> |old(kmem.chain)| >= 1 + lack) && (ok ==> |kmem.chain| == |old(kmem.chain)| - 1 - lack)
              && TablesOf(procs[pid].pt) == have + if ok then Path(v) else Begun(v, |old(kmem.chain)| - 1)
      ensures Seen() == if ok then PutPage(old(Seen()), pid, v, Filled(0)) else old(Seen())
    {
      hide Kalloc.Inv, ChainOk, TreesOk, MapsOk, View, Reached, OnlyTables, Grown, Lack, TablesOf, Path;
      ViewKeys(kmem.mem, procs);
      ghost var p0 := procs;
      AfterMapPage(p0, p0, pid, v, Entry(0, false, false, false), false) by { NoNewTables(p0, pid); }
      var mem := Take();
      if mem.None? {
        return false;
      }
      UnmappedWrite(kmem.mem, procs, mem.value, Filled(0));
      kmem.WritePage(mem.value, Filled(0));
      TableIsBounded(procs, kmem.refs, held, kmem.lo, pid, v);
      var e := Entry(mem.value, w, true, x);
      ViewAfterSet(kmem.mem, procs, pid, v, e);
      ok := MapPage(pid, v, e);
      AfterMapPage(p0, procs, pid, v, e, ok);
      if !ok {
        Give(mem.value);
      }
    }

    // uvmalloc: the new size, or 0 if memory ran out, in which case nothing is left mapped above
    // the old size.
    method UvmAlloc(pid: nat, oldsz: nat, newsz: nat, w: bool, x: bool) returns (r: nat, ghost ok: bool)
      requires Valid0() && pid in procs && Dense(procs[pid].pt, NPages(oldsz))
      modifies kmem, this`held, this`procs, this`trees
      ensures Valid0() && held == old(held) && Grown(old(procs), procs, pid, NPages(oldsz))
      ensures r == if !ok then 0 else if newsz < oldsz then oldsz else newsz
      ensures Dense(procs[pid].pt, NPages(if ok then r else oldsz))
      ensures ok <==> newsz < oldsz || |old(kmem.chain)| >= GrowNeeds(old(procs)[pid].pt, oldsz, newsz)
      ensures Seen() == if ok then GrowPages(old(Seen()), pid, NPages(oldsz), NPages(r)) else old(Seen())
      ensures ok ==> AllFlagged(procs[pid].pt, NPages(oldsz), NPages(r), w, x)
      ensures ok ==> TablesOf(procs[pid].pt) == TablesOf(old(procs)[pid].pt) + Tables(NPages(r))
      ensures !ok ==> Stuck(TablesOf(old(procs)[pid].pt), |old(kmem.chain)|, NPages(oldsz), NPages(newsz),
                            TablesOf(procs[pid].pt))
    {
      hide Kalloc.Inv, ChainOk, TreesOk, MapsOk, View, Reached, GrowPages, DropPages, PutPage, DropRange, Grown,
           Lack, Lacking, TablesOf, Path, Tables, AllFlagged, Flagged, Begun;
      ViewKeys(kmem.mem, procs);
      ghost var p0, s0, t0 := procs, Seen(), TablesOf(procs[pid].pt);
      var n0 := NPages(oldsz);
      TablesThere(procs, pid, n0);
      NoneLacking(t0, n0);
      GrowNone(s0, pid, n0);
      GrownRefl(p0, pid, n0);
      NoneFlagged(procs[pid].pt, n0, w, x);
      if newsz < oldsz {
        return oldsz, true;
      }
      var v := n0;
      while v * PGSIZE < newsz
        invariant n0 <= v && ((v - 1) * PGSIZE < newsz || v == n0)
        invariant Valid0() && held == old(held) && pid in procs && Grown(p0, procs, pid, n0) && Dense(procs[pid].pt, v)
        invariant Seen() == GrowPages(s0, pid, n0, v)
        invariant |kmem.chain| == |old(kmem.chain)| - (v - n0) - Lacking(t0, v)
        invariant TablesOf(procs[pid].pt) == t0 + Tables(v) && AllFlagged(procs[pid].pt, n0, v, w, x)
        decreases newsz - v * PGSIZE
      {
        GrowOneMore(s0, pid, n0, v);
        LackingStep(t0, v);
        ghost var p1 := procs;
        var mapped := AllocPage(pid, v, w, x);
        GrownTrans(p0, p1, procs, pid, n0, v);
        if mapped { OneMoreFlagged(p1, procs, pid, n0, v, w, x); }
        if !mapped {
          PagesBelow(newsz, v);
          LackingGrows(t0, v + 1, NPages(newsz));
          ghost var p2 := procs;
          RoundTrip(v);
          RoundTrip(n0);
          var back := UvmDealloc(pid, v * PGSIZE, n0 * PGSIZE);
          GrowThenDrop(s0, pid, n0, v);
          GrownAfterDrop(p0, p2, pid, n0, v);
          TablesAfterDrop(p2, pid, n0, v);
          assert StuckAt(t0, |old(kmem.chain)|, n0, v, TablesOf(procs[pid].pt));
          return 0, false;
        }
        v := v + 1;
      }
      LoopEnd(oldsz, newsz, v);
      r, ok := newsz, true;
    }

    // One turn of uvmcopy's loop: page i of the parent becomes read-only and is mapped in the child.
    method ShareOne(parent: nat, child: nat, i: nat) returns (ok: bool)
      requires Valid0() && parent != child && child in procs && i < MAXVPN
      requires At(procs, parent, User(i)) && !At(procs, child, User(i))
      requires forall s :: At(procs, child, s) && s.User? ==>
                 Ent(procs, child, s).ppn != Ent(procs, parent, User(i)).ppn
      modifies kmem, this`held, this`procs, this`trees
      ensures Valid0()
      ensures var e := Ent(old(procs), parent, User(i)).(own := false);
              var p1 := SetEntry(old(procs), parent, User(i), e);
              && OnlyTables(if ok then SetEntry(p1, child, User(i), e) else p1, procs, child)
              && held == if ok then old(held) else old(held) + multiset{e.ppn}
      ensures var lack := Lack(TablesOf(old(procs)[child].pt), i);
              && (ok <==> |old(kmem.chain)| >= lack) && (ok ==> |kmem.chain| == |old(kmem.chain)| - lack)
      ensures ok ==> child in procs && TablesOf(procs[child].pt) == TablesOf(old(procs)[child].pt) + Path(i)
      ensures parent in old(Seen()) && child in old(Seen()) && User(i) in old(Seen())[parent]
      ensures Seen() == if ok then PutPage(old(Seen()), child, i, old(Seen())[parent][User(i)]) else old(Seen())
    {
      hide Kalloc.Inv, ChainOk, TreesOk, MapsOk, View, Reached, PutPage, OnlyTables, PT.Leaf, PT.Here, PT.SetPte,
           PT.Index, PT.CanAdd, PT.AddTable, Lack, TablesOf, Path;
      ViewKeys(kmem.mem, procs);
      SeenPage(kmem.mem, procs, parent, i);
      ghost var p0 := procs;
      var e := procs[parent].pt[User(i)].(own := false);
      EntryInRam(procs, kmem.refs, held, kmem.lo, parent, User(i));
      ProtectKeepsInv(procs, kmem.refs, held, kmem.lo, parent, User(i));
      SameContents(kmem.mem, procs, parent, i, e);
      ReachedAfterReplace(procs, parent, i, e);
      ghost var tree := ReplacedTree(trees, procs, parent, i, e);
      procs, trees := SetEntry(procs, parent, User(i), e), trees[parent := tree];
      HoldKeepsInv(procs, kmem.refs, held, kmem.lo, e.ppn);
      kmem.IncreaseCnt(e.ppn, false);
      held := held + multiset{e.ppn};
      SharedPage(procs, kmem.refs, held, kmem.lo, parent, child, i);
      ViewAfterSet(kmem.mem, procs, child, i, e);
      ok := MapPage(child, i, e);
    }

    // The same as a step from the state p0 in which uvmcopy began, with what was seen, the child's tables and the free
    // pages at that time.
    method ShareNext(parent: nat, child: nat, k: nat, ghost n: nat, ghost p0: Procs, ghost s0: Spaces,
                     ghost t0: set<Slot>, ghost mem0: seq<Page>)
      returns (ok: bool)
      requires Valid0() && Sharing(p0, procs, parent, child, k, k) && k < n && Dense(p0[parent].pt, n)
      requires s0 == View(mem0, p0) && parent in s0 && child in s0 && Seen() == CopyPages(s0, parent, child, k)
      requires TablesOf(procs[child].pt) == t0 + Tables(k)
      modifies kmem, this`held, this`procs, this`trees
      ensures Valid0() && Sharing(p0, procs, parent, child, if ok then k + 1 else k, k + 1) && At(p0, parent, User(k))
      ensures Seen() == CopyPages(s0, parent, child, if ok then k + 1 else k)
      ensures held == if ok then old(held) else old(held) + multiset{Ent(p0, parent, User(k)).ppn}
      ensures var more := Lacking(t0, k + 1) - Lacking(t0, k);
              (ok <==> |old(kmem.chain)| >= more) && (ok ==> |kmem.chain| == |old(kmem.chain)| - more)
      ensures child in procs && (ok ==> TablesOf(procs[child].pt) == t0 + Tables(k + 1))
    {
      hide Kalloc.Inv, ChainOk, TreesOk, MapsOk, View, Reached, PutPage, OnlyTables, CopyPages, Sharing, Dense,
           Lack, Lacking, TablesOf, Path, Tables;
      ghost var p1 := procs;
      LackingStep(t0, k);
      CopyStep(p0, p1, kmem.refs, held, kmem.lo, parent, child, k, n);
      ViewKeys(kmem.mem, procs);
      SeenPage(mem0, p0, parent, k);
      CopyOneMore(s0, parent, child, k);
      ok := ShareOne(parent, child, k);
      SharingStep(p0, p1, procs, parent, child, k, ok);
      SharedSlots(p0, procs, parent, child, if ok then k + 1 else k, k + 1);
    }

    // uvmcopy into a child with no user pages. On failure the child has none again, but the count
    // of the page being mapped stays one too high: its reference is held by nobody.
    method UvmCopy(parent: nat, child: nat, sz: nat) returns (ok: bool, ghost i: nat)
      requires Valid0() && parent != child && parent in procs && child in procs
      requires Dense(procs[parent].pt, NPages(sz)) && Dense(procs[child].pt, 0)
      modifies kmem, this`held, this`procs, this`trees
      ensures Valid0()
      ensures Sharing(old(procs), procs, parent, child, if ok then NPages(sz) else 0, if ok then NPages(sz) else i + 1)
      ensures Seen().Keys == old(Seen()).Keys == procs.Keys
      ensures Seen() == if ok then old(Seen())[child := old(Seen())[parent]] else old(Seen())
      ensures ok ==> held == old(held)
      ensures ok <==> |old(kmem.chain)| >= Lacking(TablesOf(old(procs)[child].pt), NPages(sz))
      ensures ok ==> TablesOf(procs[child].pt) == TablesOf(old(procs)[child].pt) + Tables(NPages(sz))
      ensures var have := TablesOf(old(procs)[child].pt);
              !ok ==> Lacking(have, i) <= |old(kmem.chain)| < Lacking(have, i + 1)
      ensures !ok ==> i < NPages(sz) && At(old(procs), parent, User(i))
                      && held == old(held) + multiset{Ent(old(procs), parent, User(i)).ppn}
    {
      hide Kalloc.Inv, ChainOk, TreesOk, MapsOk, View, Reached, CopyPages, Sharing, Dense, DropPages, DropRange,
           Lacking, TablesOf, Tables;
      ghost var p0, s0, t0 := procs, Seen(), TablesOf(procs[child].pt);
      NoTables(t0);
      var k, n := 0, NPages(sz);
      i := 0;
      ViewKeys(kmem.mem, procs);
      CopyStart(p0, s0, parent, child, kmem.mem);
      while k < n
        invariant 0 <= k <= n && Valid0() && held == old(held)
        invariant Sharing(p0, procs, parent, child, k, k)
        invariant parent in s0 && child in s0 && Seen() == CopyPages(s0, parent, child, k)
        invariant |kmem.chain| == |old(kmem.chain)| - Lacking(t0, k)
        invariant child in procs && TablesOf(procs[child].pt) == t0 + Tables(k)
      {
        ok := ShareNext(parent, child, k, n, p0, s0, t0, old(kmem.mem));
        if !ok {
          LackingGrows(t0, k + 1, n);
          ghost var p2 := procs;
          SharedSlots(p0, p2, parent, child, k, k + 1);
          UvmUnmap(child, 0, k);
          SharingDropped(p0, p2, parent, child, k, k + 1);
          CopyDropped(s0, parent, child, k);
          ViewKeys(kmem.mem, procs);
          i := k;
          return;
        }
        k := k + 1;
      }
      CopyEnd(p0, s0, parent, child, n, old(kmem.mem));
      ViewKeys(kmem.mem, procs);
      ok := true;
    }

    // freewalk, once no user page is left: every table page is freed once.
    method FreeTables(pid: nat)
      requires Core() && pid in procs && Dense(procs[pid].pt, 0)
      modifies kmem, this`held, this`procs
      ensures Core() && held == old(held)
      ensures procs == old(procs)[pid := old(procs)[pid].(pt := map[])]
      ensures Seen() == old(Seen())
    {
      hide Kalloc.Inv, ChainOk, TreesOk, MapsOk, View, Reached;
      ghost var p0 := procs;
      while procs[pid].pt != map[]
        invariant Core() && held == old(held) && pid in procs && Dense(procs[pid].pt, 0)
        invariant procs == p0[pid := p0[pid].(pt := procs[pid].pt)]
        invariant Seen() == old(Seen())
        decreases procs[pid].pt.Keys
      {
        var t :| t in procs[pid].pt;
        var ppn := procs[pid].pt[t].ppn;
        OnlyTablesLeft(procs[pid].pt, t);
        UnmapKeepsInv(procs, kmem.refs, held, kmem.lo, pid, t);
        TableDropped(kmem.mem, procs, pid, t);
        procs := DropEntry(procs, pid, t);
        held := held + multiset{ppn};
        Give(ppn);
      }
      assert p0[pid].(pt := procs[pid].pt) == p0[pid].(pt := map[]);
    }

    // proc_freepagetable: user pages, then table pages, then the process is gone.
    method Exit(pid: nat)
      requires Valid() && pid in procs
      modifies kmem, this`held, this`procs, this`trees
      ensures Valid() && held == old(held)
      ensures procs == old(procs) - {pid} && Seen() == old(Seen()) - {pid}
    {
      hide Kalloc.Inv, ChainOk, TreesOk, MapsOk, View, Reached, DropPages;
      ghost var p0, s0 := procs, Seen();
      ViewKeys(kmem.mem, procs);
      UvmUnmap(pid, 0, NPages(procs[pid].sz));
      Discard(pid);
      RemoveView(s0, pid, 0, NPages(p0[pid].sz));
      assert procs == p0 - {pid};
    }

    ghost predicate Valid()
      reads this, kmem
    {
      Valid0() && forall pid :: pid in procs ==> Dense(procs[pid].pt, NPages(procs[pid].sz))
    }

    // uvmcreate for a new process: a root page and nothing below it.
    method UvmCreate(pid: nat) returns (ok: bool)
      requires Valid0() && pid !in procs
      modifies kmem, this`held, this`procs, this`trees
      ensures Valid0() && held == old(held) && (ok <==> old(kmem.chain) != [])
      ensures !ok ==> procs == old(procs) && kmem.chain == [] && Seen() == old(Seen())
      ensures ok ==>
                pid in procs && procs == old(procs)[pid := procs[pid]] && procs[pid].sz == 0 && Dense(procs[pid].pt, 0)
      ensures ok ==> |kmem.chain| == |old(kmem.chain)| - 1 && Seen() == old(Seen())[pid := map[]]
      ensures ok ==> TablesOf(procs[pid].pt) == {ROOT}
    {
      hide Kalloc.Inv, ChainOk, MapsOk, Reached, View, TreesOk;
      var r := Take();
      if r.None? {
        return false;
      }
      UnmappedWrite(kmem.mem, procs, r.value, Filled(0));
      kmem.WritePage(r.value, Filled(0));
      RootAdded(kmem.mem, procs, kmem.refs, held, kmem.lo, pid, r.value);
      ghost var tree := NewTree(trees, procs, pid, r.value);
      procs, trees := procs[pid := Proc(0, map[ROOT := TableEntry(r.value)])], trees[pid := tree];
      held := held - multiset{r.value};
      ok := true;
    }

    // fork's memory part: a child with a root page, uvmcopy, and on failure freeproc.
    method Fork(parent: nat, child: nat) returns (ok: bool, ghost i: nat)
      requires Valid() && parent in procs && child !in procs
      modifies kmem, this`held, this`procs, this`trees
      ensures Valid()
      ensures procs.Keys == if ok then old(procs).Keys + {child} else old(procs).Keys
      ensures forall pid :: pid in old(procs) ==> procs[pid].sz == old(procs)[pid].sz
      ensures ok ==> procs[child].sz == old(procs)[parent].sz
      ensures parent in old(Seen())
      ensures Seen() == if ok then old(Seen())[child := old(Seen())[parent]] else old(Seen())
      ensures ok <==> |old(kmem.chain)| >= 1 + TableCount(NPages(old(procs)[parent].sz))
      ensures ok || old(kmem.chain) == [] ==> held == old(held)
      ensures ok ==> Forked(old(procs), procs, parent, child)
      ensures !ok && old(kmem.chain) == [] ==> procs == old(procs)
      ensures !ok && old(kmem.chain) != [] ==>
                && At(old(procs), parent, User(i)) && ForkFailed(old(procs), procs, parent, i)
                && held == old(held) + multiset{Ent(old(procs), parent, User(i)).ppn}
                && TableCount(i) < |old(kmem.chain)| <= TableCount(i + 1)
    {
      hide Kalloc.Inv, ChainOk, MapsOk, View, Reached, Sharing, Dense, NPages, TreesOk, TableCount, TablesOf, Lacking,
           Forked, ForkFailed, Tables;
      ghost var p0, s0 := procs, Seen();
      ViewKeys(kmem.mem, procs);
      LackingFromRoot(NPages(procs[parent].sz));
      i := 0;
      ok := UvmCreate(child);
      if !ok { return; }
      ghost var p1 := procs;
      ok, i := UvmCopy(parent, child, procs[parent].sz);
      ForkShape(p0, p1, procs, parent, child, if ok then NPages(p0[parent].sz) else 0,
                if ok then NPages(p0[parent].sz) else i + 1);
      if !ok {
        ForkUndone(p0, p1, procs, parent, child, i);
        LackingFromRoot(i);
        LackingFromRoot(i + 1);
        Discard(child);
        AddThenRemove(s0, child, map[], map[]);
        return;
      }
      ForkDone(p0, p1, procs, parent, child);
      SetSize(child, procs[parent].sz);
      AddThenRemove(s0, child, map[], s0[parent]);
    }

    // userinit: the first process, one page that starts with the given code. Without memory for the page and its three
    // tables, or with code that fills a page, the source panics or starts a process that has no page.
    method UserInit(pid: nat, code: seq<int>) returns (ok: bool)
      requires Valid() && pid !in procs
      modifies kmem, this`held, this`procs, this`trees
      ensures ok <==> |code| < PGSIZE && |old(kmem.chain)| >= 4
      ensures ok ==> Valid() && held == old(held)
      ensures ok ==> procs.Keys == old(procs).Keys + {pid} && procs[pid].sz == PGSIZE
      ensures ok ==> forall q :: q in old(procs) ==> procs[q] == old(procs)[q]
      ensures ok ==> Seen() == old(Seen())[pid := FirstPage(code)]
      ensures ok ==> |kmem.chain| == |old(kmem.chain)| - 4 && Flagged(procs[pid].pt, 0, true, true)
      ensures ok ==> TablesOf(procs[pid].pt) == {ROOT} + Path(0)
    {
      hide Kalloc.Inv, ChainOk, MapsOk, View, Reached, Grown, NPages, TreesOk, PutPage, FirstPage, Filled, Lack, Path,
           TablesOf;
      FirstTables();
      ghost var s0 := Seen();
      ViewKeys(kmem.mem, procs);
      ok := UvmCreate(pid);
      if !ok || |code| >= PGSIZE {
        return false;
      }
      ghost var p1 := procs;
      ok := AllocPage(pid, 0, true, true);
      if !ok {
        return;
      }
      GrownOthers(p1, procs, pid, 0);
      Poke(pid, 0, Splice(Filled(0), 0, code));
      SetSize(pid, PGSIZE);
      FirstPageSeen(s0, pid, code);
      OnePage();
    }

    // freeproc of a process without user pages: freewalk finds no leaf, and what it frees are the table pages.
    method Discard(pid: nat)
      requires Valid0() && pid in procs && Dense(procs[pid].pt, 0)
      modifies kmem, this`held, this`procs, this`trees
      ensures Valid0() && held == old(held)
      ensures procs == old(procs) - {pid} && Seen() == old(Seen()) - {pid}
      ensures var t := old(trees)[pid];
              && PT.NoLeafBelow(t, t.root) && PT.LeavesProper(t)
              && forall p :: p in PT.Sub(t, t.root) <==> IsTable(old(procs)[pid].pt, p)
    {
      hide Kalloc.Inv, ChainOk, TreesOk, MapsOk, View, Reached;
      ghost var p0, t0 := procs, trees;
      DenseIsFree(trees, procs, pid);
      FreeTables(pid);
      RemoveEmpty(kmem.mem, procs, kmem.refs, held, kmem.lo, pid);
      procs, trees := procs - {pid}, trees - {pid};
      assert procs == p0 - {pid};
      TreesLess(t0, p0, pid);
    }

    method SetSize(pid: nat, sz: nat)
      requires Valid0() && pid in procs
      modifies this`procs
      ensures Valid0() && procs == old(procs)[pid := old(procs)[pid].(sz := sz)]
      ensures Seen() == old(Seen())
    {
      hide Kalloc.Inv, ChainOk, TreesOk, MapsOk, View, Reached;
      ResizeKeeps(kmem.mem, procs, kmem.refs, held, kmem.lo, pid, sz);
      TreesSame(trees, procs, procs[pid := procs[pid].(sz := sz)]);
      procs := procs[pid := procs[pid].(sz := sz)];
    }

    // growproc with n > 0.
    method GrowUp(pid: nat, n: int) returns (ok: bool)
      requires Valid() && pid in procs && procs[pid].sz < WORD64 && 0 < n < 0x8000_0000
      modifies kmem, this`held, this`procs, this`trees
      ensures Valid() && held == old(held) && pid in old(Seen())
      ensures GrowDid(old(procs), procs, pid, n, |old(kmem.chain)|, ok)
      ensures var sz, target := old(procs)[pid].sz, (old(procs)[pid].sz + n) % WORD64;
              ok <==> target < sz || |old(kmem.chain)| >= GrowNeeds(old(procs)[pid].pt, sz, target)
      ensures var sz := old(procs)[pid].sz;
              procs[pid].sz == if ok && 0 <= sz + n < 0x1_0000_0000_0000_0000 then sz + n else sz
      ensures Seen() == if ok then GrowPages(old(Seen()), pid, NPages(old(procs)[pid].sz), NPages(procs[pid].sz))
                        else old(Seen())
    {
      hide Kalloc.Inv, ChainOk, TreesOk, MapsOk, View, Reached, GrowPages, Grown, Dense, NPages, GrowNeeds, AllFlagged,
           Stuck, TablesOf, Tables, GrowDid;
      ViewKeys(kmem.mem, procs);
      ghost var p0, free := procs, |kmem.chain|;
      var sz := procs[pid].sz;
      GrownSizeIs(sz, n);
      var r;
      ghost var fit;
      r, fit := UvmAlloc(pid, sz, (sz + n) % WORD64, true, false);
      GrownOthers(p0, procs, pid, NPages(sz));
      GrownIs(p0, procs, pid, n, free, fit);
      if r == 0 {
        assert !fit;
        return false;
      }
      SetSize(pid, r);
      ok := true;
    }

    // growproc with n <= 0.
    method GrowDown(pid: nat, n: int)
      requires Valid() && pid in procs && procs[pid].sz < WORD64 && -0x8000_0000 <= n <= 0
      modifies kmem, this`held, this`procs, this`trees
      ensures Valid() && held == old(held) && pid in old(Seen())
      ensures GrowDid(old(procs), procs, pid, n, |old(kmem.chain)|, true)
      ensures var sz := old(procs)[pid].sz; procs[pid].sz == if sz + n >= 0 then sz + n else sz
      ensures Seen() == DropPages(old(Seen()), pid, NPages(procs[pid].sz), NPages(old(procs)[pid].sz))
    {
      hide Kalloc.Inv, ChainOk, TreesOk, MapsOk, View, Reached, DropPages, Dense, NPages, GrowDid;
      ViewKeys(kmem.mem, procs);
      ghost var p0, free := procs, |kmem.chain|;
      var sz := procs[pid].sz;
      GrownSizeIs(sz, n);
      if n < 0 {
        sz := UvmDealloc(pid, sz, (sz + n) % WORD64);
      } else {
        DropNone(procs, Seen(), pid, NPages(sz));
      }
      DroppedIs(p0, pid, n, free);
      SetSize(pid, sz);
    }

    // growproc
    method Grow(pid: nat, n: int) returns (ok: bool)
      requires Valid() && pid in procs && procs[pid].sz < WORD64 && -0x8000_0000 <= n < 0x8000_0000
      modifies kmem, this`held, this`procs, this`trees
      ensures Valid() && held == old(held) && pid in old(Seen())
      ensures GrowDid(old(procs), procs, pid, n, |old(kmem.chain)|, ok)
      ensures var sz, target := old(procs)[pid].sz, (old(procs)[pid].sz + n) % WORD64;
              ok <==> n <= 0 || target < sz || |old(kmem.chain)| >= GrowNeeds(old(procs)[pid].pt, sz, target)
      ensures var sz := old(procs)[pid].sz;
              procs[pid].sz == if ok && 0 <= sz + n < 0x1_0000_0000_0000_0000 then sz + n else sz
      ensures var a, b := NPages(old(procs)[pid].sz), NPages(procs[pid].sz);
              Seen() == if !ok then old(Seen())
                        else if n > 0 then GrowPages(old(Seen()), pid, a, b) else DropPages(old(Seen()), pid, b, a)
    {
      hide Kalloc.Inv, ChainOk, TreesOk, MapsOk, View, Reached, GrowPages, DropPages, Dense, NPages, GrowNeeds, PtGrew;
      if n > 0 {
        ok := GrowUp(pid, n);
      } else {
        GrowDown(pid, n);
        ok := true;
      }
    }
  }

  // uvmalloc's new pages from a to b, or the tables it leaves when there are too few free pages.
  ghost predicate PtGrew(o: map<Slot, Entry>, n: map<Slot, Entry>, a: nat, b: nat, free: nat, ok: bool) {
    && (forall s :: s in o ==> s in n && n[s] == o[s]) && Dense(n, if ok then b else a)
    && if ok then AllFlagged(n, a, b, true, false) && TablesOf(n) == TablesOf(o) + Tables(b)
       else Stuck(TablesOf(o), free, a, b, TablesOf(n))
  }

  // What growproc does to the tables.
  ghost predicate GrowDid(o: Procs, n: Procs, pid: nat, k: int, free: nat, ok: bool) {
    && pid in o && n.Keys == o.Keys && (forall q :: q in o && q != pid ==> n[q] == o[q])
    && var sz, now := o[pid].sz, GrownSize(o[pid].sz, k);
       if k <= 0 then n[pid] == DropRange(o, pid, NPages(now), NPages(sz))[pid].(sz := now)
       else
         && n[pid].sz == (if ok then now else sz)
         && PtGrew(o[pid].pt, n[pid].pt, NPages(sz), NPages(if ok then now else (sz + k) % WORD64), free, ok)
  }

  lemma GrownIs(o: Procs, n: Procs, pid: nat, k: int, free: nat, ok: bool)
    requires k > 0 && pid in o && pid in n && Grown(o, n, pid, NPages(o[pid].sz))
    requires var a, b := NPages(o[pid].sz), NPages(if ok then GrownSize(o[pid].sz, k) else (o[pid].sz + k) % WORD64);
             && Dense(n[pid].pt, if ok then b else a)
             && if ok then
                  AllFlagged(n[pid].pt, a, b, true, false) && TablesOf(n[pid].pt) == TablesOf(o[pid].pt) + Tables(b)
                else Stuck(TablesOf(o[pid].pt), free, a, b, TablesOf(n[pid].pt))
    ensures GrowDid(o, if ok then n[pid := n[pid].(sz := GrownSize(o[pid].sz, k))] else n, pid, k, free, ok)
  {
    hide Dense, AllFlagged, TablesOf, Tables, Stuck, NPages, GrownSize;
  }

  lemma DroppedIs(o: Procs, pid: nat, k: int, free: nat)
    requires k <= 0 && pid in o
    ensures var now := GrownSize(o[pid].sz, k);
            var n := DropRange(o, pid, NPages(now), NPages(o[pid].sz));
            GrowDid(o, n[pid := n[pid].(sz := now)], pid, k, free, true)
  {
    hide NPages, GrownSize;
  }

  // The tables on the way to page v from the given level on, and how many of them are missing.
  function Above(v: nat, level: nat): (r: set<Slot>) {
    (if level < 2 then {TableSlot(1, v)} else {}) + if level < 1 then {TableSlot(0, v)} else {}
  }

  function Missing(have: set<Slot>, v: nat, level: nat): (r: nat) {
    (if level < 2 && TableSlot(1, v) !in have then 1 else 0) + if level < 1 && TableSlot(0, v) !in have then 1 else 0
  }

  // A user page with the given permissions.
  predicate Flagged(pt: map<Slot, Entry>, v: nat, w: bool, x: bool) {
    User(v) in pt && pt[User(v)].user && pt[User(v)].own == w && pt[User(v)].exec == x
  }

  ghost predicate AllFlagged(pt: map<Slot, Entry>, from: nat, to: nat, w: bool, x: bool) {
    forall v: nat :: from <= v < to ==> Flagged(pt, v, w, x)
  }

  lemma NoneFlagged(pt: map<Slot, Entry>, n: nat, w: bool, x: bool)
    ensures AllFlagged(pt, n, n, w, x)
  {}

  lemma OneMoreFlagged(o: Procs, n: Procs, pid: nat, from: nat, v: nat, w: bool, x: bool)
    requires Grown(o, n, pid, v) && AllFlagged(o[pid].pt, from, v, w, x) && Flagged(n[pid].pt, v, w, x)
    ensures AllFlagged(n[pid].pt, from, v + 1, w, x)
  {
    forall u: nat | from <= u < v + 1 ensures Flagged(n[pid].pt, u, w, x) {
      if u < v { assert Flagged(o[pid].pt, u, w, x); }
    }
  }

  lemma TablesAfterDrop(procs: Procs, pid: nat, from: nat, to: nat)
    requires pid in procs
    ensures TablesOf(DropRange(procs, pid, from, to)[pid].pt) == TablesOf(procs[pid].pt)
  {}

  // uvmalloc gives up at page v: the tables it had added stay.
  ghost predicate StuckAt(have: set<Slot>, free: nat, from: nat, v: nat, now: set<Slot>) {
    var left := free - (v - from) - Lacking(have, v);
    0 <= left < 1 + Lack(have + Tables(v), v) && now == have + Tables(v) + Begun(v, left - 1)
  }

  ghost predicate Stuck(have: set<Slot>, free: nat, from: nat, to: nat, now: set<Slot>) {
    exists v: nat :: from <= v < to && StuckAt(have, free, from, v, now)
  }

  // The table that walk adds before memory runs out, when there are n pages for two tables that are missing.
  function Begun(v: nat, n: int): (r: set<Slot>) { if n >= 1 then {TableSlot(1, v)} else {} }

  lemma FirstTables()
    ensures Lack({ROOT}, 0) == 2
  {
    LackOf({ROOT}, 0);
  }

  lemma OnePage()
    ensures NPages(PGSIZE) == 1
  {}

  // What the first process sees: one page of code followed by zeros.
  function FirstPage(code: seq<int>): (r: map<Slot, Page>)
    requires |code| < PGSIZE
  {
    map[User(0) := Splice(Filled(0), 0, code)]
  }

  lemma FirstPageSeen(view: Spaces, pid: nat, code: seq<int>)
    requires |code| < PGSIZE && pid !in view
    ensures PutPage(PutPage(view[pid := map[]], pid, 0, Filled(0)), pid, 0, Splice(Filled(0), 0, code))
         == view[pid := FirstPage(code)]
  {
    var a := PutPage(view[pid := map[]], pid, 0, Filled(0));
    assert PutPage(a, pid, 0, Splice(Filled(0), 0, code))[pid] == FirstPage(code);
  }

  const WORD64: nat := 0x1_0000_0000_0000_0000

  // The pages that growing takes: one for each new page, and the tables that are missing.
  ghost function GrowNeeds(pt: map<Slot, Entry>, oldsz: nat, newsz: nat): (r: int) {
    NPages(newsz) - NPages(oldsz) + Lacking(TablesOf(pt), NPages(newsz))
  }

  lemma {:induction false} TablesThere(procs: Procs, pid: nat, n: nat)
    requires Reached(procs) && pid in procs && forall v: nat :: v < n ==> User(v) in procs[pid].pt
    ensures Tables(n) <= TablesOf(procs[pid].pt)
  {
    if n > 0 {
      TablesThere(procs, pid, n - 1);
      assert At(procs, pid, User(n - 1));
    }
  }

  lemma NoTables(have: set<Slot>)
    ensures Lacking(have, 0) == 0 && have + Tables(0) == have
  {
    NoneLacking(have, 0);
  }

  lemma LackingFromRoot(n: nat)
    ensures Lacking({ROOT}, n) == TableCount(n)
  {
    TablesCounted(n);
    InTables(n, 0);
    assert Tables(n) - {ROOT} == Tables(n);
  }

  // A page is needed exactly if it begins below the size.
  lemma PagesBelow(sz: nat, v: nat)
    ensures v < NPages(sz) <==> v * 4096 < sz
  {}

  // What copyout asks of the page of `at`: not page 0, below MAXVA, mapped for the user.
  predicate Accepts(procs: Procs, pid: nat, at: nat) {
    && 0 < at - at % PGSIZE < MAXVA
    && At(procs, pid, User(at / PGSIZE)) && Ent(procs, pid, User(at / PGSIZE)).user
  }

  // The new size: uvmalloc and uvmdealloc return the old one when the sum wrapped the wrong way.
  function GrownSize(sz: nat, n: int): (r: nat) {
    var target := (sz + n) % WORD64;
    if n > 0 then (if target < sz then sz else target) else if n < 0 && target < sz then target else sz
  }

  // So a sum that is no size leaves the size as it is.
  lemma GrownSizeIs(sz: nat, n: int)
    requires sz < 0x1_0000_0000_0000_0000 && -0x8000_0000 <= n < 0x8000_0000
    ensures GrownSize(sz, n) == if 0 <= sz + n < 0x1_0000_0000_0000_0000 then sz + n else sz
  {
    if n > 0 && sz + n >= WORD64 { assert (sz + n) % WORD64 == sz + n - WORD64; }
    if n < 0 && sz + n < 0 { assert (sz + n) % WORD64 == sz + n + WORD64; }
  }

  lemma GrownOthers(o: Procs, n: Procs, pid: nat, k: nat)
    requires Grown(o, n, pid, k)
    ensures o.Keys == n.Keys && n[pid].sz == o[pid].sz && forall q :: q in o && q != pid ==> n[q] == o[q]
  {}

  lemma ResizeKeeps(mem: seq<Page>, procs: Procs, refs: multiset<nat>, held: multiset<nat>, lo: nat, pid: nat, sz: nat)
    requires MapsOk(procs, refs, held, lo) && Reached(procs) && pid in procs
    ensures var q := procs[pid := procs[pid].(sz := sz)];
            MapsOk(q, refs, held, lo) && Reached(q) && View(mem, q) == View(mem, procs)
  {
    var q := procs[pid := procs[pid].(sz := sz)];
    forall pid', s ensures At(q, pid', s) <==> At(procs, pid', s) { }
    SameUsers(procs, q, refs, held);
    SameEntries(procs, q);
    ViewUnchanged(mem, procs, mem, q);
  }

  lemma SameUsers(o: Procs, n: Procs, refs: multiset<nat>, held: multiset<nat>)
    requires forall pid, s :: At(n, pid, s) <==> At(o, pid, s)
    requires forall pid, s :: At(n, pid, s) ==> Ent(n, pid, s) == Ent(o, pid, s)
    ensures CountOk(refs, held, o) ==> CountOk(refs, held, n)
    ensures Reached(o) ==> Reached(n)
  {
    forall p: nat ensures Users(n, p) == Users(o, p) {
      forall x ensures x in Users(n, p) <==> x in Users(o, p) {
        assert At(n, x.0, x.1) <==> At(o, x.0, x.1);
      }
    }
    if CountOk(refs, held, o) {
      forall p: nat ensures refs[p] == |Users(n, p)| + held[p] { assert refs[p] == |Users(o, p)| + held[p]; }
    }
    if Reached(o) {
      forall pid', w: nat | At(n, pid', User(w))
        ensures At(n, pid', TableSlot(1, w)) && At(n, pid', TableSlot(0, w))
      {
        assert At(o, pid', User(w));
      }
    }
  }

  lemma AddEmpty(mem: seq<Page>, procs: Procs, refs: multiset<nat>, held: multiset<nat>, lo: nat, pid: nat)
    requires MapsOk(procs, refs, held, lo) && Reached(procs) && pid !in procs
    ensures var q := procs[pid := Proc(0, map[])];
            && MapsOk(q, refs, held, lo) && Reached(q) && View(mem, q) == View(mem, procs)[pid := map[]]
            && Dense(q[pid].pt, 0)
  {
    var q := procs[pid := Proc(0, map[])];
    forall pid', s ensures At(q, pid', s) <==> At(procs, pid', s) { }
    SameUsers(procs, q, refs, held);
    SameEntries(procs, q);
    assert Space(mem, q[pid].pt) == map[];
  }

  // A process that has nothing but its root page c.
  lemma RootAdded(mem: seq<Page>, procs: Procs, refs: multiset<nat>, held: multiset<nat>, lo: nat, pid: nat, c: nat)
    requires MapsOk(procs, refs, held, lo) && Reached(procs) && pid !in procs && held[c] >= 1 && lo <= c < PHYSTOP_PAGE
    requires forall pid', s :: At(procs, pid', s) ==> Ent(procs, pid', s).ppn != c
    ensures var q := procs[pid := Proc(0, map[ROOT := TableEntry(c)])];
            && MapsOk(q, refs, held - multiset{c}, lo) && Reached(q) && View(mem, q) == View(mem, procs)[pid := map[]]
            && Dense(q[pid].pt, 0) && TablesOf(q[pid].pt) == {ROOT}
  {
    hide CountOk, OwnOk, Once, View;
    var e, p1 := TableEntry(c), procs[pid := Proc(0, map[])];
    AddEmpty(mem, procs, refs, held, lo, pid);
    NotElsewhere(procs, p1, pid, c);
    MapKeepsInv(p1, refs, held, lo, pid, ROOT, e);
    TableAdded(p1, pid, ROOT, e);
    var q := procs[pid := Proc(0, map[ROOT := e])];
    assert q == SetEntry(p1, pid, ROOT, e);
    ViewUnchanged(mem, p1, mem, q);
  }

  // The child has the parent's pages, read-only in both, and exactly the tables they need.
  ghost predicate Forked(o: Procs, n: Procs, parent: nat, child: nat) {
    && parent in o && child !in o && n.Keys == o.Keys + {child} && (forall q :: q in o && q != parent ==> n[q] == o[q])
    && var pages := NPages(o[parent].sz);
       && Protected(o, n, parent, pages) && n[child].sz == o[parent].sz
       && (forall v: nat :: User(v) in n[child].pt <==> v < pages)
       && (forall v: nat :: v < pages ==> User(v) in n[parent].pt && n[child].pt[User(v)] == n[parent].pt[User(v)])
       && TablesOf(n[child].pt) == {ROOT} + Tables(pages)
  }

  // No child, but the parent's pages up to the one that could not be mapped are read-only.
  ghost predicate ForkFailed(o: Procs, n: Procs, parent: nat, i: nat) {
    n.Keys == o.Keys && (forall q :: q in o && q != parent ==> n[q] == o[q]) && Protected(o, n, parent, i + 1)
  }

  lemma ForkDone(p0: Procs, p1: Procs, p2: Procs, parent: nat, child: nat)
    requires parent in p0 && child !in p0 && child in p1 && p1 == p0[child := p1[child]]
    requires TablesOf(p1[child].pt) == {ROOT}
    requires var n := NPages(p0[parent].sz);
             && Sharing(p1, p2, parent, child, n, n) && TablesOf(p2[child].pt) == TablesOf(p1[child].pt) + Tables(n)
    ensures Forked(p0, p2[child := p2[child].(sz := p0[parent].sz)], parent, child)
  {
    hide NPages, Tables, TablesOf;
    assert p1[parent] == p0[parent];
    assert forall q :: q in p0 ==> p1[q] == p0[q];
  }

  lemma ForkUndone(p0: Procs, p1: Procs, p2: Procs, parent: nat, child: nat, i: nat)
    requires parent in p0 && child !in p0 && child in p1 && p1 == p0[child := p1[child]]
    requires Sharing(p1, p2, parent, child, 0, i + 1)
    ensures ForkFailed(p0, p2 - {child}, parent, i)
  {
    assert forall q :: q in p0 ==> p1[q] == p0[q];
  }

  lemma ForkShape(p0: Procs, p1: Procs, p2: Procs, parent: nat, child: nat, n: nat, j: nat)
    requires parent in p0 && child !in p0 && child in p1 && p1 == p0[child := p1[child]]
             && Sharing(p1, p2, parent, child, n, j)
    requires forall pid :: pid in p0 ==> Dense(p0[pid].pt, NPages(p0[pid].sz))
    ensures p2.Keys == p0.Keys + {child} && parent in p2 && child in p2 && Dense(p2[child].pt, n)
    ensures forall pid :: pid in p0 ==> p2[pid].sz == p0[pid].sz && Dense(p2[pid].pt, NPages(p2[pid].sz))
  {
    forall pid | pid in p0 ensures p2[pid].sz == p0[pid].sz && Dense(p2[pid].pt, NPages(p2[pid].sz)) {
      assert p1[pid] == p0[pid];
    }
  }

  lemma AddThenRemove(view: Spaces, pid: nat, a: map<Slot, Page>, b: map<Slot, Page>)
    requires pid !in view
    ensures view[pid := a] - {pid} == view
    ensures view[pid := a][pid := b] == view[pid := b]
  {}

  lemma OnlyTablesLeft(pt: map<Slot, Entry>, t: Slot)
    requires Dense(pt, 0) && t in pt
    ensures t.Table?
  {}

  lemma TableDropped(mem: seq<Page>, procs: Procs, pid: nat, t: Slot)
    requires Reached(procs) && At(procs, pid, t) && t.Table? && Dense(procs[pid].pt, 0)
    ensures Reached(DropEntry(procs, pid, t))
    ensures View(mem, DropEntry(procs, pid, t)) == View(mem, procs)
  {
    var q := DropEntry(procs, pid, t);
    forall pid', w: nat | At(q, pid', User(w))
      ensures At(q, pid', TableSlot(1, w)) && At(q, pid', TableSlot(0, w))
    {
      assert At(procs, pid', User(w));
    }
    ViewUnchanged(mem, procs, mem, q);
  }

  // Forgetting a process with an empty table.
  lemma RemoveEmpty(mem: seq<Page>, procs: Procs, refs: multiset<nat>, held: multiset<nat>, lo: nat, pid: nat)
    requires MapsOk(procs, refs, held, lo) && Reached(procs) && pid in procs && procs[pid].pt == map[]
    ensures MapsOk(procs - {pid}, refs, held, lo) && Reached(procs - {pid})
    ensures View(mem, procs - {pid}) == View(mem, procs) - {pid}
  {
    var q := procs - {pid};
    forall pid', s ensures At(q, pid', s) <==> At(procs, pid', s) { }
    SameUsers(procs, q, refs, held);
    SameEntries(procs, q);
  }

  lemma SameEntries(o: Procs, n: Procs)
    requires forall pid, s :: At(n, pid, s) ==> At(o, pid, s) && Ent(n, pid, s) == Ent(o, pid, s)
    ensures OwnOk(o) ==> OwnOk(n)
    ensures Once(o) ==> Once(n)
    ensures TablesOwned(o) ==> TablesOwned(n)
    ensures forall lo :: InRam(o, lo) ==> InRam(n, lo)
  {}

  lemma RemoveView(view: Spaces, pid: nat, a: nat, b: nat)
    requires pid in view
    ensures DropPages(view, pid, a, b) - {pid} == view - {pid}
  {}

  // The first i pages of the parent, read-only now, are the child's user pages.
  // The first i pages of the parent are in the child, the first j are read-only in the parent.
  ghost predicate Sharing(o: Procs, n: Procs, parent: nat, child: nat, i: nat, j: nat) {
    && o.Keys == n.Keys && parent in n && child in n && parent != child
    && (forall pid :: pid in o && pid != parent && pid != child ==> n[pid] == o[pid])
    && n[child].sz == o[child].sz && Protected(o, n, parent, j)
    && (forall v: nat :: User(v) in n[child].pt <==> v < i)
    && (forall v: nat :: v < i ==> User(v) in n[parent].pt && n[child].pt[User(v)] == n[parent].pt[User(v)])
  }

  ghost predicate Protected(o: Procs, n: Procs, pid: nat, j: nat) {
    && pid in o && pid in n && n[pid].sz == o[pid].sz && n[pid].pt.Keys == o[pid].pt.Keys
    && forall s :: s in o[pid].pt ==>
         n[pid].pt[s] == if s.User? && s.vpn < j then o[pid].pt[s].(own := false) else o[pid].pt[s]
  }

  function CopyPages(view: Spaces, parent: nat, child: nat, i: nat): (r: Spaces)
    requires parent in view
  {
    var space: map<Slot, Page> := map s | s in view[parent] && s.User? && s.vpn < i :: view[parent][s];
    view[child := space]
  }

  lemma CopyStart(procs: Procs, view: Spaces, parent: nat, child: nat, mem: seq<Page>)
    requires parent in procs && child in procs && parent != child && Dense(procs[child].pt, 0)
             && view == View(mem, procs)
    ensures Sharing(procs, procs, parent, child, 0, 0) && parent in view && child in view
    ensures CopyPages(view, parent, child, 0) == view && view[child] == map[]
  {}

  lemma CopyEnd(procs: Procs, view: Spaces, parent: nat, child: nat, n: nat, mem: seq<Page>)
    requires parent in procs && child in procs && Dense(procs[parent].pt, n) && view == View(mem, procs)
    ensures CopyPages(view, parent, child, n) == view[child := view[parent]]
  {
    assert CopyPages(view, parent, child, n)[child] == view[parent];
  }

  lemma CopyOneMore(view: Spaces, parent: nat, child: nat, i: nat)
    requires parent in view && child in view && parent != child && User(i) in view[parent]
    ensures PutPage(CopyPages(view, parent, child, i), child, i, view[parent][User(i)]) ==
            CopyPages(view, parent, child, i + 1)
    ensures CopyPages(view, parent, child, i)[parent] == view[parent]
  {
    assert PutPage(CopyPages(view, parent, child, i), child, i, view[parent][User(i)])[child]
        == CopyPages(view, parent, child, i + 1)[child];
  }

  lemma CopyDropped(view: Spaces, parent: nat, child: nat, i: nat)
    requires parent in view && child in view && view[child] == map[]
    ensures DropPages(CopyPages(view, parent, child, i), child, 0, i) == view
  {}

  // What ShareOne needs to know about page i.
  lemma CopyStep(o: Procs, p: Procs, refs: multiset<nat>, held: multiset<nat>, lo: nat, parent: nat, child: nat,
                 i: nat, n: nat)
    requires Sharing(o, p, parent, child, i, i) && MapsOk(p, refs, held, lo) && Dense(o[parent].pt, n) && i < n
    ensures parent in p && child in p && parent != child && i < MAXVPN
    ensures At(p, parent, User(i)) && !At(p, child, User(i)) && At(o, parent, User(i))
    ensures forall s :: At(p, child, s) && s.User? ==> Ent(p, child, s).ppn != Ent(p, parent, User(i)).ppn
    ensures Ent(p, parent, User(i)).ppn == Ent(o, parent, User(i)).ppn
  {
    assert Dense(p[parent].pt, n);
    TableIsBounded(p, refs, held, lo, parent, n);
    forall s | At(p, child, s) && s.User? ensures Ent(p, child, s).ppn != Ent(p, parent, User(i)).ppn {
      assert At(p, parent, User(s.vpn));
    }
  }

  lemma ProtectedStep(o: Procs, p: Procs, q: Procs, parent: nat, i: nat)
    requires Protected(o, p, parent, i) && At(p, parent, User(i)) && parent in q && q[parent].sz == p[parent].sz
    requires q[parent].pt == p[parent].pt[User(i) := Ent(p, parent, User(i)).(own := false)]
    ensures Protected(o, q, parent, i + 1)
  {}

  // What one turn of uvmcopy does to the two tables.
  lemma TurnShape(p: Procs, q: Procs, parent: nat, child: nat, i: nat, ok: bool)
    requires At(p, parent, User(i)) && child in p && parent != child
    requires var e := Ent(p, parent, User(i)).(own := false);
             var p1 := SetEntry(p, parent, User(i), e);
             OnlyTables(if ok then SetEntry(p1, child, User(i), e) else p1, q, child)
    ensures q.Keys == p.Keys && forall pid :: pid in p && pid != parent && pid != child ==> q[pid] == p[pid]
    ensures var e := Ent(p, parent, User(i)).(own := false);
            && q[parent] == p[parent].(pt := p[parent].pt[User(i) := e]) && q[child].sz == p[child].sz
            && (forall v: nat :: User(v) in q[child].pt <==> User(v) in p[child].pt || (ok && v == i))
            && (forall v: nat :: User(v) in q[child].pt ==>
                  q[child].pt[User(v)] == if ok && v == i then e else p[child].pt[User(v)])
  {}

  lemma SharingStep(o: Procs, p: Procs, q: Procs, parent: nat, child: nat, i: nat, ok: bool)
    requires Sharing(o, p, parent, child, i, i) && At(p, parent, User(i))
    requires var e := Ent(p, parent, User(i)).(own := false);
             var p1 := SetEntry(p, parent, User(i), e);
             OnlyTables(if ok then SetEntry(p1, child, User(i), e) else p1, q, child)
    ensures Sharing(o, q, parent, child, if ok then i + 1 else i, i + 1)
  {
    TurnShape(p, q, parent, child, i, ok);
    ProtectedStep(o, p, q, parent, i);
    hide OnlyTables, Protected, SetEntry;
  }

  lemma SharedSlots(o: Procs, p: Procs, parent: nat, child: nat, i: nat, j: nat)
    requires Sharing(o, p, parent, child, i, j)
    ensures child in p && forall v: nat :: 0 <= v < i ==> At(p, child, User(v))
  {}

  lemma SharingDropped(o: Procs, p: Procs, parent: nat, child: nat, i: nat, j: nat)
    requires Sharing(o, p, parent, child, i, j)
    ensures child in p && Sharing(o, DropRange(p, child, 0, i), parent, child, 0, j)
  {}

  // A page read-only in the parent is writable nowhere, and is not one of the child's table pages.
  lemma SharedPage(procs: Procs, refs: multiset<nat>, held: multiset<nat>, lo: nat, parent: nat, child: nat, i: nat)
    requires MapsOk(procs, refs, held, lo) && At(procs, parent, User(i)) && !Ent(procs, parent, User(i)).own
    requires parent != child && child in procs
    ensures forall pid, s :: At(procs, pid, s) && Ent(procs, pid, s).ppn == Ent(procs, parent, User(i)).ppn
                             ==> !Ent(procs, pid, s).own && s.User?
  {}

  lemma RoundTrip(v: nat)
    ensures NPages(v * PGSIZE) == v
  {}

  lemma LoopEnd(oldsz: nat, newsz: nat, v: nat)
    requires oldsz <= newsz && newsz <= v * PGSIZE
    requires NPages(oldsz) <= v && ((v - 1) * PGSIZE < newsz || v == NPages(oldsz))
    ensures v == NPages(newsz)
  {}

  // pid's table gained slots at or above page n, or tables; nothing else changed.
  ghost predicate Grown(o: Procs, n: Procs, pid: nat, k: nat) {
    && pid in o && pid in n && n == o[pid := o[pid].(pt := n[pid].pt)]
    && (forall s :: s in o[pid].pt ==> s in n[pid].pt && n[pid].pt[s] == o[pid].pt[s])
    && (forall s :: s in n[pid].pt && s.User? && s.vpn < k ==> s in o[pid].pt)
  }

  lemma NoNewTables(procs: Procs, pid: nat)
    requires pid in procs
    ensures OnlyTables(procs, procs, pid)
  {}

  lemma AfterMapPage(o: Procs, n: Procs, pid: nat, v: nat, e: Entry, ok: bool)
    requires pid in o && OnlyTables(if ok then SetEntry(o, pid, User(v), e) else o, n, pid)
    requires Dense(o[pid].pt, v)
    ensures pid in n && Grown(o, n, pid, v) && Dense(n[pid].pt, if ok then v + 1 else v)
    ensures ok ==> User(v) in n[pid].pt && n[pid].pt[User(v)] == e
  {}

  lemma GrownRefl(a: Procs, pid: nat, n0: nat)
    requires pid in a
    ensures Grown(a, a, pid, n0)
  {}

  lemma GrownTrans(a: Procs, b: Procs, c: Procs, pid: nat, n0: nat, v: nat)
    requires Grown(a, b, pid, n0) && Grown(b, c, pid, v) && n0 <= v
    ensures Grown(a, c, pid, n0) && pid in c
  {}

  lemma GrownAfterDrop(a: Procs, b: Procs, pid: nat, n0: nat, v: nat)
    requires Grown(a, b, pid, n0) && Dense(a[pid].pt, n0)
    ensures Grown(a, DropRange(b, pid, n0, v), pid, n0)
  {}

  function Slots(from: nat, to: nat): (r: set<Slot>) {
    set v: nat | from <= v < to :: User(v)
  }

  function GrowPages(view: Spaces, pid: nat, from: nat, to: nat): (r: Spaces)
    requires pid in view
  {
    var space: map<Slot, Page> :=
      map s | s in view[pid].Keys + Slots(from, to) :: if s in Slots(from, to) then Filled(0) else view[pid][s];
    view[pid := space]
  }

  lemma GrowNone(view: Spaces, pid: nat, from: nat)
    requires pid in view
    ensures GrowPages(view, pid, from, from) == view
  {
    assert GrowPages(view, pid, from, from)[pid] == view[pid];
  }

  lemma SlotsStep(from: nat, v: nat)
    requires from <= v
    ensures Slots(from, v + 1) == Slots(from, v) + {User(v)}
  {}

  lemma GrowOneMore(view: Spaces, pid: nat, from: nat, v: nat)
    requires pid in view && from <= v
    ensures PutPage(GrowPages(view, pid, from, v), pid, v, Filled(0)) == GrowPages(view, pid, from, v + 1)
  {
    hide Slots;
    SlotsStep(from, v);
    assert PutPage(GrowPages(view, pid, from, v), pid, v, Filled(0))[pid] == GrowPages(view, pid, from, v + 1)[pid];
  }

  lemma GrowThenDrop(view: Spaces, pid: nat, from: nat, to: nat)
    requires pid in view && forall v: nat :: from <= v ==> User(v) !in view[pid]
    ensures DropPages(GrowPages(view, pid, from, to), pid, from, to) == view
  {
    assert DropPages(GrowPages(view, pid, from, to), pid, from, to)[pid] == view[pid];
  }

  lemma {:induction false} BoundedSet(s: set<nat>, n: nat)
    requires forall x :: x in s ==> x < n
    ensures |s| <= n
    decreases n
  {
    if n == 0 {
      assert s == {};
    } else {
      BoundedSet(s - {n - 1}, n - 1);
      assert |s| <= |s - {n - 1}| + 1;
    }
  }

  lemma {:induction false} DistinctPpns(pt: map<Slot, Entry>, v: nat) returns (s: set<nat>)
    requires forall i: nat :: i < v ==> User(i) in pt
    requires forall i: nat, j: nat :: i < j < v ==> pt[User(i)].ppn != pt[User(j)].ppn
    ensures |s| == v && forall x :: x in s ==> exists i: nat :: i < v && pt[User(i)].ppn == x
  {
    if v == 0 {
      s := {};
    } else {
      s := DistinctPpns(pt, v - 1);
      assert pt[User(v - 1)].ppn !in s;
      s := s + {pt[User(v - 1)].ppn};
    }
  }

  // A process cannot have more user pages than there are physical pages, so walk's panic on an
  // address at or above MAXVA cannot occur.
  lemma TableIsBounded(procs: Procs, refs: multiset<nat>, held: multiset<nat>, lo: nat, pid: nat, v: nat)
    requires MapsOk(procs, refs, held, lo) && pid in procs && Dense(procs[pid].pt, v)
    ensures v <= PHYSTOP_PAGE < MAXVPN
  {
    forall i: nat | i < v ensures At(procs, pid, User(i)) { }
    var s := DistinctPpns(procs[pid].pt, v);
    forall x | x in s ensures x < PHYSTOP_PAGE {
      var i: nat :| i < v && procs[pid].pt[User(i)].ppn == x;
      assert At(procs, pid, User(i));
    }
    BoundedSet(s, PHYSTOP_PAGE);
  }

  function NPages(sz: nat): (r: nat) {
    (sz + PGSIZE - 1) / PGSIZE
  }

  function DropRange(procs: Procs, pid: nat, from: nat, to: nat): (r: Procs)
    requires pid in procs
  {
    procs[pid := procs[pid].(pt := map s | s in procs[pid].pt && !(s.User? && from <= s.vpn < to) :: procs[pid].pt[s])]
  }

  lemma DropNone(procs: Procs, view: Spaces, pid: nat, from: nat)
    requires pid in procs && pid in view
    ensures DropRange(procs, pid, from, from) == procs && DropPages(view, pid, from, from) == view
  {
    assert (map s | s in procs[pid].pt && !(s.User? && from <= s.vpn < from) :: procs[pid].pt[s]) == procs[pid].pt;
    assert DropPages(view, pid, from, from)[pid] == view[pid];
  }

  lemma DropOneMore(procs: Procs, view: Spaces, pid: nat, from: nat, v: nat)
    requires pid in procs && pid in view && from <= v
    ensures DropEntry(DropRange(procs, pid, from, v), pid, User(v)) == DropRange(procs, pid, from, v + 1)
    ensures DropPages(DropPages(view, pid, from, v), pid, v, v + 1) == DropPages(view, pid, from, v + 1)
  {
    assert DropEntry(DropRange(procs, pid, from, v), pid, User(v))[pid].pt ==
           DropRange(procs, pid, from, v + 1)[pid].pt;
    assert DropPages(DropPages(view, pid, from, v), pid, v, v + 1)[pid] == DropPages(view, pid, from, v + 1)[pid];
  }

  predicate Readable(procs: Procs, pid: nat, at: nat) {
    at - at % PGSIZE < MAXVA && At(procs, pid, User(at / PGSIZE)) && Ent(procs, pid, User(at / PGSIZE)).user
  }

  lemma SeenByte(mem: seq<Page>, procs: Procs, pid: nat, at: nat)
    requires At(procs, pid, User(at / PGSIZE)) && Ent(procs, pid, User(at / PGSIZE)).ppn < |mem|
    ensures var view := View(mem, procs);
            && pid in view && Mapped(view[pid], at)
            && Byte(view[pid], at) == mem[Ent(procs, pid, User(at / PGSIZE)).ppn][at % PGSIZE]
  {}

  lemma StoredNothing(a: map<Slot, Page>, va: nat)
    ensures Stored(a, a, va, [])
  {}

  lemma StoredMore(a: map<Slot, Page>, b: map<Slot, Page>, c: map<Slot, Page>, va: nat, x: seq<int>, y: seq<int>)
    requires Stored(a, b, va, x) && Stored(b, c, va + |x|, y)
    ensures Stored(a, c, va, x + y)
  {
    forall at: nat | Mapped(a, at)
      ensures Byte(c, at) == if va <= at < va + |x + y| then (x + y)[at - va] else Byte(a, at)
    {
      assert Mapped(b, at);
    }
    forall at: nat | va <= at < va + |x + y| ensures Mapped(a, at) {
      if at >= va + |x| { assert Mapped(b, at); }
    }
  }

  function Splice(page: Page, off: nat, bytes: seq<int>): (r: Page)
    requires off + |bytes| <= PGSIZE
  {
    page[..off] + bytes + page[off + |bytes|..]
  }

  predicate Mapped(space: map<Slot, Page>, at: nat) {
    User(at / PGSIZE) in space
  }

  function Byte(space: map<Slot, Page>, at: nat): (r: int)
    requires Mapped(space, at)
  {
    space[User(at / PGSIZE)][at % PGSIZE]
  }

  // Bytes va, va+1, ... of the space are replaced; every other byte and the set of pages stay.
  ghost predicate Stored(a: map<Slot, Page>, b: map<Slot, Page>, va: nat, bytes: seq<int>) {
    && a.Keys == b.Keys
    && (forall at: nat :: va <= at < va + |bytes| ==> Mapped(a, at))
    && (forall at: nat :: Mapped(a, at) ==>
          Byte(b, at) == if va <= at < va + |bytes| then bytes[at - va] else Byte(a, at))
  }

  lemma SpliceStored(view: Spaces, pid: nat, va: nat, bytes: seq<int>)
    requires pid in view && Mapped(view[pid], va)
    requires va % PGSIZE + |bytes| <= PGSIZE
    ensures var v := va / PGSIZE;
            Stored(view[pid], PutPage(view, pid, v, Splice(view[pid][User(v)], va % PGSIZE, bytes))[pid], va, bytes)
  {
    var v := va / PGSIZE;
    var a, b := view[pid], PutPage(view, pid, v, Splice(view[pid][User(v)], va % PGSIZE, bytes))[pid];
    forall at: nat | va <= at < va + |bytes| ensures Mapped(a, at) {
      assert at / PGSIZE == v;
    }
    forall at: nat | Mapped(a, at)
      ensures Byte(b, at) == if va <= at < va + |bytes| then bytes[at - va] else Byte(a, at)
    {
      if at / PGSIZE == v {
        assert at - va == at % PGSIZE - va % PGSIZE;
      }
    }
  }

  // No slot appears or disappears and no size changes.
  ghost predicate SameSlots(o: Procs, n: Procs) {
    && o.Keys == n.Keys
    && forall pid :: pid in o ==> o[pid].sz == n[pid].sz && o[pid].pt.Keys == n[pid].pt.Keys
  }

  // A store that needs no copy, or fails, changes no table; any other makes the page private.
  ghost predicate StoreDid(o: Procs, n: Procs, pid: nat, v: nat, ok: bool) {
    if ok && At(o, pid, User(v)) && !Ent(o, pid, User(v)).own then
      exists ppn :: n == SetEntry(o, pid, User(v), Entry(ppn, true, true, true))
    else n == o
  }

  // The pages from .. to-1 are private, all else is as before.
  ghost predicate CopiedOver(o: Procs, n: Procs, pid: nat, from: nat, to: nat) {
    && pid in o && n.Keys == o.Keys && (forall q :: q in o && q != pid ==> n[q] == o[q])
    && n[pid].sz == o[pid].sz && n[pid].pt.Keys == o[pid].pt.Keys
    && forall s :: s in o[pid].pt ==>
         if s.User? && from <= s.vpn < to then n[pid].pt[s] == Entry(n[pid].pt[s].ppn, true, true, true)
         else n[pid].pt[s] == o[pid].pt[s]
  }

  lemma NoneCopied(o: Procs, pid: nat, from: nat)
    requires pid in o
    ensures CopiedOver(o, o, pid, from, from)
  {}

  lemma OneMoreCopied(o: Procs, p: Procs, n: Procs, pid: nat, from: nat, v: nat, ppn: nat)
    requires CopiedOver(o, p, pid, from, v) && from <= v && At(p, pid, User(v))
    requires n == SetEntry(p, pid, User(v), Entry(ppn, true, true, true))
    ensures CopiedOver(o, n, pid, from, v + 1)
  {}

  // The page after the last one that len bytes from va touch.
  function PageAfter(va: nat, len: nat): (r: nat) { if len == 0 then va / PGSIZE else (va + len - 1) / PGSIZE + 1 }

  lemma AcceptedIsMapped(procs: Procs, pid: nat, at: nat)
    requires Accepts(procs, pid, at)
    ensures At(procs, pid, User(at / PGSIZE))
  {}

  lemma NothingCopied(o: Procs, pid: nat, va: nat)
    requires pid in o
    ensures CopiedOver(o, o, pid, va / PGSIZE, PageAfter(va, 0))
  {
    NoneCopied(o, pid, va / PGSIZE);
  }

  lemma PageCopied(o: Procs, p: Procs, n: Procs, pid: nat, va: nat, i: nat, k: nat)
    requires CopiedOver(o, p, pid, va / PGSIZE, PageAfter(va, i)) && (i == 0 || (va + i) % PGSIZE == 0)
    requires 0 < k && (va + i) % PGSIZE + k <= PGSIZE && At(p, pid, User((va + i) / PGSIZE))
    requires exists ppn :: n == SetEntry(p, pid, User((va + i) / PGSIZE), Entry(ppn, true, true, true))
    ensures CopiedOver(o, n, pid, va / PGSIZE, PageAfter(va, i + k))
  {
    var v := (va + i) / PGSIZE;
    assert PageAfter(va, i) == v && PageAfter(va, i + k) == v + 1;
    var ppn :| n == SetEntry(p, pid, User(v), Entry(ppn, true, true, true));
    hide PageAfter, SetEntry, CopiedOver;
    OneMoreCopied(o, p, n, pid, va / PGSIZE, v, ppn);
  }

  // ----- What copying a page costs -----

  // The page has other references besides this mapping, so its copy does not set a page free.
  predicate SharedAt(refcnt: seq<int>, procs: Procs, pid: nat, v: nat) {
    At(procs, pid, User(v)) && Ent(procs, pid, User(v)).ppn < |refcnt| && refcnt[Ent(procs, pid, User(v)).ppn] > 1
  }

  function Costs(refcnt: seq<int>, procs: Procs, pid: nat, v: nat): (r: nat) {
    if SharedAt(refcnt, procs, pid, v) then 1 else 0
  }

  predicate PageSame(o: Procs, rc: seq<int>, n: Procs, rc': seq<int>, pid: nat, w: nat) {
    && (At(n, pid, User(w)) <==> At(o, pid, User(w)))
    && (At(o, pid, User(w)) ==> Ent(n, pid, User(w)) == Ent(o, pid, User(w)))
    && (SharedAt(rc', n, pid, w) <==> SharedAt(rc, o, pid, w))
  }

  ghost predicate SameBut(o: Procs, rc: seq<int>, n: Procs, rc': seq<int>, pid: nat, v: nat) {
    forall w: nat :: w != v ==> PageSame(o, rc, n, rc', pid, w)
  }

  lemma MappedCount(kmem: Kmem, procs: Procs, held: multiset<nat>, pid: nat, v: nat)
    requires kmem.Valid() && MapsOk(procs, kmem.refs, held, kmem.lo) && At(procs, pid, User(v))
    ensures var p := Ent(procs, pid, User(v)).ppn; p < |kmem.refcnt| && kmem.refcnt[p] >= 1
  {
    hide Kalloc.Inv, ChainOk;
    MappedIsReferenced(procs, kmem.refs, held, pid, User(v));
    ReferencedPage(kmem.Abs(), Ent(procs, pid, User(v)).ppn);
  }

  lemma OnceOf(procs: Procs, refs: multiset<nat>, held: multiset<nat>, lo: nat)
    requires MapsOk(procs, refs, held, lo)
    ensures Once(procs)
  {}

  lemma CopyCosts(o: Procs, rc: seq<int>, pid: nat, v: nat, c: nat)
    requires At(o, pid, User(v)) && Once(o) && Ent(o, pid, User(v)).ppn < |rc| && c < |rc|
    requires forall pid', s :: At(o, pid', s) ==> Ent(o, pid', s).ppn != c
    ensures var pa1, n := Ent(o, pid, User(v)).ppn, SetEntry(o, pid, User(v), Entry(c, true, true, true));
            pa1 != c && SameBut(o, rc, n, rc[c := 1][pa1 := rc[pa1] - 1], pid, v)
  {}

  // How many of the pages from .. to-1 are shared.
  function SharedPages(refcnt: seq<int>, procs: Procs, pid: nat, from: nat, to: nat): (r: nat)
    decreases to
  {
    if to <= from then 0
    else SharedPages(refcnt, procs, pid, from, to - 1) + Costs(refcnt, procs, pid, to - 1)
  }

  lemma {:induction false} SharedGrows(refcnt: seq<int>, procs: Procs, pid: nat, from: nat, a: nat, b: nat)
    requires a <= b
    ensures SharedPages(refcnt, procs, pid, from, a) <= SharedPages(refcnt, procs, pid, from, b)
  {
    if a < b { SharedGrows(refcnt, procs, pid, from, a, b - 1); }
  }

  // copyout goes through: every page is accepted, and when the last one is copied a page is still free.
  ghost predicate CopyFits(procs: Procs, refcnt: seq<int>, free: nat, pid: nat, dstva: nat, len: nat) {
    && (forall at: nat :: dstva <= at < dstva + len ==> Accepts(procs, pid, at))
    && (len > 0 ==> free > SharedPages(refcnt, procs, pid, dstva / PGSIZE, (dstva + len - 1) / PGSIZE))
  }

  // A byte of the process's own memory.
  predicate UserByte(procs: Procs, pid: nat, at: nat) {
    at < MAXVA && At(procs, pid, User(at / PGSIZE)) && Ent(procs, pid, User(at / PGSIZE)).user
  }

  // With enough memory, a copy into the process's own memory still fails exactly when it starts in page 0, which
  // cowHandler takes for a null pointer.
  lemma CopyOutMissesPageZero(procs: Procs, refcnt: seq<int>, free: nat, pid: nat, dstva: nat, len: nat)
    requires forall at: nat :: dstva <= at < dstva + len ==> UserByte(procs, pid, at)
    requires len > 0 ==> free > SharedPages(refcnt, procs, pid, dstva / PGSIZE, (dstva + len - 1) / PGSIZE)
    ensures CopyFits(procs, refcnt, free, pid, dstva, len) <==> len == 0 || dstva >= PGSIZE
  {
    if len > 0 && dstva < PGSIZE {
      assert !Accepts(procs, pid, dstva);
    } else {
      forall at: nat | dstva <= at < dstva + len ensures Accepts(procs, pid, at) {
        assert UserByte(procs, pid, at);
      }
    }
  }

  // copyout before its turn at byte i: the pages before are accepted and paid for, the others are as they were.
  ghost predicate Copying(o: Procs, rc0: seq<int>, free0: nat, procs: Procs, rc: seq<int>, free: nat, pid: nat,
                          dstva: nat, len: nat, i: nat) {
    && i <= len && CopyFits(o, rc0, free0, pid, dstva, i)
    && (i < len ==>
          && (forall w: nat :: w >= (dstva + i) / PGSIZE ==> PageSame(o, rc0, procs, rc, pid, w))
          && free == free0 - SharedPages(rc0, o, pid, dstva / PGSIZE, (dstva + i) / PGSIZE))
  }

  lemma CopyingStart(o: Procs, rc: seq<int>, pid: nat, dstva: nat, len: nat, free: nat)
    ensures Copying(o, rc, free, o, rc, free, pid, dstva, len, 0)
  {}

  lemma CopyingEnds(o: Procs, rc0: seq<int>, free0: nat, procs: Procs, rc: seq<int>, free: nat, pid: nat, dstva: nat,
                    len: nat)
    requires Copying(o, rc0, free0, procs, rc, free, pid, dstva, len, len)
    ensures CopyFits(o, rc0, free0, pid, dstva, len)
  {}

  lemma SameAccepts(o: Procs, rc0: seq<int>, procs: Procs, rc: seq<int>, pid: nat, at: nat)
    requires PageSame(o, rc0, procs, rc, pid, at / PGSIZE)
    ensures Accepts(procs, pid, at) <==> Accepts(o, pid, at)
    ensures Costs(rc, procs, pid, at / PGSIZE) == Costs(rc0, o, pid, at / PGSIZE)
  {}

  lemma CopyingStops(o: Procs, rc0: seq<int>, free0: nat, procs: Procs, rc: seq<int>, free: nat, pid: nat, dstva: nat,
                     len: nat, i: nat)
    requires Copying(o, rc0, free0, procs, rc, free, pid, dstva, len, i) && i < len
    requires !Accepts(procs, pid, dstva + i) || free == 0
    ensures !CopyFits(o, rc0, free0, pid, dstva, len)
    ensures free == 0 || !Accepts(o, pid, dstva + i)
  {
    hide Accepts, PageSame;
    SameAccepts(o, rc0, procs, rc, pid, dstva + i);
    SharedGrows(rc0, o, pid, dstva / PGSIZE, (dstva + i) / PGSIZE, (dstva + len - 1) / PGSIZE);
  }

  lemma SamePage(at: nat, a: nat)
    requires a / PGSIZE == at / PGSIZE
    ensures a - a % PGSIZE == at - at % PGSIZE
  {}

  lemma CopyingOn(o: Procs, rc0: seq<int>, free0: nat, p1: Procs, rc1: seq<int>, free1: nat, procs: Procs,
                  rc: seq<int>, free: nat, pid: nat, dstva: nat, len: nat, i: nat, n: nat)
    requires Copying(o, rc0, free0, p1, rc1, free1, pid, dstva, len, i) && i + n <= len
    requires n > 0 && (dstva + i) % PGSIZE + n <= PGSIZE && (i + n < len ==> (dstva + i) % PGSIZE + n == PGSIZE)
    requires Accepts(p1, pid, dstva + i) && free1 > 0
    requires SameBut(p1, rc1, procs, rc, pid, (dstva + i) / PGSIZE)
    requires free == free1 - Costs(rc1, p1, pid, (dstva + i) / PGSIZE)
    ensures Copying(o, rc0, free0, procs, rc, free, pid, dstva, len, i + n)
  {
    var v := (dstva + i) / PGSIZE;
    SameAccepts(o, rc0, p1, rc1, pid, dstva + i);
    hide PageSame, Costs;
    forall at: nat | dstva + i <= at < dstva + i + n ensures Accepts(o, pid, at) {
      assert at / PGSIZE == v;
      SamePage(dstva + i, at);
    }
    assert (dstva + i + n - 1) / PGSIZE == v;
    if i + n < len {
      assert (dstva + i + n) / PGSIZE == v + 1;
      forall w: nat | w >= v + 1 ensures PageSame(o, rc0, procs, rc, pid, w) {
        PageSameTrans(o, rc0, p1, rc1, procs, rc, pid, w);
      }
    }
  }

  lemma PageSameTrans(o: Procs, rc0: seq<int>, p1: Procs, rc1: seq<int>, procs: Procs, rc: seq<int>, pid: nat, w: nat)
    requires PageSame(o, rc0, p1, rc1, pid, w) && PageSame(p1, rc1, procs, rc, pid, w)
    ensures PageSame(o, rc0, procs, rc, pid, w)
  {}

  lemma SlotsRefl(o: Procs)
    ensures SameSlots(o, o)
  {}

  lemma SlotsTrans(o: Procs, m: Procs, n: Procs)
    requires SameSlots(o, m) && SameSlots(m, n)
    ensures SameSlots(o, n) && n.Keys == o.Keys
  {}

  lemma ViewKeys(mem: seq<Page>, procs: Procs)
    ensures View(mem, procs).Keys == procs.Keys
    ensures forall pid, v: nat :: pid in procs ==> (User(v) in View(mem, procs)[pid] <==> User(v) in procs[pid].pt)
  {}

  lemma SeenPage(mem: seq<Page>, procs: Procs, pid: nat, v: nat)
    requires At(procs, pid, User(v))
    ensures pid in View(mem, procs) && User(v) in View(mem, procs)[pid]
    ensures View(mem, procs)[pid][User(v)] == Frame(mem, Ent(procs, pid, User(v)).ppn)
  {}

  lemma OwnedWrite(mem: seq<Page>, procs: Procs, pid: nat, v: nat, data: Page)
    requires OwnOk(procs) && At(procs, pid, User(v)) && Ent(procs, pid, User(v)).own
    requires Ent(procs, pid, User(v)).ppn < |mem|
    ensures View(mem[Ent(procs, pid, User(v)).ppn := data], procs) == PutPage(View(mem, procs), pid, v, data)
  {
    var p := Ent(procs, pid, User(v)).ppn;
    forall pid' | pid' in procs
      ensures Space(mem[p := data], procs[pid'].pt) == PutPage(View(mem, procs), pid, v, data)[pid']
    {
      forall s | At(procs, pid', s) && Ent(procs, pid', s).ppn == p ensures pid' == pid && s == User(v) { }
      SpaceAfterWrite(mem, procs, pid', pid, v, p, data);
    }
  }

  lemma SpaceAfterWrite(mem: seq<Page>, procs: Procs, pid': nat, pid: nat, v: nat, p: nat, data: Page)
    requires pid' in procs && At(procs, pid, User(v)) && Ent(procs, pid, User(v)).ppn == p < |mem|
    requires forall s :: At(procs, pid', s) && Ent(procs, pid', s).ppn == p ==> pid' == pid && s == User(v)
    ensures Space(mem[p := data], procs[pid'].pt) == PutPage(View(mem, procs), pid, v, data)[pid']
  {
    var a, b := Space(mem[p := data], procs[pid'].pt), PutPage(View(mem, procs), pid, v, data)[pid'];
    assert a.Keys == b.Keys;
    forall s | s in a ensures a[s] == b[s] {
      assert At(procs, pid', s);
    }
  }

  lemma EntryInRam(procs: Procs, refs: multiset<nat>, held: multiset<nat>, lo: nat, pid: nat, s: Slot)
    requires MapsOk(procs, refs, held, lo) && At(procs, pid, s)
    ensures lo <= Ent(procs, pid, s).ppn < PHYSTOP_PAGE && Ent(procs, pid, s).ppn in refs
  {
    MappedIsReferenced(procs, refs, held, pid, s);
  }

  lemma SameContents(mem: seq<Page>, procs: Procs, pid: nat, v: nat, e: Entry)
    requires At(procs, pid, User(v)) && Frame(mem, e.ppn) == Frame(mem, Ent(procs, pid, User(v)).ppn)
    ensures View(mem, SetEntry(procs, pid, User(v), e)) == View(mem, procs)
  {
    ViewUnchanged(mem, procs, mem, SetEntry(procs, pid, User(v), e));
  }
}
