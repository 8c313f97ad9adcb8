/**
 A process's page table as a map from slots to entries, and the three-level tree it stands for.

 A User slot is a user page; a Table slot stands for a page-table page: level 2 is the root, level 1 and 0 are
 pages that walk allocates on demand. Every change that the kernel makes to the map is shown to be the change
 that it makes to the tree of module PageTable.
 */
module PageSlots {
  import opened Riscv
  import opened Wrappers
  import PT = PageTable

  datatype Slot = User(vpn: nat) | Table(level: nat, index: nat)
  datatype Entry = Entry(ppn: nat, own: bool, user: bool, exec: bool)
  type Slots = map<Slot, Entry>

  const ROOT: Slot := Table(2, 0)

  // The table page of the given level on the way to page v.
  function TableSlot(level: nat, v: nat): (r: Slot) {
    if level == 1 then Table(1, v / 512 / 512) else Table(0, v / 512)
  }

  function TableEntry(c: nat): (r: Entry) { Entry(c, true, false, false) }

  // PTE_V | PTE_R, and PTE_W, PTE_X, PTE_U as the entry has them.
  function Bits(e: Entry): (r: nat)
    ensures r < 1024 && r % 2 == 1 && r / 2 % 8 != 0
  {
    3 + (if e.own then 4 else 0) + (if e.exec then 8 else 0) + (if e.user then 16 else 0)
  }

  function Pte(e: Entry): (r: nat) { PT.MakePte(e.ppn, Bits(e)) }

  ghost predicate PtrOk(pt: Slots, s: Slot, d: Option<nat>) {
    if s in pt then d == Some(pt[s].ppn) else d.None?
  }

  ghost predicate PageOk(t: PT.Tree, pt: Slots, v: nat) {
    && PtrOk(pt, TableSlot(1, v), PT.Down(t.tab, t.root, PT.Index(2, v)))
    && PtrOk(pt, TableSlot(0, v), PT.Leaf(t, v))
    && if User(v) in pt then PT.Flat(t, v) == Pte(pt[User(v)]) else !PT.IsValid(PT.Flat(t, v))
  }

  ghost predicate SlotOk(s: Slot) {
    match s
    case User(v) => v < MAXVPN
    case Table(level, i) => level <= 2 && i < if level == 2 then 1 else if level == 1 then 512 else 512 * 512
  }

  // Slots and tree tell the same.
  ghost predicate Represents(t: PT.Tree, pt: Slots) {
    && PT.TreeOk(t) && ROOT in pt && pt[ROOT].ppn == t.root
    && (forall s :: s in pt ==> SlotOk(s))
    && (forall v: nat :: v < PT.SPACE ==> PageOk(t, pt, v))
    && (forall p :: p in t.tab <==> IsTable(pt, p))
  }

  ghost predicate IsTable(pt: Slots, p: nat) {
    exists s :: s in pt && s.Table? && pt[s].ppn == p
  }

  function EmptyTree(root: nat): (r: PT.Tree) {
    var zero: seq<nat> := seq(512, _ => 0);
    PT.Tree(root, map[root := zero], map[root := 2], map[])
  }

  // uvmcreate.
  lemma CreateRepresents(root: nat)
    ensures Represents(EmptyTree(root), map[ROOT := TableEntry(root)])
  {
    assert map[ROOT := TableEntry(root)][ROOT].ppn == root;
  }

  lemma SameTable1(v: nat, w: nat)
    requires v < PT.SPACE && w < PT.SPACE
    ensures TableSlot(1, v) == TableSlot(1, w) <==> PT.Index(2, v) == PT.Index(2, w)
  {}

  lemma SameTable0(v: nat, w: nat)
    requires v < PT.SPACE && w < PT.SPACE
    ensures TableSlot(0, v) == TableSlot(0, w) <==> PT.Index(2, v) == PT.Index(2, w) && PT.Index(1, v) == PT.Index(1, w)
  {
    assert v / 512 == v / 512 / 512 * 512 + v / 512 % 512;
    assert w / 512 == w / 512 / 512 * 512 + w / 512 % 512;
  }

  lemma PageFacts(t: PT.Tree, pt: Slots, v: nat)
    requires Represents(t, pt) && v < PT.SPACE
    ensures PageOk(t, pt, v) && PT.Here(t, t.root) && t.level[t.root] == 2
  {}

  lemma TableSlotOk(level: nat, v: nat)
    requires level <= 1 && v < PT.SPACE
    ensures SlotOk(TableSlot(level, v)) && TableSlot(level, v) != ROOT && TableSlot(level, v).Table?
  {}

  lemma IsTableAfter(pt: Slots, s: Slot, c: nat, p: nat)
    requires s.Table? && s !in pt
    ensures IsTable(pt[s := TableEntry(c)], p) <==> IsTable(pt, p) || p == c
  {
    var q := pt[s := TableEntry(c)];
    assert s in q && q[s].ppn == c;
    if IsTable(pt, p) {
      var s' :| s' in pt && s'.Table? && pt[s'].ppn == p;
      assert s' in q && q[s'].ppn == p;
    }
    if IsTable(q, p) {
      var s' :| s' in q && s'.Table? && q[s'].ppn == p;
      if s' != s { assert s' in pt && pt[s'].ppn == p; }
    }
  }

  lemma IsTableSame(pt: Slots, pt': Slots, p: nat)
    requires forall s: Slot :: s.Table? ==> (s in pt <==> s in pt') && (s in pt ==> pt[s] == pt'[s])
    ensures IsTable(pt, p) <==> IsTable(pt', p)
  {
    if IsTable(pt, p) {
      var s :| s in pt && s.Table? && pt[s].ppn == p;
      assert s in pt' && pt'[s].ppn == p;
    }
    if IsTable(pt', p) {
      var s :| s in pt' && s.Table? && pt'[s].ppn == p;
      assert s in pt && pt[s].ppn == p;
    }
  }

  lemma AddedDown(t: PT.Tree, c: nat, i: nat, w: nat)
    requires PT.CanAdd(t, t.root, i, c) && w < PT.SPACE
    ensures var t' := PT.AddTable(t, t.root, i, c);
            && PT.Down(t'.tab, t.root, PT.Index(2, w)) ==
               (if PT.Index(2, w) == i then Some(c) else PT.Down(t.tab, t.root, PT.Index(2, w)))
            && PT.Leaf(t', w) == PT.Leaf(t, w)
  {
    PT.PteRoundTrip(c, PT.PTE_V);
    assert PT.EntryOk(t, t.root, PT.Index(2, w));
  }

  lemma AddedPage1(t: PT.Tree, pt: Slots, v: nat, c: nat, w: nat)
    requires PT.CanAdd(t, t.root, PT.Index(2, v), c) && v < PT.SPACE && w < PT.SPACE && PageOk(t, pt, w)
    ensures PageOk(PT.AddTable(t, t.root, PT.Index(2, v), c), pt[TableSlot(1, v) := TableEntry(c)], w)
  {
    PT.AddTableFlat(t, t.root, PT.Index(2, v), c, w);
    SameTable1(v, w);
    AddedDown(t, c, PT.Index(2, v), w);
    hide PT.TreeOk, PT.Down, PT.Leaf, PT.Flat, PT.Index, PT.CanAdd;
  }

  // walk adds a level-1 table page below the root.
  lemma AddLevel1(t: PT.Tree, pt: Slots, v: nat, c: nat)
    requires Represents(t, pt) && v < MAXVPN && TableSlot(1, v) !in pt && c !in t.tab
    ensures PT.CanAdd(t, t.root, PT.Index(2, v), c)
    ensures Represents(PT.AddTable(t, t.root, PT.Index(2, v), c), pt[TableSlot(1, v) := TableEntry(c)])
  {
    PageFacts(t, pt, v);
    var i := PT.Index(2, v);
    assert PT.CanAdd(t, t.root, i, c);
    var t', pt' := PT.AddTable(t, t.root, i, c), pt[TableSlot(1, v) := TableEntry(c)];
    PT.AddTableTree(t, t.root, i, c);
    TableSlotOk(1, v);
    hide PT.TreeOk, PT.CanAdd, PageOk, IsTable, SlotOk, PT.Index;
    forall w: nat | w < PT.SPACE ensures PageOk(t', pt', w) { AddedPage1(t, pt, v, c, w); }
    forall p ensures p in t'.tab <==> IsTable(pt', p) { IsTableAfter(pt, TableSlot(1, v), c, p); }
  }

  lemma AddedLeaf(t: PT.Tree, p: nat, c: nat, v: nat, w: nat)
    requires v < PT.SPACE && w < PT.SPACE && PT.CanAdd(t, p, PT.Index(1, v), c)
    requires PT.Down(t.tab, t.root, PT.Index(2, v)) == Some(p) && PT.Here(t, p) && t.level[p] == 1 && p != t.root
    ensures var t' := PT.AddTable(t, p, PT.Index(1, v), c);
            && PT.Down(t'.tab, t.root, PT.Index(2, w)) == PT.Down(t.tab, t.root, PT.Index(2, w))
            && PT.Leaf(t', w) ==
               if PT.Index(2, w) == PT.Index(2, v) && PT.Index(1, w) == PT.Index(1, v) then Some(c) else PT.Leaf(t, w)
  {
    PT.PteRoundTrip(c, PT.PTE_V);
    assert PT.EntryOk(t, t.root, PT.Index(2, v));
    assert PT.EntryOk(t, t.root, PT.Index(2, w));
  }

  lemma AddedPage0(t: PT.Tree, pt: Slots, p: nat, v: nat, c: nat, w: nat)
    requires v < PT.SPACE && w < PT.SPACE && PT.CanAdd(t, p, PT.Index(1, v), c) && PageOk(t, pt, w)
    requires PT.Down(t.tab, t.root, PT.Index(2, v)) == Some(p) && PT.Here(t, p) && t.level[p] == 1 && p != t.root
    ensures PageOk(PT.AddTable(t, p, PT.Index(1, v), c), pt[TableSlot(0, v) := TableEntry(c)], w)
  {
    PT.AddTableFlat(t, p, PT.Index(1, v), c, w);
    SameTable0(v, w);
    AddedLeaf(t, p, c, v, w);
    hide PT.TreeOk, PT.Down, PT.Leaf, PT.Flat, PT.Index, PT.CanAdd;
  }

  lemma Level1Page(t: PT.Tree, v: nat)
    requires PT.TreeOk(t) && v < PT.SPACE && PT.Down(t.tab, t.root, PT.Index(2, v)).Some?
    ensures var p := PT.Down(t.tab, t.root, PT.Index(2, v)).value;
            && PT.Here(t, p) && t.level[p] == 1 && p != t.root
            && (PT.Leaf(t, v).None? ==> !PT.IsValid(t.tab[p][PT.Index(1, v)]))
  {
    assert PT.EntryOk(t, t.root, PT.Index(2, v));
  }

  // walk adds a level-0 table page below a level-1 page.
  lemma AddLevel0(t: PT.Tree, pt: Slots, v: nat, c: nat)
    requires Represents(t, pt) && v < MAXVPN && TableSlot(1, v) in pt && TableSlot(0, v) !in pt && c !in t.tab
    ensures var p := pt[TableSlot(1, v)].ppn;
            && PT.CanAdd(t, p, PT.Index(1, v), c)
            && Represents(PT.AddTable(t, p, PT.Index(1, v), c), pt[TableSlot(0, v) := TableEntry(c)])
  {
    PageFacts(t, pt, v);
    Level1Page(t, v);
    var p, i := pt[TableSlot(1, v)].ppn, PT.Index(1, v);
    assert PT.CanAdd(t, p, i, c);
    var t', pt' := PT.AddTable(t, p, i, c), pt[TableSlot(0, v) := TableEntry(c)];
    PT.AddTableTree(t, p, i, c);
    TableSlotOk(0, v);
    hide PT.TreeOk, PT.CanAdd, PageOk, IsTable, SlotOk, PT.Index, PT.Down, PT.Leaf;
    forall w: nat | w < PT.SPACE ensures PageOk(t', pt', w) { AddedPage0(t, pt, p, v, c, w); }
    forall p ensures p in t'.tab <==> IsTable(pt', p) { IsTableAfter(pt, TableSlot(0, v), c, p); }
  }

  lemma WrittenPage(t: PT.Tree, pt: Slots, q: nat, v: nat, pte: nat, pt': Slots, w: nat)
    requires PT.TreeOk(t) && v < PT.SPACE && w < PT.SPACE && PT.Leaf(t, v) == Some(q) && PT.Here(t, q)
             && t.level[q] == 0
    requires PageOk(t, pt, w) && q != t.root
    requires forall s :: s != User(v) ==> (s in pt <==> s in pt') && (s in pt ==> pt[s] == pt'[s])
    requires if User(v) in pt' then pte == Pte(pt'[User(v)]) else !PT.IsValid(pte)
    requires var t' := PT.SetPte(t, q, PT.Index(0, v), pte);
             PT.Flat(t', v) == pte && (w != v ==> PT.Flat(t', w) == PT.Flat(t, w))
    ensures PageOk(PT.SetPte(t, q, PT.Index(0, v), pte), pt', w)
  {
    PT.SetLeafDown(t, q, PT.Index(0, v), pte, w);
    assert PT.SetPte(t, q, PT.Index(0, v), pte).tab[t.root] == t.tab[t.root];
    assert TableSlot(1, w) != User(v) && TableSlot(0, w) != User(v);
    hide PT.TreeOk, PT.Leaf, PT.Flat, PT.Index;
  }

  // The leaf entry of page v is written, or cleared.
  lemma Written(t: PT.Tree, pt: Slots, v: nat, pte: nat, pt': Slots)
    requires Represents(t, pt) && v < MAXVPN && PT.Leaf(t, v).Some?
             && (forall s :: s in pt' ==> s in pt || s == User(v))
    requires forall s :: s != User(v) ==> (s in pt <==> s in pt') && (s in pt ==> pt[s] == pt'[s])
    requires if User(v) in pt' then pte == Pte(pt'[User(v)]) else !PT.IsValid(pte)
    ensures PT.Here(t, PT.Leaf(t, v).value)
    ensures Represents(PT.SetPte(t, PT.Leaf(t, v).value, PT.Index(0, v), pte), pt')
  {
    hide PT.TreeOk, PageOk, IsTable, PT.Index, PT.Leaf, PT.Flat, Pte, PT.IsValid;
    var q := PT.Leaf(t, v).value;
    PT.LeafFacts(t, v);
    PT.SetLeaf(t, v, pte);
    var t' := PT.SetPte(t, q, PT.Index(0, v), pte);
    assert ROOT in pt';
    forall w: nat | w < PT.SPACE ensures PageOk(t', pt', w) { WrittenPage(t, pt, q, v, pte, pt', w); }
    forall p ensures p in t'.tab <==> IsTable(pt', p) { IsTableSame(pt, pt', p); }
  }

  lemma SetUser(t: PT.Tree, pt: Slots, v: nat, e: Entry)
    requires Represents(t, pt) && v < MAXVPN && TableSlot(0, v) in pt
    ensures var q := pt[TableSlot(0, v)].ppn;
            && PT.Leaf(t, v) == Some(q) && PT.Here(t, q)
            && Represents(PT.SetPte(t, q, PT.Index(0, v), Pte(e)), pt[User(v) := e])
  {
    PageFacts(t, pt, v);
    hide Represents, PT.Leaf, PT.Index, Pte;
    Written(t, pt, v, Pte(e), pt[User(v) := e]);
  }

  lemma ClearUser(t: PT.Tree, pt: Slots, v: nat)
    requires Represents(t, pt) && User(v) in pt
    ensures v < MAXVPN && PT.Leaf(t, v).Some? && PT.Here(t, PT.Leaf(t, v).value)
    ensures Represents(PT.SetPte(t, PT.Leaf(t, v).value, PT.Index(0, v), 0), pt - {User(v)})
  {
    assert SlotOk(User(v));
    PageFacts(t, pt, v);
    PT.PteRoundTrip(pt[User(v)].ppn, Bits(pt[User(v)]));
    PT.MappedHasLeaf(t, v);
    hide Represents, PT.Leaf, PT.Index, Pte;
    Written(t, pt, v, 0, pt - {User(v)});
  }

  // Without user pages freewalk does not panic, and the pages it frees are those of the table slots.
  lemma FreeWalkReady(t: PT.Tree, pt: Slots)
    requires Represents(t, pt) && forall s :: s in pt ==> s.Table?
    ensures PT.LeavesProper(t) && PT.NoLeafBelow(t, t.root)
    ensures forall p :: p in PT.Sub(t, t.root) <==> IsTable(pt, p)
  {
    forall v: nat | v < PT.SPACE ensures !PT.IsValid(PT.Flat(t, v)) { PageFacts(t, pt, v); }
    PT.EmptyIsProper(t);
    PT.NoLeafWhenEmpty(t);
    PT.AllBelowRoot(t);
  }

  // ----- How many table pages pages need -----

  function TablesOf(pt: Slots): (r: set<Slot>) { set s | s in pt && s.Table? }

  // The tables on the way to page v, and to any of the pages below n.
  function Path(v: nat): (r: set<Slot>) { {TableSlot(1, v), TableSlot(0, v)} }

  function Tables(n: nat): (r: set<Slot>) { if n == 0 then {} else Tables(n - 1) + Path(n - 1) }

  // How many of them are missing.
  ghost function Lack(have: set<Slot>, v: nat): (r: nat) { |Path(v) - have| }

  ghost function Lacking(have: set<Slot>, n: nat): (r: nat) { |Tables(n) - have| }

  lemma LackOf(have: set<Slot>, v: nat)
    ensures Lack(have, v) == (if TableSlot(1, v) in have then 0 else 1) + if TableSlot(0, v) in have then 0 else 1
  {
    var a, b := TableSlot(1, v), TableSlot(0, v);
    assert Path(v) - have == (if a in have then {} else {a}) + if b in have then {} else {b};
  }

  // The tables for one more page.
  lemma LackingStep(have: set<Slot>, n: nat)
    ensures Tables(n + 1) == Tables(n) + Path(n)
    ensures Lacking(have, n + 1) == Lacking(have, n) + Lack(have + Tables(n), n)
  {
    assert Tables(n + 1) - have == (Tables(n) - have) + (Path(n) - (have + Tables(n)));
  }

  lemma {:induction false} LackingGrows(have: set<Slot>, a: nat, b: nat)
    requires a <= b
    ensures Lacking(have, a) <= Lacking(have, b)
  {
    if a < b {
      LackingGrows(have, a, b - 1);
      LackingStep(have, b - 1);
    }
  }

  lemma NoneLacking(have: set<Slot>, n: nat)
    requires Tables(n) <= have
    ensures Lacking(have, n) == 0 && have + Tables(n) == have
  {
    assert Tables(n) - have == {};
  }

  // One level-0 table for each 512 pages and one level-1 table for each 512 * 512.
  function TableCount(n: nat): (r: nat) { (n + 511) / 512 + (n + 262143) / 262144 }

  lemma DivTwice(v: nat)
    ensures v / 512 / 512 == v / 262144
  {}

  lemma {:induction false} InTables(n: nat, i: nat)
    ensures Table(0, i) in Tables(n) <==> i * 512 < n
    ensures Table(1, i) in Tables(n) <==> i * 262144 < n
    ensures ROOT !in Tables(n)
  {
    if n > 0 {
      InTables(n - 1, i);
      DivTwice(n - 1);
    }
  }

  lemma Groups512(n: nat)
    ensures (n + 512) / 512 == (n + 511) / 512 + if n / 512 * 512 == n then 1 else 0
  {}

  lemma Groups262144(n: nat)
    ensures (n + 262144) / 262144 == (n + 262143) / 262144 + if n / 262144 * 262144 == n then 1 else 0
  {}

  // Page n needs a table of its own at a level exactly when it is the first of its group.
  lemma NewTables(n: nat)
    ensures TableSlot(0, n) !in Tables(n) <==> n / 512 * 512 == n
    ensures TableSlot(1, n) !in Tables(n) <==> n / 262144 * 262144 == n
  {
    hide Tables;
    DivTwice(n);
    InTables(n, n / 512);
    InTables(n, n / 262144);
  }

  lemma CountedStep(n: nat)
    ensures |Tables(n + 1)| - |Tables(n)| == TableCount(n + 1) - TableCount(n)
  {
    hide Tables, Lack, Path, TableSlot;
    NewTables(n);
    LackingStep({}, n);
    LackOf(Tables(n), n);
    Groups512(n);
    Groups262144(n);
    assert Tables(n + 1) - {} == Tables(n + 1) && Tables(n) - {} == Tables(n) && {} + Tables(n) == Tables(n);
  }

  lemma {:induction false} TablesCounted(n: nat)
    ensures |Tables(n)| == TableCount(n)
  {
    if n > 0 {
      TablesCounted(n - 1);
      CountedStep(n - 1);
    }
  }
}
