/**
 The three-level Sv39 page table (kernel/vm.c; section 4.4 of the RISC-V Privileged Architecture).

 Table pages are arrays of 512 entries; an entry is a 64-bit word holding a page number from bit 10
 up and ten flag bits. The tree refines a flat function `Flat` from virtual page numbers to entries.
 */
module PageTable {
  import opened Riscv
  import opened Wrappers

  const SPACE: nat := 0x800_0000    // page numbers that three 9-bit indices can name; walk uses half
  const PTE_V: nat := 1

  // PA2PTE(pa) | flags, PTE2PA, PTE_FLAGS, on page numbers.
  function MakePte(ppn: nat, flags: nat): (r: nat) { ppn * 1024 + flags }
  function PtePage(pte: nat): (r: nat) { pte / 1024 }
  function PteFlags(pte: nat): (r: nat) { pte % 1024 }
  predicate IsValid(pte: nat) { PteFlags(pte) % 2 == 1 }

  predicate IsTablePtr(pte: nat) { IsValid(pte) && (PteFlags(pte) / 2) % 8 == 0 }   // no R, W or X

  lemma PteRoundTrip(ppn: nat, flags: nat)
    requires flags < 1024
    ensures PtePage(MakePte(ppn, flags)) == ppn && PteFlags(MakePte(ppn, flags)) == flags
    ensures MakePte(ppn, flags) / 1024 == ppn && MakePte(ppn, flags) % 1024 == flags
    ensures IsValid(MakePte(ppn, flags)) <==> flags % 2 == 1
    ensures IsTablePtr(MakePte(ppn, flags)) <==> flags % 2 == 1 && (flags / 2) % 8 == 0
  {}

  // PX(level, va) on page numbers.
  function Index(level: nat, v: nat): (r: nat)
    ensures r < 512
  {
    if level == 0 then v % 512 else if level == 1 then (v / 512) % 512 else (v / 512 / 512) % 512
  }

  lemma Rebuild(v: nat)
    requires v < SPACE
    ensures v == (Index(2, v) * 512 + Index(1, v)) * 512 + Index(0, v)
  {}

  lemma IndicesDetermine(v: nat, w: nat)
    requires v < SPACE && w < SPACE
    requires Index(0, v) == Index(0, w) && Index(1, v) == Index(1, w) && Index(2, v) == Index(2, w)
    ensures v == w
  {
    hide Index;
    Rebuild(v);
    Rebuild(w);
  }

  type Tables = map<nat, seq<nat>>

  // level: how far a table page is from the leaves. up: the entry that points to it.
  datatype Tree = Tree(root: nat, tab: Tables, level: map<nat, nat>, up: map<nat, (nat, nat)>)

  predicate Here(t: Tree, p: nat) {
    p in t.tab && p in t.level && |t.tab[p]| == 512
  }

  // A valid entry above the leaves points to a table page one level down that nothing else points to.
  ghost predicate EntryOk(t: Tree, p: nat, i: nat)
    requires Here(t, p) && i < 512
  {
    t.level[p] > 0 && IsValid(t.tab[p][i]) ==>
      var c := PtePage(t.tab[p][i]);
      IsTablePtr(t.tab[p][i]) && Here(t, c) && c != t.root && t.level[c] == t.level[p] - 1
      && c in t.up && t.up[c] == (p, i)
  }

  // Every table page but the root is pointed to by its `up` entry.
  ghost predicate UpOk(t: Tree, c: nat)
    requires Here(t, c)
  {
    c != t.root ==>
      && c in t.up && Here(t, t.up[c].0) && t.up[c].1 < 512
      && t.level[t.up[c].0] == t.level[c] + 1
      && IsValid(t.tab[t.up[c].0][t.up[c].1]) && PtePage(t.tab[t.up[c].0][t.up[c].1]) == c
  }

  ghost predicate TreeOk(t: Tree) {
    && Here(t, t.root) && t.level[t.root] == 2
    && (forall p :: p in t.tab ==> Here(t, p) && t.level[p] <= 2)
    && (forall p, i :: p in t.tab && 0 <= i < 512 ==> EntryOk(t, p, i))
    && (forall c :: c in t.tab ==> UpOk(t, c))
  }

  // ----- The flat view -----

  // The table page that entry i of p leads to.
  function Down(tab: Tables, p: nat, i: nat): (r: Option<nat>)
    requires i < 512
  {
    if p in tab && |tab[p]| == 512 && IsValid(tab[p][i]) then Some(PtePage(tab[p][i])) else None
  }

  // walk with alloc == 0: the leaf table for v.
  function Leaf(t: Tree, v: nat): (r: Option<nat>) {
    var a := Down(t.tab, t.root, Index(2, v));
    if a.None? then None else Down(t.tab, a.value, Index(1, v))
  }

  function Flat(t: Tree, v: nat): (r: nat) {
    var a := Leaf(t, v);
    if a.None? || a.value !in t.tab || |t.tab[a.value]| != 512 then 0 else t.tab[a.value][Index(0, v)]
  }

  lemma LeafFacts(t: Tree, v: nat)
    requires TreeOk(t) && Leaf(t, v).Some?
    ensures var q := Leaf(t, v).value;
            && Here(t, q) && t.level[q] == 0 && q != t.root && t.up[q].1 == Index(1, v)
            && Here(t, t.up[q].0) && t.up[q].0 != t.root && t.up[t.up[q].0] == (t.root, Index(2, v))
            && Flat(t, v) == t.tab[q][Index(0, v)]
  {
    assert EntryOk(t, t.root, Index(2, v));
    var a := Down(t.tab, t.root, Index(2, v)).value;
    assert EntryOk(t, a, Index(1, v));
  }

  // No two virtual pages share a leaf entry.
  lemma LeavesApart(t: Tree, v: nat, w: nat)
    requires TreeOk(t) && v < SPACE && w < SPACE && v != w
    requires Leaf(t, v).Some? && Leaf(t, w).Some?
    ensures Leaf(t, v) != Leaf(t, w) || Index(0, v) != Index(0, w)
  {
    LeafFacts(t, v);
    LeafFacts(t, w);
    if Leaf(t, v) == Leaf(t, w) && Index(0, v) == Index(0, w) {
      IndicesDetermine(v, w);
    }
  }

  // ----- Writing a leaf entry -----

  function SetPte(t: Tree, p: nat, i: nat, pte: nat): (r: Tree)
    requires p in t.tab && i < |t.tab[p]|
  {
    var row: seq<nat> := t.tab[p][i := pte];
    t.(tab := t.tab[p := row])
  }

  lemma SetLeaf(t: Tree, v: nat, pte: nat)
    requires TreeOk(t) && v < SPACE && Leaf(t, v).Some?
    ensures var q := Leaf(t, v).value;
            && Here(t, q)
            && var t' := SetPte(t, q, Index(0, v), pte);
               && TreeOk(t')
               && Flat(t', v) == pte
               && forall w: nat :: w < SPACE && w != v ==> Flat(t', w) == Flat(t, w)
  {
    LeafFacts(t, v);
    var q := Leaf(t, v).value;
    var t' := SetPte(t, q, Index(0, v), pte);
    SetLeafTree(t, q, Index(0, v), pte);
    SetLeafDown(t, q, Index(0, v), pte, v);
    LeafFacts(t', v);
    forall w: nat | w < SPACE && w != v ensures Flat(t', w) == Flat(t, w) {
      SetLeafDown(t, q, Index(0, v), pte, w);
      if Leaf(t, w).Some? {
        LeavesApart(t, v, w);
        LeafFacts(t, w);
      }
    }
  }

  lemma SetLeafTree(t: Tree, q: nat, i: nat, pte: nat)
    requires TreeOk(t) && Here(t, q) && t.level[q] == 0 && i < 512
    ensures TreeOk(SetPte(t, q, i, pte))
  {
    var t' := SetPte(t, q, i, pte);
    forall p | p in t'.tab ensures Here(t', p) && t'.level[p] <= 2 { assert Here(t, p); }
    forall p, j | p in t'.tab && 0 <= j < 512 ensures EntryOk(t', p, j) { assert Here(t, p) && EntryOk(t, p, j); }
    forall c | c in t'.tab ensures UpOk(t', c) { assert Here(t, c) && UpOk(t, c); }
  }

  // The walk to a leaf table does not look at leaf entries.
  lemma SetLeafDown(t: Tree, q: nat, i: nat, pte: nat, w: nat)
    requires TreeOk(t) && Here(t, q) && t.level[q] == 0 && i < 512
    ensures Leaf(SetPte(t, q, i, pte), w) == Leaf(t, w)
  {
    assert EntryOk(t, t.root, Index(2, w));
  }

  // ----- Adding a table page -----

  function AddTable(t: Tree, p: nat, i: nat, c: nat): (r: Tree)
    requires Here(t, p) && i < 512 && t.level[p] > 0
  {
    var row: seq<nat> := t.tab[p][i := MakePte(c, PTE_V)];
    var zero: seq<nat> := seq(512, _ => 0);
    Tree(t.root, t.tab[c := zero][p := row],
         t.level[c := t.level[p] - 1], t.up[c := (p, i)])
  }

  ghost predicate CanAdd(t: Tree, p: nat, i: nat, c: nat) {
    TreeOk(t) && Here(t, p) && i < 512 && t.level[p] > 0 && !IsValid(t.tab[p][i]) && c !in t.tab
  }

  lemma AddTableEntry(t: Tree, p: nat, i: nat, c: nat, q: nat, j: nat)
    requires CanAdd(t, p, i, c) && q in AddTable(t, p, i, c).tab && j < 512
    ensures Here(AddTable(t, p, i, c), q) && EntryOk(AddTable(t, p, i, c), q, j)
  {
    PteRoundTrip(c, PTE_V);
    if q != c { assert Here(t, q) && EntryOk(t, q, j); }
  }

  lemma AddTableUp(t: Tree, p: nat, i: nat, c: nat, q: nat)
    requires CanAdd(t, p, i, c) && q in AddTable(t, p, i, c).tab
    ensures Here(AddTable(t, p, i, c), q) && AddTable(t, p, i, c).level[q] <= 2 && UpOk(AddTable(t, p, i, c), q)
  {}

  lemma AddTableTree(t: Tree, p: nat, i: nat, c: nat)
    requires CanAdd(t, p, i, c)
    ensures TreeOk(AddTable(t, p, i, c))
  {
    var t' := AddTable(t, p, i, c);
    forall q | q in t'.tab ensures Here(t', q) && t'.level[q] <= 2 && UpOk(t', q) { AddTableUp(t, p, i, c, q); }
    forall q, j | q in t'.tab && 0 <= j < 512 ensures EntryOk(t', q, j) { AddTableEntry(t, p, i, c, q, j); }
  }

  lemma AddTableFlat(t: Tree, p: nat, i: nat, c: nat, v: nat)
    requires CanAdd(t, p, i, c)
    ensures Flat(AddTable(t, p, i, c), v) == Flat(t, v)
    ensures Leaf(t, v).Some? ==> Leaf(AddTable(t, p, i, c), v) == Leaf(t, v)
  {
    PteRoundTrip(c, PTE_V);
    var t' := AddTable(t, p, i, c);
    assert EntryOk(t, t.root, Index(2, v));
    var a := Down(t.tab, t.root, Index(2, v));
    if a.Some? {
      assert EntryOk(t, a.value, Index(1, v));
      if Leaf(t, v).Some? { LeafFacts(t, v); }
    }
  }

  // perm | PTE_V
  function OrValid(perm: nat): (r: nat) {
    if perm % 2 == 1 then perm else perm + 1
  }

  lemma OrValidIs(ppn: nat, perm: nat)
    requires perm < 1024
    ensures var e := MakePte(ppn, OrValid(perm)); e % 2 == 1 && e / 1024 == ppn && e % 1024 / 2 == perm / 2
  {
    var f, h := OrValid(perm), perm / 2;
    assert f == 2 * h + 1;
    hide OrValid;
    PteRoundTrip(ppn, f);
    assert MakePte(ppn, f) == 2 * (ppn * 512 + h) + 1;
  }

  datatype Mapping = Mapped | NoMemory | Remap

  // No leaf entry looks like a pointer to a table page.
  lemma ProperIffFlat(t: Tree)
    requires TreeOk(t)
    ensures LeavesProper(t) <==> forall v: nat :: v < SPACE ==> !IsTablePtr(Flat(t, v))
  {
    if forall v: nat :: v < SPACE ==> !IsTablePtr(Flat(t, v)) {
      forall q, j | q in t.tab && Here(t, q) && t.level[q] == 0 && 0 <= j < 512 ensures !IsTablePtr(t.tab[q][j]) {
        var v := LeafEntryIsFlat(t, q, j);
      }
    }
    if LeavesProper(t) {
      forall v: nat | v < SPACE ensures !IsTablePtr(Flat(t, v)) {
        if Leaf(t, v).Some? { LeafFacts(t, v); }
      }
    }
  }

  lemma MappedProper(t: Tree, t': Tree, v0: nat, done: nat, ppn: nat, perm: nat)
    requires TreeOk(t) && TreeOk(t') && perm < 1024
    requires forall w: nat :: w < SPACE ==>
               Flat(t', w) == if v0 <= w < v0 + done then MakePte(ppn + (w - v0), OrValid(perm)) else Flat(t, w)
    ensures LeavesProper(t) && OrValid(perm) / 2 % 8 != 0 ==> LeavesProper(t')
    ensures forall w: nat :: v0 <= w < v0 + done && w < SPACE ==>
              Flat(t', w) % 2 == 1 && Flat(t', w) / 1024 == ppn + (w - v0) && Flat(t', w) % 1024 / 2 == perm / 2
  {
    forall w: nat | v0 <= w < v0 + done && w < SPACE
      ensures Flat(t', w) % 2 == 1 && Flat(t', w) / 1024 == ppn + (w - v0) && Flat(t', w) % 1024 / 2 == perm / 2
    {
      hide Flat, MakePte, OrValid;
      OrValidIs(ppn + (w - v0), perm);
    }
    if LeavesProper(t) && OrValid(perm) / 2 % 8 != 0 {
      ProperIffFlat(t);
      ProperIffFlat(t');
      hide TreeOk, Flat, LeavesProper, MakePte, OrValid;
      forall w: nat | w < SPACE ensures !IsTablePtr(Flat(t', w)) {
        if v0 <= w < v0 + done { PteRoundTrip(ppn + (w - v0), OrValid(perm)); }
      }
    }
  }

  class Vm {
    const root: nat
    var tab: Tables
    var free: seq<nat>                 // pages kalloc can hand out, in order
    ghost var level: map<nat, nat>
    ghost var up: map<nat, (nat, nat)>

    ghost function T(): (t: Tree)
      reads this
    {
      Tree(root, tab, level, up)
    }

    ghost predicate Valid()
      reads this
    {
      && TreeOk(T())
      && (forall i :: 0 <= i < |free| ==> free[i] !in tab)
      && (forall i, j :: 0 <= i < j < |free| ==> free[i] != free[j])
    }

    // uvmcreate: a zeroed root page.
    constructor (root: nat, free: seq<nat>)
      requires root !in free && forall i, j :: 0 <= i < j < |free| ==> free[i] != free[j]
      ensures Valid() && this.root == root && this.free == free && LeavesProper(T())
      ensures forall v: nat :: Flat(T(), v) == 0
    {
      var zero: seq<nat> := seq(512, _ => 0);
      this.root, tab, this.free := root, map[root := zero], free;
      level, up := map[root := 2], map[];
    }

    // walk: the table page whose entry Index(0, v) belongs to v. With alloc it creates the missing
    // table pages and fails only when none is left; no mapping changes either way.
    method Walk(v: nat, alloc: bool) returns (r: Option<nat>)
      requires Valid() && v < MAXVPN
      modifies this
      ensures Valid()
      ensures forall w: nat :: Flat(T(), w) == Flat(old(T()), w)
      ensures forall w: nat :: Leaf(old(T()), w).Some? ==> Leaf(T(), w) == Leaf(old(T()), w)
      ensures Leaf(T(), v) == r && (r.None? && alloc ==> free == [])
      ensures !alloc ==> T() == old(T()) && free == old(free)
    {
      hide TreeOk, Flat, Leaf, EntryOk, UpOk;
      ghost var t0 := T();
      var p := root;
      var lv := 2;
      RootHere(T(), v);
      while lv > 0
        invariant 0 <= lv <= 2 && Valid()
        invariant OnPath(T(), v, lv, p)
        invariant forall w: nat :: Flat(T(), w) == Flat(t0, w)
        invariant forall w: nat :: Leaf(t0, w).Some? ==> Leaf(T(), w) == Leaf(t0, w)
        invariant !alloc ==> T() == t0 && free == old(free)
      {
        PathHere(T(), v, lv, p);
        var pte := tab[p][Index(lv, v)];
        if IsValid(pte) {
          PathDown(T(), v, lv, p);
          p := PtePage(pte);
        } else {
          PathEnds(T(), v, lv, p);
          if !alloc || free == [] {
            return None;
          }
          var c := free[0];
          ghost var t1 := T();
          forall w: nat ensures Flat(AddTable(t1, p, Index(lv, v), c), w) == Flat(t1, w)
                    && (Leaf(t1, w).Some? ==> Leaf(AddTable(t1, p, Index(lv, v), c), w) == Leaf(t1, w)) {
            AddTableFlat(t1, p, Index(lv, v), c, w);
          }
          AddTableTree(t1, p, Index(lv, v), c);
          PathAdded(t1, v, lv, p, c);
          free := free[1..];
          var zero: seq<nat> := seq(512, _ => 0);
          var row: seq<nat> := tab[p][Index(lv, v) := MakePte(c, PTE_V)];
          tab := tab[c := zero][p := row];
          level, up := level[c := level[p] - 1], up[c := (p, Index(lv, v))];
          assert T() == AddTable(t1, p, Index(lv, v), c);
          p := c;
        }
        lv := lv - 1;
      }
      PathLeaf(T(), v, p);
      r := Some(p);
    }

    // The entry for v is overwritten; walk has found its table page q.
    method WriteLeaf(v: nat, q: nat, pte: nat)
      requires Valid() && v < SPACE && Leaf(T(), v) == Some(q)
      modifies this`tab
      ensures Valid() && q in old(tab) && tab.Keys == old(tab).Keys
      ensures forall w: nat :: w < SPACE ==> Flat(T(), w) == if w == v then pte else Flat(old(T()), w)
      ensures forall w: nat :: Leaf(T(), w) == Leaf(old(T()), w)
    {
      hide TreeOk, Flat, Leaf, EntryOk, UpOk;
      ghost var t0 := T();
      LeafFacts(t0, v);
      SetLeaf(t0, v, pte);
      forall w: nat ensures Leaf(SetPte(t0, q, Index(0, v), pte), w) == Leaf(t0, w) {
        SetLeafDown(t0, q, Index(0, v), pte, w);
      }
      var row: seq<nat> := tab[q][Index(0, v) := pte];
      tab := tab[q := row];
      assert T() == SetPte(t0, q, Index(0, v), pte);
    }

    // mappages on pages v0 .. v0+n-1: the first `done` of them are mapped. It stops at a page that is mapped
    // already, which is its panic, or when there is no page left for a table.
    method MapPages(v0: nat, n: nat, ppn: nat, perm: nat) returns (r: Mapping, ghost done: nat)
      requires Valid() && 1 <= n && v0 + n <= MAXVPN && perm < 1024
      modifies this
      ensures Valid() && done <= n && (r.Mapped? <==> done == n) && (r.NoMemory? ==> free == [])
      ensures r.Remap? <==> done < n && IsValid(Flat(old(T()), v0 + done))
      ensures forall w: nat :: v0 <= w < v0 + done ==> !IsValid(Flat(old(T()), w)) && Leaf(T(), w).Some?
      ensures forall w: nat :: w < SPACE ==>
                Flat(T(), w) == if v0 <= w < v0 + done then MakePte(ppn + (w - v0), OrValid(perm))
                    else Flat(old(T()), w)
      // Valid, with the page number from bit 10 on and the permissions asked for.
      ensures forall w: nat :: v0 <= w < v0 + done ==>
                && Flat(T(), w) % 2 == 1 && Flat(T(), w) / 1024 == ppn + (w - v0)
                && Flat(T(), w) % 1024 / 2 == perm / 2
      ensures forall w: nat :: Leaf(old(T()), w).Some? ==> Leaf(T(), w).Some?
      ensures LeavesProper(old(T())) && OrValid(perm) / 2 % 8 != 0 ==> LeavesProper(T())
    {
      hide TreeOk, Leaf, EntryOk, UpOk, LeavesProper, IsTablePtr;
      var a := v0;
      ghost var t0 := T();
      while a < v0 + n
        invariant v0 <= a <= v0 + n && Valid()
        invariant forall w: nat :: w < SPACE ==>
                    Flat(T(), w) == if v0 <= w < a then MakePte(ppn + (w - v0), OrValid(perm)) else Flat(t0, w)
        invariant forall w: nat :: v0 <= w < a ==> !IsValid(Flat(t0, w)) && Leaf(T(), w).Some?
        invariant forall w: nat :: Leaf(t0, w).Some? ==> Leaf(T(), w).Some?
      {
        ghost var t1 := T();
        var q := Walk(a, true);
        if q.None? {
          if IsValid(Flat(t1, a)) { MappedHasLeaf(T(), a); }
          MappedProper(t0, T(), v0, a - v0, ppn, perm);
          return NoMemory, a - v0;
        }
        LeafFacts(T(), a);
        if IsValid(tab[q.value][Index(0, a)]) {
          MappedProper(t0, T(), v0, a - v0, ppn, perm);
          return Remap, a - v0;
        }
        WriteLeaf(a, q.value, MakePte(ppn + (a - v0), OrValid(perm)));
        a := a + 1;
      }
      MappedProper(t0, T(), v0, n, ppn, perm);
      r, done := Mapped, n;
    }

    // uvmunmap with do_free: returns the pages to free, in order. Neither panic can occur when every
    // page is mapped.
    method UvmUnmap(v0: nat, n: nat) returns (freed: seq<nat>)
      requires Valid() && v0 + n <= MAXVPN
      requires forall v: nat :: v0 <= v < v0 + n ==> IsValid(Flat(T(), v)) && PteFlags(Flat(T(), v)) != PTE_V
      modifies this
      ensures Valid() && tab.Keys == old(tab).Keys && free == old(free)
      ensures LeavesProper(old(T())) ==> LeavesProper(T())
      ensures forall w: nat :: w < SPACE ==> Flat(T(), w) == if v0 <= w < v0 + n then 0 else Flat(old(T()), w)
      ensures |freed| == n && forall i :: 0 <= i < n ==> freed[i] == PtePage(Flat(old(T()), v0 + i))
    {
      hide TreeOk, Leaf, EntryOk, UpOk;
      freed := [];
      var a := v0;
      ghost var t0 := T();
      while a < v0 + n
        invariant v0 <= a <= v0 + n && Valid() && tab.Keys == old(tab).Keys && free == old(free)
        invariant forall w: nat :: w < SPACE ==> Flat(T(), w) == if v0 <= w < a then 0 else Flat(t0, w)
        invariant |freed| == a - v0 && forall i :: 0 <= i < |freed| ==> freed[i] == PtePage(Flat(t0, v0 + i))
      {
        assert IsValid(Flat(T(), a));
        MappedHasLeaf(T(), a);
        var q := Walk(a, false);
        LeafFacts(T(), a);
        freed := freed + [PtePage(tab[q.value][Index(0, a)])];
        WriteLeaf(a, q.value, 0);
        a := a + 1;
      }
      if LeavesProper(t0) {
        ProperIffFlat(t0);
        ProperIffFlat(T());
      }
    }

    // freewalk on the subtree of p, whose contents are still those of tree t. False stands for the
    // panic on a leaf. Otherwise every table page of the subtree is freed exactly once.
    method FreeWalk(p: nat, ghost t: Tree) returns (ok: bool, freed: seq<nat>)
      requires TreeOk(t) && LeavesProper(t) && Here(t, p)
      requires forall q :: q in Sub(t, p) ==> q in tab && tab[q] == t.tab[q]
      modifies this`tab
      ensures ok <==> NoLeafBelow(t, p)
      ensures ok ==> multiset(freed) == multiset(Sub(t, p))
      ensures ok ==> tab.Keys == old(tab).Keys - Sub(t, p) && forall q :: q in tab ==> tab[q] == old(tab)[q]
      decreases t.level[p]
    {
      hide TreeOk, EntryOk, UpOk, LeavesProper, NoLeafBelow, Sub, SubUpto;
      freed := [];
      var i := 0;
      SubStart(t, p);
      while i < 512
        invariant 0 <= i <= 512 && p in tab && |tab[p]| == 512
        invariant tab.Keys == old(tab).Keys - SubUpto(t, p, i)
        invariant forall q :: q in tab && q != p ==> tab[q] == old(tab)[q]
        invariant forall j :: i <= j < 512 ==> tab[p][j] == t.tab[p][j]
        invariant multiset(freed) == multiset(SubUpto(t, p, i))
        invariant NoLeafUpto(t, p, i)
      {
        var pte := tab[p][i];
        if IsTablePtr(pte) {
          SubChild(t, p, i);
          var below;
          ok, below := FreeWalk(PtePage(pte), t);
          NoLeafChild(t, p, i);
          if !ok { return; }
          freed := freed + below;
          var row: seq<nat> := tab[p][i := 0];
          tab := tab[p := row];
        } else if IsValid(pte) {
          LeafPanics(t, p, i);
          return false, freed;
        } else {
          SubSkip(t, p, i);
        }
        i := i + 1;
      }
      SubEnd(t, p);
      freed := freed + [p];
      tab := tab - {p};
      ok := true;
    }

    // uvmfree when the mapped pages are exactly 0 .. n-1: freewalk does not panic, every user page
    // is returned once per mapping and every table page once.
    method UvmFree(n: nat) returns (pages: seq<nat>, tables: seq<nat>)
      requires Valid() && LeavesProper(T()) && n <= MAXVPN
      requires forall v: nat :: v < SPACE ==> (IsValid(Flat(T(), v)) <==> v < n)
      modifies this
      ensures |pages| == n && forall i :: 0 <= i < n ==> pages[i] == PtePage(Flat(old(T()), i))
      ensures multiset(tables) == multiset(old(tab).Keys) && tab == map[]
    {
      hide TreeOk, EntryOk, UpOk, LeavesProper, Leaf, Flat;
      ghost var keys := tab.Keys;
      forall v: nat | v < n ensures PteFlags(Flat(T(), v)) != PTE_V {
        ProperLeaf(T(), v);
      }
      pages := UvmUnmap(0, n);
      ghost var t := T();
      EmptyIsProper(t);
      AllBelowRoot(t);
      NoLeafWhenEmpty(t);
      var ok;
      RootHere(t, 0);
      PathHere(t, 0, 2, root);
      ok, tables := FreeWalk(root, t);
      assert tab.Keys == {};
    }
  }

  lemma ProperLeaf(t: Tree, v: nat)
    requires TreeOk(t) && LeavesProper(t) && IsValid(Flat(t, v))
    ensures PteFlags(Flat(t, v)) != PTE_V
  {
    MappedHasLeaf(t, v);
    LeafFacts(t, v);
  }

  // The virtual page of entry j of leaf table q.
  lemma LeafEntryIsFlat(t: Tree, q: nat, j: nat) returns (v: nat)
    requires TreeOk(t) && Here(t, q) && t.level[q] == 0 && j < 512
    ensures v < SPACE && Flat(t, v) == t.tab[q][j]
  {
    assert UpOk(t, q);
    var (m, i1) := t.up[q];
    assert UpOk(t, m);
    var (r, i2) := t.up[m];
    assert UpOk(t, r);
    v := (i2 * 512 + i1) * 512 + j;
    assert v / 512 == i2 * 512 + i1;
    assert Index(2, v) == i2 && Index(1, v) == i1 && Index(0, v) == j;
  }

  lemma NoLeafWhenEmpty(t: Tree)
    requires TreeOk(t) && forall v: nat :: v < SPACE ==> !IsValid(Flat(t, v))
    ensures NoLeafBelow(t, t.root)
  {
    forall q | q in Sub(t, t.root) ensures NoLeafIn(t, q) {
      if Here(t, q) && t.level[q] == 0 {
        forall j | 0 <= j < 512 ensures !IsValid(t.tab[q][j]) {
          var v := LeafEntryIsFlat(t, q, j);
        }
      }
    }
  }

  lemma EmptyIsProper(t: Tree)
    requires TreeOk(t) && forall v: nat :: v < SPACE ==> !IsValid(Flat(t, v))
    ensures LeavesProper(t)
  {
    forall q, j | q in t.tab && Here(t, q) && t.level[q] == 0 && 0 <= j < 512 ensures !IsTablePtr(t.tab[q][j]) {
      var v := LeafEntryIsFlat(t, q, j);
    }
  }

  lemma AllBelowRoot(t: Tree)
    requires TreeOk(t)
    ensures Sub(t, t.root) == t.tab.Keys
  {}

  // ----- Subtrees -----

  // q is p, a child of p or a grandchild of p.
  predicate Below(t: Tree, q: nat, p: nat) {
    q == p || (q != t.root && q in t.up
               && (t.up[q].0 == p || (t.up[q].0 != t.root && t.up[q].0 in t.up && t.up[t.up[q].0].0 == p)))
  }

  // The entry of p through which q hangs.
  function Via(t: Tree, q: nat, p: nat): (r: nat)
    requires Below(t, q, p) && q != p
  {
    if t.up[q].0 == p then t.up[q].1 else t.up[t.up[q].0].1
  }

  ghost function Sub(t: Tree, p: nat): (r: set<nat>) {
    set q | q in t.tab && Below(t, q, p) :: q
  }

  ghost function SubUpto(t: Tree, p: nat, i: nat): (r: set<nat>) {
    set q | q in t.tab && Below(t, q, p) && q != p && Via(t, q, p) < i :: q
  }

  ghost predicate LeavesProper(t: Tree) {
    forall q, j :: q in t.tab && Here(t, q) && t.level[q] == 0 && 0 <= j < 512 ==> !IsTablePtr(t.tab[q][j])
  }

  ghost predicate NoLeafIn(t: Tree, q: nat) {
    Here(t, q) && t.level[q] == 0 ==> forall j :: 0 <= j < 512 ==> !IsValid(t.tab[q][j])
  }

  ghost predicate NoLeafBelow(t: Tree, p: nat) {
    forall q :: q in Sub(t, p) ==> NoLeafIn(t, q)
  }

  // What freewalk has seen after i entries of p.
  ghost predicate NoLeafUpto(t: Tree, p: nat, i: nat) {
    && (forall q :: q in SubUpto(t, p, i) ==> NoLeafIn(t, q))
    && (Here(t, p) && t.level[p] == 0 ==> forall j :: 0 <= j < i && j < 512 ==> !IsValid(t.tab[p][j]))
  }

  lemma HangsFrom(t: Tree, q: nat, p: nat)
    requires TreeOk(t) && q in t.tab && Here(t, p) && Below(t, q, p) && q != p
    ensures Here(t, q) && t.level[p] > t.level[q] && Via(t, q, p) < 512
    ensures IsValid(t.tab[p][Via(t, q, p)])
    ensures Below(t, q, PtePage(t.tab[p][Via(t, q, p)]))
  {}

  lemma ChildSubtree(t: Tree, p: nat, i: nat, q: nat)
    requires TreeOk(t) && Here(t, p) && t.level[p] > 0 && i < 512 && IsValid(t.tab[p][i])
    requires q in t.tab && Below(t, q, PtePage(t.tab[p][i]))
    ensures Below(t, q, p) && q != p && Via(t, q, p) == i
  {
    var c := PtePage(t.tab[p][i]);
    assert EntryOk(t, p, i);
    if q != c {
      HangsFrom(t, q, c);
      assert UpOk(t, q);
      assert UpOk(t, t.up[q].0);
    }
  }

  lemma SubStart(t: Tree, p: nat)
    requires TreeOk(t) && Here(t, p)
    ensures SubUpto(t, p, 0) == {} && NoLeafUpto(t, p, 0) && p in Sub(t, p)
  {}

  lemma SubSkip(t: Tree, p: nat, i: nat)
    requires TreeOk(t) && Here(t, p) && i < 512 && !IsValid(t.tab[p][i])
    ensures SubUpto(t, p, i + 1) == SubUpto(t, p, i)
    ensures NoLeafUpto(t, p, i) ==> NoLeafUpto(t, p, i + 1)
  {}

  lemma SubChild(t: Tree, p: nat, i: nat)
    requires TreeOk(t) && LeavesProper(t) && Here(t, p) && i < 512 && IsTablePtr(t.tab[p][i])
    ensures var c := PtePage(t.tab[p][i]);
            && Here(t, c) && t.level[c] < t.level[p] && c != p
            && SubUpto(t, p, i + 1) == SubUpto(t, p, i) + Sub(t, c)
            && SubUpto(t, p, i) !! Sub(t, c)
            && p !in Sub(t, c) && Sub(t, c) <= Sub(t, p)
  {
    var c := PtePage(t.tab[p][i]);
    assert EntryOk(t, p, i);
    forall q | q in Sub(t, c) ensures Below(t, q, p) && q != p && Via(t, q, p) == i {
      ChildSubtree(t, p, i, q);
    }
    forall q | q in SubUpto(t, p, i + 1) && q !in SubUpto(t, p, i) ensures q in Sub(t, c) {
      HangsFrom(t, q, p);
    }
    assert SubUpto(t, p, i) <= SubUpto(t, p, i + 1);
  }

  lemma NoLeafChild(t: Tree, p: nat, i: nat)
    requires TreeOk(t) && LeavesProper(t) && Here(t, p) && i < 512 && IsTablePtr(t.tab[p][i])
    requires NoLeafUpto(t, p, i)
    ensures NoLeafBelow(t, PtePage(t.tab[p][i])) ==> NoLeafUpto(t, p, i + 1)
    ensures !NoLeafBelow(t, PtePage(t.tab[p][i])) ==> !NoLeafBelow(t, p)
  {
    hide Sub, SubUpto, TreeOk;
    SubChild(t, p, i);
  }

  lemma LeafPanics(t: Tree, p: nat, i: nat)
    requires TreeOk(t) && Here(t, p) && i < 512 && IsValid(t.tab[p][i]) && !IsTablePtr(t.tab[p][i])
    ensures !NoLeafBelow(t, p)
  {
    assert EntryOk(t, p, i);
    assert p in Sub(t, p) && !NoLeafIn(t, p);
  }

  lemma SubEnd(t: Tree, p: nat)
    requires TreeOk(t) && Here(t, p) && NoLeafUpto(t, p, 512)
    ensures Sub(t, p) == SubUpto(t, p, 512) + {p} && p !in SubUpto(t, p, 512)
    ensures NoLeafBelow(t, p)
  {}

  lemma MappedHasLeaf(t: Tree, v: nat)
    requires IsValid(Flat(t, v))
    ensures Leaf(t, v).Some?
  {}

  // p is where walk stands with lv levels to go.
  ghost predicate OnPath(t: Tree, v: nat, lv: int, p: nat) {
    if lv == 2 then p == t.root
    else if lv == 1 then Down(t.tab, t.root, Index(2, v)) == Some(p)
    else Leaf(t, v) == Some(p)
  }

  lemma RootHere(t: Tree, v: nat)
    requires TreeOk(t)
    ensures OnPath(t, v, 2, t.root)
  {}

  lemma PathHere(t: Tree, v: nat, lv: nat, p: nat)
    requires TreeOk(t) && 1 <= lv <= 2 && OnPath(t, v, lv, p)
    ensures Here(t, p) && t.level[p] == lv
  {
    assert EntryOk(t, t.root, Index(2, v));
  }

  lemma PathDown(t: Tree, v: nat, lv: nat, p: nat)
    requires TreeOk(t) && 1 <= lv <= 2 && OnPath(t, v, lv, p) && Here(t, p)
    requires IsValid(t.tab[p][Index(lv, v)])
    ensures OnPath(t, v, lv - 1, PtePage(t.tab[p][Index(lv, v)]))
  {}

  lemma PathEnds(t: Tree, v: nat, lv: nat, p: nat)
    requires TreeOk(t) && 1 <= lv <= 2 && OnPath(t, v, lv, p) && Here(t, p)
    requires !IsValid(t.tab[p][Index(lv, v)])
    ensures Leaf(t, v) == None
  {}

  lemma PathAdded(t: Tree, v: nat, lv: nat, p: nat, c: nat)
    requires TreeOk(t) && 1 <= lv <= 2 && OnPath(t, v, lv, p) && Here(t, p) && t.level[p] == lv
    requires !IsValid(t.tab[p][Index(lv, v)]) && c !in t.tab
    ensures OnPath(AddTable(t, p, Index(lv, v), c), v, lv - 1, c)
  {
    PteRoundTrip(c, PTE_V);
    if lv == 1 { RootIsAbove(t, p); }
    hide TreeOk, EntryOk, UpOk, MakePte, PtePage, IsValid, Index;
  }

  lemma RootIsAbove(t: Tree, p: nat)
    requires TreeOk(t) && p in t.level && t.level[p] == 1
    ensures p != t.root
  {}

  lemma PathLeaf(t: Tree, v: nat, p: nat)
    requires TreeOk(t) && OnPath(t, v, 0, p)
    ensures Leaf(t, v) == Some(p)
  {}
}
