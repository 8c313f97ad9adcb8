/**
 The physical page allocator with reference counts (kernel/kalloc.c).

 Page numbers stand for page addresses. `State` and `Next` describe the critical sections of
 kmem.lock: kfree has two, the decrement and add2FL, and other harts may run between them. The class
 Kmem is the allocator itself; each of its methods is proved to be one of those steps.
 */
module Kalloc {
  import opened Wrappers

  const PGSIZE: nat := 4096
  const PHYSTOP_PAGE: nat := 0x88000   // PHYSTOP / PGSIZE

  type Page = p: seq<int> | |p| == PGSIZE witness seq(PGSIZE, _ => 0)

  function Filled(v: int): (r: Page) {
    seq(PGSIZE, _ => v)
  }

  // refs: references held by page tables and kernel code. leaked: counts raised for a reference
  // that was then never created. pending: pages inside kfree between the decrement and add2FL.
  datatype State = State(lo: nat, refcnt: seq<int>, free: seq<nat>,
                         pending: multiset<nat>, refs: multiset<nat>, leaked: multiset<nat>)

  datatype Act =
    | Alloc              // kalloc with a page available
    | Increase(p: nat)   // increase_cnt by a holder of p, for a new reference
    | Leak(p: nat)       // increase_cnt by a holder of p whose new reference never comes to be
    | Decrement(p: nat)  // kfree's first critical section, by a holder of p
    | Add(p: nat)        // add2FL

  predicate Managed(s: State, p: nat) {
    s.lo <= p < |s.refcnt|
  }

  predicate Enabled(s: State, a: Act) {
    match a
    case Alloc => s.free != []
    case Increase(p) => p in s.refs
    case Leak(p) => p in s.refs
    case Decrement(p) => p in s.refs
    case Add(p) => p in s.pending
  }

  // The panics: a page on the free list with a count; a count below one; an address outside RAM.
  predicate Panics(s: State, a: Act)
    requires Enabled(s, a)
  {
    match a
    case Alloc => s.free[0] >= |s.refcnt| || s.refcnt[s.free[0]] != 0
    case Increase(p) => p >= |s.refcnt| || s.refcnt[p] < 1
    case Leak(p) => p >= |s.refcnt| || s.refcnt[p] < 1
    case Decrement(p) => !Managed(s, p) || s.refcnt[p] < 1
    case Add(_) => false
  }

  function Next(s: State, a: Act): (r: State)
    requires Enabled(s, a) && !Panics(s, a)
  {
    match a
    case Alloc =>
      var p := s.free[0];
      s.(refcnt := s.refcnt[p := 1], free := s.free[1..], refs := s.refs + multiset{p})
    case Increase(p) => s.(refcnt := s.refcnt[p := s.refcnt[p] + 1], refs := s.refs + multiset{p})
    case Leak(p) => s.(refcnt := s.refcnt[p := s.refcnt[p] + 1], leaked := s.leaked + multiset{p})
    case Decrement(p) =>
      var c := s.refcnt[p] - 1;
      s.(refcnt := s.refcnt[p := c], refs := s.refs - multiset{p},
         pending := if c == 0 then s.pending + multiset{p} else s.pending)
    case Add(p) => s.(free := [p] + s.free, pending := s.pending - multiset{p})
  }

  // The count is the number of references plus what was leaked. A page with count zero is on the
  // free list once or inside one kfree, never both; any other page is on neither.
  ghost predicate PageOk(s: State, p: nat)
    requires p < |s.refcnt|
  {
    && s.refcnt[p] == s.refs[p] + s.leaked[p]
    && multiset(s.free)[p] + s.pending[p] == if s.refcnt[p] == 0 then 1 else 0
  }

  ghost predicate Inv(s: State) {
    && (forall p: nat :: p in s.refs || p in s.leaked || p in s.free || p in s.pending ==> Managed(s, p))
    && (forall p: nat :: Managed(s, p) ==> PageOk(s, p))
  }

  lemma AllocKeepsInv(s: State)
    requires Inv(s) && s.free != []
    ensures !Panics(s, Alloc) && Inv(Next(s, Alloc)) && s.refs[s.free[0]] == 0
  {
    var p := s.free[0];
    assert Managed(s, p) && PageOk(s, p);
    assert s.free == [p] + s.free[1..];
    assert multiset(s.free) == multiset{p} + multiset(s.free[1..]);
    var t := Next(s, Alloc);
    forall q: nat | Managed(t, q) ensures PageOk(t, q) {
      assert Managed(s, q) && PageOk(s, q);
    }
  }

  lemma StepKeepsInv(s: State, a: Act)
    requires Inv(s) && Enabled(s, a)
    ensures !Panics(s, a)
    ensures Inv(Next(s, a))
    ensures a.Alloc? ==> s.refs[s.free[0]] == 0
  {
    if a.Alloc? {
      AllocKeepsInv(s);
    } else {
      assert Managed(s, a.p) && PageOk(s, a.p);
      var t := Next(s, a);
      if a.Add? { assert multiset([a.p] + s.free) == multiset{a.p} + multiset(s.free); }
      forall q: nat | Managed(t, q) ensures PageOk(t, q) {
        assert Managed(s, q) && PageOk(s, q);
      }
    }
  }

  ghost predicate RunOk(s: State, run: seq<Act>)
    decreases |run|
  {
    run == [] || (Enabled(s, run[0]) && !Panics(s, run[0]) && RunOk(Next(s, run[0]), run[1..]))
  }

  ghost function Run(s: State, run: seq<Act>): (r: State)
    requires RunOk(s, run)
    decreases |run|
  {
    if run == [] then s else Run(Next(s, run[0]), run[1..])
  }

  lemma {:induction false} RunKeepsInv(s: State, run: seq<Act>)
    requires Inv(s) && RunOk(s, run)
    ensures Inv(Run(s, run))
    decreases |run|
  {
    if run != [] {
      StepKeepsInv(s, run[0]);
      RunKeepsInv(Next(s, run[0]), run[1..]);
    }
  }

  // A step that leaks nothing.
  predicate NoLeak(run: seq<Act>) {
    forall i :: 0 <= i < |run| ==> !run[i].Leak?
  }

  lemma {:induction false} LeakedOnlyByLeak(s: State, run: seq<Act>)
    requires RunOk(s, run) && NoLeak(run)
    ensures Run(s, run).leaked == s.leaked
    decreases |run|
  {
    if run != [] {
      LeakedOnlyByLeak(Next(s, run[0]), run[1..]);
    }
  }

  // Over every interleaving of the critical sections: no panic is reachable, no page that anything
  // refers to is ever handed out, the free list has no duplicates and only pages of count zero,
  // and counts are at least the references, with equality on runs without a leak.
  lemma EveryRunConserves(s: State, run: seq<Act>, a: Act)
    requires Inv(s) && s.leaked == multiset{} && RunOk(s, run) && Enabled(Run(s, run), a)
    ensures var t := Run(s, run);
            && !Panics(t, a)
            && (a.Alloc? ==> t.free[0] !in t.refs)
            && (forall i, j :: 0 <= i < j < |t.free| ==> t.free[i] != t.free[j])
            && (forall p: nat :: p in t.free ==> Managed(t, p) && t.refcnt[p] == 0 && p !in t.pending)
            && (forall p: nat :: Managed(t, p) && t.refcnt[p] == 0 ==> p in t.free || t.pending[p] == 1)
            && (forall p: nat :: Managed(t, p) ==> t.refcnt[p] >= t.refs[p])
            && (NoLeak(run) ==> forall p: nat :: Managed(t, p) ==> t.refcnt[p] == t.refs[p])
  {
    RunKeepsInv(s, run);
    var t := Run(s, run);
    StepKeepsInv(t, a);
    if NoLeak(run) { LeakedOnlyByLeak(s, run); }
    FreeListFacts(t);
    forall p: nat | Managed(t, p) ensures t.refcnt[p] == t.refs[p] + t.leaked[p] { assert PageOk(t, p); }
  }

  lemma FreeListFacts(s: State)
    requires Inv(s)
    ensures forall i, j :: 0 <= i < j < |s.free| ==> s.free[i] != s.free[j]
    ensures forall p: nat :: p in s.free ==> Managed(s, p) && s.refcnt[p] == 0 && p !in s.pending
    ensures forall p: nat :: Managed(s, p) && s.refcnt[p] == 0 ==> p in s.free || s.pending[p] == 1
  {
    forall p: nat | p in s.free ensures Managed(s, p) && s.refcnt[p] == 0 && p !in s.pending {
      assert p in multiset(s.free) && PageOk(s, p);
    }
    forall i, j | 0 <= i < j < |s.free| ensures s.free[i] != s.free[j] {
      assert Managed(s, s.free[i]) && PageOk(s, s.free[i]);
      if s.free[i] == s.free[j] {
        TwiceInMultiset(s.free, i, j);
      }
    }
    forall p: nat | Managed(s, p) && s.refcnt[p] == 0 ensures p in s.free || s.pending[p] == 1 {
      assert PageOk(s, p);
      if p !in s.free { assert p !in multiset(s.free); }
    }
  }

  lemma TwiceInMultiset(f: seq<nat>, i: nat, j: nat)
    requires i < j < |f| && f[i] == f[j]
    ensures multiset(f)[f[i]] >= 2
  {
    assert f == f[..j] + [f[j]] + f[j + 1..];
    assert f[i] in multiset(f[..j]);
  }

  // ----- The allocator -----

  // The free list threads through the first word of each free page; -1 is the null pointer.
  function Link(chain: seq<nat>, i: nat): (r: int) {
    if i < |chain| then chain[i] else -1
  }

  ghost predicate ChainOk(head: int, next: seq<int>, chain: seq<nat>) {
    && (forall i :: 0 <= i < |chain| ==> chain[i] < |next|)
    && head == Link(chain, 0)
    && (forall i :: 0 <= i < |chain| ==> next[chain[i]] == Link(chain, i + 1))
  }

  lemma ChainHead(head: int, next: seq<int>, chain: seq<nat>)
    requires ChainOk(head, next, chain)
    ensures head == -1 <==> chain == []
  {}

  lemma ChainPop(head: int, next: seq<int>, chain: seq<nat>)
    requires ChainOk(head, next, chain) && chain != []
    ensures 0 <= head < |next| && head == chain[0]
    ensures ChainOk(next[head], next, chain[1..])
  {}

  lemma ChainPush(head: int, next: seq<int>, chain: seq<nat>, p: nat)
    requires ChainOk(head, next, chain) && p < |next| && p !in chain
    ensures ChainOk(p, next[p := head], [p] + chain)
  {}

  // Scribbling on a page that is not on the list leaves the list alone.
  lemma ChainAway(head: int, next: seq<int>, chain: seq<nat>, p: nat, w: int)
    requires ChainOk(head, next, chain) && p < |next| && p !in chain
    ensures ChainOk(head, next[p := w], chain)
  {}

  lemma HeadFacts(s: State)
    requires Inv(s) && s.free != []
    ensures Managed(s, s.free[0]) && s.free[0] !in s.free[1..]
  {
    FreeListFacts(s);
  }

  // Inside kfree a page is on no list and has count zero; freeing it is as if its count had been one.
  lemma PendingPage(s: State, p: nat)
    requires Inv(s) && p in s.pending
    ensures Managed(s, p) && s.refcnt[p] == 0 && p !in s.free && p !in s.refs
  {}

  // The pages that nobody has a reference to.
  ghost function Unreferenced(refcnt: seq<int>, lo: nat): (r: set<nat>) {
    set p: nat | lo <= p < |refcnt| && refcnt[p] == 0
  }

  lemma {:induction false} ListedOnce(l: seq<nat>, s: set<nat>)
    requires forall p: nat :: multiset(l)[p] == if p in s then 1 else 0
    ensures |l| == |s|
    decreases |l|
  {
    if l == [] {
      assert forall p: nat :: multiset(l)[p] == 0;
      assert s == {};
    } else {
      assert l == [l[0]] + l[1..];
      forall p: nat ensures multiset(l[1..])[p] == if p in s - {l[0]} then 1 else 0 {
        assert multiset(l)[p] == if p in s then 1 else 0;
      }
      assert multiset(l)[l[0]] == 1;
      ListedOnce(l[1..], s - {l[0]});
    }
  }

  // Outside kfree, the free list is as long as there are pages without a reference.
  lemma FreeCount(s: State)
    requires Inv(s) && s.pending == multiset{}
    ensures |s.free| == |Unreferenced(s.refcnt, s.lo)|
  {
    forall p: nat ensures multiset(s.free)[p] == if p in Unreferenced(s.refcnt, s.lo) then 1 else 0 {
      if Managed(s, p) { assert PageOk(s, p); }
    }
    ListedOnce(s.free, Unreferenced(s.refcnt, s.lo));
  }

  lemma ReferencedPage(s: State, p: nat)
    requires Inv(s) && p in s.refs
    ensures Managed(s, p) && s.refcnt[p] == s.refs[p] + s.leaked[p]
  {}

  lemma BootInv(s: State)
    requires s.lo <= |s.refcnt| && forall i :: 0 <= i < |s.refcnt| ==> s.refcnt[i] == 0
    requires s.free == [] && s.pending == Pages(s.lo, |s.refcnt|) && s.refs == s.leaked == multiset{}
    ensures Inv(s)
  {}

  lemma PagesStep(lo: nat, hi: nat)
    requires lo < hi
    ensures lo in Pages(lo, hi) && Pages(lo, hi) - multiset{lo} == Pages(lo + 1, hi)
  {}

  lemma PagesEnd(hi: nat)
    ensures Pages(hi, hi) == multiset{}
  {}

  lemma ChainEmpty(next: seq<int>)
    ensures ChainOk(-1, next, [])
  {}

  ghost function Pages(lo: nat, hi: nat): (r: multiset<nat>)
    ensures forall p: nat :: r[p] == if lo <= p < hi then 1 else 0
    decreases hi - lo
  {
    if lo >= hi then multiset{} else multiset{lo} + Pages(lo + 1, hi)
  }

  const JUNK: int := 0x0505050505050505   // what kalloc leaves in the first word
  const FREED: int := 0x0101010101010101  // what kfree leaves there

  class Kmem {
    const lo: nat              // first page after the kernel image
    var refcnt: seq<int>
    var head: int
    var next: seq<int>
    var mem: seq<Page>
    ghost var chain: seq<nat>
    ghost var pending: multiset<nat>
    ghost var refs: multiset<nat>
    ghost var leaked: multiset<nat>

    ghost function Abs(): (s: State)
      reads this
    {
      State(lo, refcnt, chain, pending, refs, leaked)
    }

    ghost predicate Valid()
      reads this
    {
      && lo <= PHYSTOP_PAGE == |refcnt| == |next| == |mem|
      && ChainOk(head, next, chain)
      && Inv(Abs())
    }

    // kinit. Before freerange reaches them, pages are like pages inside kfree: count zero, on no list.
    constructor (lo: nat)
      requires lo <= PHYSTOP_PAGE
      ensures Valid() && this.lo == lo && |refcnt| == 0x8800_0000 / 4096
      ensures refs == multiset{} && leaked == multiset{} && pending == multiset{}
    {
      hide Inv, ChainOk, Pages;
      this.lo := lo;
      refcnt := seq(PHYSTOP_PAGE, _ => 0);
      next := seq(PHYSTOP_PAGE, _ => 0);
      mem := seq(PHYSTOP_PAGE, _ => Filled(0));
      head, chain := -1, [];
      pending, refs, leaked := Pages(lo, PHYSTOP_PAGE), multiset{}, multiset{};
      new;
      BootInv(Abs());
      ChainEmpty(next);
      Freerange();
    }

    // freerange: every page from the end of the kernel to PHYSTOP is freed once.
    method Freerange()
      requires Valid() && pending == Pages(lo, PHYSTOP_PAGE) && refs == multiset{} && leaked == multiset{}
      modifies this`refcnt, this`mem, this`head, this`next, this`chain, this`pending
      ensures Valid() && pending == multiset{}
    {
      hide Inv, ChainOk, Pages;
      var p := lo;
      while p < PHYSTOP_PAGE
        invariant lo <= p <= PHYSTOP_PAGE && Valid()
        invariant pending == Pages(p, PHYSTOP_PAGE)
      {
        ghost var c := refcnt;
        PagesStep(p, PHYSTOP_PAGE);
        PendingPage(Abs(), p);
        refcnt := refcnt[p := 1];
        refcnt := refcnt[p := refcnt[p] - 1];
        assert refcnt == c;
        Junkfill(p, 1, FREED);
        Add2FL(p);
        p := p + 1;
      }
      PagesEnd(PHYSTOP_PAGE);
    }

    // JUNKFILL of a page that is on no list.
    method Junkfill(p: nat, v: int, word: int)
      requires Valid() && p < PHYSTOP_PAGE && p !in chain
      modifies this`mem, this`next
      ensures Valid()
      ensures mem == old(mem)[p := Filled(v)]
    {
      hide Inv, ChainOk;
      ChainAway(head, next, chain, p, word);
      mem := mem[p := Filled(v)];
      next := next[p := word];
    }

    // A store to a page by whoever holds it.
    method WritePage(p: nat, data: Page)
      requires Valid() && p < PHYSTOP_PAGE
      modifies this`mem
      ensures Valid()
      ensures mem == old(mem)[p := data]
    {
      mem := mem[p := data];
    }

    // kalloc's critical section: the head of the list, if any.
    method Pop() returns (r: Option<nat>)
      requires Valid()
      modifies this`refcnt, this`head, this`chain, this`refs
      ensures Valid()
      ensures r.None? <==> old(chain) == []
      ensures r.None? ==> Abs() == old(Abs())
      ensures r.Some? ==> Managed(Abs(), r.value) && r.value !in chain && old(refs)[r.value] == 0
      ensures r.Some? ==> old(chain)[0] == r.value && !Panics(old(Abs()), Alloc) && Abs() == Next(old(Abs()), Alloc)
    {
      hide Inv, ChainOk;
      ChainHead(head, next, chain);
      if head == -1 {
        return None;
      }
      StepKeepsInv(Abs(), Alloc);
      HeadFacts(Abs());
      ChainPop(head, next, chain);
      var p := head;
      refcnt := refcnt[p := 1];
      head := next[p];
      refs := refs + multiset{p};
      chain := chain[1..];
      r := Some(p);
    }

    method Kalloc() returns (r: Option<nat>)
      requires Valid()
      modifies this`refcnt, this`head, this`next, this`mem, this`chain, this`refs
      ensures Valid()
      ensures r.None? <==> old(chain) == []
      ensures r.None? ==> Abs() == old(Abs()) && mem == old(mem)
      ensures r.Some? ==> Managed(Abs(), r.value) && old(refs)[r.value] == 0
      ensures r.Some? ==> old(chain)[0] == r.value && !Panics(old(Abs()), Alloc) && Abs() == Next(old(Abs()), Alloc)
      ensures r.Some? ==> mem == old(mem)[r.value := Filled(5)]
    {
      hide Inv, ChainOk, Next, Panics;
      r := Pop();
      if r.Some? {
        Junkfill(r.value, 5, JUNK);
      }
    }

    // increase_cnt for a reference about to be made (leak: for one that will not be).
    method IncreaseCnt(p: nat, ghost leak: bool)
      requires Valid() && p in refs
      modifies this`refcnt, this`refs, this`leaked
      ensures Valid()
      ensures !Panics(old(Abs()), if leak then Leak(p) else Increase(p))
      ensures Abs() == Next(old(Abs()), if leak then Leak(p) else Increase(p))
    {
      hide Inv, ChainOk;
      StepKeepsInv(Abs(), if leak then Leak(p) else Increase(p));
      refcnt := refcnt[p := refcnt[p] + 1];
      if leak {
        leaked := leaked + multiset{p};
      } else {
        refs := refs + multiset{p};
      }
    }

    // The first critical section of kfree.
    method Decrement(p: nat) returns (tmp: int)
      requires Valid() && p in refs
      modifies this`refcnt, this`refs, this`pending
      ensures Valid()
      ensures !Panics(old(Abs()), Act.Decrement(p)) && Abs() == Next(old(Abs()), Act.Decrement(p))
      ensures refcnt == old(refcnt)[p := old(refcnt)[p] - 1] && tmp == refcnt[p] >= 0 && refs == old(refs) - multiset{p}
      ensures pending == if tmp == 0 then old(pending) + multiset{p} else old(pending)
    {
      hide Inv, ChainOk;
      StepKeepsInv(Abs(), Act.Decrement(p));
      ghost var s := Next(Abs(), Act.Decrement(p));
      refcnt := refcnt[p := refcnt[p] - 1];
      tmp := refcnt[p];
      refs, pending := s.refs, s.pending;
      assert Abs() == s;
    }

    method Add2FL(p: nat)
      requires Valid() && p in pending
      modifies this`head, this`next, this`chain, this`pending
      ensures Valid()
      ensures Abs() == Next(old(Abs()), Add(p)) && chain == [p] + old(chain) && pending == old(pending) - multiset{p}
    {
      hide Inv, ChainOk;
      StepKeepsInv(Abs(), Add(p));
      PendingPage(Abs(), p);
      ChainPush(head, next, chain, p);
      next := next[p := head];
      head := p;
      chain := [p] + chain;
      pending := pending - multiset{p};
    }

    // kfree run without interruption.
    method Kfree(p: nat)
      requires Valid() && p in refs
      modifies this`refcnt, this`head, this`next, this`mem, this`chain, this`refs, this`pending
      ensures Valid() && pending == old(pending)
      ensures refs == old(refs) - multiset{p}
      ensures refcnt == old(refcnt)[p := old(refcnt)[p] - 1] && refcnt[p] == refs[p] + leaked[p]
      ensures mem == if refcnt[p] == 0 then old(mem)[p := Filled(1)] else old(mem)
      ensures chain == if refcnt[p] == 0 then [p] + old(chain) else old(chain)
    {
      hide Inv, ChainOk, Next;
      ReferencedPage(Abs(), p);
      var tmp := Decrement(p);
      if tmp > 0 {
        return;
      }
      PendingPage(Abs(), p);
      Junkfill(p, 1, FREED);
      Add2FL(p);
    }
  }
}
