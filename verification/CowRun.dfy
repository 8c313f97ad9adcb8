/**
 Copy-on-write refines eager copying, over every run.

 `Eager` is the machine whose fork copies all of the parent's memory at once: a size and a private
 set of pages per process, nothing shared. `Run` performs any sequence of operations on the real
 machine and is proved to show, after each of them, exactly what the eager machine shows.
 */
module CowRun {
  import opened Riscv
  import opened Kalloc
  import opened Cow
  import opened PageSlots

  datatype Op =
    | Fork(pid: nat, child: nat)
    | Store(pid: nat, va: nat, b: int)                // a store instruction of user code
    | CopyToUser(pid: nat, va: nat, src: seq<int>)    // copyout
    | Sbrk(pid: nat, n: int)                          // growproc
    | Exit(pid: nat)

  // done: how many bytes were stored, or the page that a failed fork could not map. An operation on a process that is
  // not there does nothing.
  datatype Out = Out(ok: bool, done: nat)

  datatype Eager = Eager(view: Spaces, sz: map<nat, nat>)

  ghost predicate Applies(a: Eager, op: Op) {
    && op.pid in a.view && op.pid in a.sz
    && (op.Fork? ==> op.child !in a.view)
    && (op.Store? ==> op.va < MAXVA)
    && (op.Sbrk? ==> -0x8000_0000 <= op.n < 0x8000_0000)
  }

  ghost predicate EagerStep(a: Eager, op: Op, out: Out, b: Eager)
    requires Applies(a, op)
  {
    match op
    case Fork(pid, child) =>
      b == if out.ok then Eager(a.view[child := a.view[pid]], a.sz[child := a.sz[pid]]) else a
    case Store(pid, va, x) =>
      && b.sz == a.sz && pid in b.view && b.view == a.view[pid := b.view[pid]]
      && Stored(a.view[pid], b.view[pid], va, if out.ok then [x] else [])
    case CopyToUser(pid, va, src) =>
      && b.sz == a.sz && pid in b.view && b.view == a.view[pid := b.view[pid]]
      && out.done <= |src| && (out.ok <==> out.done == |src|)
      && (out.ok || out.done == 0 || (va + out.done) % PGSIZE == 0)
      && Stored(a.view[pid], b.view[pid], va, src[..out.done])
    case Sbrk(pid, n) =>
      if !out.ok then b == a && n > 0
      else
        var sz := GrownSize(a.sz[pid], n);
        && b.sz == a.sz[pid := sz]
        && b.view == if n > 0 then GrowPages(a.view, pid, NPages(a.sz[pid]), NPages(sz))
                     else DropPages(a.view, pid, NPages(sz), NPages(a.sz[pid]))
    case Exit(pid) => b == Eager(a.view - {pid}, a.sz - {pid})
  }

  // What decides whether an operation succeeds: the tables, the references in the kernel's hands, the first page after
  // the kernel, the reference counts and the number of free pages.
  datatype Stock = Stock(procs: Procs, held: multiset<nat>, lo: nat, refcnt: seq<int>, free: nat)

  // Counts and free pages are those of the tables: a page's count is the number of slots that map it and of references
  // in the kernel's hands, and the pages with no count are free.
  ghost predicate StockOk(r: Stock) {
    && r.lo <= PHYSTOP_PAGE == |r.refcnt|
    && OwnOk(r.procs) && Once(r.procs) && TablesOwned(r.procs) && InRam(r.procs, r.lo) && Reached(r.procs)
    && (forall pid :: pid in r.procs ==> Dense(r.procs[pid].pt, NPages(r.procs[pid].sz)))
    && (forall p: nat :: r.lo <= p < PHYSTOP_PAGE ==> r.refcnt[p] == |Users(r.procs, p)| + r.held[p])
    && r.free == |Unreferenced(r.refcnt, r.lo)|
  }

  ghost predicate Enough(r: Stock, op: Op)
    requires op.pid in r.procs
  {
    var p := r.procs[op.pid];
    match op
    case Fork(_, _) => r.free >= 1 + TableCount(NPages(p.sz))
    case Store(pid, va, _) =>
      var s := User(va / PGSIZE);
      At(r.procs, pid, s) && Ent(r.procs, pid, s).user && (Ent(r.procs, pid, s).own || (va > 0 && r.free > 0))
    case CopyToUser(pid, va, src) => CopyFits(r.procs, r.refcnt, r.free, pid, va, |src|)
    case Sbrk(_, n) =>
      var target := (p.sz + n) % WORD64;
      n <= 0 || target < p.sz || r.free >= GrowNeeds(p.pt, p.sz, target)
    case Exit(_) => true
  }

  // What an operation does to the tables and to the references in the kernel's hands, which grow by one exactly with a
  // fork that fails in uvmcopy.
  ghost predicate StockStep(r: Stock, op: Op, out: Out, q: Stock)
    requires op.pid in r.procs
  {
    && q.lo == r.lo
    && match op
       case Fork(pid, child) =>
         if out.ok then Forked(r.procs, q.procs, pid, child) && q.held == r.held
         else if r.free == 0 then q.procs == r.procs && q.held == r.held
         else
           && At(r.procs, pid, User(out.done)) && ForkFailed(r.procs, q.procs, pid, out.done)
           && TableCount(out.done) < r.free <= TableCount(out.done + 1)
           && q.held == r.held + multiset{Ent(r.procs, pid, User(out.done)).ppn}
       case Store(pid, va, _) => StoreDid(r.procs, q.procs, pid, va / PGSIZE, out.ok) && q.held == r.held
       case CopyToUser(pid, va, _) =>
         CopiedOver(r.procs, q.procs, pid, va / PGSIZE, PageAfter(va, out.done)) && q.held == r.held
       case Sbrk(pid, n) => GrowDid(r.procs, q.procs, pid, n, r.free, out.ok) && q.held == r.held
       case Exit(pid) => q.procs == r.procs - {pid} && q.held == r.held
  }

  // An operation that applies succeeds exactly when there is enough for it.
  ghost predicate Follows(a: Eager, r: Stock, op: Op, out: Out, b: Eager, q: Stock) {
    if Applies(a, op) && op.pid in r.procs then
      EagerStep(a, op, out, b) && (out.ok <==> Enough(r, op)) && StockStep(r, op, out, q)
    else b == a && q == r && !out.ok
  }

  ghost function Sizes(procs: Procs): (r: map<nat, nat>) {
    map pid | pid in procs :: procs[pid].sz
  }

  ghost function Shown(m: Machine): (r: Eager)
    reads m, m.kmem
  {
    Eager(m.Seen(), Sizes(m.procs))
  }

  ghost function Stocked(m: Machine): (r: Stock)
    reads m, m.kmem
  {
    Stock(m.procs, m.held, m.kmem.lo, m.kmem.refcnt, |m.kmem.chain|)
  }

  // What every machine has is in order.
  lemma StockIsOk(m: Machine)
    requires m.Valid()
    ensures StockOk(Stocked(m))
  {
    hide ChainOk, TreesOk, Dense, NPages, Users;
    FreeCount(m.kmem.Abs());
    forall p: nat | m.kmem.lo <= p < PHYSTOP_PAGE ensures m.kmem.refcnt[p] == |Users(m.procs, p)| + m.held[p] {
      assert Managed(m.kmem.Abs(), p) && Kalloc.PageOk(m.kmem.Abs(), p);
    }
  }

  lemma SlotsKeepDense(o: Procs, n: Procs)
    requires SameSlots(o, n) && forall pid :: pid in o ==> Dense(o[pid].pt, NPages(o[pid].sz))
    ensures forall pid :: pid in n ==> Dense(n[pid].pt, NPages(n[pid].sz))
    ensures Sizes(n) == Sizes(o)
  {}

  // Sizes are bounded by physical memory.
  lemma SizeIsBounded(procs: Procs, refs: multiset<nat>, held: multiset<nat>, lo: nat, pid: nat)
    requires MapsOk(procs, refs, held, lo) && pid in procs && Dense(procs[pid].pt, NPages(procs[pid].sz))
    ensures procs[pid].sz < WORD64
  {
    hide MapsOk, Dense;
    TableIsBounded(procs, refs, held, lo, pid, NPages(procs[pid].sz));
  }

  lemma ForkSizes(o: Procs, n: Procs, pid: nat, child: nat, ok: bool)
    requires pid in o && child !in o && n.Keys == if ok then o.Keys + {child} else o.Keys
    requires forall q :: q in o ==> n[q].sz == o[q].sz
    requires ok ==> n[child].sz == o[pid].sz
    ensures Sizes(n) == if ok then Sizes(o)[child := Sizes(o)[pid]] else Sizes(o)
  {}

  lemma GrowSizes(o: Procs, n: Procs, pid: nat, k: int, free: nat, ok: bool)
    requires GrowDid(o, n, pid, k, free, ok)
    ensures pid in n && n[pid].sz == (if ok || k <= 0 then GrownSize(o[pid].sz, k) else o[pid].sz)
    ensures Sizes(n) == Sizes(o)[pid := n[pid].sz]
  {
    hide NPages, PtGrew;
  }

  method ForkStep(m: Machine, pid: nat, child: nat) returns (ok: bool, ghost i: nat)
    requires m.Valid() && pid in m.procs && child !in m.procs
    modifies m, m.kmem
    ensures m.Valid() && Follows(old(Shown(m)), old(Stocked(m)), Op.Fork(pid, child), Out(ok, i), Shown(m), Stocked(m))
  {
    hide Kalloc.Inv, ChainOk, TreesOk, MapsOk, View, Reached, Dense, NPages, TableCount, Forked, ForkFailed;
    ViewKeys(m.kmem.mem, m.procs);
    ok, i := m.Fork(pid, child);
    ForkSizes(old(m.procs), m.procs, pid, child, ok);
  }

  method StoreStep(m: Machine, pid: nat, va: nat, b: int) returns (ok: bool)
    requires m.Valid() && pid in m.procs && va < MAXVA
    modifies m, m.kmem
    ensures m.Valid() && Follows(old(Shown(m)), old(Stocked(m)), Op.Store(pid, va, b), Out(ok, 0), Shown(m), Stocked(m))
  {
    hide Kalloc.Inv, ChainOk, TreesOk, MapsOk, View, Reached, Dense, NPages, Stored, SameSlots, StoreDid;
    ViewKeys(m.kmem.mem, m.procs);
    ok := m.UserStore(pid, va, b);
    SlotsKeepDense(old(m.procs), m.procs);
  }

  method CopyStep(m: Machine, pid: nat, va: nat, src: seq<int>) returns (ok: bool, ghost done: nat)
    requires m.Valid() && pid in m.procs
    modifies m, m.kmem
    ensures m.Valid()
    ensures Follows(old(Shown(m)), old(Stocked(m)), CopyToUser(pid, va, src), Out(ok, done), Shown(m), Stocked(m))
  {
    hide Kalloc.Inv, ChainOk, TreesOk, MapsOk, View, Reached, Dense, NPages, Stored, SameSlots, CopyFits, CopiedOver,
         PageAfter;
    ViewKeys(m.kmem.mem, m.procs);
    ok, done := m.CopyOut(pid, va, src);
    SlotsKeepDense(old(m.procs), m.procs);
  }

  method SbrkStep(m: Machine, pid: nat, n: int) returns (ok: bool)
    requires m.Valid() && pid in m.procs && -0x8000_0000 <= n < 0x8000_0000
    modifies m, m.kmem
    ensures m.Valid() && Follows(old(Shown(m)), old(Stocked(m)), Sbrk(pid, n), Out(ok, 0), Shown(m), Stocked(m))
  {
    hide Kalloc.Inv, ChainOk, TreesOk, MapsOk, View, Reached, Dense, NPages, GrowPages, DropPages, GrownSize, GrowNeeds,
         GrowDid;
    ViewKeys(m.kmem.mem, m.procs);
    SizeIsBounded(m.procs, m.kmem.refs, m.held, m.kmem.lo, pid);
    ok := m.Grow(pid, n);
    GrowSizes(old(m.procs), m.procs, pid, n, |old(m.kmem.chain)|, ok);
    assert !ok ==> Sizes(old(m.procs))[pid := m.procs[pid].sz] == Sizes(old(m.procs));
  }

  method ExitStep(m: Machine, pid: nat)
    requires m.Valid() && pid in m.procs
    modifies m, m.kmem
    ensures m.Valid() && Follows(old(Shown(m)), old(Stocked(m)), Op.Exit(pid), Out(true, 0), Shown(m), Stocked(m))
  {
    hide Kalloc.Inv, ChainOk, TreesOk, MapsOk, View, Reached, Dense, NPages;
    ViewKeys(m.kmem.mem, m.procs);
    m.Exit(pid);
    assert Sizes(m.procs) == Sizes(old(m.procs)) - {pid};
  }

  // One operation, or nothing if it does not apply.
  method Perform(m: Machine, op: Op) returns (ok: bool, ghost done: nat)
    requires m.Valid()
    modifies m, m.kmem
    ensures m.Valid() && Follows(old(Shown(m)), old(Stocked(m)), op, Out(ok, done), Shown(m), Stocked(m))
  {
    hide Kalloc.Inv, ChainOk, TreesOk, MapsOk, View, Reached, Dense, NPages, EagerStep, Enough, StockStep;
    ViewKeys(m.kmem.mem, m.procs);
    ok, done := false, 0;
    if op.pid in m.procs {
      match op
      case Fork(pid, child) => if child !in m.procs { ok, done := ForkStep(m, pid, child); }
      case Store(pid, va, b) => if va < MAXVA { ok := StoreStep(m, pid, va, b); }
      case CopyToUser(pid, va, src) => ok, done := CopyStep(m, pid, va, src);
      case Sbrk(pid, n) => if -0x8000_0000 <= n < 0x8000_0000 { ok := SbrkStep(m, pid, n); }
      case Exit(pid) => ExitStep(m, pid); ok := true;
    }
  }

  // stocks: what the real machine has before each operation and at the end.
  ghost predicate EagerTrace(ops: seq<Op>, outs: seq<Out>, states: seq<Eager>, stocks: seq<Stock>) {
    && |outs| == |ops| && |states| == |stocks| == |ops| + 1
    && (forall i :: 0 <= i < |ops| ==> Follows(states[i], stocks[i], ops[i], outs[i], states[i + 1], stocks[i + 1]))
    && (forall i :: 0 <= i <= |ops| ==> states[i].sz == Sizes(stocks[i].procs) && StockOk(stocks[i]))
  }

  // Every run of the copy-on-write machine is a run of the eager one.
  method Run(m: Machine, ops: seq<Op>)
    returns (oks: seq<bool>, ghost outs: seq<Out>, ghost states: seq<Eager>, ghost stocks: seq<Stock>)
    requires m.Valid()
    modifies m, m.kmem
    ensures m.Valid() && EagerTrace(ops, outs, states, stocks)
    ensures states[0] == old(Shown(m)) && states[|ops|] == Shown(m)
    ensures stocks[0] == old(Stocked(m)) && stocks[|ops|] == Stocked(m)
    ensures |oks| == |ops| && forall i :: 0 <= i < |ops| ==> outs[i].ok == oks[i]
  {
    hide Kalloc.Inv, ChainOk, TreesOk, MapsOk, View, Reached, Dense, NPages, Follows, StockOk;
    StockIsOk(m);
    oks, outs, states, stocks := [], [], [Shown(m)], [Stocked(m)];
    var k := 0;
    while k < |ops|
      invariant 0 <= k <= |ops| && m.Valid()
      invariant |oks| == k && EagerTrace(ops[..k], outs, states, stocks)
      invariant states[0] == old(Shown(m)) && states[k] == Shown(m)
      invariant stocks[0] == old(Stocked(m)) && stocks[k] == Stocked(m)
      invariant forall i :: 0 <= i < k ==> outs[i].ok == oks[i]
    {
      var ok;
      ghost var done;
      ok, done := Perform(m, ops[k]);
      StockIsOk(m);
      oks, outs, states := oks + [ok], outs + [Out(ok, done)], states + [Shown(m)];
      stocks := stocks + [Stocked(m)];
      k := k + 1;
    }
    assert ops[..|ops|] == ops;
  }

  // After userinit: one process of one page, with its page and three tables in use and nothing in the kernel's hands.
  ghost predicate FirstStock(r: Stock, free: nat, lo: nat) {
    && r.procs.Keys == {1} && r.procs[1].sz == PGSIZE && r.held == multiset{} && r.lo == lo && r.free == free - 4
    && User(0) in r.procs[1].pt && r.procs[1].pt[User(0)] == Entry(r.procs[1].pt[User(0)].ppn, true, true, true)
    && TablesOf(r.procs[1].pt) == {ROOT} + Path(0)
  }

  // From boot: userinit on fresh memory, then any operations; nothing if userinit fails.
  method Boot(kmem: Kmem, code: seq<int>, ops: seq<Op>)
    returns (up: bool, m: Machine, oks: seq<bool>,
             ghost outs: seq<Out>, ghost states: seq<Eager>, ghost stocks: seq<Stock>)
    requires kmem.Valid() && kmem.refs == kmem.pending == kmem.leaked == multiset{}
    modifies kmem
    ensures fresh(m) && (up <==> |code| < PGSIZE && |old(kmem.chain)| >= 4)
    ensures up ==> m.Valid() && EagerTrace(ops, outs, states, stocks) && stocks[|ops|] == Stocked(m)
    ensures up ==> FirstStock(stocks[0], |old(kmem.chain)|, kmem.lo)
    ensures up ==> states[0] == Eager(map[1 := FirstPage(code)], map[1 := PGSIZE]) && states[|ops|] == Shown(m)
    ensures up ==> |oks| == |ops| && forall i :: 0 <= i < |ops| ==> outs[i].ok == oks[i]
  {
    hide Kalloc.Inv, ChainOk, TreesOk, MapsOk, Reached, Dense, NPages, Follows, FirstPage;
    m := new Machine(kmem);
    oks, outs, states, stocks := [], [], [], [];
    assert m.Seen() == map[];
    up := m.UserInit(1, code);
    if up {
      assert Shown(m) == Eager(map[1 := FirstPage(code)], map[1 := PGSIZE]);
      oks, outs, states, stocks := Run(m, ops);
    }
  }
}
