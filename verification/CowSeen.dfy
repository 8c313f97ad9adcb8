/**
 What the operations of the eager machine mean, byte by byte, and what they do to sizes over a run
 (kernel/vm.c:225-401, kernel/proc.c:275-294).

 `CowRun` shows that copy-on-write memory follows the eager machine. Here that machine is read through single
 addresses: which byte of which process changes, which pages are there, how large a process is.
 */
module CowSeen {
  import opened Riscv
  import opened Kalloc
  import opened Cow
  import opened CowRun
  import opened PageSlots

  // Every process has a size, and exactly the pages that begin below it.
  ghost predicate Whole(a: Eager) {
    && a.view.Keys == a.sz.Keys
    && forall pid, s :: pid in a.view ==> (s in a.view[pid] <==> s.User? && s.vpn * 4096 < a.sz[pid])
  }

  // A store changes one byte, and only if it succeeds.
  lemma StoreMeans(a: Eager, pid: nat, va: nat, x: int, out: Out, b: Eager, q: nat, at: nat)
    requires Applies(a, Op.Store(pid, va, x)) && EagerStep(a, Op.Store(pid, va, x), out, b)
    requires q in a.view && User(at / 4096) in a.view[q]
    ensures b.sz == a.sz && b.view.Keys == a.view.Keys && b.view[q].Keys == a.view[q].Keys
    ensures b.view[q][User(at / 4096)][at % 4096]
         == if out.ok && q == pid && at == va then x else a.view[q][User(at / 4096)][at % 4096]
  {
    if q == pid {
      assert Mapped(a.view[q], at);
      assert Byte(b.view[q], at) == b.view[q][User(at / 4096)][at % 4096];
    }
  }

  // copyout changes the bytes that it counts, which end at a page's end if they are not all.
  lemma CopyMeans(a: Eager, pid: nat, va: nat, src: seq<int>, out: Out, b: Eager, q: nat, at: nat)
    requires Applies(a, CopyToUser(pid, va, src)) && EagerStep(a, CopyToUser(pid, va, src), out, b)
    requires q in a.view && User(at / 4096) in a.view[q]
    ensures out.done <= |src| && (out.ok <==> out.done == |src|)
    ensures out.ok || out.done == 0 || (va + out.done) % 4096 == 0
    ensures b.sz == a.sz && b.view.Keys == a.view.Keys && b.view[q].Keys == a.view[q].Keys
    ensures b.view[q][User(at / 4096)][at % 4096]
         == if q == pid && va <= at < va + out.done then src[at - va] else a.view[q][User(at / 4096)][at % 4096]
  {
    if q == pid {
      assert Mapped(a.view[q], at);
      assert Byte(b.view[q], at) == b.view[q][User(at / 4096)][at % 4096];
    }
  }

  // fork gives the child a memory of its own that starts as the parent's; a fork that fails is not seen.
  lemma ForkMeans(a: Eager, pid: nat, child: nat, out: Out, b: Eager, q: nat)
    requires Applies(a, Op.Fork(pid, child)) && EagerStep(a, Op.Fork(pid, child), out, b)
    ensures !out.ok ==> b == a
    ensures out.ok ==> child in b.view && child in b.sz && b.view[child] == a.view[pid] && b.sz[child] == a.sz[pid]
    ensures q in a.view ==> q in b.view && b.view[q] == a.view[q]
    ensures q != child ==> (q in b.view <==> q in a.view) && (q in b.sz <==> q in a.sz)
    ensures q in a.sz && q != child ==> b.sz[q] == a.sz[q]
  {}

  // sbrk moves the size by n. A page that stays keeps its bytes, a new one is zero, and no other process is touched.
  lemma SbrkMeans(a: Eager, pid: nat, n: int, out: Out, b: Eager, q: nat, at: nat)
    requires Applies(a, Sbrk(pid, n)) && EagerStep(a, Sbrk(pid, n), out, b)
    requires Whole(a) && a.sz[pid] < 0x1_0000_0000_0000_0000
    ensures !out.ok ==> b == a && n > 0
    ensures b.view.Keys == a.view.Keys && b.sz.Keys == a.sz.Keys
    ensures out.ok ==>
              b.sz[pid] == if 0 <= a.sz[pid] + n < 0x1_0000_0000_0000_0000 then a.sz[pid] + n else a.sz[pid]
    ensures q in a.view && q != pid ==> b.view[q] == a.view[q] && b.sz[q] == a.sz[q]
    ensures q in b.view ==> (User(at / 4096) in b.view[q] <==> at / 4096 * 4096 < b.sz[q])
    ensures q in b.view && User(at / 4096) in b.view[q] ==>
              b.view[q][User(at / 4096)][at % 4096]
              == if User(at / 4096) in a.view[q] then a.view[q][User(at / 4096)][at % 4096] else 0
  {
    hide NPages;
    GrownSizeIs(a.sz[pid], n);
    PagesBelow(a.sz[pid], at / 4096);
    if out.ok { PagesBelow(b.sz[pid], at / 4096); }
  }

  // The memory of a process goes with it, and nothing else does.
  lemma ExitMeans(a: Eager, pid: nat, out: Out, b: Eager, q: nat)
    requires Applies(a, Op.Exit(pid)) && EagerStep(a, Op.Exit(pid), out, b)
    ensures q in b.view <==> q in a.view && q != pid
    ensures q in b.sz <==> q in a.sz && q != pid
    ensures q in a.view && q != pid ==> b.view[q] == a.view[q]
    ensures q in a.sz && q != pid ==> b.sz[q] == a.sz[q]
  {}

  // ----- Over runs -----

  lemma SbrkWhole(a: Eager, pid: nat, n: int, out: Out, b: Eager)
    requires Whole(a) && Applies(a, Sbrk(pid, n)) && EagerStep(a, Sbrk(pid, n), out, b)
    ensures Whole(b)
  {
    hide NPages;
    forall s: Slot | s.User? ensures s.vpn < NPages(a.sz[pid]) <==> s.vpn * 4096 < a.sz[pid]
                             ensures s.vpn < NPages(b.sz[pid]) <==> s.vpn * 4096 < b.sz[pid]
    {
      PagesBelow(a.sz[pid], s.vpn);
      PagesBelow(b.sz[pid], s.vpn);
    }
  }

  lemma StepWhole(a: Eager, r: Stock, op: Op, out: Out, b: Eager, q: Stock)
    requires Whole(a) && Follows(a, r, op, out, b, q)
    ensures Whole(b)
  {
    hide GrownSize, GrowPages, DropPages, NPages, StockStep, Enough;
    if Applies(a, op) && op.pid in r.procs && op.Sbrk? {
      SbrkWhole(a, op.pid, op.n, out, b);
    } else if Applies(a, op) && op.pid in r.procs && op.Fork? && out.ok {
      assert b.view[op.child] == a.view[op.pid];
    }
  }

  // In every run every process has exactly the pages that begin below its size.
  lemma {:induction false} RunIsWhole(ops: seq<Op>, outs: seq<Out>, states: seq<Eager>, stocks: seq<Stock>, k: nat)
    requires EagerTrace(ops, outs, states, stocks) && k <= |ops| && Whole(states[0])
    ensures Whole(states[k])
    decreases k
  {
    hide Whole, Follows, StockOk;
    if k > 0 {
      RunIsWhole(ops, outs, states, stocks, k - 1);
      assert Follows(states[k - 1], stocks[k - 1], ops[k - 1], outs[k - 1], states[k - 1 + 1], stocks[k - 1 + 1]);
      StepWhole(states[k - 1], stocks[k - 1], ops[k - 1], outs[k - 1], states[k], stocks[k]);
    }
  }

  // userinit's process is such a one: the code, then zeros.
  lemma BootIsWhole(code: seq<int>, at: nat)
    requires |code| < PGSIZE
    ensures Whole(Eager(map[1 := FirstPage(code)], map[1 := 4096])) && PGSIZE == 4096
    ensures at < 4096 ==> FirstPage(code)[User(0)][at] == if at < |code| then code[at] else 0
  {
    assert forall v: nat :: v * 4096 < PGSIZE <==> v == 0;
  }

  // The sum of what the successful sbrks of pid among operations i .. k-1 asked for.
  function Asked(ops: seq<Op>, outs: seq<Out>, pid: nat, i: nat, k: nat): (r: int)
    requires i <= k <= |ops| == |outs|
  {
    if k == i then 0
    else
      Asked(ops, outs, pid, i, k - 1)
      + if ops[k - 1].Sbrk? && ops[k - 1].pid == pid && outs[k - 1].ok then ops[k - 1].n else 0
  }

  // An operation other than a successful sbrk of the process leaves its size alone.
  lemma SizeStep(a: Eager, r: Stock, op: Op, out: Out, b: Eager, q: Stock, pid: nat)
    requires Whole(a) && Follows(a, r, op, out, b, q) && pid in a.sz && pid in b.sz
    requires a.sz[pid] < 0x1_0000_0000_0000_0000
    ensures b.sz[pid] == if op.Sbrk? && op.pid == pid && out.ok && 0 <= a.sz[pid] + op.n < 0x1_0000_0000_0000_0000
                         then a.sz[pid] + op.n else a.sz[pid]
  {
    hide GrownSize, GrowPages, DropPages, NPages, StockStep, Enough, Stored;
    if Applies(a, op) && op.pid in r.procs && op.Sbrk? && op.pid == pid {
      SbrkMeans(a, op.pid, op.n, out, b, pid, 0);
    }
  }

  // Over any operations in between, a process that lives on is larger by what its successful sbrks asked for, as long
  // as none of them asks for a size below 0 or above what 64 bits hold.
  lemma {:induction false} SbrksAdd(ops: seq<Op>, outs: seq<Out>, states: seq<Eager>, stocks: seq<Stock>, pid: nat,
                                    i: nat, k: nat)
    requires EagerTrace(ops, outs, states, stocks) && i <= k <= |ops| && Whole(states[0])
    requires forall m :: i <= m <= k ==> pid in states[m].sz
    requires forall m :: i <= m <= k ==>
               0 <= states[i].sz[pid] + Asked(ops, outs, pid, i, m) < 0x1_0000_0000_0000_0000
    ensures states[k].sz[pid] == states[i].sz[pid] + Asked(ops, outs, pid, i, k)
    decreases k
  {
    hide Whole, Follows, StockOk;
    if i < k {
      SbrksAdd(ops, outs, states, stocks, pid, i, k - 1);
      RunIsWhole(ops, outs, states, stocks, k - 1);
      assert 0 <= states[i].sz[pid] + Asked(ops, outs, pid, i, k - 1) < 0x1_0000_0000_0000_0000;
      assert 0 <= states[i].sz[pid] + Asked(ops, outs, pid, i, k) < 0x1_0000_0000_0000_0000;
      assert Follows(states[k - 1], stocks[k - 1], ops[k - 1], outs[k - 1], states[k - 1 + 1], stocks[k - 1 + 1]);
      SizeStep(states[k - 1], stocks[k - 1], ops[k - 1], outs[k - 1], states[k], stocks[k], pid);
    }
  }
}
