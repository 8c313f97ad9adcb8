/**
 The priority scheduler's choice and the time accounting (kernel/proc.c:509-583, 826, 855-891 and clockintr
 in kernel/trap.c).
 */
module Sched {
  import opened Wrappers

  const MAX_PRIO: nat := 100
  const DEFAULT_PRIO: nat := 50
  const DEFAULT_RBI: int := 100
  const WORD: nat := 0x1_0000_0000

  datatype RunState = Unused | Used | Sleeping | Runnable | Running | Zombie

  datatype Proc = Proc(state: RunState, rtime: nat, stime: nat, wtime: nat, ctime: nat, etime: nat,
                       staticPrio: nat, dynamicPrio: nat, rbi: int, nrun: nat)

  // ----- calculate_RBI -----

  // A uint read as an int.
  function ToInt(u: nat): (r: int) { if u % WORD < WORD / 2 then u % WORD else u % WORD - WORD }

  function MaxOf(a: int, b: int): (r: int) { if a > b then a else b }

  function MinOf(a: int, b: int): (r: int) { if a < b then a else b }

  function Quot(n: nat, d: nat): (q: nat)
    requires d > 0
  {
    n / d
  }

  // The unsigned product that the source hands to maxOf, as an int. A zero divisor is undefined in C.
  function Weighted(r: nat, s: nat, w: nat): (x: int)
    requires (r + w + s + 1) % WORD != 0
  {
    ToInt(Quot((3 * r - s - w) % WORD, (r + w + s + 1) % WORD) * 50)
  }

  function CalculateRbi(r: nat, s: nat, w: nat): (x: int)
    requires (r + w + s + 1) % WORD != 0
  {
    if r == 0 && s == 0 then DEFAULT_RBI else MaxOf(Weighted(r, s, w), 0)
  }

  // What the formula means over the integers, with C's division.
  function Intended(r: nat, s: nat, w: nat): (x: int) {
    if r == 0 && s == 0 then DEFAULT_RBI
    else if 3 * r >= s + w then Quot(3 * r - s - w, r + w + s + 1) * 50
    else 0
  }

  lemma QuotBounds(n: nat, d: nat)
    requires d > 0
    ensures d * Quot(n, d) <= n < d * Quot(n, d) + d
  {}

  lemma Scaled(d: nat, q: nat, p: nat)
    requires q <= p
    ensures d * q <= d * p
  {}

  lemma NextMultiple(d: nat, q: nat)
    ensures d * (q + 1) == d * q + d
  {}

  lemma Regroup(d: nat, q: nat, c: nat)
    ensures d * (q * c) == d * q * c
  {}

  lemma QuotIs(n: nat, d: nat, k: nat)
    requires d * k <= n < d * k + d
    ensures Quot(n, d) == k
  {
    hide Quot;
    var q := Quot(n, d);
    QuotBounds(n, d);
    NextMultiple(d, q);
    NextMultiple(d, k);
    if q < k { Scaled(d, q + 1, k); }
    if k < q { Scaled(d, k + 1, q); }
  }

  lemma QuotLess(n: nat, m: nat, d: nat)
    requires 0 < d && m + d <= n
    ensures Quot(m, d) < Quot(n, d)
  {
    hide Quot;
    QuotBounds(n, d);
    QuotBounds(m, d);
    if Quot(n, d) <= Quot(m, d) { Scaled(d, Quot(n, d), Quot(m, d)); }
  }

  lemma Quotient(r: nat, t: nat)
    requires 3 * r >= t
    ensures var q := Quot(3 * r - t, r + t + 1);
            0 <= q <= 2 && (q == 2 <==> r >= 3 * t + 2) && (q >= 1 <==> r > t)
  {
    hide Quot;
    var k := if r >= 3 * t + 2 then 2 else if r > t then 1 else 0;
    QuotIs(3 * r - t, r + t + 1, k);
  }

  lemma NoWrap(n: int)
    requires 0 <= n < WORD
    ensures n % WORD == n && (n < WORD / 2 ==> ToInt(n) == n)
  {}

  // A quotient of at most two survives the trip through unsigned arithmetic.
  lemma SmallProduct(r: nat, s: nat, w: nat)
    requires r + s + w + 1 < WORD && 3 * r >= s + w && Quot((3 * r - s - w) % WORD, r + w + s + 1) <= 2
    ensures Weighted(r, s, w) == Quot((3 * r - s - w) % WORD, r + w + s + 1) * 50
  {
    hide Quot;
    NoWrap(r + w + s + 1);
    NoWrap(Quot((3 * r - s - w) % WORD, r + w + s + 1) * 50);
  }

  // Without wrap-around a process that has run or slept gets 100, 50 or 0.
  lemma RbiTable(r: nat, s: nat, w: nat)
    requires r + s + w + 1 < WORD && (r != 0 || s != 0) && 0 <= 3 * r - s - w < WORD
    ensures CalculateRbi(r, s, w) == Intended(r, s, w)
    ensures CalculateRbi(r, s, w) == if r >= 3 * (s + w) + 2 then 100 else if r > s + w then 50 else 0
  {
    hide Quot, Weighted;
    Quotient(r, s + w);
    NoWrap(3 * r - s - w);
    SmallProduct(r, s, w);
  }

  // A difference of 2^32 or more loses multiples of 2^32, and the quotient gets smaller.
  lemma TooLong(r: nat, s: nat, w: nat)
    requires r + s + w + 1 < WORD && 3 * r - s - w >= WORD
    ensures CalculateRbi(r, s, w) < Intended(r, s, w)
  {
    hide Quot, Weighted;
    var n, d := 3 * r - s - w, r + w + s + 1;
    Quotient(r, s + w);
    Folded(n);
    QuotLess(n, n % WORD, d);
    SmallProduct(r, s, w);
  }

  lemma Folded(n: nat)
    requires n >= WORD
    ensures n % WORD + WORD <= n
  {}

  // For a difference at most d - 1 below 2^32, 50 times the quotient lies strictly between the k-th and the
  // next multiple of 2^31, where k is 99 / d.
  lemma Wrapped(n: nat, d: nat, k: nat)
    requires 1 <= d && d * k <= 99 < d * k + d && WORD - d < n < WORD
    ensures k >= 1 ==> k * 0x8000_0000 < Quot(n, d) * 50
    ensures Quot(n, d) * 50 < (k + 1) * 0x8000_0000
  {
    hide Quot;
    var q := Quot(n, d);
    QuotBounds(n, d);
    Regroup(d, q, 50);
    Regroup(d, k, 0x8000_0000);
    Regroup(d, k + 1, 0x8000_0000);
    NextMultiple(d, k);
    if k >= 1 { Scaled(d, 1, k); }
    if q * 50 <= k * 0x8000_0000 { Scaled(d, q * 50, k * 0x8000_0000); }
    if q * 50 >= (k + 1) * 0x8000_0000 { Scaled(d, (k + 1) * 0x8000_0000, q * 50); }
  }

  lemma SignOf(x: nat, k: nat)
    requires k * 0x8000_0000 < x < (k + 1) * 0x8000_0000
    ensures ToInt(x) > 0 <==> k % 2 == 0
  {
    var h, e := k / 2, x - k * 0x8000_0000;
    Residue(x, h, if k % 2 == 0 then e else 0x8000_0000 + e);
  }

  lemma Residue(x: nat, h: nat, e: nat)
    requires x == h * WORD + e && e < WORD
    ensures x % WORD == e
  {}

  // The product stays positive although the difference was negative.
  predicate WrapsUp(r: nat, t: nat) {
    Quot(99, r + t + 1) % 2 == 0 && 2 * t + 1 <= WORD + 2 * r
  }

  lemma WrappedSign(r: nat, s: nat, w: nat)
    requires r + s + w + 1 < WORD && 3 * r < s + w
    ensures Weighted(r, s, w) > 0 <==> WrapsUp(r, s + w)
  {
    hide Quot, ToInt;
    var n, d := WORD + 3 * r - s - w, r + w + s + 1;
    assert (3 * r - s - w) % WORD == n by { Borrow(s + w - 3 * r); }
    NoWrap(d);
    PositiveProduct(n, d);
  }

  lemma PositiveProduct(n: nat, d: nat)
    requires 1 <= d && WORD - d < n < WORD
    ensures ToInt(Quot(n, d) * 50) > 0 <==> Quot(99, d) % 2 == 0 && d <= n
  {
    hide Quot;
    var k, q := Quot(99, d), Quot(n, d);
    QuotBounds(99, d);
    Wrapped(n, d, k);
    if n < d {
      QuotIs(n, d, 0);
    } else {
      QuotLess(n, n - d, d);
      SignOf(q * 50, k);
    }
  }

  lemma Borrow(m: nat)
    requires 0 < m < WORD
    ensures (0 - m) % WORD == WORD - m
  {}

  // With less than 2^32 ticks in all, the unsigned formula gives what it means exactly if the difference
  // 3 RTime - STime - WTime fits 32 bits, or is negative and 99 / (sum + 1) is odd or the difference is so
  // far below zero that the quotient vanishes.
  lemma RbiAgrees(r: nat, s: nat, w: nat)
    requires r + s + w + 1 < WORD
    ensures CalculateRbi(r, s, w) == Intended(r, s, w)
            <==> (r == 0 && s == 0) || (if 3 * r >= s + w then 3 * r - s - w < WORD else !WrapsUp(r, s + w))
    ensures r == 0 && s == 0 ==> CalculateRbi(r, s, w) == 100
    ensures (r != 0 || s != 0) && 3 * r < s + w && !WrapsUp(r, s + w) ==> CalculateRbi(r, s, w) == 0
  {
    hide Quot, Weighted, WrapsUp;
    if r != 0 || s != 0 {
      if 3 * r < s + w { WrappedSign(r, s, w); }
      else if 3 * r - s - w < WORD { RbiTable(r, s, w); }
      else { TooLong(r, s, w); }
    }
  }

  // Where it does not, it is 50 times the quotient of the wrapped difference, less a multiple of 2^32.
  lemma WrappedValue(r: nat, s: nat, w: nat) returns (q: nat, k: nat)
    requires r + s + w + 1 < WORD && 3 * r < s + w && WrapsUp(r, s + w) && (r != 0 || s != 0)
    ensures var n, d := 0x1_0000_0000 + 3 * r - s - w, r + s + w + 1; d * q <= n < d * q + d
    ensures 50 * q == CalculateRbi(r, s, w) + k * 0x1_0000_0000 && 0 < CalculateRbi(r, s, w) < 0x8000_0000
  {
    hide Quot;
    WrappedSign(r, s, w);
    var n, d := WORD + 3 * r - s - w, r + w + s + 1;
    assert (3 * r - s - w) % WORD == n by { Borrow(s + w - 3 * r); }
    NoWrap(d);
    QuotBounds(n, d);
    q := Quot(n, d);
    k := q * 50 / WORD;
  }

  // For sums below 99 the wrong ones are these, whatever the sum is made of.
  lemma SmallSums(r: nat, t: nat)
    requires r + t < 99
    ensures var sum := r + t;
            WrapsUp(r, t) <==> sum == 3 || 5 <= sum <= 7 || sum == 11 || sum == 14 || sum == 15
                               || 19 <= sum <= 23 || 33 <= sum <= 48
  {
    hide Quot;
    var d := r + t + 1;
    if d <= 1 { QuotIs(99, d, 99); }
    else if d <= 2 { QuotIs(99, d, 49); }
    else if d <= 3 { QuotIs(99, d, 33); }
    else if d <= 4 { QuotIs(99, d, 24); }
    else if d <= 5 { QuotIs(99, d, 19); }
    else if d <= 6 { QuotIs(99, d, 16); }
    else if d <= 7 { QuotIs(99, d, 14); }
    else if d <= 8 { QuotIs(99, d, 12); }
    else if d <= 9 { QuotIs(99, d, 11); }
    else if d <= 11 { QuotIs(99, d, 9); }
    else if d <= 12 { QuotIs(99, d, 8); }
    else if d <= 14 { QuotIs(99, d, 7); }
    else if d <= 16 { QuotIs(99, d, 6); }
    else if d <= 19 { QuotIs(99, d, 5); }
    else if d <= 24 { QuotIs(99, d, 4); }
    else if d <= 33 { QuotIs(99, d, 3); }
    else if d <= 49 { QuotIs(99, d, 2); }
    else { QuotIs(99, d, 1); }
  }

  // Three ticks asleep and none running: the formula means 0 and gives more than two thousand million.
  lemma RbiWraps()
    ensures Intended(0, 3, 0) == 0 && CalculateRbi(0, 3, 0) == 2147483598
  {}

  // ----- The choice -----

  // The scan's view of a runnable process: RBI and dynamic priority brought up to date. The priority is a uint.
  function Refreshed(p: Proc): (r: Proc)
    requires (p.rtime + p.wtime + p.stime + 1) % WORD != 0
  {
    if !p.state.Runnable? then p
    else
      var rbi := CalculateRbi(p.rtime, p.stime, p.wtime);
      p.(rbi := rbi, dynamicPrio := MinOf(ToInt((p.staticPrio + rbi) % WORD), MAX_PRIO) % WORD)
  }

  // p is to be preferred to q: priority, then fewer runs, then age.
  predicate Before(p: Proc, q: Proc) {
    || p.dynamicPrio < q.dynamicPrio
    || (p.dynamicPrio == q.dynamicPrio && p.nrun < q.nrun)
    || (p.dynamicPrio == q.dynamicPrio && p.nrun == q.nrun && p.ctime < q.ctime)
  }

  // i is the best of the runnable processes below n, and the last of those as good.
  ghost predicate Best(procs: seq<Proc>, i: nat, n: nat) {
    && i < n <= |procs| && procs[i].state.Runnable?
    && (forall j :: 0 <= j < n && procs[j].state.Runnable? ==> !Before(procs[j], procs[i]))
    && (forall j :: i < j < n && procs[j].state.Runnable? ==> Before(procs[i], procs[j]))
  }

  // The next process takes over if it is at least as good.
  lemma BestStep(procs: seq<Proc>, i: nat, n: nat)
    requires n < |procs| && Best(procs, i, n) && procs[n].state.Runnable?
    ensures Best(procs, if Before(procs[i], procs[n]) then i else n, n + 1)
  {}

  // Exactly one process can be the best, so the scan's answer does not depend on how it got there.
  lemma BestIsUnique(procs: seq<Proc>, i: nat, j: nat, n: nat)
    requires Best(procs, i, n) && Best(procs, j, n)
    ensures i == j
  {}

  class Scheduler {
    var procs: seq<Proc>
    var ticks: nat

    constructor (n: nat)
      ensures |procs| == n && ticks == 0 && forall i :: 0 <= i < n ==> procs[i].state.Unused?
    {
      procs, ticks := seq(n, _ => Proc(Unused, 0, 0, 0, 0, 0, 0, 0, 0, 0)), 0;
    }

    // The table scan of scheduler().
    method Pick() returns (best: Option<nat>)
      requires forall i :: 0 <= i < |procs| ==> (procs[i].rtime + procs[i].wtime + procs[i].stime + 1) % WORD != 0
      modifies this`procs
      ensures |procs| == |old(procs)| && forall i :: 0 <= i < |procs| ==> procs[i] == Refreshed(old(procs)[i])
      ensures best.None? ==> forall i :: 0 <= i < |procs| ==> !procs[i].state.Runnable?
      ensures best.Some? ==> Best(procs, best.value, |procs|)
      // RBI is that of the process's times; the priority is the static one and RBI, at most 100, unless their sum is
      // negative as an int. Nothing else changes.
      ensures forall i :: 0 <= i < |procs| ==>
                var p, q := old(procs)[i], procs[i];
                && q == p.(rbi := q.rbi, dynamicPrio := q.dynamicPrio) && (!p.state.Runnable? ==> q == p)
                && (p.state.Runnable? ==> q.rbi == CalculateRbi(p.rtime, p.stime, p.wtime) >= 0)
      ensures forall i :: 0 <= i < |procs| && procs[i].state.Runnable? ==>
                var sum := old(procs)[i].staticPrio + procs[i].rbi;
                && (sum <= 100 ==> procs[i].dynamicPrio == sum)
                && (100 < sum < 0x8000_0000 ==> procs[i].dynamicPrio == 100)
                && (0x8000_0000 <= sum < 0x1_0000_0000 ==> procs[i].dynamicPrio == sum)
      // On the old table: nobody has a lower sum, as far as sums go up to 100, or the same with fewer runs, or the same
      // and is older, or all the same and comes later.
      ensures best.Some? ==>
                forall j :: 0 <= j < |procs| && old(procs)[j].state.Runnable? ==>
                  var b, p := old(procs)[best.value], old(procs)[j];
                  var sb, sp := b.staticPrio + procs[best.value].rbi, p.staticPrio + procs[j].rbi;
                  sb < 0x8000_0000 && sp < 0x8000_0000 ==>
                    || (sb < sp && sb < 100)
                    || ((sb == sp || (sb >= 100 && sp >= 100))
                        && (b.nrun < p.nrun
                            || (b.nrun == p.nrun && (b.ctime < p.ctime || (b.ctime == p.ctime && j <= best.value)))))
    {
      hide Refreshed, CalculateRbi;
      best := None;
      var minPriority: int := MAX_PRIO + 1;
      var i := 0;
      ghost var was := procs;
      while i < |procs|
        invariant 0 <= i <= |procs| == |was|
        invariant forall j :: 0 <= j < i ==> procs[j] == Refreshed(was[j])
        invariant forall j :: i <= j < |procs| ==> procs[j] == was[j]
        invariant best.None? ==> forall j :: 0 <= j < i ==> !procs[j].state.Runnable?
        invariant best.Some? ==> Best(procs, best.value, i) && minPriority == procs[best.value].dynamicPrio
      {
        RefreshedState(procs[i]);
        if procs[i].state.Runnable? {
          ghost var before := procs;
          var rbi := CalculateRbi(procs[i].rtime, procs[i].stime, procs[i].wtime);
          var prio := MinOf(ToInt((procs[i].staticPrio + rbi) % WORD), MAX_PRIO) % WORD;
          procs := procs[i := procs[i].(rbi := rbi, dynamicPrio := prio)];
          if best.Some? { BestKept(before, procs, best.value, i); BestStep(procs, best.value, i); }
          if best.None? || procs[i].dynamicPrio < minPriority {
            minPriority, best := procs[i].dynamicPrio, Some(i);
          } else if procs[i].dynamicPrio == minPriority && procs[i].nrun < procs[best.value].nrun {
            minPriority, best := procs[i].dynamicPrio, Some(i);
          } else if procs[i].dynamicPrio == minPriority && procs[i].nrun == procs[best.value].nrun
                    && procs[i].ctime < procs[best.value].ctime {
            minPriority, best := procs[i].dynamicPrio, Some(i);
          } else if procs[i].dynamicPrio == minPriority && procs[i].nrun == procs[best.value].nrun
                    && procs[i].ctime == procs[best.value].ctime {
            minPriority, best := procs[i].dynamicPrio, Some(i);
          }
        }
        i := i + 1;
      }
      forall j | 0 <= j < |procs| { RefreshedPrio(was[j]); }
    }

    // update_time()
    method UpdateTime()
      modifies this`procs
      ensures |procs| == |old(procs)| && forall i :: 0 <= i < |procs| ==> procs[i] == Charged(old(procs)[i])
    {
      var i := 0;
      while i < |procs|
        invariant 0 <= i <= |procs| == |old(procs)|
        invariant forall j :: 0 <= j < i ==> procs[j] == Charged(old(procs)[j])
        invariant forall j :: i <= j < |procs| ==> procs[j] == old(procs)[j]
      {
        if procs[i].state.Running? {
          procs := procs[i := procs[i].(rtime := procs[i].rtime + 1)];
        } else if procs[i].state.Sleeping? {
          procs := procs[i := procs[i].(stime := procs[i].stime + 1)];
        } else if procs[i].state.Runnable? {
          procs := procs[i := procs[i].(wtime := procs[i].wtime + 1)];
        }
        i := i + 1;
      }
    }

    // clockintr(), when nothing else runs between the increment and the charges.
    method ClockIntr()
      requires forall i :: 0 <= i < |procs| ==> Accounted(procs[i], ticks)
      modifies this
      ensures ticks == old(ticks) + 1 && |procs| == |old(procs)|
      ensures forall i :: 0 <= i < |procs| ==> procs[i] == Charged(old(procs)[i]) && Accounted(procs[i], ticks)
    {
      ticks := ticks + 1;
      UpdateTime();
    }
  }

  lemma RefreshedState(p: Proc)
    requires (p.rtime + p.wtime + p.stime + 1) % WORD != 0
    ensures Refreshed(p).state == p.state && (!p.state.Runnable? ==> Refreshed(p) == p)
    ensures p.state.Runnable? ==>
              var rbi := CalculateRbi(p.rtime, p.stime, p.wtime);
              Refreshed(p) == p.(rbi := rbi, dynamicPrio := MinOf(ToInt((p.staticPrio + rbi) % WORD), MAX_PRIO) % WORD)
  {}

  // What the priority is brought up to.
  lemma RefreshedPrio(p: Proc)
    requires (p.rtime + p.wtime + p.stime + 1) % WORD != 0
    ensures var q := Refreshed(p);
            && q == p.(rbi := q.rbi, dynamicPrio := q.dynamicPrio) && (!p.state.Runnable? ==> q == p)
            && (p.state.Runnable? ==> q.rbi == CalculateRbi(p.rtime, p.stime, p.wtime) >= 0)
            && (p.state.Runnable? ==>
                  var sum := p.staticPrio + q.rbi;
                  && (sum <= 100 ==> q.dynamicPrio == sum)
                  && (100 < sum < 0x8000_0000 ==> q.dynamicPrio == 100)
                  && (0x8000_0000 <= sum < 0x1_0000_0000 ==> q.dynamicPrio == sum))
  {
    hide Weighted;
  }

  lemma BestKept(procs: seq<Proc>, procs': seq<Proc>, i: nat, n: nat)
    requires Best(procs, i, n) && |procs'| == |procs| && procs'[..n] == procs[..n]
    ensures Best(procs', i, n)
  {}

  // ----- Time -----

  function Charged(p: Proc): (r: Proc) {
    match p.state
    case Running => p.(rtime := p.rtime + 1)
    case Sleeping => p.(stime := p.stime + 1)
    case Runnable => p.(wtime := p.wtime + 1)
    case _ => p
  }

  function Spent(p: Proc): (r: nat) { p.rtime + p.stime + p.wtime }

  // No more ticks are charged to a process than it has lived through.
  predicate Accounted(p: Proc, ticks: nat) {
    match p.state
    case Unused => true
    case Zombie => p.ctime + Spent(p) <= p.etime <= ticks
    case _ => p.ctime + Spent(p) <= ticks
  }

  // ----- A tick in steps: other harts run between ticks++ and each charge -----

  // at is the process update_time() comes to next, if a tick is in progress. Of each process the rest tells how it
  // met the ticks: late, it was created during a tick that had still to come to it; idle, so many ticks found it
  // still being set up; owed, it exited during a tick that had still to come to it.
  datatype Clock =
    Clock(ticks: nat, at: Option<nat>, procs: seq<Proc>, late: seq<bool>, idle: seq<nat>, owed: seq<bool>)

  datatype Act =
    | Bump                              // ticks++
    | Visit                             // one turn of update_time()'s loop
    | Create(i: nat)                    // allocproc()
    | Turn(i: nat, state: RunState)     // a live process goes to sleep, is woken, is dispatched, yields
    | Exit(i: nat)                      // exit()
    | Reap(i: nat)                      // freeproc()

  predicate Live(st: RunState) { st.Used? || st.Sleeping? || st.Runnable? || st.Running? }

  predicate Sized(c: Clock) { |c.late| == |c.idle| == |c.owed| == |c.procs| }

  predicate Enabled(c: Clock, a: Act) {
    && Sized(c)
    && match a
       case Bump => c.at.None?
       case Visit => c.at.Some?
       case Create(i) => i < |c.procs| && c.procs[i].state.Unused?
       case Turn(i, st) => i < |c.procs| && Live(c.procs[i].state) && Live(st)
       case Exit(i) => i < |c.procs| && Live(c.procs[i].state)
       case Reap(i) => i < |c.procs| && (c.procs[i].state.Zombie? || c.procs[i].state.Used?)
  }

  function Next(c: Clock, a: Act): (r: Clock)
    requires Enabled(c, a)
  {
    match a
    case Bump => c.(ticks := c.ticks + 1, at := Some(0))
    case Visit =>
      var i := c.at.value;
      if i < |c.procs| then
        c.(at := Some(i + 1), procs := c.procs[i := Charged(c.procs[i])],
           idle := if c.procs[i].state.Used? then c.idle[i := c.idle[i] + 1] else c.idle)
      else c.(at := None)
    case Create(i) =>
      c.(procs := c.procs[i := Proc(Used, 0, 0, 0, c.ticks, 0, DEFAULT_PRIO, 0, DEFAULT_RBI, 0)],
         late := c.late[i := Due(c, i)], idle := c.idle[i := 0], owed := c.owed[i := false])
    case Turn(i, st) => c.(procs := c.procs[i := c.procs[i].(state := st)])
    case Exit(i) =>
      c.(procs := c.procs[i := c.procs[i].(etime := c.ticks, state := Zombie)], owed := c.owed[i := Due(c, i)])
    case Reap(i) => c.(procs := c.procs[i := c.procs[i].(state := Unused)])
  }

  // The tick in progress has still to charge process i.
  predicate Due(c: Clock, i: nat) { c.at.Some? && c.at.value <= i }

  function One(b: bool): (r: nat) { if b then 1 else 0 }

  // Every tick since a process was created is charged, idle, or still to come to it.
  predicate TimeOk(c: Clock, i: nat)
    requires i < |c.procs| && Sized(c)
  {
    var p := c.procs[i];
    match p.state
    case Unused => true
    case Zombie => p.ctime + Spent(p) + c.idle[i] + One(c.owed[i]) == p.etime + One(c.late[i])
    case _ => p.ctime + Spent(p) + c.idle[i] + One(Due(c, i)) == c.ticks + One(c.late[i])
  }

  ghost predicate Inv(c: Clock) {
    Sized(c) && forall i: nat :: i < |c.procs| ==> TimeOk(c, i)
  }

  lemma StepInv(c: Clock, a: Act)
    requires Inv(c) && Enabled(c, a)
    ensures Inv(Next(c, a))
  {
    hide TimeOk;
    var d := Next(c, a);
    forall i: nat | i < |d.procs| ensures TimeOk(d, i) { StepTime(c, a, i); }
  }

  lemma StepTime(c: Clock, a: Act, i: nat)
    requires Enabled(c, a) && i < |c.procs| && TimeOk(c, i)
    ensures var d := Next(c, a); Sized(d) && |d.procs| == |c.procs| && TimeOk(d, i)
  {
    if a.Visit? { VisitTime(c, i); }
  }

  lemma VisitTime(c: Clock, i: nat)
    requires Enabled(c, Visit) && i < |c.procs| && TimeOk(c, i)
    ensures var d := Next(c, Visit); Sized(d) && |d.procs| == |c.procs| && TimeOk(d, i)
  {}

  ghost predicate Trace(cs: seq<Clock>, acts: seq<Act>) {
    && |cs| == |acts| + 1 && Sized(cs[0])
    && (forall i :: 0 <= i < |cs[0].procs| ==> cs[0].procs[i].state.Unused?)
    && forall k :: 0 <= k < |acts| ==> Enabled(cs[k], acts[k]) && cs[k + 1] == Next(cs[k], acts[k])
  }

  lemma {:induction false} TraceInv(cs: seq<Clock>, acts: seq<Act>, k: nat)
    requires Trace(cs, acts) && k < |cs|
    ensures Inv(cs[k])
    decreases k
  {
    if k > 0 {
      TraceInv(cs, acts, k - 1);
      StepInv(cs[k - 1], acts[k - 1]);
      assert cs[k - 1 + 1] == Next(cs[k - 1], acts[k - 1]);
    }
  }

  // allocproc(): no time spent, static priority 50 and RBI 100, so that the first priority is 100.
  lemma CreatedAs(c: Clock, i: nat)
    requires Enabled(c, Create(i))
    ensures var p := Next(c, Create(i)).procs[i];
            && p == Proc(Used, 0, 0, 0, c.ticks, 0, 50, 0, 100, 0)
            && Refreshed(p.(state := Runnable)).dynamicPrio == 100
  {
    RefreshedPrio(c.procs[i].(state := Runnable, rtime := 0, stime := 0, wtime := 0, staticPrio := 50));
  }

  // How many ticks from event `from` on came to process i and found it in a state.
  function Found(cs: seq<Clock>, acts: seq<Act>, i: nat, st: RunState, from: nat, k: nat): (r: nat)
    requires from <= k <= |acts| < |cs|
  {
    if k == from then 0
    else
      var c := cs[k - 1];
      Found(cs, acts, i, st, from, k - 1)
      + One(acts[k - 1].Visit? && c.at == Some(i) && i < |c.procs| && c.procs[i].state == st)
  }

  // In every run, a process's three times and its idle ticks count the ticks since its creation that found it running,
  // asleep, waiting and being set up.
  lemma {:induction false} TimesCount(cs: seq<Clock>, acts: seq<Act>, i: nat, from: nat, k: nat)
    requires Trace(cs, acts) && 0 < from <= k <= |acts| && acts[from - 1] == Create(i)
    requires forall m :: from <= m < k ==> acts[m] != Create(i)
    ensures i < |cs[k].procs| && Sized(cs[k])
    ensures cs[k].procs[i].rtime == Found(cs, acts, i, Running, from, k)
    ensures cs[k].procs[i].stime == Found(cs, acts, i, Sleeping, from, k)
    ensures cs[k].procs[i].wtime == Found(cs, acts, i, Runnable, from, k)
    ensures cs[k].idle[i] == Found(cs, acts, i, Used, from, k)
    decreases k
  {
    assert Enabled(cs[k - 1], acts[k - 1]) && cs[k - 1 + 1] == Next(cs[k - 1], acts[k - 1]);
    hide Enabled, Next, Trace;
    if from < k {
      TimesCount(cs, acts, i, from, k - 1);
      CountStep(cs[k - 1], acts[k - 1], i);
    } else {
      CountStart(cs[k - 1], i);
    }
  }

  lemma CountStart(c: Clock, i: nat)
    requires Enabled(c, Create(i))
    ensures var d := Next(c, Create(i));
            && i < |d.procs| && Sized(d)
            && d.procs[i].rtime == d.procs[i].stime == d.procs[i].wtime == d.idle[i] == 0
  {}

  lemma CountStep(c: Clock, a: Act, i: nat)
    requires Enabled(c, a) && i < |c.procs| && a != Create(i)
    ensures var d, p, here := Next(c, a), c.procs[i], a.Visit? && c.at == Some(i);
            && i < |d.procs| && Sized(d)
            && d.procs[i].rtime == p.rtime + One(here && p.state.Running?)
            && d.procs[i].stime == p.stime + One(here && p.state.Sleeping?)
            && d.procs[i].wtime == p.wtime + One(here && p.state.Runnable?)
            && d.idle[i] == c.idle[i] + One(here && p.state.Used?)
  {}

  // waitx's etime - ctime - RTime, a uint.
  function WaitTime(p: Proc): (r: nat) { (p.etime - p.ctime - p.rtime) % WORD }

  // In every run, waitx's subtraction is wrong exactly for a process that was created during a tick that had still
  // to come to it, that did not exit during one, and that every tick that came to it found running. It is then one
  // too small; otherwise it counts the ticks that found the process asleep, waiting or idle, one less if it was
  // late and one more if it was owed.
  lemma WaitTimeOk(cs: seq<Clock>, acts: seq<Act>, k: nat, i: nat)
    requires Trace(cs, acts) && k < |cs| && i < |cs[k].procs| && cs[k].procs[i].state.Zombie?
    requires cs[k].procs[i].etime < WORD
    ensures var c, p := cs[k], cs[k].procs[i];
            && Sized(c)
            && (WaitTime(p) != p.etime - p.ctime - p.rtime <==>
                c.late[i] && !c.owed[i] && p.stime + p.wtime + c.idle[i] == 0)
            && (WaitTime(p) != p.etime - p.ctime - p.rtime ==> WaitTime(p) == WORD - 1)
            && (WaitTime(p) == p.etime - p.ctime - p.rtime ==>
                WaitTime(p) == p.stime + p.wtime + c.idle[i] + One(c.owed[i]) - One(c.late[i]))
  {
    TraceInv(cs, acts, k);
    assert TimeOk(cs[k], i);
  }

  // A process created between ticks++ and its charge, dispatched, charged and gone within the same tick.
  lemma CreatedMidTick()
    ensures exists cs: seq<Clock>, acts: seq<Act> :: Trace(cs, acts) && |cs| == 6 && |cs[5].procs| == 1
              && cs[5].procs[0].state.Zombie? && WaitTime(cs[5].procs[0]) == WORD - 1
  {
    var c0 := Clock(0, None, [Proc(Unused, 0, 0, 0, 0, 0, 0, 0, 0, 0)], [false], [0], [false]);
    var c1 := Next(c0, Bump);
    var c2 := Next(c1, Create(0));
    var c3 := Next(c2, Turn(0, Running));
    var c4 := Next(c3, Visit);
    var c5 := Next(c4, Exit(0));
    var cs, acts := [c0, c1, c2, c3, c4, c5], [Bump, Create(0), Turn(0, Running), Visit, Exit(0)];
    assert c5.procs[0] == Proc(Zombie, 1, 0, 0, 1, 1, DEFAULT_PRIO, 0, DEFAULT_RBI, 0);
    assert Trace(cs, acts) by {
      assert Enabled(c0, Bump) && Enabled(c1, Create(0)) && Enabled(c2, Turn(0, Running)) && Enabled(c3, Visit)
             && Enabled(c4, Exit(0));
      hide Enabled, Next;
    }
  }
}
