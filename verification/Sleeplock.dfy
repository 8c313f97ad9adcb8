/**
 Sleep, wakeup and sleeping locks (kernel/proc.c:646-692, kernel/sleeplock.c:21-52) as a state machine over the
 single steps of any number of processes and one sleeplock: acquiring and releasing lk->lk and each p->lock,
 every test and assignment in between, the scheduler's dispatch, and kill().
 */
module Sleeplock {
  import opened Wrappers

  // Where a process is. Those of acquiresleep: Enter .. Taken, with sleep() from Slept on; then Owner; then
  // those of releasesleep: Leave .. Left, with wakeup() at process i.
  datatype Pc =
    | Idle
    | Enter                 // about to acquire(&lk->lk)
    | Test                  // while (lk->locked)
    | Slept                 // in sleep(), holding lk->lk and its own p->lock
    | Unlocked              // lk->lk released
    | Switch                // state is SLEEPING; about to switch away
    | Off                   // not running
    | Woken                 // dispatched, holding its p->lock
    | Tidied                // chan cleared
    | Again                 // about to acquire lk->lk again
    | Taken                 // locked set
    | Owner
    | Leave                 // in releasesleep(), about to acquire(&lk->lk)
    | Clear                 // about to clear locked
    | Wake(i: nat)          // wakeup() comes to process i
    | Look(i: nat)          // holding process i's lock, about to test it
    | Looked(i: nat)        // about to release process i's lock
    | Left                  // wakeup() done

  datatype Run = Running | Sleeping | Runnable

  datatype State = State(
    pc: seq<Pc>,
    lk: Option<nat>,              // who holds lk->lk
    plock: seq<Option<nat>>,      // who holds each p->lock
    locked: bool,
    pid: nat,                     // lk->pid
    run: seq<Run>,                // p->state
    onLock: seq<bool>             // p->chan is this lock
  )

  function Pid(p: nat): (r: nat) { p + 1 }

  // A step of the process p itself, of the scheduler, or of kill().
  datatype Act = Go(p: nat) | Dispatch(p: nat) | Kill(p: nat)

  predicate Sized(s: State) {
    |s.pc| == |s.plock| == |s.run| == |s.onLock|
  }

  // Spinlocks make a process wait; everything else can always go on.
  predicate Enabled(s: State, a: Act) {
    && Sized(s) && a.p < |s.pc|
    && match a
       case Dispatch(p) => s.pc[p].Off? && s.run[p].Runnable? && s.plock[p].None?
       case Kill(p) => s.plock[p].None? && s.run[p].Sleeping?
       case Go(p) =>
         match s.pc[p]
         case Enter => s.lk.None?
         case Test => s.locked ==> s.plock[p].None?
         case Off => false
         case Again => s.lk.None?
         case Leave => s.lk.None?
         case Wake(i) => i < |s.pc| && i != p ==> s.plock[i].None?
         case Look(i) => i < |s.pc|
         case Looked(i) => i < |s.pc|
         case _ => true
  }

  function Step(s: State, p: nat): (r: State)
    requires Enabled(s, Go(p))
  {
    match s.pc[p]
    case Idle => s.(pc := s.pc[p := Enter])
    case Enter => s.(pc := s.pc[p := Test], lk := Some(p))
    case Test =>
      if s.locked then s.(pc := s.pc[p := Slept], plock := s.plock[p := Some(p)])
      else s.(pc := s.pc[p := Taken], locked := true, pid := Pid(p))
    case Slept => s.(pc := s.pc[p := Unlocked], lk := None)
    case Unlocked => s.(pc := s.pc[p := Switch], onLock := s.onLock[p := true], run := s.run[p := Sleeping])
    case Switch => s.(pc := s.pc[p := Off], plock := s.plock[p := None])
    case Off => s
    case Woken => s.(pc := s.pc[p := Tidied], onLock := s.onLock[p := false])
    case Tidied => s.(pc := s.pc[p := Again], plock := s.plock[p := None])
    case Again => s.(pc := s.pc[p := Test], lk := Some(p))
    case Taken => s.(pc := s.pc[p := Owner], lk := None)
    case Owner => s.(pc := s.pc[p := Leave])
    case Leave => s.(pc := s.pc[p := Clear], lk := Some(p))
    case Clear => s.(pc := s.pc[p := Wake(0)], locked := false, pid := 0)
    case Wake(i) =>
      if i >= |s.pc| then s.(pc := s.pc[p := Left])
      else if i == p then s.(pc := s.pc[p := Wake(i + 1)])
      else s.(pc := s.pc[p := Look(i)], plock := s.plock[i := Some(p)])
    case Look(i) =>
      s.(pc := s.pc[p := Looked(i)], run := if s.run[i].Sleeping? && s.onLock[i] then s.run[i := Runnable] else s.run)
    case Looked(i) => s.(pc := s.pc[p := Wake(i + 1)], plock := s.plock[i := None])
    case Left => s.(pc := s.pc[p := Idle], lk := None)
  }

  function Next(s: State, a: Act): (r: State)
    requires Enabled(s, a)
  {
    match a
    case Go(p) => Step(s, p)
    case Dispatch(p) => s.(pc := s.pc[p := Woken], run := s.run[p := Running], plock := s.plock[p := Some(p)])
    case Kill(p) => s.(run := s.run[p := Runnable])
  }

  predicate Init(s: State) {
    && Sized(s) && s.lk.None? && !s.locked && s.pid == 0
    && forall p :: 0 <= p < |s.pc| ==> s.pc[p].Idle? && s.plock[p].None? && s.run[p].Running? && !s.onLock[p]
  }

  // ----- The invariant -----

  predicate HasLk(c: Pc) {
    c.Test? || c.Slept? || c.Taken? || c.Clear? || c.Wake? || c.Look? || c.Looked? || c.Left?
  }

  // Process q, at c, holds the lock of process p.
  predicate HasProc(c: Pc, q: nat, p: nat) {
    || (p == q && (c.Slept? || c.Unlocked? || c.Switch? || c.Woken? || c.Tidied?))
    || ((c.Look? || c.Looked?) && c.i == p)
  }

  predicate IsOwner(c: Pc) { c.Taken? || c.Owner? || c.Leave? || c.Clear? }

  // On its way to sleep, or asleep.
  predicate Bound(s: State, p: nat)
    requires p < |s.pc| == |s.run|
  {
    s.pc[p].Slept? || s.pc[p].Unlocked? || s.pc[p].Switch? || (s.pc[p].Off? && s.run[p].Sleeping?)
  }

  // A wakeup() in progress that has still to look at p.
  predicate WillLook(c: Pc, p: nat) { ((c.Wake? || c.Look?) && c.i <= p) || (c.Looked? && c.i < p) }

  ghost predicate ToBeWoken(s: State, p: nat) { exists q :: 0 <= q < |s.pc| && WillLook(s.pc[q], p) }

  ghost predicate LkOk(s: State) {
    Sized(s) && forall p: nat :: p < |s.pc| ==> (HasLk(s.pc[p]) <==> s.lk == Some(p))
  }

  predicate ProcAt(s: State, p: nat, q: nat)
    requires Sized(s) && p < |s.pc| && q < |s.pc|
  {
    HasProc(s.pc[q], q, p) <==> s.plock[p] == Some(q)
  }

  predicate RunAt(s: State, p: nat)
    requires Sized(s) && p < |s.pc|
  {
    && (s.pc[p].Switch? ==> s.run[p].Sleeping? && s.onLock[p])
    && (s.pc[p].Off? ==> !s.run[p].Running? && s.onLock[p])
    && (!s.pc[p].Switch? && !s.pc[p].Off? ==> s.run[p].Running?)
    && (s.pc[p].Look? || s.pc[p].Looked? ==> s.pc[p].i < |s.pc| && s.pc[p].i != p)
  }

  ghost predicate ProcOk(s: State) {
    Sized(s) && forall p: nat, q: nat :: p < |s.pc| && q < |s.pc| ==> ProcAt(s, p, q)
  }

  ghost predicate OwnerOk(s: State) {
    Sized(s) && forall p: nat :: p < |s.pc| ==> (IsOwner(s.pc[p]) <==> s.locked && s.pid == Pid(p))
  }

  // locked is never set without an owner to clear it.
  ghost predicate Owned(s: State) {
    s.locked ==> exists p :: 0 <= p < |s.pc| && IsOwner(s.pc[p])
  }

  ghost predicate RunOk(s: State) {
    Sized(s) && forall p: nat :: p < |s.pc| ==> RunAt(s, p)
  }

  // Locks are held by processes.
  ghost predicate HoldersOk(s: State) {
    && Sized(s) && (s.lk.Some? ==> s.lk.value < |s.pc|)
    && forall i :: 0 <= i < |s.plock| && s.plock[i].Some? ==> s.plock[i].value < |s.pc|
  }

  ghost predicate SleepOk(s: State) {
    Sized(s) && forall p: nat :: p < |s.pc| && Bound(s, p) ==> s.locked || ToBeWoken(s, p)
  }

  ghost predicate Inv(s: State) {
    LkOk(s) && ProcOk(s) && OwnerOk(s) && Owned(s) && RunOk(s) && SleepOk(s) && HoldersOk(s)
  }

  lemma InitInv(s: State)
    requires Init(s)
    ensures Inv(s)
  {}

  lemma StepLk(s: State, a: Act)
    requires LkOk(s) && Enabled(s, a)
    ensures LkOk(Next(s, a))
  {}

  lemma StepProcAt(s: State, a: Act, p: nat, q: nat)
    requires Enabled(s, a) && p < |s.pc| && q < |s.pc| && RunAt(s, a.p)
    requires ProcAt(s, p, q) && ProcAt(s, p, a.p) && ProcAt(s, a.p, a.p)
    ensures var t := Next(s, a); Sized(t) && |t.pc| == |s.pc| && ProcAt(t, p, q)
  {}

  lemma StepProc(s: State, a: Act)
    requires ProcOk(s) && RunOk(s) && Enabled(s, a)
    ensures ProcOk(Next(s, a))
  {
    hide Step, HasProc, Next, ProcAt, RunAt;
    var t := Next(s, a);
    StepSized(s, a);
    forall p: nat, q: nat | p < |t.pc| && q < |t.pc| ensures ProcAt(t, p, q) { StepProcAt(s, a, p, q); }
  }

  lemma StepSized(s: State, a: Act)
    requires Enabled(s, a)
    ensures Sized(Next(s, a)) && |Next(s, a).pc| == |s.pc|
  {}

  lemma StepOwner(s: State, a: Act)
    requires LkOk(s) && OwnerOk(s) && Owned(s) && Enabled(s, a)
    ensures OwnerOk(Next(s, a)) && Owned(Next(s, a))
  {}

  lemma StepRunAt(s: State, a: Act, p: nat)
    requires Enabled(s, a) && p < |s.pc| && RunAt(s, p) && RunAt(s, a.p)
    requires ProcAt(s, p, p) && ProcAt(s, p, a.p)
    ensures var t := Next(s, a); Sized(t) && |t.pc| == |s.pc| && RunAt(t, p)
  {}

  lemma StepRun(s: State, a: Act)
    requires ProcOk(s) && RunOk(s) && Enabled(s, a)
    ensures RunOk(Next(s, a))
  {
    hide Step, HasProc, Next, ProcAt, RunAt;
    var t := Next(s, a);
    StepSized(s, a);
    forall p: nat | p < |t.pc| ensures RunAt(t, p) { StepRunAt(s, a, p); }
  }

  // A process on its way to sleep after the step was so before, or has just found locked set.
  lemma BoundBefore(s: State, a: Act, p: nat)
    requires ProcOk(s) && RunOk(s) && Enabled(s, a) && p < |s.pc| && Bound(Next(s, a), p)
    ensures Bound(s, p) || s.locked
    ensures Bound(s, p) ==> !(a.Go? && s.pc[a.p] == Look(p))
  {
    assert ProcAt(s, p, p) && ProcAt(s, p, a.p) && RunAt(s, p);
    hide ProcOk, RunOk;
  }

  // A wakeup() that will look at p still will, unless this step is the look.
  lemma StillToBeWoken(s: State, a: Act, p: nat)
    requires LkOk(s) && ProcOk(s) && RunOk(s) && Enabled(s, a) && p < |s.pc| && ToBeWoken(s, p) && Bound(Next(s, a), p)
    ensures ToBeWoken(Next(s, a), p)
  {
    var q: nat :| q < |s.pc| && WillLook(s.pc[q], p);
    BoundBefore(s, a, p);
    var t := Next(s, a);
    if !(a.Go? && a.p == q) {
      assert WillLook(t.pc[q], p);
    } else {
      assert t.pc[q].Wake? || t.pc[q].Look? || t.pc[q].Looked?;
      assert WillLook(t.pc[q], p);
    }
  }

  lemma StepSleep(s: State, a: Act)
    requires Inv(s) && Enabled(s, a)
    ensures SleepOk(Next(s, a))
  {
    var t := Next(s, a);
    StepSized(s, a);
    forall p: nat | p < |t.pc| && Bound(t, p) ensures t.locked || ToBeWoken(t, p) {
      BoundBefore(s, a, p);
      if s.locked {
        StillLocked(s, a, p);
      } else {
        StillToBeWoken(s, a, p);
      }
    }
  }

  // When locked is cleared, a wakeup() begins that will look at everyone.
  lemma StillLocked(s: State, a: Act, p: nat)
    requires Enabled(s, a) && s.locked && p < |s.pc|
    ensures Next(s, a).locked || ToBeWoken(Next(s, a), p)
  {
    if a.Go? && s.pc[a.p].Clear? {
      assert WillLook(Next(s, a).pc[a.p], p);
    }
  }

  lemma StepHolders(s: State, a: Act)
    requires HoldersOk(s) && Enabled(s, a)
    ensures HoldersOk(Next(s, a))
  {}

  lemma StepInv(s: State, a: Act)
    requires Inv(s) && Enabled(s, a)
    ensures Inv(Next(s, a))
  {
    StepLk(s, a);
    StepProc(s, a);
    StepOwner(s, a);
    StepRun(s, a);
    StepSleep(s, a);
    StepHolders(s, a);
    hide LkOk, ProcOk, OwnerOk, Owned, RunOk, SleepOk, HoldersOk, Next;
  }

  // ----- Every run -----

  ghost predicate Trace(ss: seq<State>, acts: seq<Act>) {
    && |ss| == |acts| + 1 && Init(ss[0])
    && forall k :: 0 <= k < |acts| ==> Enabled(ss[k], acts[k]) && ss[k + 1] == Next(ss[k], acts[k])
  }

  lemma {:induction false} TraceInv(ss: seq<State>, acts: seq<Act>, k: nat)
    requires Trace(ss, acts) && k < |ss|
    ensures Inv(ss[k])
    decreases k
  {
    if k == 0 {
      InitInv(ss[0]);
    } else {
      TraceInv(ss, acts, k - 1);
      StepInv(ss[k - 1], acts[k - 1]);
      assert ss[k - 1 + 1] == Next(ss[k - 1], acts[k - 1]);
    }
  }

  // At most one process holds the sleeplock, in every state of every run.
  lemma MutualExclusion(ss: seq<State>, acts: seq<Act>, k: nat, p: nat, q: nat)
    requires Trace(ss, acts) && k < |ss| && p < |ss[k].pc| && q < |ss[k].pc|
    requires IsOwner(ss[k].pc[p]) && IsOwner(ss[k].pc[q])
    ensures p == q
  {
    TraceInv(ss, acts, k);
  }

  // Whenever lk->lk is free, a process asleep on the lock means that the lock is held, by someone who will
  // release it.
  lemma NoLostWakeup(ss: seq<State>, acts: seq<Act>, k: nat, p: nat)
    requires Trace(ss, acts) && k < |ss| && p < |ss[k].pc| && Sized(ss[k]) && ss[k].run[p].Sleeping? && ss[k].lk.None?
    ensures ss[k].locked && exists q :: 0 <= q < |ss[k].pc| && IsOwner(ss[k].pc[q])
  {
    TraceInv(ss, acts, k);
    var s := ss[k];
    assert RunAt(s, p);
    assert Bound(s, p);
    if ToBeWoken(s, p) {
      var q: nat :| q < |s.pc| && WillLook(s.pc[q], p);
      assert HasLk(s.pc[q]);
    }
  }

  // holdingsleep(), which reads both fields under lk->lk, tells the caller whether it is the owner.
  lemma HoldingSleep(ss: seq<State>, acts: seq<Act>, k: nat, p: nat)
    requires Trace(ss, acts) && k < |ss| && p < |ss[k].pc|
    ensures ss[k].locked && ss[k].pid == Pid(p) <==> IsOwner(ss[k].pc[p])
  {
    TraceInv(ss, acts, k);
  }

  // ----- Progress -----

  // How many steps of its own a process has left in wakeup(), of n processes.
  function StepsLeft(n: nat, c: Pc): (r: int) {
    match c
    case Clear => 3 * n + 2
    case Wake(i) => if i < n then 3 * (n - i) + 1 else 1
    case Look(i) => 3 * (n - i)
    case Looked(i) => 3 * (n - i) - 1
    case _ => 0
  }

  // releasesleep ends: every step of its own brings it nearer to the end of wakeup().
  lemma WakeupEnds(s: State, p: nat)
    requires Enabled(s, Go(p)) && (s.pc[p].Clear? || s.pc[p].Wake? || s.pc[p].Look? || s.pc[p].Looked?)
    ensures var t := Next(s, Go(p));
            && p < |t.pc| == |s.pc| && 0 <= StepsLeft(|s.pc|, t.pc[p]) < StepsLeft(|s.pc|, s.pc[p])
            && (t.pc[p].Wake? || t.pc[p].Look? || t.pc[p].Looked? || t.pc[p].Left?)
            && (t.pc[p].Left? <==> StepsLeft(|s.pc|, t.pc[p]) == 0)
  {}

  // The process can go on, or be dispatched.
  predicate CanMove(s: State, q: nat) {
    q < |s.pc| && !s.pc[q].Idle? && (Enabled(s, Go(q)) || Enabled(s, Dispatch(q)))
  }

  // A p->lock is held by its own process, or by who holds lk->lk.
  lemma LockHolder(s: State, i: nat)
    requires Inv(s) && i < |s.pc| && s.plock[i].Some?
    ensures var q := s.plock[i].value;
            && q < |s.pc| && HasProc(s.pc[q], q, i)
            && (q == i || (s.lk == Some(q) && (s.pc[q].Look? || s.pc[q].Looked?) && s.pc[q].i == i))
  {
    assert ProcAt(s, i, s.plock[i].value);
  }

  // Who holds lk->lk can go on, unless wakeup() waits for a p->lock whose holder can.
  lemma HolderMoves(s: State, p: nat)
    requires Inv(s) && p < |s.pc| && s.lk == Some(p)
    ensures CanMove(s, p) || (s.pc[p].Wake? && CanMove(s, s.pc[p].i))
  {
    assert RunAt(s, p) && HasLk(s.pc[p]);
    if s.pc[p].Wake? && s.pc[p].i < |s.pc| {
      var i := s.pc[p].i;
      if s.plock[i].Some? { LockHolder(s, i); }
    } else if s.pc[p].Test? && s.plock[p].Some? {
      LockHolder(s, p);
    }
  }

  // In every state of every run, if a process is at work then some process that is at work can take a step.
  lemma NoDeadlock(ss: seq<State>, acts: seq<Act>, k: nat, p: nat)
    requires Trace(ss, acts) && k < |ss| && p < |ss[k].pc| && !ss[k].pc[p].Idle?
    ensures exists q: nat :: CanMove(ss[k], q)
  {
    TraceInv(ss, acts, k);
    var s := ss[k];
    if s.lk.Some? {
      HolderMoves(s, s.lk.value);
    } else if s.pc[p].Off? && s.run[p].Sleeping? {
      NoLostWakeup(ss, acts, k, p);
      var q: nat :| q < |s.pc| && IsOwner(s.pc[q]);
      assert !HasLk(s.pc[q]);
      assert CanMove(s, q);
    } else {
      if s.pc[p].Off? {
        assert RunAt(s, p);
        if s.plock[p].Some? { LockHolder(s, p); }
      }
      assert !HasLk(s.pc[p]);
      assert CanMove(s, p);
    }
  }
}
