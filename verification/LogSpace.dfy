/**
 Log space accounting (kernel/log.c begin_op, log_write, end_op) over every interleaving of file
 system calls. Each atomic step is one critical section of log.lock. An operation may add at most
 MAXOPBLOCKS distinct blocks; `quota` lists, per outstanding operation, how many it may still add.
 */
module LogSpace {
  import opened Disk

  datatype State = State(lh: seq<int>, quota: seq<nat>, committing: bool)

  datatype Act =
    | BeginOp                       // begin_op finds room
    | LogWrite(op: nat, block: int) // log_write by outstanding operation number op
    | EndOp(op: nat)                // end_op up to the release of log.lock
    | Committed                     // the committer clears log.committing

  const INIT := State([], [], false)

  // begin_op's loop leaves only through this guard; otherwise it sleeps.
  predicate Room(s: State) {
    !s.committing && |s.lh| + (|s.quota| + 1) * MAXOPBLOCKS <= LOGSIZE
  }

  predicate Enabled(s: State, a: Act) {
    match a
    case BeginOp => Room(s)
    case LogWrite(op, block) => op < |s.quota| && (block in s.lh || s.quota[op] > 0)
    case EndOp(op) => op < |s.quota|
    case Committed => s.committing
  }

  // The checks at the head of log_write, and the one in end_op.
  predicate Panics(s: State, size: nat, a: Act) {
    match a
    case LogWrite(_, _) => |s.lh| >= LOGSIZE || |s.lh| >= size - 1 || |s.quota| < 1
    case EndOp(_) => s.committing
    case _ => false
  }

  function Next(s: State, a: Act): (r: State)
    requires Enabled(s, a)
  {
    match a
    case BeginOp => s.(quota := s.quota + [MAXOPBLOCKS])
    case LogWrite(op, block) =>
      if block in s.lh then s
      else s.(lh := s.lh + [block], quota := s.quota[op := s.quota[op] - 1])
    case EndOp(op) =>
      var q := s.quota[..op] + s.quota[op + 1..];
      State(s.lh, q, if q == [] then true else s.committing)
    case Committed => State([], s.quota, false)
  }

  function Sum(q: seq<nat>): (r: nat) {
    if q == [] then 0 else Sum(q[..|q| - 1]) + q[|q| - 1]
  }

  lemma {:induction false} SumConcat(a: seq<nat>, b: seq<nat>)
    ensures Sum(a + b) == Sum(a) + Sum(b)
  {
    if b == [] {
      assert a + b == a;
    } else {
      SumConcat(a, b[..|b| - 1]);
      assert (a + b)[..|a + b| - 1] == a + b[..|b| - 1];
    }
  }

  lemma SumSplit(q: seq<nat>, k: nat)
    requires k < |q|
    ensures Sum(q) == Sum(q[..k]) + q[k] + Sum(q[k + 1..])
  {
    assert q == q[..k] + ([q[k]] + q[k + 1..]);
    SumConcat(q[..k], [q[k]] + q[k + 1..]);
    SumConcat([q[k]], q[k + 1..]);
    assert Sum([q[k]]) == q[k];
  }

  lemma {:induction false} SumAtMost(q: seq<nat>)
    requires forall i :: 0 <= i < |q| ==> q[i] <= MAXOPBLOCKS
    ensures Sum(q) <= |q| * MAXOPBLOCKS
  {
    if q != [] { SumAtMost(q[..|q| - 1]); }
  }

  ghost predicate Inv(s: State) {
    && Distinct(s.lh)
    && (forall i :: 0 <= i < |s.quota| ==> s.quota[i] <= MAXOPBLOCKS)
    && |s.lh| + Sum(s.quota) <= LOGSIZE
    && (s.committing ==> s.quota == [])
  }

  lemma StepKeepsInv(s: State, a: Act)
    requires Inv(s) && Enabled(s, a)
    ensures Inv(Next(s, a))
  {
    match a
    case BeginOp =>
      SumAtMost(s.quota);
      SumConcat(s.quota, [MAXOPBLOCKS]);
      assert Sum([MAXOPBLOCKS]) == MAXOPBLOCKS;
    case LogWrite(op, block) =>
      if block !in s.lh {
        var q := s.quota[op := s.quota[op] - 1];
        SumSplit(s.quota, op);
        SumSplit(q, op);
        assert q[..op] == s.quota[..op] && q[op + 1..] == s.quota[op + 1..];
      }
    case EndOp(op) =>
      SumSplit(s.quota, op);
      SumConcat(s.quota[..op], s.quota[op + 1..]);
    case Committed =>
  }

  ghost predicate RunOk(s: State, run: seq<Act>)
    decreases |run|
  {
    run == [] || (Enabled(s, run[0]) && RunOk(Next(s, run[0]), run[1..]))
  }

  ghost function Run(s: State, run: seq<Act>): (r: State)
    requires RunOk(s, run)
    decreases |run|
  {
    if run == [] then s else Run(Next(s, run[0]), run[1..])
  }

  lemma {:induction false} RunKeepsInv(s: State, run: seq<Act>)
    requires Inv(s) && RunOk(s, run)
    ensures Inv(Run(s, run))
    decreases |run|
  {
    if run != [] {
      StepKeepsInv(s, run[0]);
      RunKeepsInv(Next(s, run[0]), run[1..]);
    }
  }

  // In every reachable state no operation is outstanding during a commit, so end_op never panics; and a
  // log_write panics exactly when the log is full, absorbed or not: log.size - 1 blocks, or LOGSIZE of them. The
  // latter is reached only with every quota used up, so never by an operation that may still add a block.
  lemma EveryRunHasRoom(run: seq<Act>, size: nat, a: Act)
    requires RunOk(INIT, run) && Enabled(Run(INIT, run), a)
    ensures var s := Run(INIT, run);
            && |s.lh| + Sum(s.quota) <= LOGSIZE
            && (s.committing ==> s.quota == [])
            && (a.EndOp? ==> !Panics(s, size, a))
            && (a.LogWrite? ==> (Panics(s, size, a) <==> |s.lh| >= size - 1 || |s.lh| == LOGSIZE))
            && (a.LogWrite? && |s.lh| == LOGSIZE ==> a.block in s.lh && forall i :: 0 <= i < |s.quota| ==>
                s.quota[i] == 0)
            && (a.LogWrite? && s.quota[a.op] > 0 && size > LOGSIZE ==> !Panics(s, size, a))
  {
    RunKeepsInv(INIT, run);
    var s := Run(INIT, run);
    if a.LogWrite? { SumSplit(s.quota, a.op); }
    if |s.lh| == LOGSIZE {
      forall i | 0 <= i < |s.quota| ensures s.quota[i] == 0 { SumSplit(s.quota, i); }
    }
  }

  // An operation logging the n blocks b, b+1, ...
  function Burst(op: nat, b: int, n: nat): (r: seq<Act>)
    ensures |r| == n
  {
    seq(n, i requires 0 <= i < n => LogWrite(op, b + i))
  }

  function Upto(b: int, n: nat): (r: seq<int>)
    ensures |r| == n
  {
    seq(n, i requires 0 <= i < n => b + i)
  }

  lemma {:induction false} BurstRuns(s: State, op: nat, b: int, n: nat)
    requires op < |s.quota| && n <= s.quota[op]
    requires forall x :: x in s.lh ==> x < b
    ensures RunOk(s, Burst(op, b, n))
    ensures Run(s, Burst(op, b, n)) == State(s.lh + Upto(b, n), s.quota[op := s.quota[op] - n], s.committing)
    decreases n
  {
    var acts := Burst(op, b, n);
    if n == 0 {
      assert s.lh + Upto(b, 0) == s.lh;
      assert s.quota[op := s.quota[op]] == s.quota;
    } else {
      var s' := Next(s, acts[0]);
      assert acts[1..] == Burst(op, b + 1, n - 1);
      BurstRuns(s', op, b + 1, n - 1);
      assert s.lh + [b] + Upto(b + 1, n - 1) == s.lh + Upto(b, n);
      assert s.quota[op := s.quota[op] - 1][op := s.quota[op] - n] == s.quota[op := s.quota[op] - n];
    }
  }

  lemma {:induction false} RunConcat(s: State, a: seq<Act>, b: seq<Act>)
    requires RunOk(s, a) && RunOk(Run(s, a), b)
    ensures RunOk(s, a + b) && Run(s, a + b) == Run(Run(s, a), b)
    decreases |a|
  {
    if a == [] {
      assert a + b == b;
    } else {
      RunConcat(Next(s, a[0]), a[1..], b);
      assert (a + b)[1..] == a[1..] + b;
    }
  }

  lemma BurstAfter(s: State, pre: seq<Act>, op: nat, b: int, n: nat) returns (run: seq<Act>)
    requires RunOk(s, pre)
    requires var m := Run(s, pre); op < |m.quota| && n <= m.quota[op] && forall x :: x in m.lh ==> x < b
    ensures RunOk(s, run)
    ensures var m := Run(s, pre);
            Run(s, run) == State(m.lh + Upto(b, n), m.quota[op := m.quota[op] - n], m.committing)
  {
    var m := Run(s, pre);
    BurstRuns(m, op, b, n);
    RunConcat(s, pre, Burst(op, b, n));
    run := pre + Burst(op, b, n);
  }

  // Three operations begin; the first two log ten blocks each and the third n.
  lemma ThreeOps(n: nat) returns (run: seq<Act>)
    requires n <= 10
    ensures RunOk(INIT, run) && Run(INIT, run) == State(Upto(0, 20 + n), [0, 0, 10 - n], false)
  {
    var s1 := Next(INIT, BeginOp);
    var s2 := Next(s1, BeginOp);
    var s3 := Next(s2, BeginOp);
    run := [BeginOp, BeginOp, BeginOp];
    assert run[1..] == [BeginOp, BeginOp] && [BeginOp, BeginOp][1..] == [BeginOp];
    assert RunOk(s2, [BeginOp]) && Run(s2, [BeginOp]) == s3;
    assert RunOk(s1, [BeginOp, BeginOp]) && Run(s1, [BeginOp, BeginOp]) == s3;
    assert RunOk(INIT, run) && Run(INIT, run) == s3;
    run := BurstAfter(INIT, run, 0, 0, 10);
    run := BurstAfter(INIT, run, 1, 10, 10);
    run := BurstAfter(INIT, run, 2, 20, n);
    assert Run(INIT, run).lh == Upto(0, 20 + n);
  }

  // mkfs makes a log of LOGSIZE blocks (mkfs.c: nlog = LOGSIZE), one too few: three operations
  // within their quotas reach a state in which log_write of a new block panics.
  lemma MkfsLogIsTooSmall() returns (run: seq<Act>, a: Act)
    ensures RunOk(INIT, run) && Enabled(Run(INIT, run), a)
    ensures a.LogWrite? && a.block !in Run(INIT, run).lh
    ensures Panics(Run(INIT, run), LOGSIZE, a)
  {
    run := ThreeOps(9);
    a := LogWrite(2, 29);
  }

  // No log is large enough for an operation that logs one of its blocks again: with all three quotas used, even
  // an absorbed log_write panics, whatever log.size is.
  lemma AbsorbedWritePanics(size: nat) returns (run: seq<Act>, a: Act)
    ensures RunOk(INIT, run) && Enabled(Run(INIT, run), a)
    ensures a.LogWrite? && a.block in Run(INIT, run).lh
    ensures Panics(Run(INIT, run), size, a)
  {
    run := ThreeOps(10);
    a := LogWrite(2, 0);
    assert Run(INIT, run).lh[0] == 0;
  }
}
