/**
 File writes of many processes in shared transactions (kernel/file.c:155-175, kernel/log.c:122-182).

 Operations of several processes overlap in time and end up in one commit. They may log the same blocks in any order:
 bits of one bitmap block, inodes of one inode block. As long as those that change the same bit, inode or data take
 turns at it, a crash at any moment leaves every file as a whole number of the operations wrote it.
 */
module FsGroup {
  import F = FsOwn
  import Fs
  import FsCrash
  import Disk
  import Crash
  import G = LogGroup

  // A write of x at off of file n, by process p between its begin_op and its end_op, the events from and to of the
  // script. An operation that has not ended has no event `to`.
  datatype Job = Job(p: nat, from: nat, to: nat, n: nat, off: nat, x: seq<int>)

  // Where bitmap and inodes are, and how the parts of a block are encoded.
  datatype Form = Form(bmapstart: nat, inodestart: nat, enc: FsCrash.Part -> Disk.Block)

  // The machine, and what happens to it.
  datatype World = World(s: G.Ideal, l: Crash.Layout, script: seq<G.Event>)

  // What can be changed in a block, and what it holds.
  datatype Item = Bit(c: nat) | Node(m: nat) | Data

  datatype Value = Nothing | IsBit(bit: bool) | IsNode(node: F.Inode) | IsData(data: F.Block)

  // The operations in an order in which one after the other they would give `states`. If event x is a log_write, it is
  // one of who[x], it logs parts[x], and sets[x] is what was set since the block was last logged.
  datatype Plan = Plan(jobs: seq<Job>, states: seq<F.St>, who: seq<nat>, parts: seq<FsCrash.Part>, sets: seq<set<Item>>)

  function ValueOf(p: FsCrash.Part, t: Item): (r: Value) {
    match t
    case Bit(c) => if c in p.bits then IsBit(p.bits[c]) else Nothing
    case Node(m) => if m in p.inodes then IsNode(p.inodes[m]) else Nothing
    case Data => IsData(p.data)
  }

  lemma SameValues(p: FsCrash.Part, q: FsCrash.Part)
    requires forall t: Item :: ValueOf(p, t) == ValueOf(q, t)
    ensures p == q
  {
    forall c: nat ensures c in p.bits <==> c in q.bits
                  ensures c in p.bits ==> p.bits[c] == q.bits[c]
    {
      assert ValueOf(p, Bit(c)) == ValueOf(q, Bit(c));
    }
    forall m: nat ensures m in p.inodes <==> m in q.inodes
                  ensures m in p.inodes ==> p.inodes[m] == q.inodes[m]
    {
      assert ValueOf(p, Node(m)) == ValueOf(q, Node(m));
    }
    assert ValueOf(p, Data) == ValueOf(q, Data);
    assert p.bits == q.bits && p.inodes == q.inodes;
  }

  ghost predicate Ok(w: World) { G.Sized(w.s) }

  ghost function Then(w: World, i: nat): (r: G.Ideal)
    requires Ok(w) && i <= |w.script|
    ensures G.Sized(r)
  {
    G.After(w.s, w.l, w.script, i)
  }

  ghost predicate NoCrash(w: World, i: nat)
    requires i <= |w.script|
  {
    forall x :: 0 <= x < i ==> !w.script[x].Crash?
  }

  // Event x is a log_write of block b that is carried out.
  ghost predicate LogsAt(w: World, x: nat, b: nat)
    requires Ok(w)
  {
    && x < |w.script| && w.script[x].LogWrite? && w.script[x].b == b
    && G.Answer(w.s, w.l, w.script, x).Done?
  }

  ghost predicate Runs(w: World, j: Job)
    requires Ok(w)
  {
    && j.from < j.to <= |w.script| && w.script[j.from] == G.Begin(j.p)
    && G.Answer(w.s, w.l, w.script, j.from).Done?
    && (forall x :: j.from < x < j.to ==> w.script[x] != G.End(j.p))
    && (j.to < |w.script| ==> w.script[j.to] == G.End(j.p))
  }

  // Each operation takes its state to the next by its write, and one that ended before another began comes first.
  ghost predicate InOrder(w: World, pl: Plan)
    requires Ok(w)
  {
    && |pl.states| == |pl.jobs| + 1
    && (forall k :: 0 <= k < |pl.jobs| ==> Runs(w, pl.jobs[k]) && Wrote(pl.states[k], pl.states[k + 1], pl.jobs[k]))
    && (forall a, b :: 0 <= a < b < |pl.jobs| ==> pl.jobs[a].from < pl.jobs[b].to)
  }

  ghost predicate Wrote(o: F.St, st: F.St, j: Job) {
    && |st.blocks| == |o.blocks| && j.n in o.inodes
    && Fs.ChunksWritten(o, st, j.n, j.off, j.x, |j.x|)
  }

  ghost function PartIn(f: Form, pl: Plan, k: nat, b: nat): (r: FsCrash.Part)
    requires k < |pl.states|
  {
    FsCrash.PartOf(pl.states[k], f.bmapstart, f.inodestart, b)
  }

  // What block b was last logged as before event i.
  ghost function PartAt(w: World, f: Form, pl: Plan, b: nat, i: nat): (r: FsCrash.Part)
    requires Ok(w) && |pl.states| > 0 && i <= |w.script| == |pl.parts|
  {
    if i == 0 then PartIn(f, pl, 0, b)
    else if LogsAt(w, i - 1, b) then pl.parts[i - 1]
    else PartAt(w, f, pl, b, i - 1)
  }

  ghost predicate Noted(w: World, pl: Plan)
    requires Ok(w)
  {
    |pl.states| == |pl.jobs| + 1 && |pl.who| == |pl.parts| == |pl.sets| == |w.script|
  }

  // Event x logs item t of block b newly set.
  ghost predicate SetsAt(w: World, pl: Plan, x: nat, b: nat, t: Item)
    requires Ok(w) && Noted(w, pl)
  {
    LogsAt(w, x, b) && t in pl.sets[x]
  }

  // Each log_write is inside its operation, and leaves what it does not set as it was.
  ghost predicate LogsOwn(w: World, f: Form, pl: Plan)
    requires Ok(w) && Noted(w, pl)
  {
    forall x: nat, b: nat :: LogsAt(w, x, b) ==>
      && pl.who[x] < |pl.jobs| && pl.jobs[pl.who[x]].from < x < pl.jobs[pl.who[x]].to
      && b in Then(w, x).data && Then(w, x).data[b] == f.enc(pl.parts[x])
      && forall t: Item :: t !in pl.sets[x] ==> ValueOf(pl.parts[x], t) == ValueOf(PartAt(w, f, pl, b, x), t)
  }

  // Operations that set the same item take turns at it, in order.
  ghost predicate TakeTurns(w: World, pl: Plan)
    requires Ok(w) && Noted(w, pl)
  {
    forall x: nat, y: nat, b: nat, t: Item ::
      x < y && SetsAt(w, pl, x, b, t) && SetsAt(w, pl, y, b, t) ==> pl.who[x] <= pl.who[y]
  }

  // The last log_write with which operation k sets item t of block b.
  ghost predicate LastOf(w: World, pl: Plan, k: nat, x: nat, b: nat, t: Item)
    requires Ok(w) && Noted(w, pl)
  {
    && SetsAt(w, pl, x, b, t) && pl.who[x] == k
    && forall y: nat :: x < y && SetsAt(w, pl, y, b, t) ==> pl.who[y] != k
  }

  // Operation k has logged item t of block b if it changed it, and at last as it is in the next state.
  ghost predicate LogsItem(w: World, f: Form, pl: Plan, k: nat, b: nat, t: Item)
    requires Ok(w) && Noted(w, pl) && k < |pl.jobs|
  {
    && (ValueOf(PartIn(f, pl, k + 1, b), t) != ValueOf(PartIn(f, pl, k, b), t) ==>
          exists x: nat :: SetsAt(w, pl, x, b, t) && pl.who[x] == k)
    && (forall x: nat :: LastOf(w, pl, k, x, b, t) ==>
          ValueOf(pl.parts[x], t) == ValueOf(PartIn(f, pl, k + 1, b), t))
  }

  ghost predicate LogsAll(w: World, f: Form, pl: Plan)
    requires Ok(w) && Noted(w, pl)
  {
    forall k: nat, b: nat, t: Item ::
      k < |pl.jobs| && pl.jobs[k].to < |w.script| ==> LogsItem(w, f, pl, k, b, t)
  }

  ghost predicate Serial(w: World, f: Form, pl: Plan)
    requires Ok(w)
  {
    InOrder(w, pl) && Noted(w, pl) && LogsOwn(w, f, pl) && TakeTurns(w, pl) && LogsAll(w, f, pl)
  }

  ghost function Picture(f: Form, st: F.St): (r: Disk.Image)
    ensures |r| == |st.blocks|
  {
    FsCrash.Picture(st, f.bmapstart, f.inodestart, f.enc)
  }

  // ----- The machine -----

  // A process leaves its operation by end_op or a crash only.
  lemma OpStays(s: G.Ideal, l: Crash.Layout, ev: G.Event, p: nat)
    requires G.Sized(s) && p in s.c.ops && !ev.Crash? && ev != G.End(p)
    ensures p in G.Step(s, l, ev).0.c.ops
  {
    hide G.Busy, G.Pins;
  }

  lemma OpBegins(s: G.Ideal, l: Crash.Layout, p: nat)
    requires G.Sized(s) && G.Step(s, l, G.Begin(p)).1.Done?
    ensures p in G.Step(s, l, G.Begin(p)).0.c.ops
  {}

  lemma {:induction false} InsideJob(w: World, j: Job, i: nat)
    requires Ok(w) && Runs(w, j) && j.from < i <= j.to && NoCrash(w, i)
    ensures j.p in Then(w, i).c.ops
  {
    hide G.Step;
    if i == j.from + 1 {
      OpBegins(Then(w, j.from), w.l, j.p);
    } else {
      InsideJob(w, j, i - 1);
      OpStays(Then(w, i - 1), w.l, w.script[i - 1], j.p);
    }
  }

  lemma StoreMoves(s: G.Ideal, l: Crash.Layout, ev: G.Event, b: nat)
    requires G.Sized(s) && b < |s.store| && !ev.Crash?
    ensures var (s', out) := G.Step(s, l, ev);
            && |s'.store| == |s.store|
            && if ev.LogWrite? && ev.b == b && out.Done? then b in s.data && s'.store[b] == s.data[b]
               else s'.store[b] == s.store[b]
  {
    hide G.Busy, G.Pins;
  }

  lemma StoreKeepsSize(s: G.Ideal, l: Crash.Layout, ev: G.Event)
    requires G.Sized(s) && !ev.Crash?
    ensures |G.Step(s, l, ev).0.store| == |s.store|
  {
    hide G.Busy, G.Pins;
  }

  lemma {:induction false} StoreSize(w: World, i: nat)
    requires Ok(w) && i <= |w.script| && NoCrash(w, i)
    ensures |Then(w, i).store| == |w.s.store|
  {
    hide G.Step;
    if i > 0 {
      StoreSize(w, i - 1);
      StoreKeepsSize(Then(w, i - 1), w.l, w.script[i - 1]);
    }
  }

  // A block of the store has what it was last logged as.
  lemma {:induction false} StoreIsPart(w: World, f: Form, pl: Plan, b: nat, i: nat)
    requires Ok(w) && Noted(w, pl) && LogsOwn(w, f, pl) && i <= |w.script| && NoCrash(w, i)
    requires b < |w.s.store| && w.s.store[b] == f.enc(PartIn(f, pl, 0, b))
    ensures |Then(w, i).store| == |w.s.store| && Then(w, i).store[b] == f.enc(PartAt(w, f, pl, b, i))
  {
    hide G.Step, PartIn, ValueOf;
    if i > 0 {
      StoreIsPart(w, f, pl, b, i - 1);
      StoreMoves(Then(w, i - 1), w.l, w.script[i - 1], b);
    }
  }

  // The last time before i that item t of block b was set, if any.
  lemma {:induction false} LastSet(w: World, f: Form, pl: Plan, b: nat, t: Item, i: nat) returns (x: int)
    requires Ok(w) && Noted(w, pl) && LogsOwn(w, f, pl) && i <= |w.script|
    ensures -1 <= x < i && forall y: nat :: x < y < i ==> !SetsAt(w, pl, y, b, t)
    ensures x >= 0 ==> SetsAt(w, pl, x, b, t)
    ensures ValueOf(PartAt(w, f, pl, b, i), t) == ValueOf(if x < 0 then PartIn(f, pl, 0, b) else pl.parts[x], t)
  {
    hide G.Answer, G.After, PartIn, ValueOf;
    if i == 0 { return -1; }
    x := LastSet(w, f, pl, b, t, i - 1);
    if SetsAt(w, pl, i - 1, b, t) { x := i - 1; }
  }

  // ----- A moment at which no operation is under way -----

  // The first k operations have ended, and the others have not begun.
  ghost predicate Between(pl: Plan, i: nat, k: nat) {
    && k <= |pl.jobs|
    && (forall q :: 0 <= q < k ==> pl.jobs[q].to < i)
    && (forall q :: k <= q < |pl.jobs| ==> pl.jobs[q].from >= i)
  }

  lemma EndedOrNotBegun(w: World, pl: Plan, i: nat, q: nat)
    requires Ok(w) && InOrder(w, pl) && i <= |w.script| && NoCrash(w, i) && q < |pl.jobs|
    requires Then(w, i).c.ops == {}
    ensures pl.jobs[q].to < i || pl.jobs[q].from >= i
  {
    hide Wrote;
    if pl.jobs[q].from < i <= pl.jobs[q].to { InsideJob(w, pl.jobs[q], i); }
  }

  lemma {:induction false} FindBetween(w: World, pl: Plan, i: nat, n: nat) returns (k: nat)
    requires Ok(w) && InOrder(w, pl) && i <= |w.script| && NoCrash(w, i) && n <= |pl.jobs|
    requires Then(w, i).c.ops == {} && forall q :: n <= q < |pl.jobs| ==> pl.jobs[q].from >= i
    ensures Between(pl, i, k)
  {
    hide Runs, Wrote;
    if n == 0 { return 0; }
    EndedOrNotBegun(w, pl, i, n - 1);
    if pl.jobs[n - 1].from >= i {
      k := FindBetween(w, pl, i, n - 1);
    } else {
      k := n;
      forall q | 0 <= q < n ensures pl.jobs[q].to < i {
        EndedOrNotBegun(w, pl, i, q);
      }
    }
  }

  // Operations a .. k-1 do not change item t of block b.
  lemma {:induction false} ValueStays(f: Form, pl: Plan, b: nat, t: Item, a: nat, k: nat)
    requires a <= k < |pl.states|
    requires forall q :: a <= q < k ==> ValueOf(PartIn(f, pl, q + 1, b), t) == ValueOf(PartIn(f, pl, q, b), t)
    ensures ValueOf(PartIn(f, pl, k, b), t) == ValueOf(PartIn(f, pl, a, b), t)
  {
    hide PartIn, ValueOf;
    if a < k { ValueStays(f, pl, b, t, a, k - 1); }
  }

  lemma {:induction false} SizeStays(w: World, pl: Plan, k: nat)
    requires Ok(w) && InOrder(w, pl) && k <= |pl.jobs|
    ensures |pl.states[k].blocks| == |pl.states[0].blocks|
  {
    hide Runs, Fs.ChunksWritten;
    if k > 0 {
      SizeStays(w, pl, k - 1);
      assert Wrote(pl.states[k - 1], pl.states[k], pl.jobs[k - 1]);
    }
  }

  // An operation that has ended, and comes after the one that set t last, does not set it, and so does not change it.
  lemma NoLaterSetter(w: World, f: Form, pl: Plan, b: nat, t: Item, i: nat, k: nat, x: int, q: nat, y: nat)
    requires Ok(w) && Serial(w, f, pl) && i <= |w.script| && Between(pl, i, k) && q < k && -1 <= x < i
    requires forall z: nat :: x < z < i ==> !SetsAt(w, pl, z, b, t)
    requires x >= 0 ==> SetsAt(w, pl, x, b, t) && pl.who[x] < q
    requires SetsAt(w, pl, y, b, t)
    ensures pl.who[y] != q
  {
    hide InOrder, LogsAll, ValueOf, PartIn, PartAt, G.Answer, G.After;
    assert LogsAt(w, y, b);
    assert y < pl.jobs[pl.who[y]].to;
    if y < x { assert pl.who[y] <= pl.who[x]; }
  }

  lemma NoLaterChange(w: World, f: Form, pl: Plan, b: nat, t: Item, i: nat, k: nat, x: int, q: nat)
    requires Ok(w) && Serial(w, f, pl) && i <= |w.script| && Between(pl, i, k) && q < k && -1 <= x < i
    requires forall z: nat :: x < z < i ==> !SetsAt(w, pl, z, b, t)
    requires x >= 0 ==> SetsAt(w, pl, x, b, t) && pl.who[x] < q
    ensures ValueOf(PartIn(f, pl, q + 1, b), t) == ValueOf(PartIn(f, pl, q, b), t)
  {
    hide InOrder, LogsOwn, TakeTurns, LastOf, ValueOf, PartIn, G.Answer, G.After;
    assert LogsItem(w, f, pl, q, b, t);
    forall y: nat | SetsAt(w, pl, y, b, t) ensures pl.who[y] != q {
      NoLaterSetter(w, f, pl, b, t, i, k, x, q, y);
    }
  }

  lemma LastIsLast(w: World, f: Form, pl: Plan, b: nat, t: Item, i: nat, k: nat, x: nat)
    requires Ok(w) && Serial(w, f, pl) && i <= |w.script| && Between(pl, i, k) && x < i && SetsAt(w, pl, x, b, t)
    requires forall y: nat :: x < y < i ==> !SetsAt(w, pl, y, b, t)
    ensures pl.who[x] < k && ValueOf(pl.parts[x], t) == ValueOf(PartIn(f, pl, pl.who[x] + 1, b), t)
  {
    hide InOrder, ValueOf, PartIn, PartAt, G.Answer, G.After;
    var q := pl.who[x];
    assert LogsAt(w, x, b);
    assert pl.jobs[q].from < x < i;
    forall y: nat | x < y && SetsAt(w, pl, y, b, t) ensures pl.who[y] != q {
      assert LogsAt(w, y, b);
      assert y < pl.jobs[pl.who[y]].to;
    }
    assert LastOf(w, pl, q, x, b, t) && LogsItem(w, f, pl, q, b, t);
  }

  lemma ItemIsState(w: World, f: Form, pl: Plan, i: nat, k: nat, b: nat, t: Item)
    requires Ok(w) && Serial(w, f, pl) && i <= |w.script| && Between(pl, i, k)
    ensures ValueOf(PartAt(w, f, pl, b, i), t) == ValueOf(PartIn(f, pl, k, b), t)
  {
    hide InOrder, LogsOwn, TakeTurns, LogsAll, LogsAt, ValueOf, PartIn, PartAt;
    var x := LastSet(w, f, pl, b, t, i);
    var a := 0;
    if x >= 0 {
      LastIsLast(w, f, pl, b, t, i, k, x);
      a := pl.who[x] + 1;
    }
    forall q | a <= q < k ensures ValueOf(PartIn(f, pl, q + 1, b), t) == ValueOf(PartIn(f, pl, q, b), t) {
      NoLaterChange(w, f, pl, b, t, i, k, x, q);
    }
    ValueStays(f, pl, b, t, a, k);
  }

  // Then each block of the store is that of the file system after the first k operations.
  lemma BlockIsState(w: World, f: Form, pl: Plan, i: nat, k: nat, b: nat)
    requires Ok(w) && Serial(w, f, pl) && i <= |w.script| && NoCrash(w, i) && Between(pl, i, k)
    requires b < |w.s.store| && w.s.store[b] == f.enc(PartIn(f, pl, 0, b))
    ensures |Then(w, i).store| == |w.s.store| && Then(w, i).store[b] == f.enc(PartIn(f, pl, k, b))
  {
    hide InOrder, LogsOwn, TakeTurns, LogsAll, ValueOf, PartIn, PartAt, G.After;
    StoreIsPart(w, f, pl, b, i);
    forall t: Item ensures ValueOf(PartAt(w, f, pl, b, i), t) == ValueOf(PartIn(f, pl, k, b), t) {
      ItemIsState(w, f, pl, i, k, b, t);
    }
    SameValues(PartAt(w, f, pl, b, i), PartIn(f, pl, k, b));
  }

  lemma PictureAt(f: Form, pl: Plan, k: nat, b: nat)
    requires k < |pl.states| && b < |pl.states[k].blocks|
    ensures Picture(f, pl.states[k])[b] == f.enc(PartIn(f, pl, k, b))
  {}

  // Whenever no operation is under way, the store is the disk of the file system after a whole number of operations:
  // those that have ended.
  lemma QuietStoreIsState(w: World, f: Form, pl: Plan, i: nat) returns (k: nat)
    requires Ok(w) && Serial(w, f, pl) && i <= |w.script| && NoCrash(w, i) && Then(w, i).c.ops == {}
    requires Crash.SameHome(w.s.store, Picture(f, pl.states[0]), w.l)
    ensures Between(pl, i, k) && Crash.SameHome(Then(w, i).store, Picture(f, pl.states[k]), w.l)
  {
    hide Runs, Wrote, LogsOwn, TakeTurns, LogsAll, PartIn, G.After, Picture;
    k := FindBetween(w, pl, i, |pl.jobs|);
    SizeStays(w, pl, k);
    StoreSize(w, i);
    forall b: nat | w.l.Home(Then(w, i).store, b) ensures Then(w, i).store[b] == Picture(f, pl.states[k])[b] {
      assert w.l.Home(w.s.store, b);
      PictureAt(f, pl, 0, b);
      BlockIsState(w, f, pl, i, k, b);
      PictureAt(f, pl, k, b);
    }
  }

  // ----- Files -----

  // A file after the writes of some operations.
  ghost function Replay(file: seq<int>, jobs: seq<Job>, n: nat): (r: seq<int>) {
    if jobs == [] then file
    else
      var k := |jobs| - 1;
      var was := Replay(file, jobs[..k], n);
      if jobs[k].n == n && jobs[k].off <= |was| then Fs.Overwrite(was, jobs[k].off, jobs[k].x) else was
  }

  lemma {:induction false} FileIsReplay(w: World, pl: Plan, n: nat, k: nat)
    requires Ok(w) && InOrder(w, pl) && k <= |pl.jobs| && n in pl.states[0].inodes
    ensures n in pl.states[k].inodes
    ensures Fs.Bytes(pl.states[k], n) == Replay(Fs.Bytes(pl.states[0], n), pl.jobs[..k], n)
  {
    hide Runs, Fs.Bytes, Fs.Overwrite;
    if k > 0 {
      FileIsReplay(w, pl, n, k - 1);
      var j := pl.jobs[k - 1];
      assert pl.jobs[..k][..k - 1] == pl.jobs[..k - 1] && j.x[..|j.x|] == j.x;
      assert Wrote(pl.states[k - 1], pl.states[k], j);
    }
  }

  lemma SoonerNoCrash(w: World, j: nat, i: nat)
    requires j <= i <= |w.script| && NoCrash(w, i)
    ensures NoCrash(w, j)
  {}

  lemma JobTakesTime(w: World, pl: Plan, q: nat)
    requires Ok(w) && InOrder(w, pl) && q < |pl.jobs|
    ensures pl.jobs[q].from < pl.jobs[q].to
  {
    hide Wrote;
  }

  // A crash after i events, at any point of a commit. The store was last saved at m or later. What recovery finds is
  // the file system after the first k operations: among them are all that ended before m, and none that has not ended;
  // every file is as these wrote it.
  lemma CrashKeepsWholeJobs(w: World, f: Form, pl: Plan, m: nat, i: nat) returns (k: nat)
    requires Ok(w) && Serial(w, f, pl) && m <= i <= |w.script| && NoCrash(w, i) && G.AtRest(Then(w, m))
    requires Crash.SameHome(w.s.store, Picture(f, pl.states[0]), w.l)
    ensures k <= |pl.jobs| && Crash.SameHome(Then(w, i).saved, Picture(f, pl.states[k]), w.l)
    ensures forall q :: 0 <= q < k ==> pl.jobs[q].to < i
    ensures forall q :: 0 <= q < |pl.jobs| && pl.jobs[q].to < m ==> q < k
    ensures forall n :: n in pl.states[0].inodes ==>
              n in pl.states[k].inodes
              && Fs.Bytes(pl.states[k], n) == Replay(Fs.Bytes(pl.states[0], n), pl.jobs[..k], n)
  {
    hide Runs, Wrote, LogsOwn, TakeTurns, LogsAll, G.After, Crash.SameHome, Fs.Bytes, Replay, NoCrash;
    var j := G.CrashUndoesWholeOperations(w.s, w.l, w.script, m, i);
    SoonerNoCrash(w, j, i);
    k := QuietStoreIsState(w, f, pl, j);
    forall q | 0 <= q < |pl.jobs| && pl.jobs[q].to < m ensures q < k {
      JobTakesTime(w, pl, q);
    }
    forall n | n in pl.states[0].inodes
      ensures n in pl.states[k].inodes
              && Fs.Bytes(pl.states[k], n) == Replay(Fs.Bytes(pl.states[0], n), pl.jobs[..k], n)
    {
      FileIsReplay(w, pl, n, k);
    }
  }
}
