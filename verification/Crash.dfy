/**
 Crash atomicity of the redo log (kernel/log.c).

 The order of block writes issued by commit and by recover_from_log is given by CommitTrace and
 RecoverTrace; modules Log and LogGroup are proved to issue exactly these. Here a crash may cut
 either of them short after any write, and recovery itself may crash any number of times.
 */
module Crash {
  import opened Disk

  // The log occupies blocks start .. start+size-1; the first of them is the header block.
  datatype Layout = Layout(start: nat, size: nat) {
    predicate Fits(d: Image) {
      1 <= size && start + size <= |d|
    }

    predicate Home(d: Image, b: int) {
      0 <= b < |d| && !(start <= b < start + size)
    }
  }

  // write_head rewrites the count and the first |lh| slots; the other words keep their old values.
  function EncodeHead(h: Block, lh: seq<int>): (r: Block)
    requires |lh| <= LOGSIZE
  {
    seq(WORDS, i requires 0 <= i < WORDS => if i == 0 then |lh| else if i <= |lh| then lh[i - 1] else h[i])
  }

  // read_head: a count of zero or less names no block.
  function HeadBlocks(h: Block): (r: seq<int>)
    requires h[0] <= LOGSIZE
    ensures |r| <= LOGSIZE
  {
    if h[0] <= 0 then [] else h[1..1 + h[0]]
  }

  lemma HeadRoundTrip(h: Block, lh: seq<int>)
    requires |lh| <= LOGSIZE
    ensures EncodeHead(h, lh)[0] <= LOGSIZE
    ensures HeadBlocks(EncodeHead(h, lh)) == lh
  {}

  function LogWrites(start: nat, data: seq<Block>): (r: seq<Write>)
    ensures |r| == |data|
  {
    seq(|data|, i requires 0 <= i < |data| => Write(start + 1 + i, data[i]))
  }

  function Installs(lh: seq<int>, data: seq<Block>): (r: seq<Write>)
    requires |lh| == |data|
    ensures |r| == |lh|
  {
    seq(|lh|, i requires 0 <= i < |lh| => Write(lh[i], data[i]))
  }

  // commit(): log blocks, header, home blocks, empty header.
  function CommitTrace(h: Block, start: nat, lh: seq<int>, data: seq<Block>): (r: seq<Write>)
    requires |lh| == |data| <= LOGSIZE
  {
    if lh == [] then []
    else
      LogWrites(start, data)
      + [Write(start, EncodeHead(h, lh))]
      + Installs(lh, data)
      + [Write(start, EncodeHead(EncodeHead(h, lh), []))]
  }

  // The writes of a commit, one by one: the logged blocks into the log area behind the header block, the header, the
  // blocks to their places, and the empty header.
  lemma CommitWrites(h: Block, start: nat, lh: seq<int>, data: seq<Block>, i: nat)
    requires |lh| == |data| <= LOGSIZE && lh != []
    ensures var t, n := CommitTrace(h, start, lh, data), |lh|;
            && |t| == 2 * n + 2
            && (i < n ==> t[i] == Write(start + 1 + i, data[i]) && t[n + 1 + i] == Write(lh[i], data[i]))
            && t[n].blockno == start && t[n].data[0] == n && (i < n ==> t[n].data[1 + i] == lh[i])
            && t[2 * n + 1].blockno == start && t[2 * n + 1].data[0] == 0
  {}

  function LogData(d: Image, l: Layout, n: nat): (r: seq<Block>)
    requires l.Fits(d) && n < l.size
    ensures |r| == n
  {
    seq(n, i requires 0 <= i < n => d[l.start + 1 + i])
  }

  // A header that recovery can act on: distinct home blocks, no more than the log can hold.
  predicate SaneHead(d: Image, l: Layout)
  {
    && l.Fits(d)
    && d[l.start][0] <= LOGSIZE
    && var lh := HeadBlocks(d[l.start]);
       && |lh| < l.size
       && Distinct(lh)
       && forall i :: 0 <= i < |lh| ==> l.Home(d, lh[i])
  }

  // recover_from_log(): redo what the header names, then write an empty header.
  function RecoverTrace(d: Image, l: Layout): (r: seq<Write>)
    requires SaneHead(d, l)
  {
    var lh := HeadBlocks(d[l.start]);
    Installs(lh, LogData(d, l, |lh|)) + [Write(l.start, EncodeHead(d[l.start], []))]
  }

  ghost predicate SameHome(d: Image, t: Image, l: Layout)
  {
    |d| == |t| && forall b :: l.Home(d, b) ==> d[b] == t[b]
  }

  // Recovery from d will rebuild the home blocks of t: every home block either already has its
  // contents in t, or is named by the header and has its contents in t in the log.
  ghost predicate Recoverable(d: Image, t: Image, l: Layout)
  {
    && SaneHead(d, l)
    && |d| == |t|
    && var lh := HeadBlocks(d[l.start]);
       && (forall b :: l.Home(d, b) && b !in lh ==> d[b] == t[b])
       && (forall i :: 0 <= i < |lh| ==> d[l.start + 1 + i] == t[lh[i]])
  }

  // A transaction that log_write can have built.
  ghost predicate TxnOk(d: Image, l: Layout, lh: seq<int>, data: seq<Block>)
  {
    && l.Fits(d)
    && |lh| == |data| <= LOGSIZE
    && |lh| < l.size
    && Distinct(lh)
    && forall i :: 0 <= i < |lh| ==> l.Home(d, lh[i])
  }

  // The disk on which the whole transaction has happened at once.
  function Redo(d: Image, lh: seq<int>, data: seq<Block>): (r: Image)
    requires |lh| == |data|
    ensures |r| == |d|
  {
    Apply(d, Installs(lh, data))
  }

  lemma InstallPrefix(d: Image, l: Layout, lh: seq<int>, data: seq<Block>, k: nat)
    requires TxnOk(d, l, lh, data) && k <= |lh|
    ensures var r := Apply(d, Installs(lh, data)[..k]);
            && (forall i :: 0 <= i < k ==> r[lh[i]] == data[i])
            && (forall b :: 0 <= b < |d| && b !in lh[..k] ==> r[b] == d[b])
            && (forall b :: l.start <= b < l.start + l.size ==> r[b] == d[b])
  {
    var ws := Installs(lh, data)[..k];
    forall i | 0 <= i < k ensures Apply(d, ws)[lh[i]] == data[i] {
      ApplyHit(d, ws, i);
    }
    forall b | 0 <= b < |d| && b !in lh[..k] ensures Apply(d, ws)[b] == d[b] {
      forall i | 0 <= i < |ws| ensures ws[i].blockno != b { assert lh[..k][i] == lh[i]; }
      ApplyFrame(d, ws, b);
    }
    forall b | l.start <= b < l.start + l.size ensures Apply(d, ws)[b] == d[b] {
      ApplyFrame(d, ws, b);
    }
  }

  lemma RedoMeaning(d: Image, l: Layout, lh: seq<int>, data: seq<Block>)
    requires TxnOk(d, l, lh, data)
    ensures forall i :: 0 <= i < |lh| ==> Redo(d, lh, data)[lh[i]] == data[i]
    ensures forall b :: 0 <= b < |d| && b !in lh ==> Redo(d, lh, data)[b] == d[b]
  {
    InstallPrefix(d, l, lh, data, |lh|);
    assert Installs(lh, data)[..|lh|] == Installs(lh, data);
    assert lh[..|lh|] == lh;
  }

  lemma LogPrefix(d: Image, l: Layout, data: seq<Block>, k: nat)
    requires l.Fits(d) && k <= |data| < l.size
    ensures var r := Apply(d, LogWrites(l.start, data)[..k]);
            && (forall i :: 0 <= i < k ==> r[l.start + 1 + i] == data[i])
            && (forall b :: 0 <= b < |d| && !(l.start + 1 <= b < l.start + 1 + k) ==> r[b] == d[b])
  {
    hide Apply;
    var ws := LogWrites(l.start, data)[..k];
    assert forall i :: 0 <= i < k ==> ws[i] == Write(l.start + 1 + i, data[i]);
    hide LogWrites;
    forall i | 0 <= i < k ensures Apply(d, ws)[l.start + 1 + i] == data[i] {
      ApplyHit(d, ws, i);
    }
    forall b | 0 <= b < |d| && !(l.start + 1 <= b < l.start + 1 + k) ensures Apply(d, ws)[b] == d[b] {
      ApplyFrame(d, ws, b);
    }
  }

  // Before the header write the old contents are recoverable.
  lemma CrashBeforeHeader(d: Image, l: Layout, lh: seq<int>, data: seq<Block>, k: nat)
    requires TxnOk(d, l, lh, data) && k <= |lh|
    requires SaneHead(d, l) && HeadBlocks(d[l.start]) == []
    ensures Recoverable(Apply(d, CommitTrace(d[l.start], l.start, lh, data)[..k]), d, l)
  {
    if lh != [] {
      assert CommitTrace(d[l.start], l.start, lh, data)[..k] == LogWrites(l.start, data)[..k];
      LogPrefix(d, l, data, k);
    }
  }

  // The disk just after the header write.
  lemma AfterHeader(d: Image, l: Layout, lh: seq<int>, data: seq<Block>)
    requires TxnOk(d, l, lh, data) && lh != []
    ensures var h := EncodeHead(d[l.start], lh);
            var c := Apply(d, LogWrites(l.start, data) + [Write(l.start, h)]);
            && Recoverable(c, Redo(d, lh, data), l)
            && c[l.start] == h && HeadBlocks(h) == lh
            && (forall b :: l.Home(d, b) ==> c[b] == d[b])
  {
    var h := EncodeHead(d[l.start], lh);
    LogPrefix(d, l, data, |lh|);
    assert LogWrites(l.start, data)[..|lh|] == LogWrites(l.start, data);
    ApplySnoc(d, LogWrites(l.start, data), Write(l.start, h));
    HeadRoundTrip(d[l.start], lh);
    RedoMeaning(d, l, lh, data);
  }

  // From the header write to the last install, the new contents are recoverable.
  lemma CrashDuringInstall(d: Image, l: Layout, lh: seq<int>, data: seq<Block>, k: nat)
    requires TxnOk(d, l, lh, data) && lh != [] && k <= |lh|
    ensures var c := Apply(d, LogWrites(l.start, data) + [Write(l.start, EncodeHead(d[l.start], lh))]);
            Recoverable(Apply(c, Installs(lh, data)[..k]), Redo(d, lh, data), l)
  {
    AfterHeader(d, l, lh, data);
    RedoMeaning(d, l, lh, data);
    var c := Apply(d, LogWrites(l.start, data) + [Write(l.start, EncodeHead(d[l.start], lh))]);
    InstallPrefix(c, l, lh, data, k);
  }

  // Writing an empty header does not touch the home blocks.
  lemma ClearHead(m: Image, t: Image, l: Layout, h: Block)
    requires l.Fits(m) && SameHome(m, t, l)
    ensures var r := ApplyOne(m, Write(l.start, EncodeHead(h, [])));
            SameHome(r, t, l) && SaneHead(r, l) && HeadBlocks(r[l.start]) == []
  {}

  // Once every block is installed, the home blocks are those of the whole transaction.
  lemma InstallAll(c: Image, d: Image, l: Layout, lh: seq<int>, data: seq<Block>)
    requires TxnOk(d, l, lh, data) && |c| == |d|
    requires forall b :: l.Home(d, b) && b !in lh ==> c[b] == d[b]
    ensures SameHome(Apply(c, Installs(lh, data)), Redo(d, lh, data), l)
  {
    RedoMeaning(d, l, lh, data);
    RedoMeaning(c, l, lh, data);
    var r, t := Redo(c, lh, data), Redo(d, lh, data);
    forall b | l.Home(r, b) ensures r[b] == t[b] {
      if b in lh {
        var i :| 0 <= i < |lh| && lh[i] == b;
        assert r[lh[i]] == data[i] == t[lh[i]];
      } else {
        assert r[b] == c[b] && t[b] == d[b];
      }
    }
  }

  // After the whole commit the home blocks are the new ones and the header is empty.
  lemma CommitDone(d: Image, l: Layout, lh: seq<int>, data: seq<Block>)
    requires TxnOk(d, l, lh, data)
    requires SaneHead(d, l) && HeadBlocks(d[l.start]) == []
    ensures var r := Apply(d, CommitTrace(d[l.start], l.start, lh, data));
            SameHome(r, Redo(d, lh, data), l) && SaneHead(r, l) && HeadBlocks(r[l.start]) == []
  {
    if lh == [] {
      assert Redo(d, lh, data) == d;
    } else {
      var h := EncodeHead(d[l.start], lh);
      var pre := LogWrites(l.start, data) + [Write(l.start, h)];
      var c := Apply(d, pre);
      AfterHeader(d, l, lh, data);
      InstallAll(c, d, l, lh, data);
      ApplyConcat(d, pre, Installs(lh, data));
      var w := Write(l.start, EncodeHead(h, []));
      ApplySnoc(d, pre + Installs(lh, data), w);
      ClearHead(Apply(c, Installs(lh, data)), Redo(d, lh, data), l, h);
      assert CommitTrace(d[l.start], l.start, lh, data) == pre + Installs(lh, data) + [w];
    }
  }

  // A crash after any k writes of commit leaves a disk from which recovery rebuilds the old
  // contents if the header write had not happened, and the new contents if it had.
  lemma CommitPrefix(d: Image, l: Layout, lh: seq<int>, data: seq<Block>, k: nat)
    requires TxnOk(d, l, lh, data)
    requires SaneHead(d, l) && HeadBlocks(d[l.start]) == []
    requires k <= |CommitTrace(d[l.start], l.start, lh, data)|
    ensures Recoverable(Apply(d, CommitTrace(d[l.start], l.start, lh, data)[..k]),
                        if k <= |lh| then d else Redo(d, lh, data), l)
  {
    var tr := CommitTrace(d[l.start], l.start, lh, data);
    if k <= |lh| {
      CrashBeforeHeader(d, l, lh, data, k);
    } else {
      var pre := LogWrites(l.start, data) + [Write(l.start, EncodeHead(d[l.start], lh))];
      if k <= |pre| + |lh| {
        assert tr[..k] == pre + Installs(lh, data)[..k - |pre|];
        ApplyConcat(d, pre, Installs(lh, data)[..k - |pre|]);
        CrashDuringInstall(d, l, lh, data, k - |pre|);
      } else {
        assert tr[..k] == tr;
        CommitDone(d, l, lh, data);
      }
    }
  }

  // A crash after any k writes of recovery loses nothing.
  lemma RecoverPrefix(d: Image, t: Image, l: Layout, k: nat)
    requires Recoverable(d, t, l) && k <= |RecoverTrace(d, l)|
    ensures Recoverable(Apply(d, RecoverTrace(d, l)[..k]), t, l)
  {
    var lh := HeadBlocks(d[l.start]);
    var data := LogData(d, l, |lh|);
    if k <= |lh| {
      assert RecoverTrace(d, l)[..k] == Installs(lh, data)[..k];
      InstallPrefix(d, l, lh, data, k);
    } else {
      assert RecoverTrace(d, l)[..k] == RecoverTrace(d, l);
      RecoverDone(d, t, l);
    }
  }

  lemma RedoneSame(d: Image, t: Image, l: Layout)
    requires Recoverable(d, t, l)
    ensures var lh := HeadBlocks(d[l.start]); SameHome(Redo(d, lh, LogData(d, l, |lh|)), t, l)
  {
    hide Apply, Redo, Installs;
    var lh := HeadBlocks(d[l.start]);
    var data := LogData(d, l, |lh|);
    var m := Redo(d, lh, data);
    RedoMeaning(d, l, lh, data);
    forall b | l.Home(m, b) ensures m[b] == t[b] {
      if b in lh {
        var i :| 0 <= i < |lh| && lh[i] == b;
        assert m[lh[i]] == data[i] == t[lh[i]];
      }
    }
  }

  // A recovery that runs to the end rebuilds the home blocks of t and leaves an empty log.
  lemma RecoverDone(d: Image, t: Image, l: Layout)
    requires Recoverable(d, t, l)
    ensures var r := Apply(d, RecoverTrace(d, l));
            SameHome(r, t, l) && SaneHead(r, l) && HeadBlocks(r[l.start]) == []
  {
    var lh := HeadBlocks(d[l.start]);
    var data := LogData(d, l, |lh|);
    var m := Apply(d, Installs(lh, data));
    RedoneSame(d, t, l);
    ApplySnoc(d, Installs(lh, data), Write(l.start, EncodeHead(d[l.start], [])));
    ClearHead(m, t, l, d[l.start]);
  }

  // Boots: each number is a recovery attempt cut short after that many writes; the last attempt
  // runs to the end.
  ghost function Boots(d: Image, l: Layout, cuts: seq<nat>): (r: Image)
    requires SaneHead(d, l)
    ensures |r| == |d|
    decreases |cuts|
  {
    if cuts == [] then Apply(d, RecoverTrace(d, l))
    else
      var tr := RecoverTrace(d, l);
      var d' := Apply(d, tr[..if cuts[0] <= |tr| then cuts[0] else |tr|]);
      if SaneHead(d', l) then Boots(d', l, cuts[1..]) else d'
  }

  lemma {:induction false} BootsRebuild(d: Image, t: Image, l: Layout, cuts: seq<nat>)
    requires Recoverable(d, t, l)
    ensures var r := Boots(d, l, cuts);
            SameHome(r, t, l) && SaneHead(r, l) && HeadBlocks(r[l.start]) == []
    decreases |cuts|
  {
    if cuts == [] {
      RecoverDone(d, t, l);
    } else {
      var tr := RecoverTrace(d, l);
      var k := if cuts[0] <= |tr| then cuts[0] else |tr|;
      RecoverPrefix(d, t, l, k);
      BootsRebuild(Apply(d, tr[..k]), t, l, cuts[1..]);
    }
  }

  // The disk after some attempts at recovery, each cut short after so many writes.
  function Interrupted(d: Image, l: Layout, cuts: seq<nat>): (r: Image)
    decreases |cuts|
  {
    if cuts == [] || !SaneHead(d, l) then d
    else
      var tr := RecoverTrace(d, l);
      Interrupted(Apply(d, tr[..if cuts[0] <= |tr| then cuts[0] else |tr|]), l, cuts[1..])
  }

  lemma {:induction false} InterruptedKeeps(d: Image, t: Image, l: Layout, cuts: seq<nat>)
    requires Recoverable(d, t, l)
    ensures Recoverable(Interrupted(d, l, cuts), t, l)
    decreases |cuts|
  {
    if cuts != [] {
      var tr := RecoverTrace(d, l);
      var k := if cuts[0] <= |tr| then cuts[0] else |tr|;
      RecoverPrefix(d, t, l, k);
      InterruptedKeeps(Apply(d, tr[..k]), t, l, cuts[1..]);
    }
  }

  // Crash atomicity of one commit.
  lemma CrashAtomicity(d: Image, l: Layout, lh: seq<int>, data: seq<Block>, k: nat, cuts: seq<nat>)
    requires TxnOk(d, l, lh, data)
    requires SaneHead(d, l) && HeadBlocks(d[l.start]) == []
    requires k <= |CommitTrace(d[l.start], l.start, lh, data)|
    ensures var crashed := Apply(d, CommitTrace(d[l.start], l.start, lh, data)[..k]);
            && SaneHead(crashed, l)
            && var r := Boots(crashed, l, cuts);
               && SaneHead(r, l) && HeadBlocks(r[l.start]) == []
               && (k <= |lh| ==> forall b :: l.Home(d, b) ==> r[b] == d[b])
               && (k > |lh| ==>
                     && (forall i :: 0 <= i < |lh| ==> r[lh[i]] == data[i])
                     && (forall b :: l.Home(d, b) && b !in lh ==> r[b] == d[b]))
  {
    CommitPrefix(d, l, lh, data, k);
    var t := if k <= |lh| then d else Redo(d, lh, data);
    BootsRebuild(Apply(d, CommitTrace(d[l.start], l.start, lh, data)[..k]), t, l, cuts);
    RedoMeaning(d, l, lh, data);
  }

  // ----- Whole lifetimes of the disk -----

  // A transaction that either commits undisturbed or is cut short after `cut` writes and followed
  // by the given boots.
  datatype Event =
    | Committed(lh: seq<int>, data: seq<Block>)
    | Cut(lh: seq<int>, data: seq<Block>, cut: nat, boots: seq<nat>)

  ghost predicate Quiet(d: Image, l: Layout)
  {
    SaneHead(d, l) && HeadBlocks(d[l.start]) == []
  }

  ghost predicate EventOk(d: Image, l: Layout, e: Event)
  {
    && TxnOk(d, l, e.lh, e.data)
    && (e.Cut? ==> Quiet(d, l) && e.cut <= |CommitTrace(d[l.start], l.start, e.lh, e.data)|)
  }

  ghost function Step(d: Image, l: Layout, e: Event): (r: Image)
    requires Quiet(d, l) && EventOk(d, l, e)
  {
    var tr := CommitTrace(d[l.start], l.start, e.lh, e.data);
    match e
    case Committed(_, _) => Apply(d, tr)
    case Cut(_, _, cut, boots) =>
      var c := Apply(d, tr[..cut]);
      if SaneHead(c, l) then Boots(c, l, boots) else c
  }

  // The same transaction on a disk that never crashes: all of it, or none of it.
  ghost function AtomicStep(t: Image, e: Event): (r: Image)
    requires |e.lh| == |e.data|
  {
    if e.Committed? || e.cut > |e.lh| then Redo(t, e.lh, e.data) else t
  }

  ghost predicate RunOk(d: Image, l: Layout, es: seq<Event>)
    decreases |es|
  {
    Quiet(d, l) && (es != [] ==> EventOk(d, l, es[0]) && RunOk(Step(d, l, es[0]), l, es[1..]))
  }

  ghost function Run(d: Image, l: Layout, es: seq<Event>): (r: Image)
    requires RunOk(d, l, es)
    decreases |es|
  {
    if es == [] then d else Run(Step(d, l, es[0]), l, es[1..])
  }

  ghost function AtomicRun(t: Image, es: seq<Event>): (r: Image)
    requires forall i :: 0 <= i < |es| ==> |es[i].lh| == |es[i].data|
    decreases |es|
  {
    if es == [] then t else AtomicRun(AtomicStep(t, es[0]), es[1..])
  }

  lemma RedoSameHome(d: Image, t: Image, l: Layout, lh: seq<int>, data: seq<Block>)
    requires TxnOk(d, l, lh, data) && SameHome(d, t, l)
    ensures SameHome(Redo(d, lh, data), Redo(t, lh, data), l)
  {
    RedoMeaning(d, l, lh, data);
    RedoMeaning(t, l, lh, data);
  }

  lemma StepIsAtomic(d: Image, l: Layout, e: Event)
    requires Quiet(d, l) && EventOk(d, l, e)
    ensures Quiet(Step(d, l, e), l)
    ensures SameHome(Step(d, l, e), AtomicStep(d, e), l)
  {
    match e
    case Committed(lh, data) =>
      CommitDone(d, l, lh, data);
    case Cut(lh, data, cut, boots) =>
      CommitPrefix(d, l, lh, data, cut);
      BootsRebuild(Apply(d, CommitTrace(d[l.start], l.start, lh, data)[..cut]), AtomicStep(d, e), l, boots);
  }

  // Over any sequence of transactions, crashes and crashed recoveries, the home blocks are those
  // of a disk that applies each transaction in one indivisible step or not at all.
  lemma {:induction false} EveryRunIsAtomic(d: Image, t: Image, l: Layout, es: seq<Event>)
    requires RunOk(d, l, es) && SameHome(d, t, l)
    ensures forall i :: 0 <= i < |es| ==> |es[i].lh| == |es[i].data|
    ensures Quiet(Run(d, l, es), l)
    ensures SameHome(Run(d, l, es), AtomicRun(t, es), l)
    decreases |es|
  {
    if es != [] {
      var e := es[0];
      StepIsAtomic(d, l, e);
      RedoSameHome(d, t, l, e.lh, e.data);
      EveryRunIsAtomic(Step(d, l, e), AtomicStep(t, e), l, es[1..]);
      forall i | 0 <= i < |es| ensures |es[i].lh| == |es[i].data| {
        if i > 0 { assert es[i] == es[1..][i - 1]; }
      }
    }
  }
}
