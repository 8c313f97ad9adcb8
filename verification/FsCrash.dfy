/**
 A crash in the middle of filewrite (kernel/file.c:136-180, kernel/log.c): each chunk is a transaction of its own,
 so that what recovery finds is the file system after a whole number of chunks.
 */
module FsCrash {
  import F = FsOwn
  import Fs
  import Disk
  import Crash

  // What a block of the disk holds of the file system: bits of the bitmap, inodes, and data or block numbers.
  datatype Part = Part(bits: map<nat, bool>, inodes: map<nat, F.Inode>, data: F.Block)

  function PartOf(st: F.St, bmapstart: nat, inodestart: nat, k: nat): (r: Part) {
    Part(map c: nat | c < |st.bitmap| && bmapstart + c / Fs.BPB == k :: st.bitmap[c],
         map m | m in st.inodes && inodestart + m / Fs.IPB == k :: st.inodes[m],
         F.At(st, k))
  }

  // The disk on which the file system is, whatever the encoding of a block's parts is.
  function Picture(st: F.St, bmapstart: nat, inodestart: nat, enc: Part -> Disk.Block): (r: Disk.Image)
    ensures |r| == |st.blocks|
  {
    seq<Disk.Block>(|st.blocks|, k requires 0 <= k => enc(PartOf(st, bmapstart, inodestart, k)))
  }

  // A block of the bitmap has 8192 bits and a block of inodes sixteen.
  lemma WhereIs(st: F.St, bmapstart: nat, inodestart: nat, c: nat, m: nat)
    ensures c < |st.bitmap| ==>
              var p := PartOf(st, bmapstart, inodestart, bmapstart + c / 8192); c in p.bits && p.bits[c] == st.bitmap[c]
    ensures m in st.inodes ==>
              var p := PartOf(st, bmapstart, inodestart, inodestart + m / 16);
              m in p.inodes && p.inodes[m] == st.inodes[m]
  {}

  // A block that was not logged is the same before and after.
  lemma KeptPart(o: F.St, st: F.St, bmapstart: nat, inodestart: nat, lg: set<nat>, k: nat)
    requires Fs.Kept(o, st, bmapstart, inodestart, lg) && k !in lg
    ensures PartOf(st, bmapstart, inodestart, k) == PartOf(o, bmapstart, inodestart, k)
  {
    var a, b := PartOf(o, bmapstart, inodestart, k), PartOf(st, bmapstart, inodestart, k);
    forall c: nat | c < |o.bitmap| && bmapstart + c / Fs.BPB == k ensures st.bitmap[c] == o.bitmap[c] {}
    assert b.bits == a.bits;
    assert b.inodes == a.inodes;
  }

  // The transaction carries the blocks lg as they are in st.
  ghost predicate Carries(e: Crash.Event, st: F.St, lg: set<nat>, bmapstart: nat, inodestart: nat,
                          enc: Part -> Disk.Block) {
    && |e.lh| == |e.data| && (forall b :: b in lg ==> b in e.lh)
    && forall i :: 0 <= i < |e.lh| ==> e.lh[i] >= 0 && e.data[i] == enc(PartOf(st, bmapstart, inodestart, e.lh[i]))
  }

  // Done as a whole, the transaction takes the disk from one state to the next.
  lemma RedoIsNext(o: F.St, st: F.St, l: Crash.Layout, e: Crash.Event, lg: set<nat>, bmapstart: nat, inodestart: nat,
                   enc: Part -> Disk.Block)
    requires Fs.Kept(o, st, bmapstart, inodestart, lg) && Carries(e, st, lg, bmapstart, inodestart, enc)
    requires Crash.TxnOk(Picture(o, bmapstart, inodestart, enc), l, e.lh, e.data)
    ensures Crash.Redo(Picture(o, bmapstart, inodestart, enc), e.lh, e.data) == Picture(st, bmapstart, inodestart, enc)
  {
    var a, b := Picture(o, bmapstart, inodestart, enc), Picture(st, bmapstart, inodestart, enc);
    var r := Crash.Redo(a, e.lh, e.data);
    Crash.RedoMeaning(a, l, e.lh, e.data);
    hide Crash.Redo, PartOf;
    forall k: nat | k < |a| ensures r[k] == b[k] {
      if k in e.lh {
        var i :| 0 <= i < |e.lh| && e.lh[i] == k;
        assert r[e.lh[i]] == e.data[i];
      } else {
        KeptPart(o, st, bmapstart, inodestart, lg, k);
      }
    }
  }

  // How many of the transactions took effect; only the last can have been cut short, and not if its header was written.
  function Effective(es: seq<Crash.Event>): (r: nat)
    ensures r <= |es|
  {
    if es != [] && es[|es| - 1].Cut? && es[|es| - 1].cut <= |es[|es| - 1].lh| then |es| - 1 else |es|
  }

  ghost predicate InOrder(es: seq<Crash.Event>, states: seq<F.St>, ops: seq<set<nat>>, bmapstart: nat, inodestart: nat,
                          enc: Part -> Disk.Block) {
    && |es| <= |ops| == |states| - 1
    && (forall i :: 0 <= i < |ops| ==> Fs.Kept(states[i], states[i + 1], bmapstart, inodestart, ops[i]))
    && (forall i :: 0 <= i < |es| ==> Carries(es[i], states[i + 1], ops[i], bmapstart, inodestart, enc))
    && (forall i :: 0 <= i < |es| - 1 ==> es[i].Committed?)
  }

  lemma OrderTail(es: seq<Crash.Event>, states: seq<F.St>, ops: seq<set<nat>>, bmapstart: nat, inodestart: nat,
                  enc: Part -> Disk.Block)
    requires InOrder(es, states, ops, bmapstart, inodestart, enc) && es != []
    ensures InOrder(es[1..], states[1..], ops[1..], bmapstart, inodestart, enc)
    ensures es[0].Committed? || |es| == 1
  {
    hide Fs.Kept, Carries;
    forall i | 0 <= i < |ops[1..]|
      ensures Fs.Kept(states[1..][i], states[1..][i + 1], bmapstart, inodestart, ops[1..][i])
    {
      assert Fs.Kept(states[i + 1], states[i + 2], bmapstart, inodestart, ops[i + 1]);
    }
    forall i | 0 <= i < |es[1..]|
      ensures Carries(es[1..][i], states[1..][i + 1], ops[1..][i], bmapstart, inodestart, enc)
    {
      assert Carries(es[i + 1], states[i + 2], ops[i + 1], bmapstart, inodestart, enc);
    }
  }

  // On a disk that never crashes: the state after the transactions that took effect.
  lemma {:induction false} AtomicRunIsState(d: Disk.Image, l: Crash.Layout, es: seq<Crash.Event>, states: seq<F.St>,
                                            ops: seq<set<nat>>, bmapstart: nat, inodestart: nat,
                                            enc: Part -> Disk.Block)
    requires Crash.RunOk(d, l, es) && InOrder(es, states, ops, bmapstart, inodestart, enc)
    requires |d| == |states[0].blocks|
    ensures forall i :: 0 <= i < |es| ==> |es[i].lh| == |es[i].data|
    ensures Crash.AtomicRun(Picture(states[0], bmapstart, inodestart, enc), es)
         == Picture(states[Effective(es)], bmapstart, inodestart, enc)
    decreases |es|
  {
    hide Fs.Kept, Carries, Picture, PartOf, Crash.Redo, Crash.Step;
    forall i | 0 <= i < |es| ensures |es[i].lh| == |es[i].data| {
      CarriesSize(es, states, ops, bmapstart, inodestart, enc, i);
    }
    if es != [] {
      var e := es[0];
      OrderTail(es, states, ops, bmapstart, inodestart, enc);
      assert Crash.EventOk(d, l, e) && Fs.Kept(states[0], states[1], bmapstart, inodestart, ops[0]);
      SameTxn(d, Picture(states[0], bmapstart, inodestart, enc), l, e);
      RedoIsNext(states[0], states[1], l, e, ops[0], bmapstart, inodestart, enc);
      if |es| > 1 || e.Committed? {
        Crash.StepIsAtomic(d, l, e);
        SameSize(d, l, e, states[0], states[1], bmapstart, inodestart, ops[0]);
        AtomicRunIsState(Crash.Step(d, l, e), l, es[1..], states[1..], ops[1..], bmapstart, inodestart, enc);
      }
    }
  }

  lemma CarriesSize(es: seq<Crash.Event>, states: seq<F.St>, ops: seq<set<nat>>, bmapstart: nat, inodestart: nat,
                    enc: Part -> Disk.Block, i: nat)
    requires InOrder(es, states, ops, bmapstart, inodestart, enc) && i < |es|
    ensures |es[i].lh| == |es[i].data|
  {}

  lemma SameTxn(d: Disk.Image, t: Disk.Image, l: Crash.Layout, e: Crash.Event)
    requires Crash.EventOk(d, l, e) && |t| == |d|
    ensures Crash.TxnOk(t, l, e.lh, e.data)
  {}

  lemma SameSize(d: Disk.Image, l: Crash.Layout, e: Crash.Event, o: F.St, st: F.St, bmapstart: nat, inodestart: nat,
                 lg: set<nat>)
    requires Crash.Quiet(d, l) && Crash.EventOk(d, l, e) && Fs.Kept(o, st, bmapstart, inodestart, lg)
    requires |d| == |o.blocks|
    ensures |Crash.Step(d, l, e)| == |st.blocks|
  {
    hide Crash.CommitTrace, Crash.SaneHead;
    Crash.StepIsAtomic(d, l, e);
  }

  // filewrite's transactions run in order on the disk of the old file system, any one of them is cut short by a crash
  // and any recoveries after it as well. The disk is then that of the file system after a whole number of chunks: the
  // file is overwritten by just these, and every other file is as it was.
  lemma CrashKeepsWholeChunks(d: Disk.Image, l: Crash.Layout, es: seq<Crash.Event>, states: seq<F.St>,
                              ops: seq<set<nat>>, bmapstart: nat, inodestart: nat, enc: Part -> Disk.Block,
                              n: nat, off0: nat, src: seq<int>, done: nat)
    requires Fs.ByChunks(states, ops, bmapstart, inodestart, n, off0, src, done)
    requires InOrder(es, states, ops, bmapstart, inodestart, enc)
    requires Crash.RunOk(d, l, es) && Crash.SameHome(d, Picture(states[0], bmapstart, inodestart, enc), l)
    ensures var k := Effective(es);
            && Crash.SameHome(Crash.Run(d, l, es), Picture(states[k], bmapstart, inodestart, enc), l)
            && Fs.ChunksWritten(states[0], states[k], n, off0, src, Fs.Upto(k, done))
  {
    hide Crash.RunOk, Crash.Run, Crash.SameHome, Picture, Fs.ChunksWritten, Fs.Kept, Carries;
    SameHomeSize(d, Picture(states[0], bmapstart, inodestart, enc), l);
    Crash.EveryRunIsAtomic(d, Picture(states[0], bmapstart, inodestart, enc), l, es);
    AtomicRunIsState(d, l, es, states, ops, bmapstart, inodestart, enc);
  }

  lemma SameHomeSize(d: Disk.Image, t: Disk.Image, l: Crash.Layout)
    requires Crash.SameHome(d, t, l)
    ensures |d| == |t|
  {}
}
