/**
 The write-ahead log (kernel/log.c) on top of the buffer cache. The ghost field `store` is the
 plain block store the file system believes it is using: it changes exactly when log_write accepts
 a block, although the home blocks on disk change only at commit. A commit is cut where it may sleep,
 so that other processes read blocks between its steps (module LogGroup).
 */
module Log {
  import opened Wrappers
  import opened Disk
  import opened Crash
  import opened Bio

  ghost function Elems(s: seq<int>): (r: set<int>)
  {
    set x | x in s
  }

  function StoreData(store: Image, lh: seq<int>): (r: seq<Block>)
    requires forall i :: 0 <= i < |lh| ==> 0 <= lh[i] < |store|
    ensures |r| == |lh|
  {
    seq(|lh|, i requires 0 <= i < |lh| => store[lh[i]])
  }

  function Latest(l: Layout, disk: Image, store: Image, b: nat): (r: Block)
    requires b < |disk| == |store|
  {
    if l.Home(disk, b) then store[b] else disk[b]
  }

  // ----- The invariant while operations are running or a commit is under way -----

  // Every buffer that is not locked holds the latest contents of its block; a logged block that is not installed yet
  // has one reference more than its lock accounts for.
  ghost predicate BufCoherent(b: Buf, l: Layout, disk: Image, store: Image, logged: set<int>) {
    b.dev == ROOTDEV ==>
      && b.valid
      && b.blockno < |disk| == |store|
      && b.refcnt >= (if b.blockno in logged then 1 else 0) + (if b.locked then 1 else 0)
      && (!b.locked ==> b.data == Latest(l, disk, store, b.blockno))
  }

  ghost predicate Cached(bufs: seq<Buf>, b: int) {
    exists i :: 0 <= i < |bufs| && bufs[i].dev == ROOTDEV && bufs[i].blockno == b
  }

  ghost predicate Coherent(bufs: seq<Buf>, l: Layout, disk: Image, store: Image, logged: set<int>) {
    && |disk| == |store|
    && (forall i :: 0 <= i < |bufs| ==> BufCoherent(bufs[i], l, disk, store, logged))
    && (forall b :: b in logged ==> Cached(bufs, b))
    && (forall b :: l.Home(disk, b) && b !in logged ==> disk[b] == store[b])
  }

  // ----- The invariant of recovery -----

  // No buffer is locked or referenced. `todo` holds the home blocks whose disk copy is still behind the store; none of
  // them is cached.
  ghost predicate BufSteady(b: Buf, l: Layout, disk: Image, store: Image) {
    b.dev == ROOTDEV ==>
      b.valid && !b.locked && b.refcnt == 0 && b.blockno < |disk| == |store|
      && b.data == Latest(l, disk, store, b.blockno)
  }

  ghost predicate Steady(bufs: seq<Buf>, l: Layout, disk: Image, store: Image, todo: set<int>) {
    && |disk| == |store|
    && l.Fits(disk)
    && (forall i :: 0 <= i < |bufs| ==> BufSteady(bufs[i], l, disk, store))
    && (forall b :: b in todo ==> l.Home(disk, b) && !Cached(bufs, b))
    && (forall b :: l.Home(disk, b) && b !in todo ==> disk[b] == store[b])
  }

  ghost predicate Unused(bufs: seq<Buf>) {
    exists i :: 0 <= i < |bufs| && bufs[i].refcnt == 0
  }

  lemma SteadyIsCoherent(bufs: seq<Buf>, l: Layout, disk: Image, store: Image)
    requires Steady(bufs, l, disk, store, {})
    ensures Coherent(bufs, l, disk, store, {})
  {}

  function BlockNos(bufs: seq<Buf>): (r: seq<int>)
    ensures |r| == |bufs|
  {
    seq(|bufs|, i requires 0 <= i < |bufs| => bufs[i].blockno)
  }

  lemma SubsetSize(a: set<int>, b: set<int>)
    requires a <= b
    ensures |a| <= |b|
  {
    assert b == a + (b - a);
  }

  lemma {:induction false} ElemsSize(s: seq<int>)
    ensures |Elems(s)| <= |s|
    ensures Distinct(s) ==> |Elems(s)| == |s|
    decreases |s|
  {
    if s != [] {
      var t, x := s[..|s| - 1], s[|s| - 1];
      ElemsSize(t);
      assert Elems(s) == Elems(t) + {x};
    }
  }

  // ----- One block moved by recovery -----

  // Buffer t was free for block b and now holds it, unlocked and unreferenced.
  ghost predicate Refilled(o: seq<Buf>, n: seq<Buf>, t: nat, b: nat, data: Block) {
    && t < |o| == |n|
    && (Caches(o[t], b) || NotCached(o, b))
    && n == o[t := Buf(true, ROOTDEV, b, 0, false, data)]
  }

  // Writing a block of the log area, header included, through the cache.
  lemma LogAreaWrite(o: seq<Buf>, n: seq<Buf>, l: Layout, disk: Image, store: Image, todo: set<int>, t: nat, b: nat,
                     data: Block)
    requires Steady(o, l, disk, store, todo) && TableOk(o, |disk|)
    requires l.start <= b < l.start + l.size
    requires Refilled(o, n, t, b, data)
    ensures Steady(n, l, disk[b := data], store, todo) && TableOk(n, |disk|)
  {
    forall i | 0 <= i < |n| ensures BufSteady(n[i], l, disk[b := data], store) {
      assert BufSteady(o[i], l, disk, store);
    }
    forall x | x in todo ensures !Cached(n, x) { assert !Cached(o, x); }
  }

  // Installing: the home block was not cached.
  lemma RecoveryInstall(o: seq<Buf>, n: seq<Buf>, l: Layout, disk: Image, store: Image, todo: set<int>, t: nat, b: nat)
    requires Steady(o, l, disk, store, todo) && TableOk(o, |disk|)
    requires b in todo && Refilled(o, n, t, b, store[b])
    ensures Steady(n, l, disk[b := store[b]], store, todo - {b})
  {}

  // bread takes an unused buffer, which there is, and nothing makes it wait.
  lemma SteadyRead(o: seq<Buf>, l: Layout, disk: Image, store: Image, todo: set<int>)
    requires Steady(o, l, disk, store, todo) && TableOk(o, |disk|)
    ensures (forall i :: 0 <= i < |o| ==> o[i].refcnt == 0 && !o[i].locked) && o[0].refcnt == 0
  {
    forall i | 0 <= i < |o| ensures o[i].refcnt == 0 && !o[i].locked {
      assert BufOk(o[i], |disk|) && BufSteady(o[i], l, disk, store);
    }
  }

  // Reading a block of the log area.
  lemma LogBlockRead(o: seq<Buf>, n: seq<Buf>, l: Layout, disk: Image, store: Image, todo: set<int>, b: nat, t: nat)
    requires Steady(o, l, disk, store, todo)
    requires l.start <= b < l.start + l.size && BreadDid(o, n, disk, b, t)
    ensures Caches(o[t], b) || NotCached(o, b)
    ensures n == o[t := Buf(true, ROOTDEV, b, 1, true, disk[b])]
  {}

  // The buffer that reading a home block returns, while buffer t is held for a log block.
  lemma HomeBlockRead(o1: seq<Buf>, n: seq<Buf>, l: Layout, disk: Image, store: Image, todo: set<int>, t: nat, b: nat,
                      f: nat)
    requires Steady(o1, l, disk, store, todo) && b in todo
    requires |o1| == NBUF && t < NBUF
    requires o1[t].dev == ROOTDEV && l.start <= o1[t].blockno < l.start + l.size
    requires BreadDid(o1[t := o1[t].(refcnt := 1, locked := true)], n, disk, b, f)
    ensures f != t && n == o1[t := o1[t].(refcnt := 1, locked := true)][f := n[f]]
    ensures NotCached(o1, b) && n[f].refcnt == 1 && n[f].locked && n[f].valid && Caches(n[f], b)
  {
    assert BufSteady(o1[t], l, disk, store);
    assert BufSteady(o1[f], l, disk, store);
    assert !Cached(o1, b);
  }

  ghost predicate LhOk(lh: seq<int>, l: Layout, disk: Image) {
    && |lh| <= LOGSIZE
    && |lh| < l.size
    && Distinct(lh)
    && forall i :: 0 <= i < |lh| ==> l.Home(disk, lh[i])
  }

  class FsLog {
    const bc: Bcache
    const l: Layout
    var lh: seq<int>           // log.lh.block[0 .. log.lh.n)
    var outstanding: nat
    ghost var store: Image
    ghost var pinned: set<int>   // the logged blocks that are not installed yet
    ghost var head: Block        // the header block on disk when the last commit began
    ghost var begun: nat         // how many blocks had been written by then

    constructor (bc: Bcache, l: Layout, ghost store: Image)
      ensures this.bc == bc && this.l == l && this.store == store && lh == [] && outstanding == 0 && pinned == {}
    {
      this.bc, this.l, this.lh, this.outstanding, this.store, this.pinned := bc, l, [], 0, store, {};
      this.head, this.begun := seq(WORDS, _ => 0), 0;
    }

    ghost predicate SteadyState(todo: set<int>)
      reads this, bc
    {
      && bc.Valid()
      && |bc.disk| == |store| && l.Fits(bc.disk)
      && Steady(bc.bufs, l, bc.disk, store, todo)
      && LhOk(lh, l, bc.disk)
    }

    // The header block that write_head stores: the count and the block numbers over the old words.
    method HeadBlock(h: Block) returns (r: Block)
      requires |lh| <= LOGSIZE
      ensures r == EncodeHead(h, lh)
    {
      var hb: seq<int> := h[0 := |lh|];
      var i := 0;
      while i < |lh|
        invariant 0 <= i <= |lh|
        invariant |hb| == WORDS && hb[0] == |lh|
        invariant forall j :: 1 <= j <= i ==> hb[j] == lh[j - 1]
        invariant forall j :: i < j < WORDS ==> hb[j] == h[j]
      {
        hb := hb[1 + i := lh[i]];
        i := i + 1;
      }
      r := hb;
    }

    // write_head during recovery.
    method WriteHead(ghost todo: set<int>)
      requires SteadyState(todo)
      modifies bc
      ensures SteadyState(todo)
      ensures bc.disk == old(bc.disk)[l.start := EncodeHead(old(bc.disk)[l.start], lh)]
      ensures bc.trace == old(bc.trace) + [Write(l.start, EncodeHead(old(bc.disk)[l.start], lh))]
    {
      hide Ring, Covers, Apply, EncodeHead, Steady, TableOk;
      ghost var o := bc.bufs;
      SteadyRead(o, l, bc.disk, store, todo);
      var buf, _ := bc.Bread(l.start);
      ghost var t := buf.value;
      LogBlockRead(o, bc.bufs, l, bc.disk, store, todo, l.start, t);
      var hb := HeadBlock(bc.bufs[buf.value].data);
      bc.Fill(buf.value, hb);
      bc.Bwrite(buf.value);
      bc.Brelse(buf.value);
      assert bc.bufs == o[t := Buf(true, ROOTDEV, l.start, 0, false, hb)];
      LogAreaWrite(o, bc.bufs, l, old(bc.disk), store, todo, t, l.start, hb);
    }

    method NamedBlocks(h: Block) returns (r: seq<int>)
      requires h[0] <= LOGSIZE
      ensures r == HeadBlocks(h)
    {
      var i := 0;
      r := [];
      while i < h[0]
        invariant 0 <= i && |r| == i && (h[0] >= 0 ==> i <= h[0]) && (h[0] < 0 ==> i == 0)
        invariant forall j :: 0 <= j < i ==> r[j] == h[1 + j]
      {
        r := r + [h[1 + i]];
        i := i + 1;
      }
    }

    // read_head
    method ReadHead(ghost todo: set<int>)
      requires SteadyState(todo)
      requires SaneHead(bc.disk, l)
      modifies this`lh, bc
      ensures bc.disk == old(bc.disk) && bc.trace == old(bc.trace)
      ensures lh == HeadBlocks(bc.disk[l.start])
      ensures SteadyState(todo)
    {
      hide Ring, Covers, Apply, Steady, TableOk;
      ghost var o := bc.bufs;
      SteadyRead(o, l, bc.disk, store, todo);
      var buf, _ := bc.Bread(l.start);
      ghost var t := buf.value;
      LogBlockRead(o, bc.bufs, l, bc.disk, store, todo, l.start, t);
      var h := bc.bufs[buf.value].data;
      lh := NamedBlocks(h);
      bc.Brelse(buf.value);
      assert bc.bufs == o[t := Buf(true, ROOTDEV, l.start, 0, false, h)];
      LogAreaWrite(o, bc.bufs, l, bc.disk, store, todo, t, l.start, h);
      assert bc.disk[l.start := h] == bc.disk;
    }

    // The log block is copied over the home block, which goes to disk; both buffers are released.
    method CopyHome(lbuf: nat, dbuf: nat, recovering: bool)
      requires bc.Valid() && lbuf < NBUF && dbuf < NBUF && lbuf != dbuf
      requires bc.bufs[lbuf].locked && bc.bufs[dbuf].locked && (!recovering ==> bc.bufs[dbuf].refcnt >= 2)
      modifies bc
      ensures bc.Valid() && bc.bufs[lbuf].refcnt == old(bc.bufs)[lbuf].refcnt - 1
      ensures var o := old(bc.bufs);
              bc.bufs == o[lbuf := o[lbuf].(refcnt := bc.bufs[lbuf].refcnt, locked := false)]
                          [dbuf := o[dbuf].(refcnt := o[dbuf].refcnt - if recovering then 1 else 2, locked := false,
                                            data := o[lbuf].data)]
      ensures bc.disk == old(bc.disk)[bc.bufs[dbuf].blockno := bc.bufs[lbuf].data]
      ensures bc.trace == old(bc.trace) + [Write(bc.bufs[dbuf].blockno, bc.bufs[lbuf].data)]
    {
      hide Ring, Covers, Apply, TableOk;
      ghost var o := bc.bufs;
      bc.Fill(dbuf, bc.bufs[lbuf].data);
      bc.Bwrite(dbuf);
      if !recovering {
        bc.Bunpin(dbuf);
      }
      bc.Brelse(lbuf);
      bc.Brelse(dbuf);
    }

    // One turn of install_trans's loop during recovery; `todo` holds the blocks not installed yet.
    method InstallOne(tail: nat, ghost todo: set<int>)
      requires SteadyState(todo)
      requires tail < |lh| && lh[tail] in todo
      requires bc.disk[l.start + 1 + tail] == store[lh[tail]]
      modifies bc
      ensures SteadyState(todo - {lh[tail]})
      ensures bc.disk == old(bc.disk)[lh[tail] := store[lh[tail]]]
      ensures bc.trace == old(bc.trace) + [Write(lh[tail], store[lh[tail]])]
    {
      hide Ring, Covers, Apply, Steady, TableOk;
      ghost var o := bc.bufs;
      var src, b := l.start + 1 + tail, lh[tail];
      SteadyRead(o, l, bc.disk, store, todo);
      var lbuf, _ := bc.Bread(src);
      ghost var t, o1 := lbuf.value, o[lbuf.value := Buf(true, ROOTDEV, src, 0, false, bc.disk[src])];
      LogBlockRead(o, bc.bufs, l, bc.disk, store, todo, src, t);
      assert bc.disk[src := bc.disk[src]] == bc.disk;
      LogAreaWrite(o, o1, l, bc.disk, store, todo, t, src, bc.disk[src]);
      ghost var u := if t == 0 then 1 else 0;
      assert bc.bufs == o1[t := o1[t].(refcnt := 1, locked := true)];
      assert bc.bufs[u].refcnt == 0;
      var dbuf, _ := bc.Bread(b);
      ghost var f := dbuf.value;
      HomeBlockRead(o1, bc.bufs, l, bc.disk, store, todo, t, b, f);
      CopyHome(lbuf.value, dbuf.value, true);
      assert bc.bufs == o1[f := Buf(true, ROOTDEV, b, 0, false, store[b])];
      RecoveryInstall(o1, bc.bufs, l, old(bc.disk), store, todo, f, b);
    }

    // install_trans during recovery: copy every block that the header names from the log to its home location.
    method InstallTrans()
      requires SteadyState(Elems(lh))
      requires forall i :: 0 <= i < |lh| ==> bc.disk[l.start + 1 + i] == store[lh[i]]
      modifies bc
      ensures SteadyState({})
      ensures bc.disk[l.start] == old(bc.disk)[l.start]
      ensures bc.trace == old(bc.trace) + Installs(lh, StoreData(store, lh))
    {
      hide Ring, Covers, Apply, Steady, TableOk;
      ghost var ws := Installs(lh, StoreData(store, lh));
      var tail := 0;
      assert ws[..0] == [];
      assert lh[0..] == lh;
      while tail < |lh|
        invariant 0 <= tail <= |lh|
        invariant SteadyState(Elems(lh[tail..]))
        invariant forall i :: 0 <= i < |lh| ==> bc.disk[l.start + 1 + i] == store[lh[i]]
        invariant bc.disk[l.start] == old(bc.disk)[l.start]
        invariant bc.trace == old(bc.trace) + ws[..tail]
      {
        assert lh[tail..][0] == lh[tail];
        InstallOne(tail, Elems(lh[tail..]));
        RestOfLog(lh, tail);
        assert ws[..tail + 1] == ws[..tail] + [ws[tail]];
        tail := tail + 1;
      }
      assert ws[..|lh|] == ws;
      assert Elems(lh[|lh|..]) == {};
    }

    // recover_from_log, run at boot on an empty cache.
    method RecoverFromLog()
      requires bc.Valid() && (forall i :: 0 <= i < NBUF ==> bc.bufs[i].dev == 0)
      requires Recoverable(bc.disk, store, l) && lh == []
      modifies this`lh, bc
      ensures lh == [] && SteadyState({}) && Quiet(bc.disk, l)
      ensures SameHome(bc.disk, store, l)
      ensures bc.trace == old(bc.trace) + RecoverTrace(old(bc.disk), l)
    {
      hide Ring, Covers, Apply, EncodeHead;
      ghost var todo, h := Elems(HeadBlocks(bc.disk[l.start])), bc.disk[l.start];
      assert BufOk(bc.bufs[0], |bc.disk|);
      BootIsSteady(bc.bufs, l, bc.disk, store);
      ReadHead(todo);
      assert LogData(bc.disk, l, |lh|) == StoreData(store, lh);
      InstallTrans();
      lh := [];
      WriteHead({});
      HeadRoundTrip(h, []);
    }

    // ----- The steps of a commit, between which other processes run -----

    // The rest of a turn of write_log's loop, once it has the buffers of the log block and of the logged block: the
    // cached block is copied to the log block, which goes to disk, and both buffers are released.
    method LogTurn(to: nat, from: nat)
      requires Running() && to < NBUF && from < NBUF && bc.bufs[to].locked && bc.bufs[from].locked
      requires l.start <= bc.bufs[to].blockno < l.start + l.size && l.Home(bc.disk, bc.bufs[from].blockno)
      requires bc.bufs[from].data == store[bc.bufs[from].blockno]
      modifies bc
      ensures Running() && bc.bufs[to].refcnt == old(bc.bufs)[to].refcnt - 1
      ensures bc.bufs[from].refcnt == old(bc.bufs)[from].refcnt - 1
      ensures var o := old(bc.bufs); var data := o[from].data;
              && bc.bufs == o[to := o[to].(refcnt := bc.bufs[to].refcnt, locked := false, data := data)]
                             [from := o[from].(refcnt := bc.bufs[from].refcnt, locked := false)]
              && bc.disk == old(bc.disk)[o[to].blockno := data]
              && bc.trace == old(bc.trace) + [Write(o[to].blockno, data)]
    {
      hide Ring, Covers, Apply, TableOk, Coherent;
      ghost var o, d0 := bc.bufs, bc.disk;
      assert to != from;
      bc.Fill(to, bc.bufs[from].data);
      bc.Bwrite(to);
      bc.Brelse(from);
      bc.Brelse(to);
      LogTurnKeepsCoherent(o, bc.bufs, l, d0, store, pinned, to, from);
    }

    // The rest of write_head, once it has the buffer of the header block.
    method HeadTurn(t: nat)
      requires Running() && t < NBUF && bc.bufs[t].locked && bc.bufs[t].blockno == l.start
      requires bc.bufs[t].data == bc.disk[l.start]
      modifies bc
      ensures Running() && bc.bufs[t].refcnt == old(bc.bufs)[t].refcnt - 1
      ensures var o := old(bc.bufs); var hb := EncodeHead(old(bc.disk)[l.start], lh);
              && bc.bufs == o[t := o[t].(refcnt := bc.bufs[t].refcnt, locked := false, data := hb)]
              && bc.disk == old(bc.disk)[l.start := hb] && bc.trace == old(bc.trace) + [Write(l.start, hb)]
    {
      hide Ring, Covers, Apply, TableOk, Coherent, EncodeHead;
      ghost var o, d0 := bc.bufs, bc.disk;
      var hb := HeadBlock(bc.bufs[t].data);
      bc.Fill(t, hb);
      bc.Bwrite(t);
      bc.Brelse(t);
      HeadTurnKeepsCoherent(o, bc.bufs, l, d0, store, pinned, t);
    }

    // The rest of a turn of install_trans's loop during a commit, once it has the buffers of the log block and of the
    // home block: the disk catches up and the pin goes.
    method InstallTurn(lbuf: nat, dbuf: nat)
      requires Running() && lbuf < NBUF && dbuf < NBUF && bc.bufs[lbuf].locked && bc.bufs[dbuf].locked
      requires l.start <= bc.bufs[lbuf].blockno < l.start + l.size && bc.bufs[dbuf].blockno in pinned
      requires l.Home(bc.disk, bc.bufs[dbuf].blockno)
      requires bc.bufs[lbuf].data == bc.disk[bc.bufs[lbuf].blockno] == store[bc.bufs[dbuf].blockno]
      modifies bc, this`pinned
      ensures Running() && pinned == old(pinned) - {bc.bufs[dbuf].blockno as int}
      ensures bc.bufs[lbuf].refcnt == old(bc.bufs)[lbuf].refcnt - 1
      ensures bc.bufs[dbuf].refcnt == old(bc.bufs)[dbuf].refcnt - 2
      ensures var o := old(bc.bufs); var b := o[dbuf].blockno;
              && bc.bufs == o[lbuf := o[lbuf].(refcnt := bc.bufs[lbuf].refcnt, locked := false)]
                             [dbuf := o[dbuf].(refcnt := bc.bufs[dbuf].refcnt, locked := false, data := store[b])]
              && bc.disk == old(bc.disk)[b := store[b]] && bc.trace == old(bc.trace) + [Write(b, store[b])]
    {
      hide Ring, Covers, Apply, TableOk, Coherent;
      ghost var o, d0, L := bc.bufs, bc.disk, pinned;
      assert lbuf != dbuf;
      PinnedTwice(o, l, d0, store, L, |d0|, dbuf);
      CopyHome(lbuf, dbuf, false);
      pinned := L - {o[dbuf].blockno as int};
      InstallTurnKeepsCoherent(o, bc.bufs, l, d0, store, L, lbuf, dbuf);
    }

    // ----- The operations a file system call uses -----

    ghost predicate Running()
      reads this, bc
    {
      && bc.Valid()
      && |bc.disk| == |store| && l.Fits(bc.disk)
      && Coherent(bc.bufs, l, bc.disk, store, pinned)
      && LhOk(lh, l, bc.disk)
    }

    // bread returns the last logged contents of a home block, wherever they are kept; or the caller has to wait
    // for the buffer's lock.
    method Read(b: nat) returns (r: Option<nat>, waits: bool)
      requires Running() && b < |bc.disk|
      modifies bc`bufs
      ensures Running() && (waits ==> r.Some? && r.value < NBUF)
      ensures r.Some? && !waits ==> BreadDid(old(bc.bufs), bc.bufs, bc.disk, b, r.value)
      ensures r.Some? && !waits ==> bc.bufs[r.value].data == Latest(l, bc.disk, store, b)
      ensures waits ==> Caches(old(bc.bufs)[r.value], b) && old(bc.bufs)[r.value].locked
      ensures waits ==>
                bc.bufs == old(bc.bufs)[r.value := old(bc.bufs)[r.value].(refcnt := old(bc.bufs)[r.value].refcnt + 1)]
      ensures forall i :: 0 <= i < NBUF && Caches(old(bc.bufs)[i], b) ==>
                r == Some(i) && (waits <==> old(bc.bufs)[i].locked)
      ensures r.None? <==> NotCached(old(bc.bufs), b) && !Unused(old(bc.bufs))
      ensures r.None? ==> bc.bufs == old(bc.bufs)
    {
      hide Ring, Covers, Apply;
      ghost var o := bc.bufs;
      r, waits := bc.Bread(b);
      if waits {
        ReferenceKeepsCoherent(o, bc.bufs, l, bc.disk, store, pinned, r.value);
      } else if r.Some? {
        ReadKeepsCoherent(o, bc.bufs, l, bc.disk, store, pinned, b, r.value);
      }
    }

    // A caller that waited in bread has the lock: it too gets the last logged contents.
    method Acquire(i: nat)
      requires Running() && i < NBUF && bc.bufs[i].dev == ROOTDEV && bc.bufs[i].refcnt > 0 && !bc.bufs[i].locked
      requires bc.bufs[i].refcnt > if bc.bufs[i].blockno in pinned then 1 else 0
      modifies bc`bufs
      ensures Running() && bc.bufs == old(bc.bufs)[i := old(bc.bufs)[i].(locked := true)]
      ensures bc.bufs[i].blockno < |store| && bc.bufs[i].data == Latest(l, bc.disk, store, bc.bufs[i].blockno)
    {
      hide Ring, Covers, Apply;
      ghost var o := bc.bufs;
      assert BufCoherent(o[i], l, bc.disk, store, pinned);
      bc.Acquire(i);
      AcquireKeepsCoherent(o, bc.bufs, l, bc.disk, store, pinned, i);
    }

    // The holder of a buffer edits it; until log_write the store is unchanged.
    method Edit(i: nat, data: Block)
      requires Running() && i < NBUF && bc.bufs[i].locked
      modifies bc`bufs
      ensures Running()
      ensures bc.bufs == old(bc.bufs)[i := old(bc.bufs)[i].(data := data)]
    {
      hide Ring, Covers, Apply;
      ghost var o := bc.bufs;
      bc.Fill(i, data);
      EditKeepsCoherent(o, bc.bufs, l, bc.disk, store, pinned, i);
    }

    // log_write: the buffer's contents become the store's. A block already in the log is absorbed,
    // a new one is pinned. False stands for the two panics.
    method LogWrite(b: nat) returns (ok: bool)
      requires Running() && (outstanding >= 1 ==> pinned == Elems(lh))
      requires b < NBUF && bc.bufs[b].locked && l.Home(bc.disk, bc.bufs[b].blockno)
      modifies this`lh, this`store, this`pinned, bc`bufs
      ensures ok <==> |old(lh)| < LOGSIZE && |old(lh)| < l.size - 1 && outstanding >= 1
      ensures !ok ==> lh == old(lh) && store == old(store) && bc.bufs == old(bc.bufs)
      ensures ok ==> Running() && pinned == Elems(lh)
      ensures ok ==> bc.bufs[b] == old(bc.bufs)[b].(refcnt := bc.bufs[b].refcnt)
      ensures ok ==> bc.bufs[b].refcnt == old(bc.bufs)[b].refcnt + if bc.bufs[b].blockno in old(lh) then 0 else 1
      ensures ok ==> store == old(store)[bc.bufs[b].blockno := bc.bufs[b].data]
      ensures ok ==> lh == if bc.bufs[b].blockno in old(lh) then old(lh) else old(lh) + [bc.bufs[b].blockno]
      ensures ok ==> forall i :: 0 <= i < NBUF && i != b ==> bc.bufs[i] == old(bc.bufs)[i]
    {
      hide Ring, Covers, Apply, TableOk, Coherent;
      if |lh| >= LOGSIZE || |lh| >= l.size - 1 || outstanding < 1 {
        return false;
      }
      ghost var o, s0, e0 := bc.bufs, store, Elems(lh);
      var blockno: int := bc.bufs[b].blockno;
      var i := 0;
      while i < |lh| && lh[i] != blockno
        invariant 0 <= i <= |lh|
        invariant forall j :: 0 <= j < i ==> lh[j] != blockno
      {
        i := i + 1;
      }
      if i == |lh| {
        bc.Bpin(b) by { assert BufOk(bc.bufs[b], |bc.disk|) by { BufIsOk(bc.bufs, |bc.disk|, b); } }
        lh := lh + [blockno];
        assert Elems(lh) == e0 + {blockno};
      } else {
        lh := lh[i := blockno];
        assert lh == old(lh) && blockno in lh;
        assert Elems(lh) == e0 + {blockno};
      }
      store, pinned := store[blockno := bc.bufs[b].data], Elems(lh);
      LoggedKeepsCoherent(o, bc.bufs, l, bc.disk, s0, e0, b);
      ok := true;
    }

    // brelse, by a caller that has logged whatever it changed.
    method Release(b: nat)
      requires Running() && b < NBUF && bc.bufs[b].locked && bc.bufs[b].dev == ROOTDEV
      requires bc.bufs[b].blockno < |bc.disk|
      requires bc.bufs[b].data == Latest(l, bc.disk, store, bc.bufs[b].blockno)
      modifies bc
      ensures Running()
      ensures bc.bufs == old(bc.bufs)[b := old(bc.bufs)[b].(refcnt := old(bc.bufs)[b].refcnt - 1, locked := false)]
      ensures bc.disk == old(bc.disk) && bc.trace == old(bc.trace)
    {
      hide Ring, Covers, Apply, TableOk;
      ghost var o := bc.bufs;
      bc.Brelse(b);
      ReleaseKeepsCoherent(o, bc.bufs, l, bc.disk, store, pinned, b);
    }
  }

  lemma BufIsOk(bufs: seq<Buf>, blocks: nat, b: nat)
    requires TableOk(bufs, blocks) && b < NBUF
    ensures BufOk(bufs[b], blocks)
  {}

  // A recycled buffer was unused, so its block is not logged and the disk has its contents.
  lemma ReadKeepsCoherent(o: seq<Buf>, n: seq<Buf>, l: Layout, disk: Image, store: Image, logged: set<int>, b: nat,
                          t: nat)
    requires Coherent(o, l, disk, store, logged) && BreadDid(o, n, disk, b, t) && (Caches(o[t], b) ==> !o[t].locked)
    ensures Coherent(n, l, disk, store, logged)
    ensures n[t].data == Latest(l, disk, store, b)
  {
    assert BufCoherent(o[t], l, disk, store, logged);
    if b in logged {
      assert Cached(o, b);
      var i :| 0 <= i < |o| && Caches(o[i], b);
    }
    forall i | 0 <= i < |n| ensures BufCoherent(n[i], l, disk, store, logged) {
      assert BufCoherent(o[i], l, disk, store, logged);
    }
    forall x | x in logged ensures Cached(n, x) {
      assert Cached(o, x);
      var i :| 0 <= i < |o| && o[i].dev == ROOTDEV && o[i].blockno == x;
      assert BufCoherent(o[i], l, disk, store, logged);
      assert n[i].dev == ROOTDEV && n[i].blockno == x;
    }
  }

  lemma EditKeepsCoherent(o: seq<Buf>, n: seq<Buf>, l: Layout, disk: Image, store: Image, logged: set<int>, b: nat)
    requires Coherent(o, l, disk, store, logged) && b < |o| && o[b].locked
    requires |n| == |o| && n == o[b := o[b].(data := n[b].data)]
    ensures Coherent(n, l, disk, store, logged)
  {
    CachedCarries(o, n, logged);
    forall i | 0 <= i < |n| ensures BufCoherent(n[i], l, disk, store, logged) {
      assert BufCoherent(o[i], l, disk, store, logged);
    }
  }

  lemma ReferenceKeepsCoherent(o: seq<Buf>, n: seq<Buf>, l: Layout, disk: Image, store: Image, logged: set<int>, b: nat)
    requires Coherent(o, l, disk, store, logged) && b < |o| && n == o[b := o[b].(refcnt := o[b].refcnt + 1)]
    ensures Coherent(n, l, disk, store, logged)
  {
    CachedCarries(o, n, logged);
    forall i | 0 <= i < |n| ensures BufCoherent(n[i], l, disk, store, logged) {
      assert BufCoherent(o[i], l, disk, store, logged);
    }
  }

  lemma AcquireKeepsCoherent(o: seq<Buf>, n: seq<Buf>, l: Layout, disk: Image, store: Image, logged: set<int>, b: nat)
    requires Coherent(o, l, disk, store, logged) && b < |o| && n == o[b := o[b].(locked := true)]
    requires o[b].refcnt > if o[b].blockno in logged then 1 else 0
    ensures Coherent(n, l, disk, store, logged)
  {
    CachedCarries(o, n, logged);
    forall i | 0 <= i < |n| ensures BufCoherent(n[i], l, disk, store, logged) {
      assert BufCoherent(o[i], l, disk, store, logged);
    }
  }

  lemma CachedCarries(o: seq<Buf>, n: seq<Buf>, logged: set<int>)
    requires |o| == |n| && forall i :: 0 <= i < |o| ==> n[i].dev == o[i].dev && n[i].blockno == o[i].blockno
    requires forall x :: x in logged ==> Cached(o, x)
    ensures forall x :: x in logged ==> Cached(n, x)
  {}

  // The store takes the locked buffer's contents and the buffer gains a pin if it had none.
  lemma LoggedKeepsCoherent(o: seq<Buf>, n: seq<Buf>, l: Layout, disk: Image, store: Image, logged: set<int>, b: nat)
    requires Coherent(o, l, disk, store, logged) && TableOk(o, |disk|)
    requires b < |o| && o[b].locked && l.Home(disk, o[b].blockno)
    requires n == o[b := o[b].(refcnt := o[b].refcnt + if o[b].blockno in logged then 0 else 1)]
    ensures Coherent(n, l, disk, store[o[b].blockno := o[b].data], logged + {o[b].blockno as int})
  {
    var x := o[b].blockno;
    assert BufOk(o[b], |disk|) && BufCoherent(o[b], l, disk, store, logged);
    CachedCarries(o, n, logged);
    assert n[b].dev == ROOTDEV && n[b].blockno == x;
    forall i | 0 <= i < |n| ensures BufCoherent(n[i], l, disk, store[x := o[b].data], logged + {x as int}) {
      assert BufCoherent(o[i], l, disk, store, logged);
    }
  }

  lemma ReleaseKeepsCoherent(o: seq<Buf>, n: seq<Buf>, l: Layout, disk: Image, store: Image, logged: set<int>, b: nat)
    requires Coherent(o, l, disk, store, logged) && b < |o| && o[b].locked
    requires o[b].dev == ROOTDEV && o[b].blockno < |disk| && o[b].refcnt > 0
    requires o[b].data == Latest(l, disk, store, o[b].blockno)
    requires n == o[b := o[b].(refcnt := o[b].refcnt - 1, locked := false)]
    ensures Coherent(n, l, disk, store, logged)
  {
    CachedCarries(o, n, logged);
    forall i | 0 <= i < |n| ensures BufCoherent(n[i], l, disk, store, logged) {
      assert BufCoherent(o[i], l, disk, store, logged);
    }
  }

  lemma LogTurnKeepsCoherent(o: seq<Buf>, n: seq<Buf>, l: Layout, disk: Image, store: Image, logged: set<int>, to: nat,
                             from: nat)
    requires Coherent(o, l, disk, store, logged) && TableOk(o, |disk|) && to < |o| == |n| && from < |o| && to != from
    requires o[to].locked && o[from].locked && l.start <= o[to].blockno < l.start + l.size <= |disk|
    requires l.Home(disk, o[from].blockno) && o[from].data == store[o[from].blockno]
    requires n[to].refcnt == o[to].refcnt - 1 && n[from].refcnt == o[from].refcnt - 1
    requires n == o[to := o[to].(refcnt := n[to].refcnt, locked := false, data := o[from].data)]
                   [from := o[from].(refcnt := n[from].refcnt, locked := false)]
    ensures Coherent(n, l, disk[o[to].blockno := o[from].data], store, logged)
  {
    CachedCarries(o, n, logged);
    assert BufOk(o[to], |disk|) && BufOk(o[from], |disk|);
    forall i | 0 <= i < |n| ensures BufCoherent(n[i], l, disk[o[to].blockno := o[from].data], store, logged) {
      assert BufCoherent(o[i], l, disk, store, logged);
    }
  }

  lemma HeadTurnKeepsCoherent(o: seq<Buf>, n: seq<Buf>, l: Layout, disk: Image, store: Image, logged: set<int>, t: nat)
    requires Coherent(o, l, disk, store, logged) && TableOk(o, |disk|) && t < |o| == |n|
    requires o[t].locked && o[t].blockno == l.start && l.Fits(disk) && n[t].refcnt == o[t].refcnt - 1
    requires n == o[t := o[t].(refcnt := n[t].refcnt, locked := false, data := n[t].data)]
    ensures Coherent(n, l, disk[l.start := n[t].data], store, logged)
  {
    CachedCarries(o, n, logged);
    assert BufOk(o[t], |disk|);
    forall i | 0 <= i < |n| ensures BufCoherent(n[i], l, disk[l.start := n[t].data], store, logged) {
      assert BufCoherent(o[i], l, disk, store, logged);
    }
  }

  // A locked buffer of a pinned block has two references.
  lemma PinnedTwice(o: seq<Buf>, l: Layout, disk: Image, store: Image, logged: set<int>, blocks: nat, d: nat)
    requires Coherent(o, l, disk, store, logged) && TableOk(o, blocks) && d < |o| && o[d].locked
             && o[d].blockno in logged
    ensures o[d].refcnt >= 2
  {
    assert BufOk(o[d], blocks) && BufCoherent(o[d], l, disk, store, logged);
  }

  lemma InstallTurnKeepsCoherent(o: seq<Buf>, n: seq<Buf>, l: Layout, disk: Image, store: Image, logged: set<int>,
                                 lbuf: nat, dbuf: nat)
    requires Coherent(o, l, disk, store, logged) && TableOk(o, |disk|) && lbuf < |o| == |n| && dbuf < |o|
    requires lbuf != dbuf && o[lbuf].locked && o[dbuf].locked && o[dbuf].blockno in logged
    requires l.start <= o[lbuf].blockno < l.start + l.size && l.Home(disk, o[dbuf].blockno)
    requires o[lbuf].data == disk[o[lbuf].blockno]
    requires n[lbuf].refcnt == o[lbuf].refcnt - 1 && n[dbuf].refcnt == o[dbuf].refcnt - 2
    requires n == o[lbuf := o[lbuf].(refcnt := n[lbuf].refcnt, locked := false)]
                   [dbuf := o[dbuf].(refcnt := n[dbuf].refcnt, locked := false, data := store[o[dbuf].blockno])]
    ensures var b := o[dbuf].blockno;
            Coherent(n, l, disk[b := store[b]], store, logged - {b as int})
  {
    var b := o[dbuf].blockno;
    CachedCarries(o, n, logged);
    assert BufOk(o[lbuf], |disk|) && BufOk(o[dbuf], |disk|);
    forall i | 0 <= i < |n| ensures BufCoherent(n[i], l, disk[b := store[b]], store, logged - {b as int}) {
      assert BufCoherent(o[i], l, disk, store, logged);
    }
  }

  lemma RestOfLog(lh: seq<int>, k: nat)
    requires Distinct(lh) && k < |lh|
    ensures Elems(lh[k..]) - {lh[k]} == Elems(lh[k + 1..])
  {}

  lemma BootIsSteady(bufs: seq<Buf>, l: Layout, disk: Image, store: Image)
    requires Recoverable(disk, store, l)
    requires forall i :: 0 <= i < |bufs| ==> bufs[i].dev == 0
    ensures Steady(bufs, l, disk, store, Elems(HeadBlocks(disk[l.start])))
  {}
}
