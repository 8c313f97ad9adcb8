/**
 The buffer cache (kernel/bio.c): NBUF buffers on a doubly linked ring ordered by recency of use.
 Links are indices into the buffer table; index NBUF is the list head.
 */
module Bio {
  import opened Wrappers
  import opened Disk

  const NBUF: nat := 30
  const ROOTDEV: nat := 1

  // A buffer that has never been assigned has dev 0. `locked` is the buffer's sleeplock.
  datatype Buf = Buf(valid: bool, dev: nat, blockno: nat, refcnt: nat, locked: bool, data: Block)

  predicate Caches(b: Buf, blockno: nat) {
    b.dev == ROOTDEV && b.blockno == blockno
  }

  predicate NotCached(bufs: seq<Buf>, blockno: nat) {
    forall i :: 0 <= i < |bufs| ==> !Caches(bufs[i], blockno)
  }

  predicate BufOk(b: Buf, blocks: nat) {
    && (b.dev == 0 || b.dev == ROOTDEV)
    && (b.dev == 0 ==> !b.valid && b.refcnt == 0)
    && (b.locked ==> b.refcnt > 0)
    && (b.dev == ROOTDEV ==> b.blockno < blocks)
  }

  // At most one buffer holds any block.
  ghost predicate TableOk(bufs: seq<Buf>, blocks: nat) {
    && |bufs| == NBUF
    && (forall i :: 0 <= i < NBUF ==> BufOk(bufs[i], blocks))
    && (forall i, j :: 0 <= i < j < NBUF && bufs[i].dev == ROOTDEV && bufs[j].dev == ROOTDEV
          ==> bufs[i].blockno != bufs[j].blockno)
  }

  // ----- The ring -----

  function Node(order: seq<nat>, head: nat, i: int): (r: nat) {
    if 0 <= i < |order| then order[i] else head
  }

  ghost predicate Ring(next: seq<nat>, prev: seq<nat>, order: seq<nat>, head: nat) {
    && |next| == |prev| == head + 1
    && (forall i :: 0 <= i < |order| ==> order[i] < head)
    && (forall i, j :: 0 <= i < j < |order| ==> order[i] != order[j])
    && (forall i :: 0 <= i <= |order| ==> next[Node(order, head, i - 1)] == Node(order, head, i))
    && (forall i :: 0 <= i <= |order| ==> prev[Node(order, head, i)] == Node(order, head, i - 1))
  }

  ghost predicate Covers(order: seq<nat>, n: nat) {
    forall i: nat :: i < n ==> i in order
  }

  function Without(order: seq<nat>, k: nat): (r: seq<nat>)
    requires k < |order|
  {
    order[..k] + order[k + 1..]
  }

  // brelse: b->next->prev = b->prev; b->prev->next = b->next.
  lemma UnlinkKeepsRing(next: seq<nat>, prev: seq<nat>, order: seq<nat>, head: nat, k: nat)
    requires Ring(next, prev, order, head) && k < |order|
    ensures next[order[k]] == Node(order, head, k + 1) <= head
    ensures prev[order[k]] == Node(order, head, k - 1) <= head
    ensures var x := order[k];
            Ring(next[prev[x] := next[x]], prev[next[x] := prev[x]], Without(order, k), head)
    ensures order[k] !in Without(order, k)
  {
    var x, o := order[k], Without(order, k);
    assert next[x] == Node(order, head, k + 1) by { assert Node(order, head, k + 1 - 1) == x; }
    assert prev[x] == Node(order, head, k - 1) by { assert Node(order, head, k) == x; }
    var n', p' := next[prev[x] := next[x]], prev[next[x] := prev[x]];
    forall i | 0 <= i <= |o|
      ensures n'[Node(o, head, i - 1)] == Node(o, head, i) && p'[Node(o, head, i)] == Node(o, head, i - 1)
    {
      var j := if i < k then i else i + 1;
      assert Node(o, head, i) == Node(order, head, j);
      assert next[Node(order, head, j - 1)] == Node(order, head, j);
      assert prev[Node(order, head, j)] == Node(order, head, j - 1);
      if i != k {
        assert Node(o, head, i - 1) == Node(order, head, j - 1);
      } else {
        assert Node(o, head, i - 1) == Node(order, head, k - 1);
      }
    }
  }

  // b->next = head.next; b->prev = &head; head.next->prev = b; head.next = b.
  lemma PushKeepsRing(next: seq<nat>, prev: seq<nat>, order: seq<nat>, head: nat, b: nat)
    requires Ring(next, prev, order, head) && b < head && b !in order
    ensures next[head] == Node(order, head, 0) <= head
    ensures Ring(next[b := next[head]][head := b], prev[b := head][next[head] := b], [b] + order, head)
  {
    assert next[Node(order, head, 0 - 1)] == Node(order, head, 0);
    var o := [b] + order;
    var n', p' := next[b := next[head]][head := b], prev[b := head][next[head] := b];
    forall i | 0 <= i <= |o|
      ensures n'[Node(o, head, i - 1)] == Node(o, head, i) && p'[Node(o, head, i)] == Node(o, head, i - 1)
    {
      if i > 0 {
        assert Node(o, head, i) == Node(order, head, i - 1);
        assert next[Node(order, head, i - 2)] == Node(order, head, i - 1);
        assert prev[Node(order, head, i - 1)] == Node(order, head, i - 2);
        if i > 1 {
          assert Node(o, head, i - 1) == order[i - 2];
          assert order[i - 2] in order;
        }
      }
    }
  }

  // Where a buffer stands on the ring.
  ghost function Position(order: seq<nat>, b: nat): (k: nat)
    requires b in order
    ensures k < |order| && order[k] == b
  {
    var k :| 0 <= k < |order| && order[k] == b;
    k
  }

  lemma MoveToFrontCovers(order: seq<nat>, n: nat, k: nat)
    requires Covers(order, n) && k < |order|
    ensures Covers([order[k]] + Without(order, k), n)
  {
    var o := [order[k]] + Without(order, k);
    forall i: nat | i < n ensures i in o {
      var j := Position(order, i);
      if j < k { assert o[j + 1] == i; }
      else if j == k { assert o[0] == i; }
      else { assert o[j] == i; }
    }
  }

  class Bcache {
    var bufs: seq<Buf>
    var next: seq<nat>
    var prev: seq<nat>
    var disk: Image
    ghost var order: seq<nat>       // from most to least recently used
    const boot: Image               // the disk when this cache was created
    var trace: seq<Write>           // every block write since then, in order

    ghost predicate ValidRing()
      reads this
    {
      Ring(next, prev, order, NBUF) && |order| == NBUF && Covers(order, NBUF)
    }

    ghost predicate Valid()
      reads this
    {
      && ValidRing()
      && |bufs| == NBUF && TableOk(bufs, |disk|)
      && |disk| == |boot| && disk == Apply(boot, trace)
    }

    // binit
    constructor (d: Image)
      ensures Valid() && disk == boot == d && trace == []
      ensures forall i :: 0 <= i < NBUF ==> bufs[i].dev == 0
    {
      disk, boot, trace := d, d, [];
      bufs := seq(NBUF, _ => Buf(false, 0, 0, 0, false, seq(WORDS, _ => 0)));
      next := seq(NBUF + 1, _ => NBUF);
      prev := seq(NBUF + 1, _ => NBUF);
      order := [];
      new;
      var b := 0;
      while b < NBUF
        invariant 0 <= b <= NBUF
        invariant Ring(next, prev, order, NBUF)
        invariant |order| == b && Covers(order, b) && forall i :: 0 <= i < b ==> order[i] < b
        invariant bufs == seq(NBUF, _ => Buf(false, 0, 0, 0, false, seq(WORDS, _ => 0)))
        invariant disk == d && trace == []
      {
        PushKeepsRing(next, prev, order, NBUF, b);
        ghost var old_order := order;
        next, prev := next[b := next[NBUF]], prev[b := NBUF];
        prev := prev[next[NBUF] := b];
        next := next[NBUF := b];
        order := [b] + order;
        forall i: nat | i < b + 1 ensures i in order {
          if i < b { assert i in old_order; }
        }
        b := b + 1;
      }
    }

    // The block is cached, or some buffer is unused; otherwise bget panics ("no buffers"). A cached buffer that
    // is locked is referenced at once, and the caller waits for its lock in acquiresleep (see Acquire).
    method Bget(blockno: nat) returns (r: Option<nat>, waits: bool)
      requires Valid() && blockno < |disk|
      modifies this`bufs
      ensures Valid() && (waits ==> r.Some?)
      ensures r.Some? ==>
                r.value < NBUF && (waits <==> Caches(old(bufs)[r.value], blockno) && old(bufs)[r.value].locked)
      ensures r.None? <==> NotCached(old(bufs), blockno) && forall i :: 0 <= i < NBUF ==> old(bufs)[i].refcnt > 0
      ensures r.None? ==> bufs == old(bufs)
      ensures r.Some? && Caches(old(bufs)[r.value], blockno) ==>
                bufs == old(bufs)[r.value := old(bufs)[r.value].(refcnt := old(bufs)[r.value].refcnt + 1,
                                                                 locked := true)]
      ensures r.Some? && !Caches(old(bufs)[r.value], blockno) ==>
                && NotCached(old(bufs), blockno)
                && old(bufs)[r.value].refcnt == 0
                && (exists k :: LeastRecentUnused(old(bufs), order, k) && order[k] == r.value)
                && bufs == old(bufs)[r.value := Buf(false, ROOTDEV, blockno, 1, true, old(bufs)[r.value].data)]
    {
      var b := next[NBUF];
      ghost var k := 0;
      assert next[Node(order, NBUF, 0 - 1)] == Node(order, NBUF, 0);
      while b != NBUF
        invariant 0 <= k <= NBUF && b == Node(order, NBUF, k)
        invariant forall j :: 0 <= j < k ==> !Caches(bufs[order[j]], blockno)
        decreases NBUF - k
      {
        if bufs[b].dev == ROOTDEV && bufs[b].blockno == blockno {
          waits := bufs[b].locked;
          bufs := bufs[b := bufs[b].(refcnt := bufs[b].refcnt + 1, locked := true)];
          return Some(b), waits;
        }
        assert next[Node(order, NBUF, k + 1 - 1)] == Node(order, NBUF, k + 1);
        b := next[b];
        k := k + 1;
      }
      forall i | 0 <= i < NBUF ensures !Caches(bufs[i], blockno) {
        var j := Position(order, i);
      }
      b := prev[NBUF];
      k := NBUF - 1;
      assert prev[Node(order, NBUF, NBUF)] == Node(order, NBUF, NBUF - 1);
      while b != NBUF
        invariant -1 <= k < NBUF && b == Node(order, NBUF, k)
        invariant forall j :: k < j < NBUF ==> bufs[order[j]].refcnt > 0
        decreases k
      {
        if bufs[b].refcnt == 0 {
          assert LeastRecentUnused(bufs, order, k);
          bufs := bufs[b := Buf(false, ROOTDEV, blockno, 1, true, bufs[b].data)];
          return Some(b), false;
        }
        assert prev[Node(order, NBUF, k)] == Node(order, NBUF, k - 1);
        b := prev[b];
        k := k - 1;
      }
      forall i | 0 <= i < NBUF ensures bufs[i].refcnt > 0 {
        var j := Position(order, i);
      }
      return None, false;
    }

    // bget, then a disk read if the buffer does not hold the block yet; a caller that waits comes to it later.
    method Bread(blockno: nat) returns (r: Option<nat>, waits: bool)
      requires Valid() && blockno < |disk|
      modifies this`bufs
      ensures Valid() && (waits ==> r.Some? && r.value < NBUF)
      ensures r.None? <==> NotCached(old(bufs), blockno) && forall i :: 0 <= i < NBUF ==> old(bufs)[i].refcnt > 0
      ensures r.None? ==> bufs == old(bufs)
      ensures r.Some? && !waits ==> BreadDid(old(bufs), bufs, disk, blockno, r.value)
      ensures waits ==> Caches(old(bufs)[r.value], blockno) && old(bufs)[r.value].locked
      ensures waits ==> bufs == old(bufs)[r.value := old(bufs)[r.value].(refcnt := old(bufs)[r.value].refcnt + 1)]
      ensures forall i :: 0 <= i < NBUF && Caches(old(bufs)[i], blockno) ==>
                r == Some(i) && (waits <==> old(bufs)[i].locked)
    {
      r, waits := Bget(blockno);
      if r.Some? && !waits {
        var b := r.value;
        if !bufs[b].valid {
          bufs := bufs[b := bufs[b].(data := disk[blockno], valid := true)];
        }
      }
    }

    // The end of acquiresleep in the bget of a caller that waited, and the rest of its bread.
    method Acquire(b: nat)
      requires Valid() && b < NBUF && bufs[b].dev == ROOTDEV && bufs[b].refcnt > 0 && !bufs[b].locked
      modifies this`bufs
      ensures Valid() && bufs[b].blockno < |disk|
      ensures var o := old(bufs)[b];
              var data := if o.valid then o.data else disk[o.blockno];
              bufs == old(bufs)[b := Buf(true, ROOTDEV, o.blockno, o.refcnt, true, data)]
    {
      assert BufOk(bufs[b], |disk|);
      bufs := bufs[b := bufs[b].(locked := true)];
      if !bufs[b].valid {
        bufs := bufs[b := bufs[b].(data := disk[bufs[b].blockno], valid := true)];
      }
    }

    // Writes the buffer's block to disk; the caller must hold its lock.
    method Bwrite(b: nat)
      requires Valid() && b < NBUF && bufs[b].locked
      modifies this`disk, this`trace
      ensures Valid()
      ensures disk == old(disk)[bufs[b].blockno := bufs[b].data]
      ensures trace == old(trace) + [Write(bufs[b].blockno, bufs[b].data)]
    {
      assert bufs[b].blockno < |disk| by { assert BufOk(bufs[b], |disk|); }
      WriteThrough(bufs[b].blockno, bufs[b].data);
    }

    method WriteThrough(blockno: nat, data: Block)
      requires blockno < |disk| == |boot| && disk == Apply(boot, trace)
      modifies this`disk, this`trace
      ensures |disk| == |boot| && disk == Apply(boot, trace)
      ensures disk == old(disk)[blockno := data]
      ensures trace == old(trace) + [Write(blockno, data)]
    {
      ApplySnoc(boot, trace, Write(blockno, data));
      disk := disk[blockno := data];
      trace := trace + [Write(blockno, data)];
    }

    // Drops the lock and one reference; an unused buffer becomes the most recently used.
    method Brelse(b: nat)
      requires Valid() && b < NBUF && bufs[b].locked
      modifies this`bufs, this`next, this`prev, this`order
      ensures Valid()
      ensures bufs == old(bufs)[b := old(bufs)[b].(refcnt := old(bufs)[b].refcnt - 1, locked := false)]
      ensures bufs[b].refcnt > 0 ==> order == old(order)
      ensures bufs[b].refcnt == 0 ==>
                exists k :: 0 <= k < NBUF && old(order)[k] == b && order == [b] + Without(old(order), k)
    {
      bufs := bufs[b := bufs[b].(refcnt := bufs[b].refcnt - 1, locked := false)];
      if bufs[b].refcnt == 0 {
        MoveToFront(b);
      }
    }

    method MoveToFront(b: nat)
      requires ValidRing() && b < NBUF
      modifies this`next, this`prev, this`order
      ensures ValidRing()
      ensures exists k :: 0 <= k < NBUF && old(order)[k] == b && order == [b] + Without(old(order), k)
    {
      ghost var k := Position(order, b);
      UnlinkKeepsRing(next, prev, order, NBUF, k);
      MoveToFrontCovers(order, NBUF, k);
      next, prev := next[prev[b] := next[b]], prev[next[b] := prev[b]];
      order := Without(order, k);
      PushKeepsRing(next, prev, order, NBUF, b);
      next, prev := next[b := next[NBUF]], prev[b := NBUF];
      prev := prev[next[NBUF] := b];
      next := next[NBUF := b];
      order := [b] + order;
    }

    method Bpin(b: nat)
      requires Valid() && b < NBUF && bufs[b].dev == ROOTDEV
      modifies this`bufs
      ensures Valid()
      ensures bufs == old(bufs)[b := old(bufs)[b].(refcnt := old(bufs)[b].refcnt + 1)]
    {
      bufs := bufs[b := bufs[b].(refcnt := bufs[b].refcnt + 1)];
    }

    // The reference dropped is a pin: a locked buffer keeps the one of its lock's holder.
    method Bunpin(b: nat)
      requires Valid() && b < NBUF && bufs[b].refcnt >= if bufs[b].locked then 2 else 1
      modifies this`bufs
      ensures Valid()
      ensures bufs == old(bufs)[b := old(bufs)[b].(refcnt := old(bufs)[b].refcnt - 1)]
    {
      bufs := bufs[b := bufs[b].(refcnt := bufs[b].refcnt - 1)];
    }

    // The holder of a locked buffer changes its contents.
    method Fill(b: nat, data: Block)
      requires Valid() && b < NBUF && bufs[b].locked
      modifies this`bufs
      ensures Valid()
      ensures bufs == old(bufs)[b := old(bufs)[b].(data := data)]
    {
      bufs := bufs[b := bufs[b].(data := data)];
    }
  }

  // order[k] is unused and everything less recently used than it is in use.
  ghost predicate LeastRecentUnused(bufs: seq<Buf>, order: seq<nat>, k: int) {
    && 0 <= k < |order|
    && (forall i :: 0 <= i < |order| ==> order[i] < |bufs|)
    && bufs[order[k]].refcnt == 0
    && forall j :: k < j < |order| ==> bufs[order[j]].refcnt > 0
  }

  // What bread does to the table: one buffer b changes, and ends up locked, referenced once more
  // and holding the block. A buffer that had to be recycled was unused.
  ghost predicate BreadDid(o: seq<Buf>, n: seq<Buf>, disk: Image, blockno: nat, b: nat) {
    && |o| == |n| && b < |o| && blockno < |disk|
    && n == o[b := n[b]]
    && n[b].valid && n[b].locked && Caches(n[b], blockno)
    && (Caches(o[b], blockno) ==>
          n[b].refcnt == o[b].refcnt + 1 && n[b].data == if o[b].valid then o[b].data else disk[blockno])
    && (!Caches(o[b], blockno) ==>
          NotCached(o, blockno) && o[b].refcnt == 0 && n[b].refcnt == 1 && n[b].data == disk[blockno])
  }
}
