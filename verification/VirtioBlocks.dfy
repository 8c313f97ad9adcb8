/**
 Blocks on the medium (kernel/virtio_disk.c:216-273): where a request's bytes go, and what a read answers.

 The driver names sectors of 512 bytes; its callers name blocks of 1024. Over every run of `VirtioRun`, a request for
 a block below 2^31 moves the bytes of that block and no others, and what a read answers is what the last transfer that
 wrote its block put there.
 */
module VirtioBlocks {
  import opened Virtio
  import opened VirtioRun

  // Event j asks for block blk.
  predicate Names(script: seq<Event>, j: nat, blk: nat) {
    j < |script| && script[j].Submit? && script[j].blockno == blk
  }

  // Block numbers as a disk of 2^32 sectors has them.
  ghost predicate InRange(script: seq<Event>) {
    forall j :: 0 <= j < |script| && script[j].Submit? ==> script[j].blockno < 0x8000_0000
  }

  // The medium and the history change together, with a transfer.
  lemma StepMedium(m: Ideal, i: nat, e: Event)
    ensures var m' := Step(m, i, e).0;
            || (m'.store == m.store && m'.history == m.history)
            || (e.Perform? && InMode(m, e.b, Held) && e.b in m.data && m' == Carry(m, e.b))
  {
    hide OnMedium, Put, Sector, Carry;
  }

  lemma AskedSector(script: seq<Event>, outs: seq<Out>, j: nat, b: nat, write: bool, sector: nat)
    requires Asks(script, outs, j, b, write, sector) && InRange(script)
    ensures j < |script| && script[j].Submit? && script[j].b == b && script[j].write == write
    ensures sector == 2 * script[j].blockno
  {
    SectorIs(script[j].blockno);
  }

  // What a request in flight is for.
  lemma RequestIs(data: map<nat, Bytes>, store: Medium, script: seq<Event>, b: nat)
    requires InRange(script) && b in After(Start(data, store), script).reqs
    ensures var q := After(Start(data, store), script).reqs[b];
            && q.id < |script| && script[q.id].Submit? && script[q.id].b == b && script[q.id].write == q.write
            && q.sector == 2 * script[q.id].blockno
  {
    hide InRange, QueuesOk, HistoryOk, AnswersOk, Accounted, Asks, Made, Unmade, After, Outs;
    var outs, m := Outs(Start(data, store), script), After(Start(data, store), script);
    EveryRunGood(data, store, script);
    assert ReqOk(script, outs, m, b);
    AskedSector(script, outs, m.reqs[b].id, b, m.reqs[b].write, m.reqs[b].sector);
  }

  lemma TransferIs(data: map<nat, Bytes>, store: Medium, script: seq<Event>, k: nat)
    requires InRange(script) && k < |After(Start(data, store), script).history|
    ensures var (j, t) := After(Start(data, store), script).history[k];
            && j < |script| && script[j].Submit? && script[j].b == t.buf && script[j].write == t.write
            && t.sector == 2 * script[j].blockno
  {
    hide InRange, QueuesOk, ReqOk, AnswersOk, Accounted, Asks, After, Outs;
    var outs, m := Outs(Start(data, store), script), After(Start(data, store), script);
    EveryRunGood(data, store, script);
    var (j, t) := m.history[k];
    AskedSector(script, outs, j, t.buf, t.write, t.sector);
  }

  // In every run, the transfer for a write of block blk changes bytes 1024 blk to 1024 (blk + 1) of the medium, to
  // those of the buffer; for a read, the buffer gets these bytes and the medium stays.
  lemma TransferOfBlock(data: map<nat, Bytes>, store: Medium, script: seq<Event>, b: nat, blk: nat, a: nat)
    requires InRange(script)
    requires var m := After(Start(data, store), script);
             InMode(m, b, Held) && b in m.data && Names(script, m.reqs[b].id, blk)
    ensures var m := After(Start(data, store), script);
            var m' := Step(m, |script|, Perform(b)).0;
            && m'.data.Keys == m.data.Keys && (forall c :: c in m.data && c != b ==> m'.data[c] == m.data[c])
            && if script[m.reqs[b].id].write then
                 && m'.data[b] == m.data[b]
                 && ByteAt(m'.store, a)
                    == if 1024 * blk <= a < 1024 * (blk + 1) then m.data[b][a - 1024 * blk] else ByteAt(m.store, a)
               else
                 m'.store == m.store && (a < 1024 ==> m'.data[b][a] == ByteAt(m.store, 1024 * blk + a))
  {
    var m := After(Start(data, store), script);
    hide InRange, After, Put;
    RequestIs(data, store, script, b);
    PutBytes(m.store, m.reqs[b].sector * SECTOR, m.data[b], a);
  }

  // Entry k of the history is a write of block blk.
  predicate Writes(script: seq<Event>, history: seq<Entry>, k: nat, blk: nat) {
    k < |history| && history[k].1.write && Names(script, history[k].0, blk)
  }

  // Putting a block's bytes makes them its contents, and leaves every other block alone.
  lemma PutBlock(store: Medium, blk: nat, bytes: Bytes, c: nat)
    ensures OnMedium(Put(store, 1024 * blk, bytes), 1024 * c, 1024)
         == if c == blk then bytes else OnMedium(store, 1024 * c, 1024)
  {
    hide Put;
    var was, now := OnMedium(store, 1024 * c, 1024), OnMedium(Put(store, 1024 * blk, bytes), 1024 * c, 1024);
    forall x | 0 <= x < 1024 ensures now[x] == if c == blk then bytes[x] else was[x] {
      PutBytes(store, 1024 * blk, bytes, 1024 * c + x);
    }
  }

  lemma NamesMore(script: seq<Event>, e: Event, j: nat, blk: nat)
    requires j < |script|
    ensures Names(script + [e], j, blk) <==> Names(script, j, blk)
  {}

  // One more event: the transfers before it are for the same blocks.
  lemma WritesMore(data: map<nat, Bytes>, store: Medium, script: seq<Event>, e: Event, history: seq<Entry>, blk: nat)
    requires InRange(script) && After(Start(data, store), script).history <= history
    ensures var h := After(Start(data, store), script).history;
            forall k: nat :: k < |h| ==> (Writes(script + [e], history, k, blk) <==> Writes(script, h, k, blk))
  {
    hide After, InRange, Names;
    var h := After(Start(data, store), script).history;
    forall k: nat | k < |h| ensures Writes(script + [e], history, k, blk) <==> Writes(script, h, k, blk) {
      TransferIs(data, store, script, k);
      NamesMore(script, e, h[k].0, blk);
    }
  }

  // In every run a block of the medium has what the last write of it put there, or what it had at first.
  lemma {:induction false} BlockIsLastWritten(data: map<nat, Bytes>, store: Medium, script: seq<Event>, blk: nat)
    returns (w: int)
    requires InRange(script) && blk < 0x8000_0000
    ensures var m := After(Start(data, store), script);
            && -1 <= w < |m.history| && (w >= 0 ==> Writes(script, m.history, w, blk))
            && (forall k: nat :: w < k < |m.history| ==> !Writes(script, m.history, k, blk))
            && OnMedium(m.store, 1024 * blk, 1024)
               == if w < 0 then OnMedium(store, 1024 * blk, 1024) else m.history[w].1.bytes
  {
    hide Step, Carry, OnMedium, InRange, Writes;
    if script == [] { return -1; }
    var n := |script| - 1;
    var s0, e := script[..n], script[n];
    assert s0 + [e] == script;
    Shorter(script, n);
    var m0, m := After(Start(data, store), s0), After(Start(data, store), script);
    w := BlockIsLastWritten(data, store, s0, blk);
    StepMedium(m0, n, e);
    if m.history == m0.history && m.store == m0.store {
      WritesMore(data, store, s0, e, m.history, blk);
    } else {
      CarriedBlock(data, store, s0, e, blk);
      WritesMore(data, store, s0, e, m.history, blk);
      if Writes(script, m.history, |m0.history|, blk) { w := |m0.history|; }
    }
  }

  lemma Shorter(script: seq<Event>, n: nat)
    requires InRange(script) && n <= |script|
    ensures InRange(script[..n])
  {}

  // A transfer is of the block that its request named.
  lemma CarriedBlock(data: map<nat, Bytes>, store: Medium, script: seq<Event>, e: Event, blk: nat)
    requires InRange(script) && e.Perform?
    requires var m := After(Start(data, store), script); InMode(m, e.b, Held) && e.b in m.data
    ensures var m := After(Start(data, store), script);
            var m' := Carry(m, e.b); var j, k := m.reqs[e.b].id, |m.history|;
            && j < |script| && script[j].Submit?
            && |m'.history| == k + 1 && m'.history[..k] == m.history && m'.history[k].0 == j
            && OnMedium(m'.store, 1024 * blk, 1024)
               == (if Writes(script + [e], m'.history, k, blk) then m'.history[k].1.bytes
                   else OnMedium(m.store, 1024 * blk, 1024))
            && (!m'.history[k].1.write ==>
                  m'.history[k].1.bytes == OnMedium(m.store, 1024 * script[j].blockno, 1024))
  {
    var m := After(Start(data, store), script);
    hide InRange, After, Put, OnMedium;
    RequestIs(data, store, script, e.b);
    NamesMore(script, e, m.reqs[e.b].id, blk);
    PutBlock(m.store, script[m.reqs[e.b].id].blockno, m.data[e.b], blk);
  }

  // In every run a transfer for a read of block blk brings what the last write of blk before it put there.
  lemma {:induction false} ReadsBringLastWritten(data: map<nat, Bytes>, store: Medium, script: seq<Event>, k: nat,
                                                 blk: nat)
    returns (w: int)
    requires InRange(script) && blk < 0x8000_0000
    requires var m := After(Start(data, store), script);
             k < |m.history| && !m.history[k].1.write && Names(script, m.history[k].0, blk)
    ensures var m := After(Start(data, store), script);
            && -1 <= w < k && (w >= 0 ==> Writes(script, m.history, w, blk))
            && (forall l: nat :: w < l < k ==> !Writes(script, m.history, l, blk))
            && m.history[k].1.bytes == if w < 0 then OnMedium(store, 1024 * blk, 1024) else m.history[w].1.bytes
  {
    hide Step, Carry, OnMedium, InRange, Writes;
    var n := |script| - 1;
    var s0, e := script[..n], script[n];
    assert s0 + [e] == script;
    Shorter(script, n);
    var m0, m := After(Start(data, store), s0), After(Start(data, store), script);
    StepMedium(m0, n, e);
    if m.history != m0.history { CarriedBlock(data, store, s0, e, blk); }
    WritesMore(data, store, s0, e, m.history, blk);
    if k < |m0.history| {
      TransferIs(data, store, s0, k);
      NamesMore(s0, e, m0.history[k].0, blk);
      w := ReadsBringLastWritten(data, store, s0, k, blk);
    } else {
      NamesMore(s0, e, m0.reqs[e.b].id, blk);
      w := BlockIsLastWritten(data, store, s0, blk);
    }
  }

  // So the answer to a read of block blk is what the last transfer that wrote blk before it put there, or what the
  // medium had there at first.
  lemma ReadsAnswerLastWritten(data: map<nat, Bytes>, store: Medium, script: seq<Event>, i: nat, blk: nat)
    returns (k: nat, w: int)
    requires InRange(script) && blk < 0x8000_0000
    requires var outs := Outs(Start(data, store), script);
             i < |outs| && outs[i].Answered? && Names(script, outs[i].id, blk) && !script[outs[i].id].write
    ensures var out, h := Outs(Start(data, store), script)[i], After(Start(data, store), script).history;
            && -1 <= w < k < |h| && h[k].0 == out.id && (w >= 0 ==> h[w].1.write && Names(script, h[w].0, blk))
            && (forall l: nat :: w < l < k ==> !(h[l].1.write && Names(script, h[l].0, blk)))
            && out.bytes == if w < 0 then OnMedium(store, 1024 * blk, 1024) else h[w].1.bytes
  {
    hide InRange, QueuesOk, ReqOk, HistoryOk, Accounted, After, Outs, OnMedium;
    var outs, m := Outs(Start(data, store), script), After(Start(data, store), script);
    EveryRunGood(data, store, script);
    assert AnswerOk(script, outs, m.history, i);
    var write, sector :| Asks(script, outs, outs[i].id, script[i].b, write, sector)
                         && Made(m.history, outs[i].id, Transfer(script[i].b, write, sector, outs[i].bytes));
    k :| 0 <= k < |m.history| && m.history[k] == (outs[i].id, Transfer(script[i].b, write, sector, outs[i].bytes));
    w := ReadsBringLastWritten(data, store, script, k, blk);
    forall l: nat | w < l < k ensures !(m.history[l].1.write && Names(script, m.history[l].0, blk)) {
      assert !Writes(script, m.history, l, blk);
    }
  }
}
