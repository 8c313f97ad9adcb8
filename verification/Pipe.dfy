/**
 Pipes (kernel/pipe.c:58-130): a ring of 512 bytes with 32-bit counters. Every method is one stretch under
 pi->lock, from acquire() or the end of sleep() to release() or the next sleep(); any interleaving of readers
 and writers is a sequence of such stretches.
 */
module Pipe {

  const PIPESIZE: nat := 512

  type Bytes = seq<int>

  // uint arithmetic
  function Low32(n: nat): (r: nat) { n % 0x1_0000_0000 }

  // An answer from outside at step i; no answer is no.
  predicate Says(answers: seq<bool>, i: nat) { i < |answers| && answers[i] }

  // How a stretch ends: the call returns a count, returns -1, or sleeps.
  datatype End = Returned | Failed | Asleep

  lemma SlotOfCounter(n: nat)
    ensures Low32(n) % PIPESIZE == n % PIPESIZE && Low32(Low32(n) + 1) == Low32(n + 1)
  {}

  // The 32-bit comparisons say what the unbounded counters do.
  lemma CountersCompare(r: nat, w: nat)
    requires r <= w <= r + PIPESIZE
    ensures Low32(w) == Low32(Low32(r) + PIPESIZE) <==> w == r + PIPESIZE
    ensures Low32(r) == Low32(w) <==> r == w
  {}

  // Bytes number r to w of put are in the ring, byte k in slot k % 512.
  ghost predicate Holds(slots: seq<int>, put: Bytes, r: nat) {
    |slots| == PIPESIZE && forall k :: r <= k < |put| ==> slots[Slot(k)] == put[k]
  }

  function Slot(k: nat): (s: nat)
    ensures s < PIPESIZE
  {
    k % PIPESIZE
  }

  lemma SlotsDiffer(j: nat, k: nat)
    requires j < k < j + PIPESIZE
    ensures Slot(j) != Slot(k)
  {}

  lemma HoldsMore(slots: seq<int>, put: Bytes, r: nat, c: int)
    requires Holds(slots, put, r) && r <= |put| < r + PIPESIZE
    ensures Holds(slots[Slot(|put|) := c], put + [c], r)
  {
    forall k | r <= k < |put| ensures Slot(k) != Slot(|put|) { SlotsDiffer(k, |put|); }
  }

  // ----- A plain bounded queue -----

  // pipewrite's loop from byte i on: the queue, the byte it stops at, and how. At each byte a closed or killed
  // end comes first, then a full queue, then a bad source address.
  function Fill(queue: Bytes, src: Bytes, i: nat, open: bool, killed: seq<bool>,
                fault: seq<bool>): (r: (Bytes, nat, End))
    requires i <= |src|
    decreases |src| - i
  {
    if i == |src| then (queue, i, Returned)
    else if !open || Says(killed, i) then (queue, i, Failed)
    else if |queue| >= PIPESIZE then (queue, i, Asleep)
    else if Says(fault, i) then (queue, i, Returned)
    else Fill(queue + [src[i]], src, i + 1, open, killed, fault)
  }

  // piperead's loop from byte i on: how many bytes are counted, and how many leave a queue of len.
  function Pour(len: nat, n: nat, i: nat, fault: seq<bool>): (r: (nat, nat))
    requires i <= n && i <= len
    ensures i <= r.0 <= r.1 <= len && r.1 <= n
    decreases n - i
  {
    if i == n || i == len then (i, i)
    else if Says(fault, i) then (i, i + 1)
    else Pour(len, n, i + 1, fault)
  }

  class Channel {
    const data: array<int>
    var nread: nat
    var nwrite: nat
    var readopen: bool
    var writeopen: bool
    var readers: set<nat>           // the processes asleep on &nread
    var writers: set<nat>           // the processes asleep on &nwrite
    ghost var put: Bytes            // everything ever written
    ghost var taken: Bytes          // everything ever read

    ghost predicate Valid()
      reads this, data
    {
      && data.Length == PIPESIZE && nread == Low32(|taken|) && nwrite == Low32(|put|)
      && taken <= put && |put| <= |taken| + PIPESIZE && Holds(data[..], put, |taken|)
      && (writers != {} ==> |put| == |taken| + PIPESIZE && readopen)
    }

    // What is in the ring, read off the real fields.
    ghost function Contents(): (r: Bytes)
      requires data.Length == PIPESIZE
      reads this, data
    {
      var slots, from := data[..], nread;
      seq(Low32(nwrite + 0x1_0000_0000 - Low32(nread)), k requires 0 <= k => slots[(from + k) % PIPESIZE])
    }

    // A reader sleeps although there is something to read, or nothing will ever come.
    ghost predicate Stranded()
      reads this
    {
      readers != {} && (put != taken || !writeopen)
    }

    // Bytes taken, followed by the bytes in the ring, are the bytes put, whatever the counters have wrapped.
    lemma Conserved()
      requires Valid()
      ensures put == taken + Contents() && |Contents()| <= PIPESIZE
    {
      var n, r := |put| - |taken|, |taken|;
      Difference(r, |put|);
      var c := Contents();
      assert |c| == n;
      forall k | 0 <= k < n ensures c[k] == put[r + k] {
        SlotAfter(r, k);
        assert data[..][Slot(r + k)] == put[r + k];
      }
      assert put == put[..r] + put[r..];
    }

    constructor ()
      ensures Valid() && put == [] && taken == [] && readers == {} && writers == {} && readopen && writeopen
              && fresh(data)
    {
      data := new int[PIPESIZE](_ => 0);
      nread, nwrite, readopen, writeopen, readers, writers, put, taken := 0, 0, true, true, {}, {}, [], [];
    }

    // pipewrite from byte i0 on. killed and fault give the answers of killed() and of a failing copyin(), byte by byte.
    method Write(pid: nat, src: Bytes, i0: nat, killed: seq<bool>, fault: seq<bool>) returns (i: nat, end: End)
      requires Valid() && i0 <= |src|
      modifies this`nwrite, this`readers, this`writers, this`put, data
      ensures Valid() && i0 <= i <= |src| && put == old(put) + src[i0..i]
      ensures (Contents(), i, end) == Fill(old(Contents()), src, i0, readopen, killed, fault)
      ensures (i > i0 ==> readopen) && forall k: nat :: i0 <= k < i ==> !Says(killed, k) && !Says(fault, k)
      // At byte i, in this order: nothing left, a closed or killed end, a full ring, a bad source.
      ensures i == |src| ==> end.Returned?
      ensures i < |src| ==>
                if !readopen || Says(killed, i) then end.Failed?
                else if |put| == |taken| + 512 then end.Asleep?
                else end.Returned? && Says(fault, i)
      ensures end.Asleep? ==> writers == old(writers) + {pid} && readers == {} && |put| == |taken| + PIPESIZE
      ensures end.Failed? ==>
                writers == old(writers) && readers == old(readers) && i < |src| && (!readopen || Says(killed, i))
      ensures end.Returned? ==> writers == old(writers) && readers == {} && (i == |src| || Says(fault, i))
      ensures old(!Stranded()) ==> (Stranded() <==> end.Failed? && i > i0 && old(readers) != {})
    {
      hide Low32, Holds, Contents, Fill, Says;
      Conserved();
      assert put[|taken|..] == Contents();
      i, end := CopyIn(src, i0, killed, fault);
      match end {
        case Failed =>
        case Asleep =>
          readers := {};
          writers := writers + {pid};
        case Returned =>
          readers := {};
      }
      Conserved();
      assert put[|taken|..] == Contents();
    }

    // The loop of pipewrite, up to a release() or sleep().
    method CopyIn(src: Bytes, i0: nat, killed: seq<bool>, fault: seq<bool>) returns (i: nat, end: End)
      requires data.Length == PIPESIZE && nread == Low32(|taken|) && nwrite == Low32(|put|)
      requires taken <= put && |put| <= |taken| + PIPESIZE && Holds(data[..], put, |taken|) && i0 <= |src|
      modifies this`nwrite, this`put, data
      ensures nwrite == Low32(|put|) && |put| <= |taken| + PIPESIZE && Holds(data[..], put, |taken|)
      ensures i0 <= i <= |src| && put == old(put) + src[i0..i]
      ensures (put[|taken|..], i, end) == Fill(old(put)[|taken|..], src, i0, readopen, killed, fault)
      ensures (i > i0 ==> readopen) && forall k: nat :: i0 <= k < i ==> !Says(killed, k) && !Says(fault, k)
      ensures i == |src| ==> end.Returned?
      ensures i < |src| ==>
                if !readopen || Says(killed, i) then end.Failed?
                else if |put| == |taken| + 512 then end.Asleep?
                else end.Returned? && Says(fault, i)
      ensures end.Asleep? ==> |put| == |taken| + PIPESIZE && readopen
      ensures |old(put)| == |taken| + PIPESIZE ==> i == i0
    {
      hide Low32, Says;
      i := i0;
      ghost var q0 := put[|taken|..];
      while i < |src|
        invariant i0 <= i <= |src| && put == old(put) + src[i0..i]
        invariant (i > i0 ==> readopen) && forall k: nat :: i0 <= k < i ==> !Says(killed, k) && !Says(fault, k)
        invariant nwrite == Low32(|put|) && taken <= put && |put| <= |taken| + PIPESIZE && Holds(data[..], put, |taken|)
        invariant Fill(put[|taken|..], src, i, readopen, killed, fault) == Fill(q0, src, i0, readopen, killed, fault)
      {
        if !readopen || Says(killed, i) { return i, Failed; }
        CountersCompare(|taken|, |put|);
        if nwrite == Low32(nread + PIPESIZE) { return i, Asleep; }
        if Says(fault, i) { return i, Returned; }
        HoldsMore(data[..], put, |taken|, src[i]);
        assert (put + [src[i]])[|taken|..] == put[|taken|..] + [src[i]];
        SlotOfCounter(|put|);
        data[nwrite % PIPESIZE] := src[i];
        nwrite := Low32(nwrite + 1);
        put := put + [src[i]];
        i := i + 1;
      }
      end := Returned;
    }

    // piperead of up to n bytes. got is what leaves the ring; the last of it is lost if copyout() fails there.
    method Read(pid: nat, n: nat, killed: bool, fault: seq<bool>) returns (i: nat, got: Bytes, end: End)
      requires Valid()
      modifies this`nread, this`readers, this`writers, this`taken
      ensures Valid() && taken == old(taken) + got && got <= old(Contents()) && i <= |got| <= n
      ensures !end.Returned? <==> old(put == taken && writeopen)
      ensures end.Failed? ==> killed && got == [] && readers == old(readers) && writers == old(writers)
      ensures end.Asleep? ==> !killed && got == [] && readers == old(readers) + {pid} && writers == old(writers)
      ensures end.Returned? ==> readers == old(readers) && writers == {}
      ensures end.Returned? ==> (i, |got|) == Pour(|old(Contents())|, n, 0, fault)
      ensures end.Returned? ==> if i == |got| then |got| == n || taken == put else i == |got| - 1 && Says(fault, i)
      ensures forall k: nat :: k < i ==> !Says(fault, k)
      ensures Contents() == old(Contents())[|got|..]
      ensures old(!Stranded()) ==> !Stranded()
    {
      hide Low32, Holds, Contents;
      i, got := 0, [];
      Conserved();
      ghost var c := Contents();
      assert put[|taken|..] == c;
      HoldsLess(data[..], |taken|);
      CountersCompare(|taken|, |put|);
      if nread == nwrite && writeopen {
        if killed { return 0, [], Failed; }
        readers := readers + {pid};
        Conserved();
        assert Contents() == put[|taken|..];
        return 0, [], Asleep;
      }
      i, got := Drain(n, fault);
      assert got == c[..|got|];
      writers := {};
      end := Returned;
      Conserved();
      assert Contents() == put[|taken|..] == c[|got|..];
    }

    // The copying loop of piperead.
    method Drain(n: nat, fault: seq<bool>) returns (i: nat, got: Bytes)
      requires data.Length == PIPESIZE && nread == Low32(|taken|) && nwrite == Low32(|put|)
      requires taken <= put && |put| <= |taken| + PIPESIZE && Holds(data[..], put, |taken|)
      modifies this`nread, this`taken
      ensures nread == Low32(|taken|) && taken <= put && taken == old(taken) + got && i <= |got| <= n
      ensures (i, |got|) == Pour(|put| - |old(taken)|, n, 0, fault)
      ensures if i == |got| then |got| == n || taken == put else i == |got| - 1 && Says(fault, i)
      ensures forall k: nat :: k < i ==> !Says(fault, k)
    {
      hide Low32;
      i, got := 0, [];
      ghost var slots, r := data[..], |taken|;
      while i < n
        invariant 0 <= i <= n && i == |got| && taken == old(taken) + got && taken <= put && nread == Low32(|taken|)
        invariant Pour(|put| - r, n, i, fault) == Pour(|put| - r, n, 0, fault)
        invariant forall k: nat :: k < i ==> !Says(fault, k)
      {
        CountersCompare(|taken|, |put|);
        if nread == nwrite { break; }
        SlotOfCounter(|taken|);
        assert slots[Slot(r + i)] == put[r + i];
        var ch := data[nread % PIPESIZE];
        nread := Low32(nread + 1);
        taken, got := taken + [ch], got + [ch];
        if Says(fault, i) { break; }
        i := i + 1;
      }
    }

    lemma HoldsLess(slots: seq<int>, r: nat)
      requires Holds(slots, put, r)
      ensures forall q: nat :: r <= q ==> Holds(slots, put, q)
    {}

    // kill() takes a sleeper off its channel.
    method Wake(pid: nat)
      requires Valid()
      modifies this`readers, this`writers
      ensures Valid() && readers == old(readers) - {pid} && writers == old(writers) - {pid}
      ensures old(!Stranded()) ==> !Stranded()
    {
      readers, writers := readers - {pid}, writers - {pid};
    }

    method Close(writable: bool) returns (freed: bool)
      requires Valid()
      modifies this`readopen, this`writeopen, this`readers, this`writers
      ensures Valid() && readopen == (old(readopen) && writable) && writeopen == (old(writeopen) && !writable)
      ensures readers == (if writable then {} else old(readers)) && writers == (if writable then old(writers) else {})
      ensures freed <==> !readopen && !writeopen
      ensures old(!Stranded()) ==> !Stranded() && (freed ==> readers == {} && writers == {})
    {
      if writable {
        writeopen := false;
        readers := {};
      } else {
        readopen := false;
        writers := {};
      }
      freed := !readopen && !writeopen;
    }
  }

  lemma Difference(r: nat, w: nat)
    requires r <= w <= r + PIPESIZE
    ensures Low32(Low32(w) + 0x1_0000_0000 - Low32(r)) == w - r
  {}

  lemma SlotAfter(r: nat, k: nat)
    ensures (Low32(r) + k) % PIPESIZE == Slot(r + k)
  {}

  // A reader waits on an empty pipe; a writer puts one byte, is killed, and returns without waking it.
  method KilledWriterStrandsReader() returns (p: Channel)
    ensures p.Valid() && p.Stranded() && p.readers == {1} && p.put == [7] && p.taken == [] && p.writeopen
  {
    p := new Channel();
    var _, _, end := p.Read(1, 1, false, []);
    assert end.Asleep?;
    var killed := [false, true];
    var i, end2 := p.Write(2, [7, 8], 0, killed, []);
    assert Says(killed, 1);
    assert i == 1 && end2.Failed? && p.put == [7];
  }
}
