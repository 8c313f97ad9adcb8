/**
 The virtio disk driver (kernel/virtio_disk.c:155-327) and a device that takes requests from the available
 ring and completes them in any order (sections 2.6 and 5.2 of Virtual I/O Device 1.1). Each driver method is
 one stretch under vdisk_lock; the device's steps come between them.
 */
module Virtio {
  import opened Wrappers

  const NUM: nat := 8
  const BSIZE: nat := 1024
  const SECTOR: nat := 512
  const F_NEXT: nat := 1
  const F_WRITE: nat := 2
  const T_IN: nat := 0
  const T_OUT: nat := 1

  // The bytes of a buffer.
  type Bytes = s: seq<int> | |s| == BSIZE witness seq(BSIZE, _ => 0)

  // The bytes of the medium by their address; those not there are zero.
  type Medium = map<nat, int>

  // What a descriptor points at: a request header, a buffer's data, or a status byte.
  datatype Addr = Null | Header(i: nat) | Data(b: nat) | Status(i: nat)

  datatype Desc = Desc(addr: Addr, len: nat, flags: nat, next: nat)

  datatype Request = Request(kind: nat, sector: nat)

  datatype Info = Info(b: Option<nat>, status: nat)

  function Zeroed(): (d: Desc) { Desc(Null, 0, 0, 0) }

  // b->blockno * (BSIZE / 512), in 32 bits.
  function Sector(blockno: nat): (r: nat) { blockno * (BSIZE / SECTOR) % 0x1_0000_0000 }

  // A block is the two sectors at twice its number, as long as this fits 32 bits.
  lemma SectorIs(blockno: nat)
    requires blockno < 0x8000_0000
    ensures Sector(blockno) == 2 * blockno
  {}

  // Two blocks have the same first sector exactly if their numbers differ by a multiple of 2^31, and no sector in
  // common otherwise.
  lemma SectorsApart(a: nat, b: nat)
    ensures Sector(a) == Sector(b) <==> (a - b) % 0x8000_0000 == 0
    ensures Sector(a) != Sector(b) ==> Sector(a) + 1 < Sector(b) || Sector(b) + 1 < Sector(a)
  {
    var m, n := a % 0x8000_0000, b % 0x8000_0000;
    Doubled(a);
    Doubled(b);
    assert (a - b) % 0x8000_0000 == 0 <==> m == n;
  }

  lemma Doubled(a: nat)
    ensures Sector(a) == 2 * (a % 0x8000_0000)
  {
    var q, r := a / 0x8000_0000, a % 0x8000_0000;
    assert a == q * 0x8000_0000 + r;
    Remainder(a * 2, q, 2 * r);
  }

  lemma Remainder(x: nat, q: nat, r: nat)
    requires x == q * 0x1_0000_0000 + r && r < 0x1_0000_0000
    ensures x % 0x1_0000_0000 == r
  {}

  // A counter of 16 bits, and its increment.
  function Low16(n: nat): (r: nat) { n % 0x1_0000 }

  function Next16(i: nat): (r: nat) { (i + 1) % 0x1_0000 }

  // ----- Requests in flight -----

  // Done and Seen carry the place of the transfer in the device's history.
  datatype Phase = Posted | Taken | Done(k: nat) | Seen(k: nat)

  datatype Chain = Chain(head: nat, mid: nat, tail: nat, buf: nat, write: bool, sector: nat, phase: Phase)

  // A transfer by the device: the buffer, the direction, the sector and the bytes.
  datatype Transfer = Transfer(buf: nat, write: bool, sector: nat, bytes: Bytes)

  predicate Uses(c: Chain, i: nat) { i == c.head || i == c.mid || i == c.tail }

  predicate Apart(c: Chain, d: Chain) { !Uses(d, c.head) && !Uses(d, c.mid) && !Uses(d, c.tail) }

  predicate Triple(c: Chain, h: nat) {
    c.head == h && h < NUM && c.mid < NUM && c.tail < NUM && h != c.mid && h != c.tail && c.mid != c.tail
  }

  ghost predicate Used(chains: map<nat, Chain>, i: nat) { exists h :: h in chains && Uses(chains[h], i) }

  // The chains in flight, by head: disjoint triples of descriptors, which are those not free.
  ghost predicate Triples(free: seq<bool>, chains: map<nat, Chain>) {
    && |free| == NUM
    && (forall h :: h in chains ==> Triple(chains[h], h))
    && (forall h, g :: h in chains && g in chains && h != g ==> Apart(chains[h], chains[g]))
    && (forall i: nat :: i < NUM ==> (!free[i] <==> Used(chains, i)))
  }

  ghost predicate Formatted(desc: seq<Desc>, ops: seq<Request>, info: seq<Info>, c: Chain) {
    && |desc| == |ops| == |info| == NUM && c.head < NUM && c.mid < NUM && c.tail < NUM
    && desc[c.head] == Desc(Header(c.head), 16, F_NEXT, c.mid)
    && desc[c.mid] == Desc(Data(c.buf), BSIZE, if c.write then F_NEXT else F_WRITE + F_NEXT, c.tail)
    && desc[c.tail] == Desc(Status(c.head), 1, F_WRITE, 0)
    && ops[c.head] == Request(if c.write then T_OUT else T_IN, c.sector)
    && info[c.head] == Info(Some(c.buf), if c.phase.Done? || c.phase.Seen? then 0 else 0xff)
  }

  ghost predicate Descriptors(free: seq<bool>, desc: seq<Desc>, ops: seq<Request>, info: seq<Info>,
                              chains: map<nat, Chain>) {
    && |free| == |desc| == |ops| == |info| == NUM
    && (forall h :: h in chains ==> Formatted(desc, ops, info, chains[h]))
    && (forall i :: 0 <= i < NUM && free[i] ==> desc[i] == Zeroed())
  }

  // The unread part of a ring, from position `from` on, holds the heads q.
  ghost predicate Ring(ring: seq<nat>, from: nat, q: seq<nat>) {
    |ring| == NUM && forall j :: 0 <= j < |q| ==> ring[Slot(from, j)] == q[j]
  }

  function Slot(from: nat, j: nat): (r: nat)
    ensures r < NUM
  {
    (from + j) % NUM
  }

  ghost predicate Distinct(q: seq<nat>) { forall i, j :: 0 <= i < j < |q| ==> q[i] != q[j] }

  predicate Queued(c: Chain, posted: bool) { if posted then c.phase.Posted? else c.phase.Done? }

  // The queue q holds exactly the chains in the phase it stands for, each once.
  ghost predicate Waiting(q: seq<nat>, chains: map<nat, Chain>, posted: bool) {
    && Distinct(q)
    && (forall h :: h in chains && Queued(chains[h], posted) ==> h in q)
    && (forall j :: 0 <= j < |q| ==> q[j] in chains && Queued(chains[q[j]], posted))
  }

  // A request for b that the driver has not seen completed.
  ghost predicate Pending(chains: map<nat, Chain>, b: nat) {
    exists h :: h in chains && chains[h].buf == b && !chains[h].phase.Seen?
  }

  // The device has made exactly the transfer asked for, with the bytes the buffer still holds.
  ghost predicate Transferred(c: Chain, data: map<nat, Bytes>, history: seq<Transfer>) {
    && c.buf in data
    && (c.phase.Done? || c.phase.Seen? ==>
          c.phase.k < |history| && history[c.phase.k] == Transfer(c.buf, c.write, c.sector, data[c.buf]))
  }

  // One request a buffer; its flag is set until the driver has seen the completion.
  ghost predicate Buffers(chains: map<nat, Chain>, busy: set<nat>, data: map<nat, Bytes>, history: seq<Transfer>) {
    && (forall h :: h in chains ==> Transferred(chains[h], data, history))
    && (forall h, g :: h in chains && g in chains && h != g ==> chains[h].buf != chains[g].buf)
    && (forall b :: b in busy <==> Pending(chains, b))
  }

  function Drop(chains: map<nat, Chain>, h: nat): (r: map<nat, Chain>) {
    map g | g in chains && g != h :: chains[g]
  }

  // ----- At most two chains -----

  lemma UsedSplit(free: seq<bool>, chains: map<nat, Chain>, h: nat, i: nat)
    requires Triples(free, chains) && h in chains
    ensures Used(chains, i) <==> Used(Drop(chains, h), i) || Uses(chains[h], i)
    ensures Used(Drop(chains, h), i) ==> !Uses(chains[h], i)
    ensures Uses(chains[h], i) ==> i < NUM
  {
    assert Triple(chains[h], h);
    hide Uses;
    var rest := Drop(chains, h);
    if Used(rest, i) {
      var g :| g in rest && Uses(rest[g], i);
      ApartMeans(chains[g], chains[h], i);
    }
    if Used(chains, i) && !Uses(chains[h], i) { var g :| g in chains && Uses(chains[g], i); assert g in rest; }
  }

  lemma ApartMeans(c: Chain, d: Chain, i: nat)
    requires Apart(c, d) && Uses(c, i)
    ensures !Uses(d, i)
  {}

  // The descriptors of a chain become free when it is gone.
  lemma WithoutChain(free: seq<bool>, chains: map<nat, Chain>, h: nat, free': seq<bool>)
    requires Triples(free, chains) && h in chains
    requires |free'| == NUM && forall i: nat :: i < NUM ==> (free'[i] <==> free[i] || Uses(chains[h], i))
    ensures Triples(free', Drop(chains, h))
  {
    var rest, c := Drop(chains, h), chains[h];
    hide Used, Uses, Apart, Triple;
    forall i: nat | i < NUM ensures !free'[i] <==> Used(rest, i) { UsedSplit(free, chains, h, i); }
  }

  // How many descriptors are taken.
  function Taken8(free: seq<bool>): (r: nat)
    ensures r <= |free|
  {
    if free == [] then 0 else Taken8(free[..|free| - 1]) + if free[|free| - 1] then 0 else 1
  }

  lemma {:induction false} FreeOne(free: seq<bool>, i: nat)
    requires i < |free| && !free[i]
    ensures Taken8(free[i := true]) == Taken8(free) - 1
  {
    var n := |free| - 1;
    if i < n {
      FreeOne(free[..n], i);
      assert free[i := true][..n] == free[..n][i := true];
    } else {
      assert free[i := true][..n] == free[..n];
    }
  }

  lemma {:induction false} NoneTaken(free: seq<bool>)
    ensures Taken8(free) == 0 <==> forall i :: 0 <= i < |free| ==> free[i]
  {
    if free != [] {
      var n := |free| - 1;
      NoneTaken(free[..n]);
      if forall i :: 0 <= i < n ==> free[..n][i] { assert forall i :: 0 <= i < n ==> free[i]; }
    }
  }

  function Freed3(free: seq<bool>, c: Chain): (r: seq<bool>)
    requires c.head < |free| && c.mid < |free| && c.tail < |free|
    ensures |r| == |free|
  {
    free[c.head := true][c.mid := true][c.tail := true]
  }

  lemma Freed3At(free: seq<bool>, c: Chain)
    requires c.head < |free| && c.mid < |free| && c.tail < |free|
    ensures forall i: nat :: i < |free| ==> (Freed3(free, c)[i] <==> free[i] || Uses(c, i))
  {}

  lemma DropCount(chains: map<nat, Chain>, h: nat)
    requires h in chains
    ensures |chains| == |Drop(chains, h)| + 1
  {
    assert chains == Drop(chains, h)[h := chains[h]];
  }

  lemma AllFree(free: seq<bool>, chains: map<nat, Chain>)
    requires Triples(free, chains) && chains == map[]
    ensures Taken8(free) == 0
  {
    NoneTaken(free);
  }

  // Every chain takes three descriptors.
  lemma {:induction false} ThreeEach(free: seq<bool>, chains: map<nat, Chain>)
    requires Triples(free, chains)
    ensures Taken8(free) == 3 * |chains|
    decreases |chains|
  {
    hide Triples, Drop, Taken8, Triple, Uses;
    if chains == map[] {
      AllFree(free, chains);
    } else {
      var h :| h in chains;
      var c := chains[h];
      DropCount(chains, h);
      AllTaken(free, chains, h);
      FreeOne(free, c.head);
      FreeOne(free[c.head := true], c.mid);
      FreeOne(free[c.head := true][c.mid := true], c.tail);
      Freed3At(free, c);
      WithoutChain(free, chains, h, Freed3(free, c));
      ThreeEach(Freed3(free, c), Drop(chains, h));
    }
  }

  lemma AllTaken(free: seq<bool>, chains: map<nat, Chain>, h: nat)
    requires Triples(free, chains) && h in chains
    ensures var c := chains[h];
            && |free| == NUM && c.head < NUM && c.mid < NUM && c.tail < NUM && c.head != c.mid && c.head != c.tail
            && c.mid != c.tail
            && !free[c.head] && !free[c.mid] && !free[c.tail]
  {
    var c := chains[h];
    assert Uses(c, c.head) && Uses(c, c.mid) && Uses(c, c.tail);
    assert Used(chains, c.head) && Used(chains, c.mid) && Used(chains, c.tail);
  }

  // Three descriptors a chain, out of eight.
  lemma AtMostTwo(free: seq<bool>, chains: map<nat, Chain>)
    requires Triples(free, chains)
    ensures |chains| <= 2
  {
    ThreeEach(free, chains);
  }

  // A queue of distinct chains is no longer than the chains.
  lemma {:induction false} QueueCount(q: seq<nat>, keys: set<nat>)
    requires Distinct(q) && forall j :: 0 <= j < |q| ==> q[j] in keys
    ensures |q| <= |keys|
    decreases |q|
  {
    if q != [] {
      var last := q[|q| - 1];
      QueueCount(q[..|q| - 1], keys - {last});
    }
  }

  lemma ShortQueue(free: seq<bool>, chains: map<nat, Chain>, q: seq<nat>, posted: bool)
    requires Triples(free, chains) && Waiting(q, chains, posted)
    ensures |q| <= 2
  {
    AtMostTwo(free, chains);
    QueueCount(q, chains.Keys);
    assert |chains.Keys| == |chains|;
  }

  // ----- Rings -----

  // The 16-bit counter names the same slot as the unbounded one.
  lemma SlotOfCounter(n: nat)
    ensures Low16(n) % NUM == n % NUM && Next16(Low16(n)) == Low16(n + 1)
  {}

  lemma SlotsDiffer(from: nat, j: nat, k: nat)
    requires j < k < j + NUM
    ensures Slot(from, j) != Slot(from, k)
  {}

  lemma RingPush(ring: seq<nat>, from: nat, q: seq<nat>, h: nat)
    requires Ring(ring, from, q) && |q| < NUM
    ensures |ring| == NUM && Ring(ring[Slot(from, |q|) := h], from, q + [h])
  {
    forall j | 0 <= j < |q| ensures Slot(from, j) != Slot(from, |q|) { SlotsDiffer(from, j, |q|); }
  }

  lemma RingPop(ring: seq<nat>, from: nat, q: seq<nat>)
    requires Ring(ring, from, q) && q != []
    ensures |ring| == NUM && ring[from % NUM] == q[0] && Ring(ring, from + 1, q[1..])
  {}

  // ----- A new chain -----

  function Taken3(free: seq<bool>, c: Chain): (r: seq<bool>)
    requires c.head < |free| && c.mid < |free| && c.tail < |free|
    ensures |r| == |free|
  {
    free[c.head := false][c.mid := false][c.tail := false]
  }

  lemma WithChain(free: seq<bool>, chains: map<nat, Chain>, c: Chain)
    requires Triples(free, chains) && Triple(c, c.head) && free[c.head] && free[c.mid] && free[c.tail]
    ensures c.head !in chains && Triples(Taken3(free, c), chains[c.head := c])
  {
    hide Apart, Uses, Used, Taken3;
    forall h | h in chains ensures Apart(chains[h], c) && Apart(c, chains[h]) { FreeApart(free, chains, c, h); }
    HeadIsNew(free, chains, c);
    var chains', free' := chains[c.head := c], Taken3(free, c);
    forall i: nat | i < NUM ensures !free'[i] <==> Used(chains', i) { UsedMore(chains, c, i); Taken3At(free, c, i); }
    hide Triple;
  }

  lemma HeadIsNew(free: seq<bool>, chains: map<nat, Chain>, c: Chain)
    requires Triples(free, chains) && c.head < NUM && free[c.head]
    ensures c.head !in chains
  {}

  lemma Taken3At(free: seq<bool>, c: Chain, i: nat)
    requires c.head < |free| && c.mid < |free| && c.tail < |free| && i < |free|
    ensures !Taken3(free, c)[i] <==> !free[i] || Uses(c, i)
  {}

  lemma FreeApart(free: seq<bool>, chains: map<nat, Chain>, c: Chain, h: nat)
    requires Triples(free, chains) && Triple(c, c.head) && free[c.head] && free[c.mid] && free[c.tail] && h in chains
    ensures Apart(chains[h], c) && Apart(c, chains[h])
  {
    AllTaken(free, chains, h);
  }

  lemma UsedMore(chains: map<nat, Chain>, c: Chain, i: nat)
    requires c.head !in chains
    ensures Used(chains[c.head := c], i) <==> Used(chains, i) || Uses(c, i)
  {
    hide Uses;
    var chains' := chains[c.head := c];
    if Used(chains, i) { var g :| g in chains && Uses(chains[g], i); assert g in chains' && chains'[g] == chains[g]; }
    if Uses(c, i) { assert c.head in chains' && Uses(chains'[c.head], i); }
  }

  // The three descriptors of a request, its header and its bookkeeping.
  function WriteDescs(desc: seq<Desc>, c: Chain): (r: seq<Desc>)
    requires |desc| == NUM && c.head < NUM && c.mid < NUM && c.tail < NUM
    ensures |r| == NUM
  {
    desc[c.head := Desc(Header(c.head), 16, F_NEXT, c.mid)]
        [c.mid := Desc(Data(c.buf), BSIZE, if c.write then F_NEXT else F_WRITE + F_NEXT, c.tail)]
        [c.tail := Desc(Status(c.head), 1, F_WRITE, 0)]
  }

  lemma FormatChain(free: seq<bool>, desc: seq<Desc>, ops: seq<Request>, info: seq<Info>, chains: map<nat, Chain>,
                    c: Chain)
    requires Triples(free, chains) && Descriptors(free, desc, ops, info, chains)
    requires Triple(c, c.head) && free[c.head] && free[c.mid] && free[c.tail] && c.phase.Posted?
    ensures c.head !in chains && Triples(Taken3(free, c), chains[c.head := c])
    ensures Descriptors(Taken3(free, c), WriteDescs(desc, c),
                        ops[c.head := Request(if c.write then T_OUT else T_IN, c.sector)],
                        info[c.head := Info(Some(c.buf), 0xff)], chains[c.head := c])
  {
    hide Triples, Formatted, Taken3, WriteDescs, Apart, Uses;
    WithChain(free, chains, c);
    var chains', free', desc' := chains[c.head := c], Taken3(free, c), WriteDescs(desc, c);
    var ops', info' := ops[c.head := Request(if c.write then T_OUT else T_IN, c.sector)],
        info[c.head := Info(Some(c.buf), 0xff)];
    forall h | h in chains' ensures Formatted(desc', ops', info', chains'[h]) {
      if h == c.head { FormatNew(desc, ops, info, c); } else {
        ChainAt(free, chains, h);
        FreeApart(free, chains, c, h);
        FormatOther(desc, ops, info, c, chains[h]);
      }
    }
    forall i | 0 <= i < NUM && free'[i] ensures desc'[i] == Zeroed() { Taken3At(free, c, i); StillZeroed(desc, c, i); }
  }

  lemma ChainAt(free: seq<bool>, chains: map<nat, Chain>, h: nat)
    requires Triples(free, chains) && h in chains
    ensures Triple(chains[h], h) && h < NUM
  {
    hide Used, Apart;
  }

  lemma FormatNew(desc: seq<Desc>, ops: seq<Request>, info: seq<Info>, c: Chain)
    requires |desc| == |ops| == |info| == NUM && Triple(c, c.head) && c.phase.Posted?
    ensures Formatted(WriteDescs(desc, c), ops[c.head := Request(if c.write then T_OUT else T_IN, c.sector)],
                      info[c.head := Info(Some(c.buf), 0xff)], c)
  {}

  lemma FormatOther(desc: seq<Desc>, ops: seq<Request>, info: seq<Info>, c: Chain, d: Chain)
    requires |desc| == |ops| == |info| == NUM && Triple(c, c.head) && Triple(d, d.head) && Apart(d, c)
             && Formatted(desc, ops, info, d)
    ensures Formatted(WriteDescs(desc, c), ops[c.head := Request(if c.write then T_OUT else T_IN, c.sector)],
                      info[c.head := Info(Some(c.buf), 0xff)], d)
  {}

  lemma StillZeroed(desc: seq<Desc>, c: Chain, i: nat)
    requires |desc| == NUM && c.head < NUM && c.mid < NUM && c.tail < NUM && i < NUM && !Uses(c, i)
    ensures WriteDescs(desc, c)[i] == desc[i]
  {}

  // ----- A chain moves on -----

  function Moved(chains: map<nat, Chain>, h: nat, p: Phase): (r: map<nat, Chain>)
    requires h in chains
  {
    chains[h := chains[h].(phase := p)]
  }

  lemma MovedTriples(free: seq<bool>, chains: map<nat, Chain>, h: nat, p: Phase)
    requires Triples(free, chains) && h in chains
    ensures Triples(free, Moved(chains, h, p))
  {
    var chains' := Moved(chains, h, p);
    assert |free| == NUM && forall i: nat :: i < NUM ==> (!free[i] <==> Used(chains, i));
    hide Used, Uses, Apart, Triple, Triples;
    forall i: nat | i < NUM ensures !free[i] <==> Used(chains', i) { MovedUsed(chains, h, p, i); }
    forall g | g in chains' ensures Triple(chains'[g], g) {
      ChainAt(free, chains, g);
      SameTriple(chains[g], chains'[g], g);
    }
    forall g, k | g in chains' && k in chains' && g != k ensures Apart(chains'[g], chains'[k]) {
      ApartAt(free, chains, g, k);
      SamePlaces(chains[g], chains'[g], chains[k], chains'[k]);
    }
    TriplesFrom(free, free, chains, chains');
  }

  lemma TriplesFrom(free: seq<bool>, free': seq<bool>, chains: map<nat, Chain>, chains': map<nat, Chain>)
    requires Triples(free, chains) && |free'| == NUM
    requires forall i: nat :: i < NUM ==> (!free'[i] <==> Used(chains', i))
    requires forall g :: g in chains' ==> Triple(chains'[g], g)
    requires forall g, k :: g in chains' && k in chains' && g != k ==> Apart(chains'[g], chains'[k])
    ensures Triples(free', chains')
  {}

  lemma MovedUsed(chains: map<nat, Chain>, h: nat, p: Phase, i: nat)
    requires h in chains
    ensures Used(Moved(chains, h, p), i) <==> Used(chains, i)
  {
    var chains' := Moved(chains, h, p);
    if Used(chains, i) { var g :| g in chains && Uses(chains[g], i); assert g in chains' && Uses(chains'[g], i); }
    if Used(chains', i) { var g :| g in chains' && Uses(chains'[g], i); assert Uses(chains[g], i); }
  }

  lemma SameTriple(c: Chain, c': Chain, h: nat)
    requires c' == c.(phase := c'.phase) && Triple(c, h)
    ensures Triple(c', h)
  {}

  lemma SamePlaces(c: Chain, c': Chain, d: Chain, d': Chain)
    requires c' == c.(phase := c'.phase) && d' == d.(phase := d'.phase) && Apart(c, d)
    ensures Apart(c', d')
  {}

  function StatusOf(p: Phase): (r: nat) { if p.Done? || p.Seen? then 0 else 0xff }

  lemma MovedDescriptors(free: seq<bool>, desc: seq<Desc>, ops: seq<Request>, info: seq<Info>,
                         chains: map<nat, Chain>, h: nat, p: Phase)
    requires Triples(free, chains) && Descriptors(free, desc, ops, info, chains) && h in chains
    ensures h < NUM && Triples(free, Moved(chains, h, p))
    ensures Descriptors(free, desc, ops, info[h := info[h].(status := StatusOf(p))], Moved(chains, h, p))
  {
    hide Triples, Formatted;
    MovedTriples(free, chains, h, p);
    var chains' := Moved(chains, h, p);
    ChainAt(free, chains, h);
    var info' := info[h := info[h].(status := StatusOf(p))];
    forall g | g in chains' ensures Formatted(desc, ops, info', chains'[g]) {
      ChainAt(free, chains, g);
      MovedFormat(desc, ops, info, chains[g], h, p);
    }
  }

  lemma MovedFormat(desc: seq<Desc>, ops: seq<Request>, info: seq<Info>, c: Chain, h: nat, p: Phase)
    requires |desc| == |ops| == |info| == NUM && Triple(c, c.head) && h < NUM && Formatted(desc, ops, info, c)
    ensures Formatted(desc, ops, info[h := info[h].(status := StatusOf(p))], if c.head == h then c.(phase := p) else c)
  {}

  lemma MovedSameStatus(free: seq<bool>, desc: seq<Desc>, ops: seq<Request>, info: seq<Info>, chains: map<nat, Chain>,
                        h: nat, p: Phase)
    requires Triples(free, chains) && Descriptors(free, desc, ops, info, chains) && h in chains
    requires StatusOf(p) == StatusOf(chains[h].phase)
    ensures Triples(free, Moved(chains, h, p)) && Descriptors(free, desc, ops, info, Moved(chains, h, p))
  {
    hide Triples;
    MovedDescriptors(free, desc, ops, info, chains, h, p);
    ChainAt(free, chains, h);
    assert Formatted(desc, ops, info, chains[h]);
    assert info[h := info[h].(status := StatusOf(p))] == info;
  }

  function ZeroDescs(desc: seq<Desc>, c: Chain): (r: seq<Desc>)
    requires |desc| == NUM && c.head < NUM && c.mid < NUM && c.tail < NUM
    ensures |r| == NUM
  {
    desc[c.head := Zeroed()][c.mid := Zeroed()][c.tail := Zeroed()]
  }

  // A finished chain gives its descriptors back.
  lemma FinishedDescriptors(free: seq<bool>, desc: seq<Desc>, ops: seq<Request>, info: seq<Info>,
                            chains: map<nat, Chain>, h: nat)
    requires Triples(free, chains) && Descriptors(free, desc, ops, info, chains) && h in chains
    ensures var c := chains[h];
            && Triple(c, h) && Triples(Freed3(free, c), Drop(chains, h))
            && Descriptors(Freed3(free, c), ZeroDescs(desc, c), ops,
                           info[h := info[h].(b := None)], Drop(chains, h))
  {
    hide Triples, Formatted, Apart, Freed3;
    var c, rest := chains[h], Drop(chains, h);
    ChainAt(free, chains, h);
    Freed3At(free, c);
    WithoutChain(free, chains, h, Freed3(free, c));
    var desc', info' := ZeroDescs(desc, c), info[h := info[h].(b := None)];
    forall g | g in rest ensures Formatted(desc', ops, info', rest[g]) {
      ChainAt(free, chains, g);
      ApartAt(free, chains, g, h);
      FinishedFormat(desc, ops, info, c, chains[g]);
    }
  }

  lemma ApartAt(free: seq<bool>, chains: map<nat, Chain>, g: nat, h: nat)
    requires Triples(free, chains) && g in chains && h in chains && g != h
    ensures Apart(chains[g], chains[h])
  {
    hide Used, Triple;
  }

  lemma FinishedFormat(desc: seq<Desc>, ops: seq<Request>, info: seq<Info>, c: Chain, d: Chain)
    requires |desc| == |ops| == |info| == NUM && Triple(c, c.head) && Triple(d, d.head) && Apart(d, c)
             && Formatted(desc, ops, info, d)
    ensures Formatted(ZeroDescs(desc, c), ops, info[c.head := info[c.head].(b := None)], d)
  {}

  // ----- Queues -----

  lemma WaitPush(q: seq<nat>, chains: map<nat, Chain>, posted: bool, h: nat, c: Chain)
    requires Waiting(q, chains, posted) && Queued(c, posted) && (h in chains ==> !Queued(chains[h], posted))
    ensures Waiting(q + [h], chains[h := c], posted)
  {}

  lemma WaitPop(q: seq<nat>, chains: map<nat, Chain>, posted: bool, c: Chain)
    requires Waiting(q, chains, posted) && q != [] && !Queued(c, posted)
    ensures Waiting(q[1..], chains[q[0] := c], posted)
  {}

  lemma WaitSame(q: seq<nat>, chains: map<nat, Chain>, posted: bool, h: nat, c: Chain)
    requires Waiting(q, chains, posted) && !Queued(c, posted) && (h in chains ==> !Queued(chains[h], posted))
    ensures Waiting(q, chains[h := c], posted)
  {}

  lemma WaitDrop(q: seq<nat>, chains: map<nat, Chain>, posted: bool, h: nat)
    requires Waiting(q, chains, posted) && h in chains && !Queued(chains[h], posted)
    ensures Waiting(q, Drop(chains, h), posted)
  {}

  // ----- Buffers -----

  lemma BufferPost(chains: map<nat, Chain>, busy: set<nat>, data: map<nat, Bytes>, history: seq<Transfer>, c: Chain)
    requires Buffers(chains, busy, data, history) && c.head !in chains && c.phase.Posted? && c.buf in data
    requires forall h :: h in chains ==> chains[h].buf != c.buf
    ensures Buffers(chains[c.head := c], busy + {c.buf}, data, history)
  {
    var chains' := chains[c.head := c];
    forall b: nat ensures Pending(chains', b) <==> Pending(chains, b) || b == c.buf {
      if Pending(chains, b) {
        var h :| h in chains && chains[h].buf == b && !chains[h].phase.Seen?;
        assert h in chains' && chains'[h] == chains[h];
      }
      if b == c.buf { assert c.head in chains' && chains'[c.head] == c; }
    }
    hide Pending, Transferred;
  }

  lemma BufferMoved(chains: map<nat, Chain>, busy: set<nat>, data: map<nat, Bytes>, history: seq<Transfer>, h: nat,
                    p: Phase,
                    data': map<nat, Bytes>, history': seq<Transfer>)
    requires Buffers(chains, busy, data, history) && h in chains && history <= history'
    requires forall b :: b in data && b != chains[h].buf ==> b in data' && data'[b] == data[b]
    requires Transferred(chains[h].(phase := p), data', history')
    ensures Buffers(Moved(chains, h, p), if p.Seen? then busy - {chains[h].buf} else if chains[h].phase.Seen?
                    then busy + {chains[h].buf} else busy, data', history')
  {
    var chains', b0 := Moved(chains, h, p), chains[h].buf;
    forall b: nat ensures Pending(chains', b) <==> if b == b0 then !p.Seen? else Pending(chains, b) {
      PendingMoved(chains, h, p, b);
    }
    PendingMoved(chains, h, p, b0);
    assert Pending(chains, b0) <==> !chains[h].phase.Seen? by { PendingOwn(chains, busy, data, history, h); }
    hide Pending;
    forall g | g in chains' ensures Transferred(chains'[g], data', history') {
      if g != h { assert Transferred(chains[g], data, history); }
    }
    hide Transferred;
  }

  lemma PendingOwn(chains: map<nat, Chain>, busy: set<nat>, data: map<nat, Bytes>, history: seq<Transfer>, h: nat)
    requires Buffers(chains, busy, data, history) && h in chains
    ensures chains[h].buf in busy <==> !chains[h].phase.Seen?
    ensures Pending(chains, chains[h].buf) <==> !chains[h].phase.Seen?
  {}

  lemma PendingMoved(chains: map<nat, Chain>, h: nat, p: Phase, b: nat)
    requires h in chains && forall g :: g in chains && g != h ==> chains[g].buf != chains[h].buf
    ensures Pending(Moved(chains, h, p), b) <==> if b == chains[h].buf then !p.Seen? else Pending(chains, b)
  {
    var chains' := Moved(chains, h, p);
    if Pending(chains, b) {
      var g :| g in chains && chains[g].buf == b && !chains[g].phase.Seen?;
      assert g in chains' && (g != h ==> chains'[g] == chains[g]);
    }
    if b == chains[h].buf && !p.Seen? { assert h in chains' && chains'[h].phase == p; }
  }

  lemma BufferDrop(chains: map<nat, Chain>, busy: set<nat>, data: map<nat, Bytes>, history: seq<Transfer>, h: nat)
    requires Buffers(chains, busy, data, history) && h in chains && chains[h].phase.Seen?
    ensures Buffers(Drop(chains, h), busy, data, history)
  {
    var rest := Drop(chains, h);
    forall b: nat ensures Pending(rest, b) <==> Pending(chains, b) {
      if Pending(chains, b) {
        var g :| g in chains && chains[g].buf == b && !chains[g].phase.Seen?;
        assert g in rest && rest[g] == chains[g];
      }
    }
    hide Pending, Transferred;
  }

  // ----- The driver and the device -----

  // The descriptors in idx have been taken, in order.
  function TakeAll(free: seq<bool>, idx: seq<nat>): (r: seq<bool>)
    ensures |r| == |free|
  {
    if idx == [] then free
    else
      var rest, i := TakeAll(free, idx[..|idx| - 1]), idx[|idx| - 1];
      if i < |rest| then rest[i := false] else rest
  }

  lemma {:induction false} AllTakenCount(free: seq<bool>)
    requires forall i :: 0 <= i < |free| ==> !free[i]
    ensures Taken8(free) == |free|
  {
    if free != [] { AllTakenCount(free[..|free| - 1]); }
  }

  lemma TakeOne(free: seq<bool>, idx: seq<nat>, i: nat)
    requires i < |free| && TakeAll(free, idx)[i]
    ensures TakeAll(free, idx + [i]) == TakeAll(free, idx)[i := false]
    ensures Taken8(TakeAll(free, idx + [i])) == Taken8(TakeAll(free, idx)) + 1
  {
    assert (idx + [i])[..|idx|] == idx;
    var now := TakeAll(free, idx);
    FreeOne(now[i := false], i);
    assert now[i := false][i := true] == now;
  }

  // What has not been taken is as before.
  lemma {:induction false} TakeAllAt(free: seq<bool>, idx: seq<nat>, i: nat)
    requires i < |free|
    ensures TakeAll(free, idx)[i] <==> free[i] && i !in idx
  {
    if idx != [] {
      var n := |idx| - 1;
      TakeAllAt(free, idx[..n], i);
      assert idx == idx[..n] + [idx[n]];
    }
  }

  // Everything but the rings.
  ghost predicate Core(free: seq<bool>, desc: seq<Desc>, ops: seq<Request>, info: seq<Info>, chains: map<nat, Chain>,
                       posted: seq<nat>, done: seq<nat>, busy: set<nat>, data: map<nat, Bytes>,
                       history: seq<Transfer>) {
    && Triples(free, chains) && Descriptors(free, desc, ops, info, chains)
    && Waiting(posted, chains, true) && Waiting(done, chains, false)
    && Buffers(chains, busy, data, history)
  }

  lemma CoreSizes(free: seq<bool>, desc: seq<Desc>, ops: seq<Request>, info: seq<Info>, chains: map<nat, Chain>,
                  posted: seq<nat>, done: seq<nat>, busy: set<nat>, data: map<nat, Bytes>, history: seq<Transfer>)
    requires Core(free, desc, ops, info, chains, posted, done, busy, data, history)
    ensures |free| == |desc| == |ops| == |info| == NUM && |posted| <= 2 && |done| <= 2
    ensures |chains| <= 2 && Taken8(free) == 3 * |chains|
    ensures forall i :: 0 <= i < NUM && free[i] ==> desc[i] == Zeroed()
  {
    hide Triples, Waiting, Formatted, Buffers;
    ThreeEach(free, chains);
    AtMostTwo(free, chains);
    ShortQueue(free, chains, posted, true);
    ShortQueue(free, chains, done, false);
  }

  // A request is posted.
  lemma PostCore(free: seq<bool>, desc: seq<Desc>, ops: seq<Request>, info: seq<Info>, chains: map<nat, Chain>,
                 posted: seq<nat>, done: seq<nat>, busy: set<nat>, data: map<nat, Bytes>, history: seq<Transfer>,
                 c: Chain)
    requires Core(free, desc, ops, info, chains, posted, done, busy, data, history)
    requires |free| == |desc| == |ops| == |info| == NUM && Triple(c, c.head) && free[c.head] && free[c.mid]
             && free[c.tail] && c.phase.Posted?
    requires c.buf in data && forall h :: h in chains ==> chains[h].buf != c.buf
    ensures c.head !in chains && |chains| <= 1
    ensures Core(Taken3(free, c), WriteDescs(desc, c),
                 ops[c.head := Request(if c.write then T_OUT else T_IN, c.sector)],
                 info[c.head := Info(Some(c.buf), 0xff)], chains[c.head := c], posted + [c.head], done,
                     busy + {c.buf}, data, history)
  {
    hide Triples, Buffers, Waiting, Formatted, Triple, Taken3, WriteDescs, Descriptors;
    FormatChain(free, desc, ops, info, chains, c);
    RoomForOne(free, chains, c);
    BufferPost(chains, busy, data, history, c);
    WaitPush(posted, chains, true, c.head, c);
    WaitSame(done, chains, false, c.head, c);
  }

  // The driver sees the oldest completion.
  lemma SeeCore(free: seq<bool>, desc: seq<Desc>, ops: seq<Request>, info: seq<Info>, chains: map<nat, Chain>,
                posted: seq<nat>, done: seq<nat>, busy: set<nat>, data: map<nat, Bytes>, history: seq<Transfer>)
    requires Core(free, desc, ops, info, chains, posted, done, busy, data, history) && done != []
    ensures var h := done[0];
            && h in chains && chains[h].phase.Done? && h < NUM && |info| == NUM
            && info[h] == Info(Some(chains[h].buf), 0)
            && Core(free, desc, ops, info, Moved(chains, h, Seen(chains[h].phase.k)), posted, done[1..],
                    busy - {chains[h].buf}, data, history)
  {
    hide Triples, Buffers, Formatted, Descriptors, Waiting, Transferred;
    var h := done[0];
    FirstQueued(done, chains, false);
    var c, p := chains[h], Seen(chains[h].phase.k);
    FormattedAt(free, desc, ops, info, chains, h);
    ChainAt(free, chains, h);
    InfoAt(desc, ops, info, c);
    DoneTransferred(chains, busy, data, history, h);
    BufferMoved(chains, busy, data, history, h, p, data, history);
    MovedSameStatus(free, desc, ops, info, chains, h, p);
    WaitPop(done, chains, false, c.(phase := p));
    WaitSame(posted, chains, true, h, c.(phase := p));
  }

  // The device takes the oldest request.
  lemma TakeCore(free: seq<bool>, desc: seq<Desc>, ops: seq<Request>, info: seq<Info>, chains: map<nat, Chain>,
                 posted: seq<nat>, done: seq<nat>, busy: set<nat>, data: map<nat, Bytes>, history: seq<Transfer>)
    requires Core(free, desc, ops, info, chains, posted, done, busy, data, history) && posted != []
    ensures var h := posted[0];
            && h in chains && chains[h].phase.Posted?
            && Core(free, desc, ops, info, Moved(chains, h, Taken), posted[1..], done, busy, data, history)
  {
    hide Triples, Buffers, Formatted, Descriptors, Waiting, Transferred;
    var h := posted[0];
    FirstQueued(posted, chains, true);
    var c := chains[h];
    TakenTransferred(chains, busy, data, history, h);
    BufferMoved(chains, busy, data, history, h, Taken, data, history);
    MovedSameStatus(free, desc, ops, info, chains, h, Taken);
    WaitPop(posted, chains, true, c.(phase := Taken));
    WaitSame(done, chains, false, h, c.(phase := Taken));
  }

  lemma NewTransferred(c: Chain, data: map<nat, Bytes>, history: seq<Transfer>, bytes: Bytes)
    ensures Transferred(c.(phase := Done(|history|)), data[c.buf := bytes],
                        history + [Transfer(c.buf, c.write, c.sector, bytes)])
  {}

  lemma FirstQueued(q: seq<nat>, chains: map<nat, Chain>, posted: bool)
    requires Waiting(q, chains, posted) && q != []
    ensures q[0] in chains && Queued(chains[q[0]], posted)
  {}

  lemma TakenTransferred(chains: map<nat, Chain>, busy: set<nat>, data: map<nat, Bytes>, history: seq<Transfer>, h: nat)
    requires Buffers(chains, busy, data, history) && h in chains
    ensures Transferred(chains[h].(phase := Taken), data, history)
  {}

  lemma FormattedAt(free: seq<bool>, desc: seq<Desc>, ops: seq<Request>, info: seq<Info>, chains: map<nat, Chain>,
                    h: nat)
    requires Descriptors(free, desc, ops, info, chains) && h in chains
    ensures Formatted(desc, ops, info, chains[h])
  {}

  // The device makes a transfer and reports it.
  lemma PerformCore(free: seq<bool>, desc: seq<Desc>, ops: seq<Request>, info: seq<Info>, chains: map<nat, Chain>,
                    posted: seq<nat>, done: seq<nat>, busy: set<nat>, data: map<nat, Bytes>, history: seq<Transfer>,
                    h: nat, bytes: Bytes)
    requires Core(free, desc, ops, info, chains, posted, done, busy, data, history) && h in chains
             && chains[h].phase.Taken?
    requires |info| == NUM && h < NUM
    ensures var c := chains[h];
            Core(free, desc, ops, info[h := info[h].(status := 0)], Moved(chains, h, Done(|history|)), posted,
                 done + [h], busy,
                 data[c.buf := bytes], history + [Transfer(c.buf, c.write, c.sector, bytes)])
  {
    hide Triples, Buffers, Formatted, Descriptors, Waiting, Transferred;
    var c, p := chains[h], Done(|history|);
    var data', history' := data[c.buf := bytes], history + [Transfer(c.buf, c.write, c.sector, bytes)];
    NewTransferred(c, data, history, bytes);
    BufferMoved(chains, busy, data, history, h, p, data', history');
    MovedDescriptors(free, desc, ops, info, chains, h, p);
    WaitSame(posted, chains, true, h, c.(phase := p));
    WaitPush(done, chains, false, h, c.(phase := p));
  }

  // The waiting process frees its chain.
  lemma FinishCore(free: seq<bool>, desc: seq<Desc>, ops: seq<Request>, info: seq<Info>, chains: map<nat, Chain>,
                   posted: seq<nat>, done: seq<nat>, busy: set<nat>, data: map<nat, Bytes>, history: seq<Transfer>,
                   h: nat)
    requires Core(free, desc, ops, info, chains, posted, done, busy, data, history) && h in chains
             && chains[h].buf !in busy
    requires |info| == |free| == |desc| == NUM
    ensures var c := chains[h];
            && c.phase.Seen? && c.phase.k < |history| && c.buf in data
            && history[c.phase.k] == Transfer(c.buf, c.write, c.sector, data[c.buf])
            && h == c.head && Triple(c, h) && !free[c.head] && !free[c.mid] && !free[c.tail]
            && desc[c.head].flags == F_NEXT && desc[c.head].next == c.mid && desc[c.mid].next == c.tail
            && desc[c.mid].flags % 2 == 1 && desc[c.tail].flags == F_WRITE
            && Core(Freed3(free, c), ZeroDescs(desc, c), ops,
                    info[h := info[h].(b := None)], Drop(chains, h), posted, done, busy, data, history)
  {
    hide Triples, Waiting, Freed3, Drop, Buffers, Descriptors, Formatted, ZeroDescs;
    SeenTransferred(chains, busy, data, history, h);
    FinishReads(free, desc, ops, info, chains, h);
    FinishedDescriptors(free, desc, ops, info, chains, h);
    BufferDrop(chains, busy, data, history, h);
    WaitDrop(posted, chains, true, h);
    WaitDrop(done, chains, false, h);
  }

  // What the device reads when it follows a chain.
  lemma DeviceReads(free: seq<bool>, desc: seq<Desc>, ops: seq<Request>, info: seq<Info>, chains: map<nat, Chain>,
                    posted: seq<nat>, done: seq<nat>, busy: set<nat>, data: map<nat, Bytes>, history: seq<Transfer>,
                    h: nat)
    requires Core(free, desc, ops, info, chains, posted, done, busy, data, history) && h in chains
    ensures var c := chains[h];
            && |desc| == |ops| == |info| == NUM && c.head == h < NUM && c.mid < NUM && c.tail < NUM && c.buf in data
            && desc[h] == Desc(Header(h), 16, F_NEXT, c.mid) && desc[c.tail] == Desc(Status(h), 1, F_WRITE, 0)
            && desc[c.mid] == Desc(Data(c.buf), BSIZE, if c.write then F_NEXT else F_WRITE + F_NEXT, c.tail)
            && ops[h] == Request(if c.write then T_OUT else T_IN, c.sector)
  {
    hide Triples, Waiting, Descriptors, Buffers;
    ChainAt(free, chains, h);
    FormattedAt(free, desc, ops, info, chains, h);
    TakenTransferred(chains, busy, data, history, h);
  }

  // One new request, posted.
  ghost predicate Adds(chains: map<nat, Chain>, chains': map<nat, Chain>, h: nat, b: nat, write: bool, sector: nat) {
    h !in chains && exists mid, tail :: chains' == chains[h := Chain(h, mid, tail, b, write, sector, Posted)]
  }

  lemma AddsOne(chains: map<nat, Chain>, c: Chain)
    requires c.head !in chains && c.phase.Posted?
    ensures Adds(chains, chains[c.head := c], c.head, c.buf, c.write, c.sector)
  {}

  class Disk {
    var free: seq<bool>
    var desc: seq<Desc>
    var ops: seq<Request>
    var info: seq<Info>
    var availRing: seq<nat>
    var availIdx: nat
    var usedRing: seq<nat>
    var usedDev: nat                 // used->idx, which the device advances
    var usedIdx: nat                 // how far the driver has looked
    var availDev: nat                // how far the device has looked
    var busy: set<nat>               // the buffers with b->disk set
    var data: map<nat, Bytes>        // b->data
    var store: Medium
    ghost var chains: map<nat, Chain>
    ghost var posted: seq<nat>
    ghost var done: seq<nat>
    ghost var ntaken: nat            // what availDev and usedIdx would be without wrapping
    ghost var nseen: nat
    ghost var history: seq<Transfer>

    ghost predicate Valid()
      reads this
    {
      && Core(free, desc, ops, info, chains, posted, done, busy, data, history)
      && Ring(availRing, ntaken, posted) && availIdx == Low16(ntaken + |posted|) && availDev == Low16(ntaken)
      && Ring(usedRing, nseen, done) && usedDev == Low16(nseen + |done|) && usedIdx == Low16(nseen)
    }

    constructor (data: map<nat, Bytes>, store: Medium)
      ensures Valid() && chains == map[] && this.data == data && this.store == store && history == []
    {
      free, desc := seq(NUM, _ => true), seq(NUM, _ => Zeroed());
      ops, info := seq(NUM, _ => Request(0, 0)), seq(NUM, _ => Info(None, 0));
      availRing, usedRing, availIdx, availDev, usedDev, usedIdx := seq(NUM, _ => 0), seq(NUM, _ => 0), 0, 0, 0, 0;
      busy, chains, posted, done, ntaken, nseen, history := {}, map[], [], [], 0, 0, [];
      this.data, this.store := data, store;
    }

    method AllocDesc() returns (i: int)
      requires |free| == NUM
      modifies this`free
      ensures -1 <= i < NUM
      ensures i == -1 ==> free == old(free) && forall k :: 0 <= k < NUM ==> !free[k]
      ensures i >= 0 ==> old(free)[i] && free == old(free)[i := false] && forall k :: 0 <= k < i ==> !old(free)[k]
    {
      i := 0;
      while i < NUM
        invariant 0 <= i <= NUM && free == old(free) && forall k :: 0 <= k < i ==> !free[k]
      {
        if free[i] {
          free := free[i := false];
          return;
        }
        i := i + 1;
      }
      i := -1;
    }

    // Both panics of free_desc are ruled out by its callers.
    method FreeDesc(i: nat)
      requires |free| == |desc| == NUM && i < NUM && !free[i]
      modifies this`free, this`desc
      ensures free == old(free)[i := true] && desc == old(desc)[i := Zeroed()]
    {
      desc := desc[i := Desc(Null, 0, 0, 0)];
      free := free[i := true];
    }

    method FreeChain(c0: nat, ghost c: Chain)
      requires |free| == |desc| == NUM && c0 == c.head && Triple(c, c.head) && !free[c.head] && !free[c.mid]
               && !free[c.tail]
      requires desc[c.head].flags == F_NEXT && desc[c.head].next == c.mid && desc[c.mid].next == c.tail
      requires desc[c.mid].flags % 2 == 1 && desc[c.tail].flags == F_WRITE
      modifies this`free, this`desc
      ensures free == Freed3(old(free), c) && desc == ZeroDescs(old(desc), c)
    {
      var i := c0;
      ghost var n := 0;
      while true
        invariant 0 <= n <= 2 && |free| == |desc| == NUM
                  && i == (if n == 0 then c.head else if n == 1 then c.mid else c.tail)
        invariant n == 0 ==> free == old(free) && desc == old(desc)
        invariant n == 1 ==> free == old(free)[c.head := true] && desc == old(desc)[c.head := Zeroed()]
        invariant n == 2 ==>
                    free == old(free)[c.head := true][c.mid := true]
                    && desc == old(desc)[c.head := Zeroed()][c.mid := Zeroed()]
        decreases 2 - n
      {
        var flag, nxt := desc[i].flags, desc[i].next;
        FreeDesc(i);
        if flag % 2 == 1 { i := nxt; } else { break; }
        n := n + 1;
      }
    }

    // Three descriptors, or none when fewer are free.
    method Alloc3() returns (ok: bool, idx: seq<nat>)
      requires |free| == |desc| == NUM && forall i :: 0 <= i < NUM && free[i] ==> desc[i] == Zeroed()
      modifies this`free, this`desc
      ensures desc == old(desc)
      ensures !ok ==> free == old(free) && Taken8(free) >= 6
      ensures ok ==> |idx| == 3 && Distinct(idx) && (forall j :: 0 <= j < 3 ==> idx[j] < NUM && old(free)[idx[j]])
      ensures ok ==> free == TakeAll(old(free), idx)
    {
      idx := [];
      var i := 0;
      while i < 3
        invariant 0 <= i <= 3 && |idx| == i && Distinct(idx) && desc == old(desc) && free == TakeAll(old(free), idx)
        invariant forall j :: 0 <= j < i ==> idx[j] < NUM && old(free)[idx[j]]
        invariant Taken8(free) == Taken8(old(free)) + i
      {
        var d := AllocDesc();
        if d < 0 {
          AllTakenCount(free);
          GiveBack(idx, old(free));
          return false, idx;
        }
        TakeAllAt(old(free), idx, d);
        TakeOne(old(free), idx, d);
        idx := idx + [d];
        i := i + 1;
      }
      ok := true;
    }

    // The clean-up loop of alloc3_desc.
    method GiveBack(idx: seq<nat>, ghost before: seq<bool>)
      requires |before| == |free| == |desc| == NUM && Distinct(idx) && free == TakeAll(before, idx)
      requires forall j :: 0 <= j < |idx| ==> idx[j] < NUM && before[idx[j]] && desc[idx[j]] == Zeroed()
      modifies this`free, this`desc
      ensures free == before && desc == old(desc)
    {
      var j := 0;
      forall i: nat | i < NUM ensures free[i] <==> before[i] && i !in idx[0..] {
        TakeAllAt(before, idx, i);
        assert idx[0..] == idx;
      }
      while j < |idx|
        invariant 0 <= j <= |idx| && |free| == NUM && desc == old(desc)
        invariant forall i: nat :: i < NUM ==> (free[i] <==> before[i] && i !in idx[j..])
      {
        assert idx[j..] == [idx[j]] + idx[j + 1..];
        assert idx[j] !in idx[j + 1..];
        FreeDesc(idx[j]);
        assert desc == old(desc);
        j := j + 1;
      }
    }
  
    // virtio_disk_rw up to its wait: format three descriptors and post their head. None says that it sleeps for
    // descriptors. The caller holds the buffer's lock, so no request for b is in flight.
    method Start(b: nat, blockno: nat, write: bool) returns (head: Option<nat>)
      requires Valid() && b in data && forall h :: h in chains ==> chains[h].buf != b
      modifies this`free, this`desc, this`ops, this`info, this`availRing, this`availIdx, this`busy, this`chains,
               this`posted
      ensures Valid()
      ensures head.None? <==> |old(chains)| == 2
      ensures head.None? ==> chains == old(chains) && busy == old(busy) && posted == old(posted)
      ensures head.Some? ==> busy == old(busy) + {b} && posted == old(posted) + [head.value]
      ensures head.Some? ==> Adds(old(chains), chains, head.value, b, write, Sector(blockno))
    {
      hide Core, Ring, Low16, Adds, Sector;
      ghost var q := posted;
      head := Prepare(b, Sector(blockno), write);
      if head.Some? { PostHead(head.value, q); }
    }

    // Allocation and formatting; the new request counts as posted from here on.
    method Prepare(b: nat, sector: nat, write: bool) returns (head: Option<nat>)
      requires Core(free, desc, ops, info, chains, posted, done, busy, data, history)
      requires b in data && forall h :: h in chains ==> chains[h].buf != b
      modifies this`free, this`desc, this`ops, this`info, this`busy, this`chains, this`posted
      ensures Core(free, desc, ops, info, chains, posted, done, busy, data, history)
      ensures head.None? <==> |old(chains)| == 2
      ensures head.None? ==> chains == old(chains) && busy == old(busy) && posted == old(posted)
      ensures head.Some? ==> busy == old(busy) + {b} && |old(posted)| <= 2 && posted == old(posted) + [head.value]
      ensures head.Some? ==> Adds(old(chains), chains, head.value, b, write, sector)
    {
      hide Core, TakeAll, Distinct, Triple, Taken3, WriteDescs, Taken8, Adds;
      CoreSizes(free, desc, ops, info, chains, posted, done, busy, data, history);
      ghost var was := free;
      var ok, idx := Alloc3();
      if !ok { return None; }
      var i0, i1, i2 := idx[0], idx[1], idx[2];
      ghost var c := Chain(i0, i1, i2, b, write, sector, Posted);
      ThreeTaken(was, idx, c);
      PostCore(was, desc, ops, info, chains, posted, done, busy, data, history, c);
      AddsOne(chains, c);
      Format(i0, i1, i2, b, sector, write, c);
      posted, chains := posted + [i0], chains[i0 := c];
      head := Some(i0);
    }

    // A head enters the available ring: no slot is overwritten that the device has yet to read.
    method PostHead(h: nat, ghost q: seq<nat>)
      requires Ring(availRing, ntaken, q) && |q| <= 2 && availIdx == Low16(ntaken + |q|)
      modifies this`availRing, this`availIdx
      ensures Ring(availRing, ntaken, q + [h]) && availIdx == Low16(ntaken + |q + [h]|)
    {
      RingPush(availRing, ntaken, q, h);
      SlotOfCounter(ntaken + |q|);
      availRing := availRing[availIdx % NUM := h];
      availIdx := Next16(availIdx);
    }

    // The next head in the available ring, for the device.
    method ReadAvail() returns (h: nat)
      requires Ring(availRing, ntaken, posted) && posted != [] && availDev == Low16(ntaken)
      modifies this`availDev
      ensures h == posted[0] && availDev == Low16(ntaken + 1) && Ring(availRing, ntaken + 1, posted[1..])
    {
      RingPop(availRing, ntaken, posted);
      SlotOfCounter(ntaken);
      h := availRing[availDev % NUM];
      availDev := Next16(availDev);
    }

    // The next head in the used ring, for the driver.
    method ReadUsed() returns (h: nat)
      requires Ring(usedRing, nseen, done) && done != [] && usedIdx == Low16(nseen)
      modifies this`usedIdx
      ensures h == done[0] && usedIdx == Low16(nseen + 1) && Ring(usedRing, nseen + 1, done[1..])
    {
      RingPop(usedRing, nseen, done);
      SlotOfCounter(nseen);
      h := usedRing[usedIdx % NUM];
      usedIdx := Next16(usedIdx);
    }

    // A head enters the used ring: no slot is overwritten that the driver has yet to read.
    method PushUsed(h: nat, ghost q: seq<nat>)
      requires Ring(usedRing, nseen, q) && |q| <= 2 && usedDev == Low16(nseen + |q|)
      modifies this`usedRing, this`usedDev
      ensures Ring(usedRing, nseen, q + [h]) && usedDev == Low16(nseen + |q + [h]|)
    {
      RingPush(usedRing, nseen, q, h);
      SlotOfCounter(nseen + |q|);
      usedRing := usedRing[usedDev % NUM := h];
      usedDev := Next16(usedDev);
    }

    // The device moves the bytes of a request. It asks for a header of 16 bytes, a buffer that it may write exactly for
    // a read, and a status byte that it may write, one after the other.
    method MoveBytes(d0: Desc, d1: Desc, d2: Desc, op: Request) returns (ghost bytes: Bytes)
      requires d0.len == 16 && d0.flags % 2 == 1 && d1.len == 1024 && d1.flags % 2 == 1 && d2.len == 1
      requires d2.flags % 2 == 0 && d2.flags / 2 % 2 == 1
      requires (op.kind == 0 && d1.flags / 2 % 2 == 1) || (op.kind == 1 && d1.flags / 2 % 2 == 0)
      requires d1.addr.Data? && d1.addr.b in data
      modifies this`data, this`store
      ensures bytes == if op.kind == 1 then old(data[d1.addr.b]) else OnMedium(old(store), op.sector * 512, 1024)
      ensures data == old(data)[d1.addr.b := bytes]
              && store == if op.kind == 1 then Put(old(store), op.sector * 512, bytes) else old(store)
    {
      var b := d1.addr.b;
      bytes := if op.kind == 1 then data[b] else OnMedium(store, op.sector * 512, d1.len);
      if op.kind == 1 {
        store := Put(store, op.sector * 512, data[b]);
        assert data[b := bytes] == data;
      } else {
        data := data[b := OnMedium(store, op.sector * 512, d1.len)];
      }
    }

    // The assignments that format the three descriptors of a request.
    method Format(i0: nat, i1: nat, i2: nat, b: nat, sector: nat, write: bool, ghost c: Chain)
      requires |desc| == |ops| == |info| == NUM && i0 < NUM && i1 < NUM && i2 < NUM
               && c == Chain(i0, i1, i2, b, write, sector, Posted)
      modifies this`desc, this`ops, this`info, this`busy
      ensures desc == WriteDescs(old(desc), c) && ops == old(ops)[i0 := Request(if write then T_OUT else T_IN, sector)]
      ensures info == old(info)[i0 := Info(Some(b), 0xff)] && busy == old(busy) + {b}
    {
      ops := ops[i0 := Request(if write then T_OUT else T_IN, sector)];
      desc := desc[i0 := Desc(Header(i0), 16, F_NEXT, i1)];
      desc := desc[i1 := Desc(Data(b), BSIZE, if write then F_NEXT else F_WRITE + F_NEXT, i2)];
      info := info[i0 := info[i0].(status := 0xff)];
      desc := desc[i2 := Desc(Status(i0), 1, F_WRITE, 0)];
      busy := busy + {b};
      info := info[i0 := info[i0].(b := Some(b))];
    }

    // virtio_disk_rw after its wait: by then the device has made the transfer, and b holds its bytes.
    method Finish(h: nat)
      requires Valid() && h in chains && chains[h].buf !in busy
      modifies this`free, this`desc, this`info, this`chains
      ensures Valid() && chains == Drop(old(chains), h)
      ensures var c := old(chains)[h];
              && c.phase.Seen? && c.buf in data && c.phase.k < |history|
              && history[c.phase.k] == Transfer(c.buf, c.write, c.sector, data[c.buf])
    {
      hide Core, Ring, Freed3, Drop, Low16, ZeroDescs;
      ghost var c := chains[h];
      CoreSizes(free, desc, ops, info, chains, posted, done, busy, data, history);
      FinishCore(free, desc, ops, info, chains, posted, done, busy, data, history, h);
      info := info[h := info[h].(b := None)];
      FreeChain(h, c);
      chains := Drop(chains, h);
    }

    // One turn of the loop of virtio_disk_intr, for an entry of the used ring.
    method IntrOne() returns (b: nat)
      requires Valid() && usedIdx != usedDev
      modifies this`usedIdx, this`busy, this`chains, this`done, this`nseen
      ensures Valid() && SeesFirst(old(chains), chains, old(done), done, old(busy), busy, b)
    {
      hide Core, Ring, Low16, Moved;
      assert done != [];
      SeeCore(free, desc, ops, info, chains, posted, done, busy, data, history);
      ghost var h := done[0];
      var id := ReadUsed();
      assert info[id].status == 0;    // no panic
      b := info[id].b.value;
      busy := busy - {b};
      chains, done, nseen := Moved(chains, h, Seen(chains[h].phase.k)), done[1..], nseen + 1;
    }

    // The whole interrupt, when the device adds nothing meanwhile.
    method Intr()
      requires Valid()
      modifies this`usedIdx, this`busy, this`chains, this`done, this`nseen
      ensures Valid() && done == [] && usedIdx == usedDev
      ensures forall h :: h in chains ==> !chains[h].phase.Done?
    {
      hide Core, Ring, Low16;
      while usedIdx != usedDev
        invariant Valid()
        decreases |done|
      {
        var _ := IntrOne();
      }
      CoreSizes(free, desc, ops, info, chains, posted, done, busy, data, history);
      SameCounter(nseen, |done|);
      NoneDone(free, desc, ops, info, chains, posted, done, busy, data, history);
    }

    // The device takes the next request from the available ring.
    method DeviceTake() returns (h: nat)
      requires Valid() && availDev != availIdx
      modifies this`availDev, this`chains, this`posted, this`ntaken
      ensures Valid() && old(posted) != [] && h == old(posted)[0] && posted == old(posted)[1..]
      ensures h in old(chains) && old(chains)[h].phase.Posted? && chains == Moved(old(chains), h, Taken)
    {
      hide Core, Ring, Low16;
      assert posted != [];
      TakeCore(free, desc, ops, info, chains, posted, done, busy, data, history);
      h := ReadAvail();
      chains, posted, ntaken := Moved(chains, h, Taken), posted[1..], ntaken + 1;
    }

    // The holder of a buffer that no request is out for changes its bytes.
    method Fill(b: nat, bytes: Bytes)
      requires Valid() && b in data && forall h :: h in chains ==> chains[h].buf != b
      modifies this`data
      ensures Valid() && data == old(data)[b := bytes]
    {
      hide Triples, Descriptors, Waiting, Ring, Low16;
      data := data[b := bytes];
    }

    // The device follows the chain it took at h, in any order among those it took.
    method DevicePerform(h: nat)
      requires Valid() && h in chains && chains[h].phase.Taken?
      modifies this`data, this`store, this`info, this`usedRing, this`usedDev, this`chains, this`done, this`history
      ensures Valid() && chains == Moved(old(chains), h, Done(|old(history)|)) && done == old(done) + [h]
      ensures Effect(old(chains)[h], old(data), data, old(store), store, old(history), history)
    {
      hide Core, Ring, Moved, OnMedium, Put, Low16;
      ghost var q := done;
      DeviceTransfer(h);
      PushUsed(h, q);
    }

    // The device follows the descriptors: header, data, status.
    method DeviceTransfer(h: nat)
      requires Core(free, desc, ops, info, chains, posted, done, busy, data, history) && h in chains
               && chains[h].phase.Taken?
      modifies this`data, this`store, this`info, this`chains, this`done, this`history
      ensures Core(free, desc, ops, info, chains, posted, done, busy, data, history)
      ensures chains == Moved(old(chains), h, Done(|old(history)|)) && |old(done)| <= 2 && done == old(done) + [h]
      ensures Effect(old(chains)[h], old(data), data, old(store), store, old(history), history)
    {
      hide Core, Moved, OnMedium, Put;
      ghost var c, before := chains[h], data;
      CoreSizes(free, desc, ops, info, chains, posted, done, busy, data, history);
      DeviceReads(free, desc, ops, info, chains, posted, done, busy, data, history, h);
      var d0 := desc[h];
      var d1 := desc[d0.next];
      var d2 := desc[d1.next];
      var op := ops[d0.addr.i];
      ghost var bytes := MoveBytes(d0, d1, d2, op);
      PerformCore(free, desc, ops, info, chains, posted, done, busy, before, history, h, bytes);
      info := info[d2.addr.i := info[d2.addr.i].(status := 0)];
      chains, done := Moved(chains, h, Done(|history|)), done + [h];
      history := history + [Transfer(c.buf, c.write, c.sector, bytes)];
    }
  }

  // The oldest completion is seen: its own buffer's flag is cleared, and no other.
  ghost predicate SeesFirst(chains: map<nat, Chain>, chains': map<nat, Chain>, done: seq<nat>, done': seq<nat>,
                            busy: set<nat>, busy': set<nat>, b: nat) {
    && done != [] && done' == done[1..] && done[0] in chains && chains[done[0]].phase.Done?
    && chains' == Moved(chains, done[0], Seen(chains[done[0]].phase.k))
    && b == chains[done[0]].buf && busy' == busy - {b}
  }

  // The request c, carried out: the buffer's bytes go to the medium, or the medium's to the buffer.
  ghost predicate Effect(c: Chain, data: map<nat, Bytes>, data': map<nat, Bytes>, store: Medium, store': Medium,
                         history: seq<Transfer>, history': seq<Transfer>) {
    && c.buf in data
    && var bytes := if c.write then data[c.buf] else OnMedium(store, c.sector * SECTOR, BSIZE);
       && data' == data[c.buf := bytes]
       && store' == (if c.write then Put(store, c.sector * SECTOR, bytes) else store)
       && history' == history + [Transfer(c.buf, c.write, c.sector, bytes)]
  }

  function ByteAt(store: Medium, a: nat): (r: int) { if a in store then store[a] else 0 }

  // The n bytes from address `at` on.
  function OnMedium(store: Medium, at: nat, n: nat): (r: seq<int>)
    ensures |r| == n
  {
    seq(n, k requires 0 <= k => ByteAt(store, at + k))
  }

  predicate Covers(at: nat, n: nat, a: nat) { at <= a < at + n }

  function Span(at: nat, n: nat): (r: set<nat>) { set a: nat | a < at + n && Covers(at, n, a) }

  function Put(store: Medium, at: nat, bytes: seq<int>): (r: Medium) {
    map a | a in store.Keys + Span(at, |bytes|) :: if Covers(at, |bytes|, a) then bytes[a - at] else store[a]
  }

  lemma PutBytes(store: Medium, at: nat, bytes: seq<int>, a: nat)
    ensures ByteAt(Put(store, at, bytes), a) == if at <= a < at + |bytes| then bytes[a - at] else ByteAt(store, a)
  {}

  // Sixteen bits tell apart counters that are at most two apart.
  lemma SameCounter(n: nat, k: nat)
    requires k <= 2 && Low16(n) == Low16(n + k)
    ensures k == 0
  {}

  lemma NoneDone(free: seq<bool>, desc: seq<Desc>, ops: seq<Request>, info: seq<Info>, chains: map<nat, Chain>,
                 posted: seq<nat>, done: seq<nat>, busy: set<nat>, data: map<nat, Bytes>, history: seq<Transfer>)
    requires Core(free, desc, ops, info, chains, posted, done, busy, data, history) && done == []
    ensures forall h :: h in chains ==> !chains[h].phase.Done?
  {}

  // Distinct free descriptors make a triple, and taking them one by one takes the triple.
  lemma ThreeTaken(free: seq<bool>, idx: seq<nat>, c: Chain)
    requires |free| == NUM && |idx| == 3 && Distinct(idx) && forall j :: 0 <= j < 3 ==> idx[j] < NUM && free[idx[j]]
    requires c.head == idx[0] && c.mid == idx[1] && c.tail == idx[2]
    ensures Triple(c, c.head) && free[c.head] && free[c.mid] && free[c.tail] && TakeAll(free, idx) == Taken3(free, c)
  {
    forall i: nat | i < NUM ensures TakeAll(free, idx)[i] == Taken3(free, c)[i] {
      TakeAllAt(free, idx, i);
      Taken3At(free, c, i);
      assert idx == [idx[0], idx[1], idx[2]];
    }
  }

  lemma RoomForOne(free: seq<bool>, chains: map<nat, Chain>, c: Chain)
    requires Triples(free, chains) && Triple(c, c.head) && free[c.head] && free[c.mid] && free[c.tail]
    ensures |chains| <= 1
  {
    WithChain(free, chains, c);
    AtMostTwo(Taken3(free, c), chains[c.head := c]);
    assert |chains[c.head := c]| == |chains| + 1;
  }

  lemma InfoAt(desc: seq<Desc>, ops: seq<Request>, info: seq<Info>, c: Chain)
    requires Formatted(desc, ops, info, c)
    ensures c.head < NUM && |info| == NUM && info[c.head] == Info(Some(c.buf), StatusOf(c.phase))
  {}

  lemma DoneTransferred(chains: map<nat, Chain>, busy: set<nat>, data: map<nat, Bytes>, history: seq<Transfer>, h: nat)
    requires Buffers(chains, busy, data, history) && h in chains && chains[h].phase.Done?
    ensures Transferred(chains[h].(phase := Seen(chains[h].phase.k)), data, history)
  {}

  lemma SeenTransferred(chains: map<nat, Chain>, busy: set<nat>, data: map<nat, Bytes>, history: seq<Transfer>, h: nat)
    requires Buffers(chains, busy, data, history) && h in chains && chains[h].buf !in busy
    ensures var c := chains[h];
            c.phase.Seen? && c.buf in data && c.phase.k < |history|
                && history[c.phase.k] == Transfer(c.buf, c.write, c.sector, data[c.buf])
  {}

  lemma FinishReads(free: seq<bool>, desc: seq<Desc>, ops: seq<Request>, info: seq<Info>, chains: map<nat, Chain>,
                    h: nat)
    requires Triples(free, chains) && Descriptors(free, desc, ops, info, chains) && h in chains
    ensures var c := chains[h];
            && |free| == |desc| == |info| == NUM && h == c.head && Triple(c, h) && !free[c.head] && !free[c.mid]
            && !free[c.tail]
            && desc[c.head].flags == F_NEXT && desc[c.head].next == c.mid && desc[c.mid].next == c.tail
            && desc[c.mid].flags % 2 == 1 && desc[c.tail].flags == F_WRITE
  {
    hide Triples;
    AllTaken(free, chains, h);
    ChainAt(free, chains, h);
    assert Formatted(desc, ops, info, chains[h]);
  }
}
