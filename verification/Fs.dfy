/**
 The block allocator, the block map of an inode and its contents (kernel/fs.c: balloc, bfree, bmap,
 itrunc, readi, writei). `logged` collects the blocks handed to log_write.
 */
module Fs {
  import opened FsOwn
  import Disk

  const BPB: nat := 8192   // bitmap bits per block
  const IPB: nat := 16     // inodes per block

  // Where the nth block number of a file is stored.
  function SlotOf(n: nat, bn: nat): (r: Slot) {
    if bn < NDIRECT then Direct(n, bn) else Ind(n, bn - NDIRECT)
  }

  predicate IsData(s: Slot) {
    !s.IndPtr?
  }

  // Blocks that hold file data keep their place and their contents.
  ghost predicate DataSame(st: St, st': St) {
    forall s :: IsData(s) && Val(st, s) != 0 ==>
      Val(st', s) == Val(st, s) && At(st', Val(st, s)) == At(st, Val(st, s))
  }

  lemma DataSameTrans(a: St, b: St, c: St)
    requires DataSame(a, b) && DataSame(b, c)
    ensures DataSame(a, c)
  {}

  function AddrSlot(n: nat, i: nat): (r: Slot) {
    if i < NDIRECT then Direct(n, i) else IndPtr(n)
  }

  function SetAddr(st: St, n: nat, i: nat, b: nat): (r: St)
    requires n in st.inodes && i <= NDIRECT
  {
    var a: Addrs := st.inodes[n].addrs[i := b];
    st.(inodes := st.inodes[n := st.inodes[n].(addrs := a)])
  }

  // Storing the number of a zeroed block in an empty address of inode n.
  lemma SetAddrVals(st: St, n: nat, i: nat, b: nat)
    requires n in st.inodes && i <= NDIRECT && st.inodes[n].addrs[i] == 0 && b != 0 && At(st, b) == Zero()
    ensures Val(SetAddr(st, n, i, b), AddrSlot(n, i)) == b
    ensures forall t :: t != AddrSlot(n, i) ==> Val(SetAddr(st, n, i, b), t) == Val(st, t)
  {}

  function SetInd(st: St, n: nat, j: nat, b: nat): (r: St)
    requires n in st.inodes && j < NINDIRECT && st.inodes[n].addrs[NDIRECT] < |st.blocks|
  {
    var p := st.inodes[n].addrs[NDIRECT];
    st.(blocks := st.blocks[p := PutWord(st.blocks[p], j, b)])
  }

  // Storing a block number in entry j of the indirect block of inode n.
  lemma SetIndVals(st: St, n: nat, j: nat, b: nat)
    requires Own(st) && n in st.inodes && j < NINDIRECT && st.inodes[n].addrs[NDIRECT] != 0
    ensures st.inodes[n].addrs[NDIRECT] < |st.blocks|
    ensures Val(SetInd(st, n, j, b), Ind(n, j)) == b
    ensures forall t :: t != Ind(n, j) ==> Val(SetInd(st, n, j, b), t) == Val(st, t)
  {
    var p := st.inodes[n].addrs[NDIRECT];
    assert Val(st, IndPtr(n)) == p;
    SlotInUse(st, IndPtr(n));
    var st' := SetInd(st, n, j, b);
    PutWordMeaning(st.blocks[p], j, b, j);
    forall t | t != Ind(n, j) ensures Val(st', t) == Val(st, t) {
      if t.inum == n && t.Ind? && t.j < NINDIRECT {
        PutWordMeaning(st.blocks[p], j, b, t.j);
      } else if t.inum != n {
        NoSharing(st, IndPtr(n), IndPtr(t.inum));
      }
    }
  }

  // Data blocks survive when the only blocks written are one that no slot named and indirect blocks.
  lemma DataKept(st: St, st': St, b: nat)
    requires Own(st) && |st'.blocks| == |st.blocks|
    requires forall s :: Val(st, s) != b
    requires forall s :: IsData(s) && Val(st, s) != 0 ==> Val(st', s) == Val(st, s)
    requires forall c :: 0 <= c < |st.blocks| && c != b && st'.blocks[c] != st.blocks[c] ==>
               exists n :: Val(st, IndPtr(n)) == c
    ensures DataSame(st, st')
  {
    forall s | IsData(s) && Val(st, s) != 0
      ensures Val(st', s) == Val(st, s) && At(st', Val(st, s)) == At(st, Val(st, s))
    {
      var c := Val(st, s);
      SlotInUse(st, s);
      if st'.blocks[c] != st.blocks[c] {
        var n :| Val(st, IndPtr(n)) == c;
        NoSharing(st, s, IndPtr(n));
      }
    }
  }

  // The blocks of a bitmap of n bits.
  ghost function MapBlocks(bmapstart: nat, n: nat): (r: set<nat>) {
    set c: nat | c < n :: bmapstart + c / BPB
  }

  // itrunc logs the inode's block and bitmap blocks only: two blocks on a disk whose bitmap is one block.
  lemma TruncateLogs(bmapstart: nat, n: nat, ib: nat, lg: set<nat>, lg': set<nat>)
    requires lg' <= lg + MapBlocks(bmapstart, n) + {ib} && n <= BPB
    ensures |lg' - lg| <= 2
  {
    assert lg' - lg <= {bmapstart, ib};
    SubsetCard(lg' - lg, {bmapstart, ib});
  }

  // Every bit and every block that changed is among the logged blocks.
  ghost predicate Framed(o: St, st: St, bmapstart: nat, lg: set<nat>) {
    && |st.bitmap| == |o.bitmap| && |st.blocks| == |o.blocks|
    && (forall c :: 0 <= c < |o.bitmap| && st.bitmap[c] != o.bitmap[c] ==> bmapstart + c / BPB in lg)
    && (forall b :: 0 <= b < |o.blocks| && st.blocks[b] != o.blocks[b] ==> b in lg)
  }

  // The same, and every inode that changed is in a logged block.
  ghost predicate Kept(o: St, st: St, bmapstart: nat, inodestart: nat, lg: set<nat>) {
    && Framed(o, st, bmapstart, lg) && st.inodes.Keys == o.inodes.Keys
    && forall m :: m in o.inodes && st.inodes[m] != o.inodes[m] ==> inodestart + m / IPB in lg
  }

  lemma FramedTrans(a: St, b: St, c: St, bmapstart: nat, lg: set<nat>, lg': set<nat>)
    requires Framed(a, b, bmapstart, lg) && Framed(b, c, bmapstart, lg') && lg <= lg'
    ensures Framed(a, c, bmapstart, lg')
  {}

  lemma FramedSame(a: St, b: St, bmapstart: nat, lg: set<nat>)
    requires b.bitmap == a.bitmap && b.blocks == a.blocks
    ensures Framed(a, b, bmapstart, lg)
  {}

  class FileSystem {
    const nmeta: nat
    const bmapstart: nat
    const inodestart: nat
    var bitmap: seq<bool>
    var blocks: seq<Block>
    var inodes: map<nat, Inode>
    ghost var owner: map<nat, Slot>
    ghost var loose: set<nat>
    ghost var logged: set<nat>

    // mkfs: metadata blocks in use, everything else free, no file owns a block.
    constructor (nmeta: nat, bmapstart: nat, inodestart: nat, size: nat, inums: set<nat>)
      requires 1 <= nmeta <= size
      ensures Own(S()) && loose == {} && bitmap == seq(size, i => i < nmeta)
      ensures inodes.Keys == inums && Files(S()) && forall n :: n in inums ==> Bytes(S(), n) == []
    {
      this.nmeta, this.bmapstart, this.inodestart := nmeta, bmapstart, inodestart;
      bitmap := seq(size, i => i < nmeta);
      blocks := seq(size, _ => Zero());
      inodes := map n | n in inums :: Inode(0, seq(NDIRECT + 1, _ => 0));
      owner, loose, logged := map[], {}, {};
    }

    ghost function S(): (st: St)
      reads this
    {
      St(nmeta, bitmap, blocks, inodes, owner, loose)
    }

    // balloc: the lowest free block, zeroed, or 0 when the disk is full.
    method Balloc() returns (r: nat)
      requires Own(S())
      modifies this`bitmap, this`blocks, this`loose, this`logged
      ensures Own(S())
      ensures r == 0 ==> S() == old(S()) && logged == old(logged) && forall c :: 0 <= c < |bitmap| ==> bitmap[c]
      ensures r != 0 ==> r < |old(bitmap)| == |old(blocks)| && !old(bitmap)[r] && forall c :: 0 <= c < r ==>
                old(bitmap)[c]
      ensures r != 0 ==> S() == Allocate(old(S()), r) && logged == old(logged) + {bmapstart + r / BPB, r}
    {
      hide BitOk, OwnerOk, SlotOk, Val;
      var b := 0;
      while b < |bitmap|
        invariant 0 <= b && b % BPB == 0
        invariant S() == old(S()) && logged == old(logged)
        invariant forall c :: 0 <= c < b && c < |bitmap| ==> bitmap[c]
      {
        var bi := 0;
        while bi < BPB && b + bi < |bitmap|
          invariant 0 <= bi <= BPB
          invariant S() == old(S()) && logged == old(logged)
          invariant forall c :: 0 <= c < b + bi && c < |bitmap| ==> bitmap[c]
        {
          if !bitmap[b + bi] {
            AllocateOwn(S(), b + bi);
            bitmap := bitmap[b + bi := true];
            logged := logged + {bmapstart + b / BPB};
            assert b / BPB == (b + bi) / BPB;
            blocks := blocks[b + bi := Zero()];
            logged := logged + {b + bi};
            loose := loose + {b + bi};
            return b + bi;
          }
          bi := bi + 1;
        }
        b := b + BPB;
      }
      r := 0;
    }

    // bfree: "freeing free block" cannot happen to a block in use.
    method Bfree(b: nat)
      requires b < |bitmap| && bitmap[b]
      modifies this`bitmap, this`logged
      ensures bitmap == old(bitmap)[b := false] && logged == old(logged) + {bmapstart + b / BPB}
      ensures bmapstart + b / BPB in MapBlocks(bmapstart, |bitmap|)
    {
      bitmap := bitmap[b := false];
      logged := logged + {bmapstart + b / BPB};
    }

    // bmap's "addrs[i] = balloc()", for a direct address or for the indirect block.
    method AllocAddr(n: nat, i: nat) returns (addr: nat)
      requires Own(S()) && loose == {} && n in inodes && i <= NDIRECT && inodes[n].addrs[i] == 0
      modifies this`bitmap, this`blocks, this`inodes, this`owner, this`loose, this`logged
      ensures Own(S()) && loose == {}
      ensures |bitmap| == |old(bitmap)|
      ensures addr == 0 ==> S() == old(S()) && logged == old(logged) && forall c :: 0 <= c < |bitmap| ==> bitmap[c]
      ensures addr != 0 ==>
        && inodes.Keys == old(inodes).Keys
        && inodes == old(inodes)[n := old(inodes)[n].(addrs := inodes[n].addrs)]
        && Val(S(), AddrSlot(n, i)) == addr && At(S(), addr) == Zero()
        && (forall t :: t != AddrSlot(n, i) ==> Val(S(), t) == Val(old(S()), t))
        && DataSame(old(S()), S())
        && logged == old(logged) + {bmapstart + addr / BPB, addr}
      ensures Framed(old(S()), S(), bmapstart, logged)
    {
      hide BitOk, OwnerOk, SlotOk, Val, Own;
      ghost var st0 := S();
      addr := Balloc();
      if addr == 0 { return; }
      AllocateOwn(st0, addr);
      ghost var st1 := S();
      EmptyAddr(st1, n, i);
      SetAddrVals(st1, n, i, addr);
      var a: Addrs := inodes[n].addrs[i := addr];
      inodes := inodes[n := inodes[n].(addrs := a)];
      owner, loose := owner[addr := AddrSlot(n, i)], loose - {addr};
      ghost var st2 := SetAddr(st1, n, i, addr);
      SameVals(st2, S());
      PlaceOwn(st1, S(), addr, AddrSlot(n, i));
      DataKept(st0, S(), addr);
      assert loose == {};
    }

    // bmap's "a[j] = balloc()" in the indirect block.
    method AllocInd(n: nat, j: nat) returns (addr: nat)
      requires Own(S()) && loose == {} && n in inodes && j < NINDIRECT && inodes[n].addrs[NDIRECT] != 0
      requires Val(S(), Ind(n, j)) == 0
      modifies this`bitmap, this`blocks, this`owner, this`loose, this`logged
      ensures Own(S()) && loose == {}
      ensures |bitmap| == |old(bitmap)|
      ensures addr == 0 ==> S() == old(S()) && logged == old(logged) && forall c :: 0 <= c < |bitmap| ==> bitmap[c]
      ensures addr != 0 ==>
        && Val(S(), Ind(n, j)) == addr && At(S(), addr) == Zero()
        && (forall t :: t != Ind(n, j) ==> Val(S(), t) == Val(old(S()), t))
        && DataSame(old(S()), S())
        && logged == old(logged) + {bmapstart + addr / BPB, addr, inodes[n].addrs[NDIRECT]}
      ensures Framed(old(S()), S(), bmapstart, logged)
    {
      hide BitOk, OwnerOk, SlotOk, Val, Own;
      ghost var st0 := S();
      addr := Balloc();
      if addr == 0 { return; }
      AllocateOwn(st0, addr);
      ghost var st1 := S();
      SetIndVals(st1, n, j, addr);
      var p := inodes[n].addrs[NDIRECT];
      PtrVal(st0, n);
      blocks := blocks[p := PutWord(blocks[p], j, addr)];
      logged := logged + {p};
      owner, loose := owner[addr := Ind(n, j)], loose - {addr};
      SameVals(SetInd(st1, n, j, addr), S());
      PlaceOwn(st1, S(), addr, Ind(n, j));
      DataKept(st0, S(), addr);
      assert loose == {};
    }

    // bmap above the direct blocks: the indirect block is allocated if need be, then its entry.
    method BmapInd(n: nat, j: nat) returns (addr: nat, ghost maps: set<nat>)
      requires Own(S()) && loose == {} && n in inodes && j < NINDIRECT
      modifies this`bitmap, this`blocks, this`inodes, this`owner, this`loose, this`logged
      ensures Own(S()) && MapDid(old(S()), S(), n, Ind(n, j), addr)
      ensures Footprint(old(S()), S(), old(logged), logged, maps, n, Ind(n, j), addr)
      ensures Framed(old(S()), S(), bmapstart, logged)
    {
      hide Own, Val, Framed;
      FramedSame(S(), S(), bmapstart, logged);
      maps := {};
      ghost var st0 := S();
      DataSameRefl(st0);
      AddrVals(st0, n);
      if inodes[n].addrs[NDIRECT] == 0 {
        EmptyInd(st0, n, j);
        addr := AllocAddr(n, NDIRECT);
        if addr == 0 { return; }
        maps := {bmapstart + addr / BPB};
      }
      ghost var st1, lg1 := S(), logged;
      AddrVals(st1, n);
      IndVal(st1, n, j);
      addr := Word(blocks[inodes[n].addrs[NDIRECT]], j);
      if addr == 0 {
        addr := AllocInd(n, j);
        FramedTrans(st0, st1, S(), bmapstart, lg1, logged);
        DataSameTrans(st0, st1, S());
        AddrVals(S(), n);
        if addr != 0 { maps := maps + {bmapstart + addr / BPB}; }
      }
    }

    // bmap: the disk block of the bn'th block of a file, allocating it (and the indirect block) if
    // need be; 0 when the disk is full. `maps` are the bitmap blocks that were changed.
    method Bmap(n: nat, bn: nat) returns (addr: nat, ghost maps: set<nat>)
      requires Own(S()) && loose == {} && n in inodes && bn < MAXFILE
      modifies this`bitmap, this`blocks, this`inodes, this`owner, this`loose, this`logged
      ensures Own(S()) && MapDid(old(S()), S(), n, SlotOf(n, bn), addr)
      ensures Footprint(old(S()), S(), old(logged), logged, maps, n, SlotOf(n, bn), addr)
      ensures Framed(old(S()), S(), bmapstart, logged)
    {
      hide Own, Val, Framed;
      FramedSame(S(), S(), bmapstart, logged);
      if bn < NDIRECT {
        maps := {};
        DataSameRefl(S());
        AddrVals(S(), n);
        addr := inodes[n].addrs[bn];
        if addr == 0 {
          addr := AllocAddr(n, bn);
          if addr != 0 { maps := {bmapstart + addr / BPB}; }
        }
      } else {
        addr, maps := BmapInd(n, bn - NDIRECT);
      }
    }

    // itrunc's first loop, one turn: the block is freed, then its number is cleared.
    method FreeDirect(n: nat, i: nat)
      requires Own(S()) && loose == {} && n in inodes && i < NDIRECT
      modifies this`bitmap, this`inodes, this`owner, this`logged
      ensures Own(S()) && Val(S(), Direct(n, i)) == 0
      ensures forall t :: t != Direct(n, i) ==> Val(S(), t) == Val(old(S()), t)
      ensures inodes.Keys == old(inodes).Keys && inodes == old(inodes)[n := old(inodes)[n].(addrs := inodes[n].addrs)]
      ensures |bitmap| == |old(bitmap)| && old(logged) <= logged <= old(logged) + MapBlocks(bmapstart, |bitmap|)
      ensures forall c :: 0 <= c < |bitmap| ==>
                (bitmap[c] <==> old(bitmap)[c] && !(c == Val(old(S()), Direct(n, i)) && c != 0))
    {
      hide Own, Val;
      ghost var st0 := S();
      AddrVals(st0, n);
      var b := inodes[n].addrs[i];
      if b != 0 {
        SlotInUse(st0, Direct(n, i));
        Bfree(b);
        var a: Addrs := inodes[n].addrs[i := 0];
        inodes := inodes[n := inodes[n].(addrs := a)];
        owner := owner - {b};
        ClearAddrOwn(st0, n, i, b);
        assert loose + {b} - {b} == loose;
      }
    }

    // itrunc's second loop: the blocks the indirect block names are freed. `g` is the state in which
    // the indirect block is already detached from the inode; its blocks are loose there.
    method FreeEntries(n: nat, ghost g: St) returns (ghost g': St)
      requires Own(S()) && loose == {} && n in inodes && inodes[n].addrs[NDIRECT] != 0
      requires g == Detached(S(), n) && Own(g)
      modifies this`bitmap, this`logged
      ensures Own(g') && g' == g.(bitmap := bitmap, loose := {inodes[n].addrs[NDIRECT]})
      ensures |bitmap| == |old(bitmap)| && old(logged) <= logged <= old(logged) + MapBlocks(bmapstart, |bitmap|)
      ensures forall c :: 0 <= c < |bitmap| ==>
                (bitmap[c] <==> old(bitmap)[c] && c !in IndBlocks(old(S()), n, NINDIRECT))
    {
      hide Own, Val, IndBlocks;
      ghost var st0 := S();
      var p := inodes[n].addrs[NDIRECT];
      AddrVals(st0, n);
      SlotInUse(st0, IndPtr(n));
      var j := 0;
      g' := g;
      IndBlocksStart(st0, n);
      while j < NINDIRECT
        invariant 0 <= j <= NINDIRECT && |bitmap| == |st0.bitmap| && Own(g')
        invariant old(logged) <= logged <= old(logged) + MapBlocks(bmapstart, |bitmap|)
        invariant g' == g.(bitmap := bitmap, loose := g.loose - IndBlocks(st0, n, j))
        invariant forall c :: 0 <= c < |bitmap| ==> (bitmap[c] <==> st0.bitmap[c] && c !in IndBlocks(st0, n, j))
      {
        IndVal(st0, n, j);
        IndBlocksStep(st0, n, j);
        var b := Word(blocks[p], j);
        if b != 0 {
          SlotInUse(st0, Ind(n, j));
          FreeOwn(g', b);
          Bfree(b);
          g' := g'.(bitmap := bitmap, loose := g'.loose - {b as nat});
        }
        j := j + 1;
      }
      IndBlocksEnd(st0, n);
    }

    // itrunc's second half: the indirect block with everything it names.
    method FreeIndirect(n: nat)
      requires Own(S()) && loose == {} && n in inodes
      modifies this`bitmap, this`inodes, this`owner, this`logged
      ensures Own(S())
      ensures inodes.Keys == old(inodes).Keys && inodes == old(inodes)[n := old(inodes)[n].(addrs := inodes[n].addrs)]
      ensures forall s: Slot :: Val(S(), s) == if s.inum == n && !s.Direct? then 0 else Val(old(S()), s)
      ensures |bitmap| == |old(bitmap)| && old(logged) <= logged <= old(logged) + MapBlocks(bmapstart, |bitmap|)
      ensures forall c :: 0 <= c < |bitmap| ==> (bitmap[c] <==> old(bitmap)[c] && !IndNames(old(S()), n, c))
    {
      hide Own, Val, Detached, IndBlocks;
      ghost var st1 := S();
      AddrVals(st1, n);
      var p := inodes[n].addrs[NDIRECT];
      if p != 0 {
        DetachOwn(st1, n);
        DetachVals(st1, n);
        SlotInUse(st1, IndPtr(n));
        IndBlocksEnd(st1, n);
        ghost var g := FreeEntries(n, Detached(st1, n));
        FreeOwn(g, p);
        assert g.loose - {p} == {};
        Bfree(p);
        var a: Addrs := inodes[n].addrs[NDIRECT := 0];
        inodes := inodes[n := inodes[n].(addrs := a)];
        owner := g.owner;
        g := g.(bitmap := bitmap, loose := {});
        DetachedParts(st1, n);
        assert S() == g;
        SameVals(Detached(st1, n), S());
      } else {
        NoIndirect(st1, n);
      }
    }

    // itrunc: every block of the inode and no other is freed, and no bfree panics.
    method Itrunc(n: nat)
      requires Own(S()) && loose == {} && n in inodes
      modifies this`bitmap, this`inodes, this`owner, this`logged
      ensures Own(S())
      ensures inodes.Keys == old(inodes).Keys && inodes == old(inodes)[n := Inode(0, inodes[n].addrs)]
      ensures forall s: Slot :: Val(S(), s) == if s.inum == n then 0 else Val(old(S()), s)
      ensures |bitmap| == |old(bitmap)|
      ensures old(logged) <= logged <= old(logged) + MapBlocks(bmapstart, |bitmap|) + {inodestart + n / IPB}
      ensures forall c :: 0 <= c < |bitmap| ==> (bitmap[c] <==> old(bitmap)[c] && !Names(old(S()), n, c))
      ensures Bytes(S(), n) == []
      ensures Files(old(S())) ==> Files(S()) && forall m :: m in inodes && m != n ==>
                Bytes(S(), m) == Bytes(old(S()), m)
    {
      hide Own, Val, IndNames, DirectUpto, Names, Files;
      ghost var st0 := S();
      var i := 0;
      DirectNone(st0, n);
      while i < NDIRECT
        invariant 0 <= i <= NDIRECT && Own(S()) && n in inodes && inodes.Keys == st0.inodes.Keys
        invariant inodes == st0.inodes[n := st0.inodes[n].(addrs := inodes[n].addrs)]
        invariant forall s :: Val(S(), s) == if s.Direct? && s.inum == n && s.i < i then 0 else Val(st0, s)
        invariant |bitmap| == |st0.bitmap| && old(logged) <= logged <= old(logged) + MapBlocks(bmapstart, |bitmap|)
        invariant forall c :: 0 <= c < |bitmap| ==> (bitmap[c] <==> st0.bitmap[c] && !DirectUpto(st0, n, i, c))
      {
        FreeDirect(n, i);
        forall c | 0 <= c < |bitmap| ensures bitmap[c] <==> st0.bitmap[c] && !DirectUpto(st0, n, i + 1, c) {
          DirectStep(st0, n, i, c);
        }
        i := i + 1;
      }
      ghost var st1 := S();
      OutOfRange(st0, n);
      FreeIndirect(n);
      forall c | 0 <= c < |bitmap| ensures bitmap[c] <==> st0.bitmap[c] && !Names(st0, n, c) {
        NamesParts(st0, st1, n, c);
      }
      ghost var st2 := S();
      inodes := inodes[n := inodes[n].(size := 0)];
      logged := logged + {inodestart + n / IPB};
      ResizeOwn(st2, n, 0);
      if Files(st0) { TruncatedFiles(st0, S(), n); }
    }

    // One turn of writei's loop: bmap, copyin of a chunk within one block, log_write. A copy that faults has moved
    // the first `part` bytes into the buffer, which is then not logged.
    method WriteOne(n: nat, off: nat, chunk: seq<int>, part: nat) returns (addr: nat, ghost maps: set<nat>)
      requires Own(S()) && loose == {} && n in inodes && off / BSIZE < MAXFILE && off % BSIZE + |chunk| <= BSIZE
      requires part <= |chunk|
      modifies this`bitmap, this`blocks, this`inodes, this`owner, this`loose, this`logged
      ensures Own(S()) && loose == {} && |bitmap| == |old(bitmap)|
      ensures inodes.Keys == old(inodes).Keys && inodes == old(inodes)[n := old(inodes)[n].(addrs := inodes[n].addrs)]
      ensures addr == Val(S(), SlotOf(n, off / BSIZE))
      ensures addr == 0 ==> forall c :: 0 <= c < |bitmap| ==> bitmap[c]
      ensures ChunkDid(old(S()), S(), n, off, if addr == 0 then [] else chunk[..part])
      ensures WriteFootprint(old(S()), S(), old(logged), logged, maps, n, SlotOf(n, off / BSIZE), addr)
      ensures addr == 0 || part == 0 || part == |chunk| ==> Framed(old(S()), S(), bmapstart, logged)
    {
      hide Own, Val, DataSame, Framed;
      ghost var st0 := S();
      addr, maps := Bmap(n, off / BSIZE);
      ghost var st1, lg1 := S(), logged;
      if addr == 0 {
        NoChunk(st0, st1, n, off, addr);
        return;
      }
      SlotInUse(st1, SlotOf(n, off / BSIZE));
      forall m ensures Val(st1, IndPtr(m)) != addr { NoSharing(st1, SlotOf(n, off / BSIZE), IndPtr(m)); }
      var data: Block := Splice(blocks[addr], off % BSIZE, chunk[..part]);
      DataWriteOwn(st1, addr, data);
      blocks := blocks[addr := data];
      if part == |chunk| { logged := logged + {addr}; }
      if part == 0 || part == |chunk| {
        FramedWrite(st1, bmapstart, logged, addr, off % BSIZE, chunk[..part], part == |chunk|);
        FramedTrans(st0, st1, S(), bmapstart, lg1, logged);
      }
      ChunkWritten(st0, st1, n, off, chunk[..part], addr);
    }

    // writei's loop: bytes src[..tot] reach the file at off. Copying from the caller works for the
    // first `avail` bytes of src; when that ends inside a turn, the bytes up to there reach the buffer too.
    method WriteLoop(n: nat, off: nat, src: seq<int>, avail: nat)
      returns (tot: nat, ghost reached: nat, ghost data: set<nat>, ghost maps: set<nat>, ghost news: nat)
      requires Own(S()) && loose == {} && n in inodes && off + |src| <= MAXFILE * BSIZE
      modifies this`bitmap, this`blocks, this`inodes, this`owner, this`loose, this`logged
      ensures Own(S()) && loose == {}
      ensures inodes.Keys == old(inodes).Keys && inodes == old(inodes)[n := old(inodes)[n].(addrs := inodes[n].addrs)]
      ensures Ends(S(), n, off, |src|, avail, tot, reached) && Progress(old(S()), S(), n, off, src[..reached])
      ensures Logged(old(S()), S(), old(logged), logged, n, off, Blocks(off, |src|), data, maps, news)
      ensures reached == tot ==> Framed(old(S()), S(), bmapstart, logged)
    {
      hide Own, Val, Progress, ChunkDid, WriteFootprint, Logged, Blocks, Ends, Framed;
      ghost var st0, lg0 := S(), logged;
      FramedSame(st0, st0, bmapstart, lg0);
      tot, reached, data, maps, news := 0, 0, {}, {}, 0;
      ghost var turns: nat := 0;
      ProgressStart(st0, n, off);
      LoggedStart(st0, lg0, n, off);
      assert src[..0] == [];
      BlocksStart(off);
      while tot < |src|
        invariant 0 <= tot <= |src| && Own(S()) && loose == {} && n in inodes
        invariant inodes.Keys == st0.inodes.Keys && inodes == st0.inodes[n := st0.inodes[n].(addrs := inodes[n].addrs)]
        invariant Progress(st0, S(), n, off, src[..tot])
        invariant turns == 0 ==> S() == st0
        invariant tot == 0 || tot <= avail
        invariant turns == Blocks(off, tot) && (tot < |src| ==> tot == 0 || (off + tot) % BSIZE == 0)
        invariant Logged(st0, S(), lg0, logged, n, off, turns, data, maps, news)
        invariant Framed(st0, S(), bmapstart, logged)
      {
        var at := off + tot;
        var m := BSIZE - at % BSIZE;
        if m > |src| - tot { m := |src| - tot; }
        ghost var st1, lg1 := S(), logged;
        ghost var more;
        var addr;
        var part := if tot + m <= avail then m else if tot < avail then avail - tot else 0;
        addr, more := WriteOne(n, at, src[tot..tot + m], part);
        BlocksStep(off, tot, m, |src|);
        if addr == 0 || part == 0 || part == m {
          FootprintGrows(st1, S(), lg1, logged, more, n, SlotOf(n, at / BSIZE), addr);
          FramedTrans(st0, st1, S(), bmapstart, lg1, logged);
        }
        LoggedStep(st0, st1, S(), lg0, lg1, logged, n, off, at, turns, data, maps, news, more, addr);
        if addr != 0 { data := data + {addr}; }
        maps, news := maps + more, if Val(st1, SlotOf(n, at / BSIZE)) == addr then news else news + 1;
        turns := turns + 1;
        ghost var q := if addr == 0 then 0 else part;
        ProgressMore(st0, st1, S(), n, off, src[..tot], src[tot..tot + m][..q]);
        SrcPrefix(src, tot, m, q);
        if addr == 0 || tot + m > avail {
          reached := tot + q;
          EndsShort(S(), n, off, |src|, avail, tot, reached);
          LoggedWiden(st0, S(), lg0, logged, n, off, turns, Blocks(off, |src|), data, maps, news);
          return;
        }
        tot := tot + m;
      }
      reached := tot;
      EndsFull(S(), n, off, |src|, avail);
      assert src[..tot] == src;
    }

    // writei. -1 for an offset past the end, a 32-bit overflow or a file too long; otherwise the
    // number of bytes written, which falls short only when a copy faults or the disk is full. A fault inside a turn
    // leaves the bytes that were copied by then in the buffer, beyond the number reported but not beyond the size.
    method Writei(n: nat, off: nat, src: seq<int>, avail: nat) returns (r: int, ghost reached: nat)
      requires Own(S()) && loose == {} && Files(S()) && n in inodes && off < WORD32 && |src| < WORD32
      modifies this`bitmap, this`blocks, this`inodes, this`owner, this`loose, this`logged
      ensures Own(S()) && loose == {} && Files(S()) && inodes.Keys == old(inodes).Keys
      ensures r == -1 <==> off > old(inodes)[n].size || off + |src| >= 0x1_0000_0000 || off + |src| > 274432
      ensures r == -1 ==> S() == old(S()) && logged == old(logged)
      ensures r >= -1 && (r != -1 ==> Ends(S(), n, off, |src|, avail, r, reached))
      ensures r != -1 ==> Bytes(S(), n) == Written(Bytes(old(S()), n), off, src[..reached], r)
      ensures OtherFiles(old(S()), S(), n)
      ensures old(logged) <= logged && (|src| <= 3 * BSIZE ==> |logged - old(logged)| <= Disk.MAXOPBLOCKS)
      ensures r == -1 || reached == r ==> Kept(old(S()), S(), bmapstart, inodestart, logged)
    {
      hide Own, Val, Progress, Logged, Blocks, Files, OtherFiles, Framed;
      OtherFilesSame(S(), n);
      FramedSame(S(), S(), bmapstart, logged);
      if off > inodes[n].size || (off + |src|) % WORD32 < off {
        assert logged - logged == {};
        return -1, 0;
      }
      if (off + |src|) % WORD32 > MAXFILE * BSIZE {
        assert logged - logged == {};
        return -1, 0;
      }
      ghost var st0, lg0 := S(), logged;
      var tot;
      ghost var data, maps, news;
      tot, reached, data, maps, news := WriteLoop(n, off, src, avail);
      ghost var st1, lg1 := S(), logged;
      var size := if off + tot > inodes[n].size then off + tot else inodes[n].size;
      ResizeOwn(st1, n, size);
      inodes := inodes[n := inodes[n].(size := size)];
      logged := logged + {inodestart + n / IPB};
      if reached == tot {
        FramedSame(st1, S(), bmapstart, logged);
        FramedTrans(st0, st1, S(), bmapstart, lg1, logged);
      }
      WrittenFiles(st0, st1, S(), n, off, src[..reached], tot);
      LogBound(st0, st1, lg0, lg1, n, off, |src|, data, maps, news, inodestart + n / IPB);
      r := tot;
    }

    // readi into a buffer the caller can take `avail` bytes into: at most n bytes from off, never past
    // the end of the file. -1 stands for a failed copy. Nothing is allocated.
    method Readi(n: nat, off: nat, len: nat, avail: nat) returns (r: int, dst: seq<int>)
      requires Own(S()) && loose == {} && Files(S()) && n in inodes && off < WORD32 && len < WORD32
      ensures var b := Bytes(S(), n);
              if off > |b| || (off + len) % WORD32 < off then r == 0 && dst == []
              else
                var want := if off + len > |b| then b[off..] else b[off..off + len];
                if avail >= |want| then r == |want| && dst == want else r == -1
    {
      hide Own, Val, Bytes, Files, ByteOf;
      var size := inodes[n].size;
      if off > size || (off + len) % WORD32 < off {
        return 0, [];
      }
      var want := if off + len > size then size - off else len;
      dst := [];
      ghost var b := Bytes(S(), n);
      while |dst| < want
        invariant |dst| <= want && |dst| <= avail
        invariant dst == b[off..off + |dst|]
      {
        var at := off + |dst|;
        MappedByte(S(), n, at);
        var addr := Lookup(n, at / BSIZE);
        SlotInUse(S(), SlotOf(n, at / BSIZE));
        var m := BSIZE - at % BSIZE;
        if m > want - |dst| { m := want - |dst|; }
        if |dst| + m > avail {
          return -1, dst;
        }
        ChunkOfFile(S(), n, off, at, m);
        dst := dst + blocks[addr][at % BSIZE..at % BSIZE + m];
      }
      r := want;
    }

    // bmap on a block that is there.
    method Lookup(n: nat, bn: nat) returns (addr: nat)
      requires Own(S()) && n in inodes && bn < MAXFILE && Val(S(), SlotOf(n, bn)) != 0
      ensures addr == Val(S(), SlotOf(n, bn))
    {
      if bn < NDIRECT {
        return inodes[n].addrs[bn];
      }
      IndVal(S(), n, bn - NDIRECT);
      addr := Word(blocks[inodes[n].addrs[NDIRECT]], bn - NDIRECT);
    }

    // One chunk of filewrite, in a transaction of its own, after i bytes have been written over `file`.
    method Chunk(n: nat, off0: nat, src: seq<int>, i: nat, n1: nat, avail: nat, ghost file: seq<int>)
      returns (r: int, ghost q: nat)
      requires Own(S()) && loose == {} && Files(S()) && n in inodes && i + n1 <= |src| < 0x8000_0000
      requires i % CHUNK == 0 && i < |src| && n1 == ChunkLen(|src|, i) && off0 + i < WORD32 && i <= avail
      requires off0 <= |file| ==> Bytes(S(), n) == Overwrite(file, off0, src[..i])
      requires off0 > |file| ==> i == 0 && Bytes(S(), n) == file
      modifies this`bitmap, this`blocks, this`inodes, this`owner, this`loose, this`logged
      ensures Own(S()) && loose == {} && Files(S()) && inodes.Keys == old(inodes).Keys && OtherFiles(old(S()), S(), n)
      ensures r == -1 <==> off0 > |file| || off0 + i + n1 > MAXFILE * BSIZE
      ensures -1 <= r <= q <= n1 && (r == n1 ==> q == r <= avail - i)
      ensures r == -1 ==> FileEnds(S(), n, off0, |src|, avail, |file|, i, i)
      ensures 0 <= r < n1 ==> FileEnds(S(), n, off0, |src|, avail, |file|, i + r, i + q)
      ensures r >= 0 ==> Bytes(S(), n) == Written(file, off0, src[..i + q], i + r)
      ensures r == -1 ==> Bytes(S(), n) == Bytes(old(S()), n)
      ensures |logged| <= Disk.MAXOPBLOCKS
      ensures r == -1 || q == r ==> Kept(old(S()), S(), bmapstart, inodestart, logged)
    {
      hide Own, Val, Files, Bytes, Overwrite, OtherFiles, Written, Ends, FileEnds, Kept;
      logged := {};
      if off0 <= |file| { OverwriteMore(file, off0, src, i, 0, 0); }
      r, q := Writei(n, off0 + i, src[i..i + n1], avail - i);
      assert logged - {} == logged;
      if r == -1 {
        q := 0;
      } else {
        EndsBetween(S(), n, off0 + i, n1, avail - i, r, q);
        WrittenMore(file, off0, src, i, n1, q, r);
      }
      if r < n1 { EndsInChunk(S(), n, off0, |src|, avail, |file|, i, r, q); }
    }

    // filewrite on an inode: chunks of at most three blocks, one transaction each. `done` bytes are
    // written in all, counting those of a last, incomplete chunk, and `reached` bytes are in the blocks, as for
    // writei; `ops` are the blocks each transaction logged, `states` what there was before and after each of them.
    method Filewrite(n: nat, off0: nat, src: seq<int>, avail: nat)
      returns (ret: int, off: nat, ghost done: nat, ghost reached: nat, ghost ops: seq<set<nat>>, ghost states: seq<St>)
      requires Own(S()) && loose == {} && Files(S()) && n in inodes && off0 < WORD32 && |src| < 0x8000_0000
      modifies this`bitmap, this`blocks, this`inodes, this`owner, this`loose, this`logged
      ensures Own(S()) && loose == {} && Files(S()) && inodes.Keys == old(inodes).Keys
      ensures done <= reached <= |src| && off == off0 + done && ret == if done == |src| then |src| else -1
      ensures FileEnds(S(), n, off0, |src|, avail, old(inodes)[n].size, done, reached)
      ensures off0 <= old(inodes)[n].size ==> Bytes(S(), n) == Written(Bytes(old(S()), n), off0, src[..reached], done)
      ensures off0 > old(inodes)[n].size ==> done == 0 && Bytes(S(), n) == Bytes(old(S()), n)
      ensures OtherFiles(old(S()), S(), n)
      ensures InQuotas(ops, old(logged), logged, done) && (ops == [] ==> src == [])
      ensures |states| == |ops| + 1 && states[0] == old(S()) && states[|ops|] == S()
      ensures reached == done ==> ByChunks(states, ops, bmapstart, inodestart, n, off0, src, done)
    {
      hide Own, Val, Files, Bytes, Overwrite, OtherFiles, Written, Ends, FileEnds, InQuotas, Kept, ByChunks;
      ghost var st0, lg0, file := S(), logged, Bytes(S(), n);
      OtherFilesSame(st0, n);
      var max := (Disk.MAXOPBLOCKS - 1 - 1 - 2) / 2 * BSIZE;
      var i, r := 0, 0;
      off, done, reached, ops, states := off0, 0, 0, [], [S()];
      if off0 <= inodes[n].size { OverwriteNone(file, off0); }
      assert src[..0] == [];
      assert InQuotas(ops, lg0, logged, 0) by { NoTransaction(lg0); }
      NoChunks(st0, bmapstart, inodestart, n, off0, src);
      while i < |src|
        invariant 0 <= i <= |src| && Own(S()) && loose == {} && Files(S()) && inodes.Keys == old(inodes).Keys
        invariant done == reached == i <= avail && off == off0 + i && off < WORD32
        invariant off0 <= |file| ==> Bytes(S(), n) == Overwrite(file, off0, src[..i])
        invariant off0 > |file| ==> i == 0 && Bytes(S(), n) == file
        invariant OtherFiles(st0, S(), n)
        invariant InQuotas(ops, lg0, logged, i) && (i < |src| ==> i == |ops| * CHUNK) && (ops == [] ==> i == 0)
        invariant |states| == |ops| + 1 && states[0] == st0 && states[|ops|] == S()
        invariant ByChunks(states, ops, bmapstart, inodestart, n, off0, src, i)
      {
        var n1 := |src| - i;
        if n1 > max { n1 := max; }
        ghost var st1, lg1 := S(), logged;
        ghost var q;
        r, q := Chunk(n, off0, src, i, n1, avail, file);
        OtherFilesTrans(st0, st1, S(), n);
        OneMoreTransaction(ops, lg0, lg1, logged, i, if r == -1 then i else i + r);
        if r == -1 || q == r {
          OneMoreChunk(states, ops, bmapstart, inodestart, n, off0, src, i, S(), logged, if r == -1 then i else i + r);
        }
        ops, states := ops + [logged], states + [S()];
        if r > 0 { off := off + r; }
        if r != n1 {
          if r >= 0 { done, reached := i + r, i + q; }
          return -1, off, done, reached, ops, states;
        }
        i := i + r;
        done, reached := i, i;
      }
      EndsWhole(S(), n, off0, |src|, avail, |file|);
      ret := |src|;
    }
  }

  // What filewrite hands to writei at a time.
  const CHUNK: nat := 3 * BSIZE

  function ChunkLen(len: nat, i: nat): (r: nat)
    requires i <= len
  {
    if len - i > CHUNK then CHUNK else len - i
  }

  // filewrite ends with all bytes, or in the chunk that holds byte `done`: writei refuses it as a whole, for the offset
  // or for the size the file would get, or stops inside it.
  ghost predicate FileEnds(st: St, n: nat, off0: nat, len: nat, avail: nat, size: nat, done: nat, reached: nat) {
    && done <= len && done <= avail && done <= reached
    && if done == len then reached == done else
         var i := done / CHUNK * CHUNK;
         if off0 > size || off0 + i + ChunkLen(len, i) > MAXFILE * BSIZE then done == reached == i
         else Ends(st, n, off0 + i, ChunkLen(len, i), avail - i, done - i, reached - i)
  }

  // Each transaction logged no more than an operation may and, but for the last, wrote a whole chunk.
  ghost predicate InQuotas(ops: seq<set<nat>>, lg0: set<nat>, lg: set<nat>, done: nat) {
    && (forall k :: 0 <= k < |ops| ==> |ops[k]| <= Disk.MAXOPBLOCKS)
    && lg == (if ops == [] then lg0 else ops[|ops| - 1])
    && (|ops| - 1) * CHUNK <= done <= |ops| * CHUNK
  }

  lemma NoTransaction(lg: set<nat>)
    ensures InQuotas([], lg, lg, 0)
  {}

  lemma OneMoreTransaction(ops: seq<set<nat>>, lg0: set<nat>, lg: set<nat>, lg': set<nat>, i: nat, done: nat)
    requires InQuotas(ops, lg0, lg, i) && |lg'| <= Disk.MAXOPBLOCKS && i == |ops| * CHUNK <= done <= i + CHUNK
    ensures InQuotas(ops + [lg'], lg0, lg', done)
  {}

  // What is written after k chunks of filewrite, when `done` bytes are in all.
  function Upto(k: nat, done: nat): (r: nat)
    ensures r <= done
  {
    if k * CHUNK <= done then k * CHUNK else done
  }

  // The states between the transactions: each changed logged blocks only, after k of them k chunks are written over the
  // file, and the other files are as they were.
  ghost predicate ByChunks(states: seq<St>, ops: seq<set<nat>>, bmapstart: nat, inodestart: nat, n: nat, off0: nat,
                           src: seq<int>, done: nat) {
    && |states| == |ops| + 1 && done <= |src| && n in states[0].inodes
    && (forall k :: 0 <= k < |ops| ==> Kept(states[k], states[k + 1], bmapstart, inodestart, ops[k]))
    && forall k :: 0 <= k < |states| ==> ChunksWritten(states[0], states[k], n, off0, src, Upto(k, done))
  }

  ghost predicate ChunksWritten(o: St, st: St, n: nat, off0: nat, src: seq<int>, m: nat)
    requires m <= |src| && n in o.inodes
  {
    && OtherFiles(o, st, n) && n in st.inodes
    && Bytes(st, n) == if off0 <= o.inodes[n].size then Overwrite(Bytes(o, n), off0, src[..m]) else Bytes(o, n)
  }

  lemma NoChunks(st: St, bmapstart: nat, inodestart: nat, n: nat, off0: nat, src: seq<int>)
    requires n in st.inodes
    ensures ByChunks([st], [], bmapstart, inodestart, n, off0, src, 0)
  {
    hide Bytes, OtherFiles;
    OtherFilesSame(st, n);
    assert src[..0] == [];
    if off0 <= st.inodes[n].size { OverwriteNone(Bytes(st, n), off0); }
  }

  lemma OneMoreChunk(states: seq<St>, ops: seq<set<nat>>, bmapstart: nat, inodestart: nat, n: nat, off0: nat,
                     src: seq<int>, i: nat, st: St, op: set<nat>, done: nat)
    requires ByChunks(states, ops, bmapstart, inodestart, n, off0, src, i)
    requires i == |ops| * CHUNK <= done <= i + CHUNK && done <= |src|
    requires Kept(states[|ops|], st, bmapstart, inodestart, op)
    requires ChunksWritten(states[0], st, n, off0, src, done)
    ensures ByChunks(states + [st], ops + [op], bmapstart, inodestart, n, off0, src, done)
  {
    hide Kept, ChunksWritten;
    var states', ops' := states + [st], ops + [op];
    forall k | 0 <= k < |ops'| ensures Kept(states'[k], states'[k + 1], bmapstart, inodestart, ops'[k]) {
      if k < |ops| { assert states'[k] == states[k] && states'[k + 1] == states[k + 1]; }
    }
    forall k | 0 <= k < |states'| ensures ChunksWritten(states'[0], states'[k], n, off0, src, Upto(k, done)) {
      if k < |states| { assert Upto(k, done) == Upto(k, i); }
    }
  }

  lemma EndsBetween(st: St, n: nat, off: nat, len: nat, avail: nat, tot: nat, reached: nat)
    requires Ends(st, n, off, len, avail, tot, reached)
    ensures tot <= reached <= len && tot <= avail && (tot == len ==> reached == tot)
  {}

  lemma EndsFull(st: St, n: nat, off: nat, len: nat, avail: nat)
    requires len <= avail
    ensures Ends(st, n, off, len, avail, len, len)
  {}

  lemma EndsShort(st: St, n: nat, off: nat, len: nat, avail: nat, tot: nat, reached: nat)
    requires tot < len && tot <= avail && (tot == 0 || (off + tot) % BSIZE == 0)
    requires var missing := Val(st, SlotOf(n, (off + tot) / BSIZE)) == 0;
             && (missing ==> reached == tot && forall c :: 0 <= c < |st.bitmap| ==> st.bitmap[c])
             && (!missing ==> reached == avail < tot + Turn(off, len, tot))
    ensures Ends(st, n, off, len, avail, tot, reached)
  {}

  lemma EndsWhole(st: St, n: nat, off0: nat, len: nat, avail: nat, size: nat)
    requires len <= avail
    ensures FileEnds(st, n, off0, len, avail, size, len, len)
  {}

  // The chunk at i, of which writei took r bytes, is the last.
  lemma EndsInChunk(st: St, n: nat, off0: nat, len: nat, avail: nat, size: nat, i: nat, r: int, q: nat)
    requires i % CHUNK == 0 && i < len && i <= avail && (off0 > size ==> i == 0) && -1 <= r < ChunkLen(len, i)
    requires r == -1 <==> off0 > size || off0 + i + ChunkLen(len, i) > MAXFILE * BSIZE
    requires r >= 0 ==> Ends(st, n, off0 + i, ChunkLen(len, i), avail - i, r, q)
    ensures r == -1 ==> FileEnds(st, n, off0, len, avail, size, i, i)
    ensures r >= 0 ==> FileEnds(st, n, off0, len, avail, size, i + r, i + q)
  {
    hide Ends;
    if r >= 0 {
      assert (i + r) / CHUNK * CHUNK == i;
      EndsBetween(st, n, off0 + i, ChunkLen(len, i), avail - i, r, q);
    }
  }

  // A source that can be read to the end is written to the end unless the file would get too long or the disk is full.
  lemma WhyShort(st: St, n: nat, off0: nat, len: nat, avail: nat, size: nat, done: nat, reached: nat)
    requires FileEnds(st, n, off0, len, avail, size, done, reached) && off0 <= size && done < len
    ensures avail < len || off0 + len > MAXFILE * BSIZE || forall c :: 0 <= c < |st.bitmap| ==> st.bitmap[c]
  {}

  lemma OverwriteNone(s: seq<int>, off: nat)
    requires off <= |s|
    ensures Overwrite(s, off, []) == s
  {}

  lemma OverwriteMore(s: seq<int>, off: nat, src: seq<int>, i: nat, n: nat, r: nat)
    requires off <= |s| && r <= n && i + n <= |src|
    ensures off + i <= |Overwrite(s, off, src[..i])|
    ensures Overwrite(Overwrite(s, off, src[..i]), off + i, src[i..i + n][..r]) == Overwrite(s, off, src[..i + r])
  {}

  lemma WrittenMore(s: seq<int>, off: nat, src: seq<int>, i: nat, n: nat, q: nat, r: nat)
    requires off <= |s| && r <= q <= n && i + n <= |src|
    ensures off + i <= |Overwrite(s, off, src[..i])|
    ensures Written(Overwrite(s, off, src[..i]), off + i, src[i..i + n][..q], r) == Written(s, off, src[..i + q], i + r)
  {
    OverwriteMore(s, off, src, i, n, q);
  }

  // How many bytes the next turn of writei's loop moves.
  function Turn(off: nat, len: nat, tot: nat): (r: int) {
    if BSIZE - (off + tot) % BSIZE > len - tot then len - tot else BSIZE - (off + tot) % BSIZE
  }

  lemma SrcPrefix(src: seq<int>, tot: nat, m: nat, part: nat)
    requires tot + m <= |src| && part <= m
    ensures src[..tot] + src[tot..tot + m][..part] == src[..tot + part]
  {}

  // The byte sequence after x was stored at off, tot bytes of it counted.
  function Written(s: seq<int>, off: nat, x: seq<int>, tot: nat): (r: seq<int>)
    requires off <= |s| && tot <= |x|
    ensures tot == |x| ==> r == Overwrite(s, off, x)
  {
    Overwrite(s, off, x)[..if off + tot > |s| then off + tot else |s|]
  }

  // writei's loop ends with all bytes, or at the end of a block. Then the next block is missing and the disk full, or
  // the block is there and its turn would copy beyond the first `avail` bytes of the source: those have reached it.
  ghost predicate Ends(st: St, n: nat, off: nat, len: nat, avail: nat, tot: nat, reached: nat) {
    && tot <= len && tot <= avail
    && if tot == len then reached == tot else
         && (tot == 0 || (off + tot) % BSIZE == 0)
         && if Val(st, SlotOf(n, (off + tot) / BSIZE)) == 0
            then reached == tot && forall c :: 0 <= c < |st.bitmap| ==> st.bitmap[c]
            else reached == avail < tot + Turn(off, len, tot)
  }

  const WORD32: nat := 0x1_0000_0000

  // Every block below the size of a file is mapped.
  ghost predicate NoHoles(st: St, n: nat) {
    n in st.inodes ==>
      && st.inodes[n].size <= MAXFILE * BSIZE
      && forall k: nat :: k < st.inodes[n].size ==> HasByte(st, n, k)
  }

  ghost predicate Files(st: St) {
    forall n: nat :: NoHoles(st, n)
  }

  // The contents of a file.
  ghost function Bytes(st: St, n: nat): (r: seq<int>)
    requires n in st.inodes
    ensures |r| == st.inodes[n].size
  {
    seq(st.inodes[n].size, k requires 0 <= k => ByteOf(st, n, k))
  }

  // The files other than n have the same contents.
  ghost predicate OtherFiles(o: St, st: St, n: nat) {
    st.inodes.Keys == o.inodes.Keys && forall m :: m in st.inodes && m != n ==> Bytes(st, m) == Bytes(o, m)
  }

  lemma OtherFilesSame(st: St, n: nat)
    ensures OtherFiles(st, st, n)
  {}

  lemma OtherFilesTrans(a: St, b: St, c: St, n: nat)
    requires OtherFiles(a, b, n) && OtherFiles(b, c, n)
    ensures OtherFiles(a, c, n)
  {}

  function Overwrite(s: seq<int>, off: nat, x: seq<int>): (r: seq<int>)
    requires off <= |s|
  {
    s[..off] + x + (if off + |x| <= |s| then s[off + |x|..] else [])
  }

  lemma TruncatedFiles(o: St, st: St, n: nat)
    requires Files(o) && n in o.inodes && n in st.inodes && st.blocks == o.blocks
    requires st.inodes == o.inodes[n := Inode(0, st.inodes[n].addrs)]
    requires forall s: Slot :: s.inum != n ==> Val(st, s) == Val(o, s)
    ensures Files(st) && forall m :: m in st.inodes && m != n ==> Bytes(st, m) == Bytes(o, m)
  {
    forall m: nat ensures NoHoles(st, m) && (m in st.inodes && m != n ==> Bytes(st, m) == Bytes(o, m)) {
      if m in st.inodes && m != n {
        assert NoHoles(o, m);
        forall k: nat | k < o.inodes[m].size ensures HasByte(st, m, k) && ByteOf(st, m, k) == ByteOf(o, m, k) {
          assert HasByte(o, m, k);
        }
      }
    }
  }

  lemma MappedByte(st: St, n: nat, k: nat)
    requires Files(st) && n in st.inodes && k < st.inodes[n].size
    ensures Val(st, SlotOf(n, k / BSIZE)) != 0 && k / BSIZE < MAXFILE
  {
    assert NoHoles(st, n) && HasByte(st, n, k);
  }

  lemma ChunkOfFile(st: St, n: nat, off: nat, at: nat, m: nat)
    requires n in st.inodes && off <= at && at + m <= st.inodes[n].size && at % BSIZE + m <= BSIZE
    ensures Bytes(st, n)[off..at + m]
         == Bytes(st, n)[off..at] + At(st, Val(st, SlotOf(n, at / BSIZE)))[at % BSIZE..at % BSIZE + m]
  {
    hide Val, At;
    var file, block := Bytes(st, n), At(st, Val(st, SlotOf(n, at / BSIZE)));
    forall k | at <= k < at + m ensures file[k] == block[k - at + at % BSIZE] {
      assert k / BSIZE == at / BSIZE && k % BSIZE == at % BSIZE + (k - at);
    }
  }

  // Setting the size after the loop: the file is overwritten, the others are as they were.
  lemma WrittenFiles(st0: St, st1: St, st2: St, n: nat, off: nat, x: seq<int>, tot: nat)
    requires Files(st0) && Progress(st0, st1, n, off, x) && n in st0.inodes && n in st1.inodes
    requires st1.inodes.Keys == st0.inodes.Keys
             && st1.inodes == st0.inodes[n := st0.inodes[n].(addrs := st1.inodes[n].addrs)]
    requires off <= st0.inodes[n].size && off + |x| <= MAXFILE * BSIZE && tot <= |x|
    requires var size := if off + tot > st1.inodes[n].size then off + tot else st1.inodes[n].size;
             st2 == st1.(inodes := st1.inodes[n := st1.inodes[n].(size := size)])
    requires forall s :: Val(st2, s) == Val(st1, s)
    ensures Files(st2) && Bytes(st2, n) == Written(Bytes(st0, n), off, x, tot)
    ensures OtherFiles(st0, st2, n)
  {
    assert NoHoles(st0, n);
    forall k: nat | k < st2.inodes[n].size
      ensures HasByte(st2, n, k) && ByteOf(st2, n, k) == Overwrite(Bytes(st0, n), off, x)[k]
    {
      if !(off <= k < off + |x|) { assert HasByte(st0, n, k); }
      assert HasByte(st1, n, k) && ByteOf(st2, n, k) == ByteOf(st1, n, k);
    }
    forall m: nat | m in st0.inodes && m != n ensures NoHoles(st2, m) && Bytes(st2, m) == Bytes(st0, m) {
      assert NoHoles(st0, m) && st2.inodes[m] == st0.inodes[m];
      forall k: nat | k < st0.inodes[m].size ensures HasByte(st2, m, k) && ByteOf(st2, m, k) == ByteOf(st0, m, k) {
        assert HasByte(st0, m, k);
      }
    }
    forall m: nat ensures NoHoles(st2, m) { assert m in st2.inodes ==> m in st0.inodes; }
  }

  // A write of at most three blocks' worth of bytes logs at most MAXOPBLOCKS blocks: four data blocks
  // only when it is unaligned, and then the first one is already there.
  lemma LogBound(o: St, st: St, lg: set<nat>, lg': set<nat>, n: nat, off: nat, len: nat,
                 data: set<nat>, maps: set<nat>, news: nat, ino: nat)
    requires Files(o) && n in o.inodes && off <= o.inodes[n].size
    requires Logged(o, st, lg, lg', n, off, Blocks(off, len), data, maps, news)
    ensures lg <= lg' + {ino}
    ensures len <= 3 * BSIZE ==> |lg' + {ino} - lg| <= Disk.MAXOPBLOCKS
  {
    if len <= 3 * BSIZE {
      var ind: set<nat> := if Val(st, IndPtr(n)) > 0 then {Val(st, IndPtr(n)) as nat} else {};
      var all := data + maps + ind + {ino};
      assert lg' + {ino} - lg <= all;
      SubsetCard(lg' + {ino} - lg, all);
      assert |all| <= |data| + |maps| + 2 by {
        UnionCard(data, maps);
        UnionCard(data + maps, ind);
        UnionCard(data + maps + ind, {ino});
      }
      if off % BSIZE != 0 {
        assert NoHoles(o, n);
        var k: nat := off - 1;
        assert k / BSIZE == off / BSIZE && HasByte(o, n, k);
      }
    }
  }

  lemma UnionCard(a: set<nat>, b: set<nat>)
    ensures |a + b| <= |a| + |b|
  {}

  function ByteOf(st: St, n: nat, k: nat): (r: int) {
    At(st, Val(st, SlotOf(n, k / BSIZE)))[k % BSIZE]
  }

  // Where byte k of a file is on the disk: in the block that the inode names for one of the first twelve, and else in
  // the one that a little-endian word of the indirect block names.
  lemma WhereByteIs(st: St, n: nat, k: nat)
    requires n in st.inodes && k < 274432
    ensures k / 1024 < 12 ==> ByteOf(st, n, k) == At(st, st.inodes[n].addrs[k / 1024])[k % 1024]
    ensures k / 1024 >= 12 && st.inodes[n].addrs[12] != 0 ==>
              var b, j := At(st, st.inodes[n].addrs[12]), 4 * (k / 1024 - 12);
              ByteOf(st, n, k)
              == At(st, b[j] + 256 * b[j + 1] + 65536 * b[j + 2] + 16777216 * b[j + 3])[k % 1024]
  {}

  predicate HasByte(st: St, n: nat, k: nat) {
    Val(st, SlotOf(n, k / BSIZE)) != 0
  }

  // Since state o, the bytes x have been stored in file n at off, and nothing else has changed.
  ghost predicate Progress(o: St, st: St, n: nat, off: nat, x: seq<int>) {
    && (forall s: Slot :: IsData(s) && s.inum != n && Val(o, s) != 0 ==>
          Val(st, s) == Val(o, s) && At(st, Val(o, s)) == At(o, Val(o, s)))
    && (forall k: nat :: HasByte(o, n, k) || off <= k < off + |x| ==> HasByte(st, n, k))
    && (forall k: nat :: HasByte(o, n, k) && !(off <= k < off + |x|) ==> ByteOf(st, n, k) == ByteOf(o, n, k))
    && (forall k: nat :: off <= k < off + |x| ==> ByteOf(st, n, k) == x[k - off])
  }

  lemma ProgressStart(st: St, n: nat, off: nat)
    ensures Progress(st, st, n, off, [])
  {}

  lemma ProgressMore(o: St, a: St, b: St, n: nat, off: nat, x: seq<int>, c: seq<int>)
    requires Progress(o, a, n, off, x) && (off + |x|) % BSIZE + |c| <= BSIZE
    requires ChunkDid(a, b, n, off + |x|, c)
    ensures Progress(o, b, n, off, x + c)
  {
    var at := off + |x|;
    var s0 := SlotOf(n, at / BSIZE);
    forall s: Slot | IsData(s) && s.inum != n && Val(o, s) != 0
      ensures Val(b, s) == Val(o, s) && At(b, Val(o, s)) == At(o, Val(o, s))
    {
      assert Val(a, s) == Val(o, s) && s != s0;
    }
    forall k: nat | HasByte(a, n, k) || at <= k < at + |c|
      ensures HasByte(b, n, k)
      ensures ByteOf(b, n, k) == if at <= k < at + |c| then c[k - at] else ByteOf(a, n, k)
    {
      ChunkByte(a, b, n, at, c, k);
    }
    forall k: nat | off <= k < off + |x + c| ensures HasByte(b, n, k) && ByteOf(b, n, k) == (x + c)[k - off] {
      if k < at { assert HasByte(a, n, k); }
    }
    forall k: nat | HasByte(o, n, k) ensures HasByte(b, n, k) {
      assert HasByte(a, n, k);
    }
    forall k: nat | HasByte(o, n, k) && !(off <= k < off + |x + c|) ensures ByteOf(b, n, k) == ByteOf(o, n, k) {
      assert HasByte(a, n, k);
    }
  }

  lemma ChunkByte(a: St, b: St, n: nat, at: nat, c: seq<int>, k: nat)
    requires at % BSIZE + |c| <= BSIZE && ChunkDid(a, b, n, at, c)
    requires HasByte(a, n, k) || at <= k < at + |c|
    ensures HasByte(b, n, k)
    ensures ByteOf(b, n, k) == if at <= k < at + |c| then c[k - at] else ByteOf(a, n, k)
  {
    var s, s0 := SlotOf(n, k / BSIZE), SlotOf(n, at / BSIZE);
    if at <= k < at + |c| { assert k / BSIZE == at / BSIZE && k % BSIZE == at % BSIZE + (k - at); }
    if k / BSIZE != at / BSIZE {
      assert s != s0;
    } else if c != [] && !(at <= k < at + |c|) {
      assert k % BSIZE < at % BSIZE || k % BSIZE >= at % BSIZE + |c|;
    }
  }

  // ----- How many blocks a write logs -----

  // The number of blocks that n bytes at off touch.
  function Blocks(off: nat, n: nat): (r: nat) {
    if n == 0 then 0 else (off + n - 1) / BSIZE - off / BSIZE + 1
  }

  lemma BlocksStart(off: nat)
    ensures Blocks(off, 0) == 0
  {}

  lemma BlocksStep(off: nat, tot: nat, m: nat, n: nat)
    requires tot < n && m == (if BSIZE - (off + tot) % BSIZE > n - tot then n - tot else BSIZE - (off + tot) % BSIZE)
    requires tot == 0 || (off + tot) % BSIZE == 0
    ensures Blocks(off, tot + m) == Blocks(off, tot) + 1 <= Blocks(off, n)
    ensures tot + m < n ==> (off + tot + m) % BSIZE == 0
    ensures (off + tot) / BSIZE < MAXFILE <==> off + tot < MAXFILE * BSIZE
    ensures Blocks(off, tot) == 0 ==> tot == 0
  {}

  // After `turns` turns of the loop: the blocks logged are data blocks, bitmap blocks and the indirect
  // block; `news` data blocks were allocated, never the first one of an unaligned write.
  ghost predicate Logged(o: St, st: St, lg: set<nat>, lg': set<nat>, n: nat, off: nat, turns: nat,
                         data: set<nat>, maps: set<nat>, news: nat) {
    && |data| <= turns && news <= turns
    && |maps| <= news + (if Val(o, IndPtr(n)) == Val(st, IndPtr(n)) then 0 else 1)
    && (Val(o, IndPtr(n)) != 0 ==> Val(st, IndPtr(n)) == Val(o, IndPtr(n)))
    && (turns > 0 && Val(o, SlotOf(n, off / BSIZE)) != 0 ==> news < turns)
    && lg <= lg'
    && (forall b :: b in lg' ==>
          (b in lg || b in data || b in maps || (b == Val(st, IndPtr(n)) && Val(st, IndPtr(n)) != 0)))
  }

  lemma LoggedStart(st: St, lg: set<nat>, n: nat, off: nat)
    ensures Logged(st, st, lg, lg, n, off, 0, {}, {}, 0)
  {}

  lemma FootprintGrows(o: St, st: St, lg: set<nat>, lg': set<nat>, maps: set<nat>, n: nat, s: Slot, addr: nat)
    requires WriteFootprint(o, st, lg, lg', maps, n, s, addr)
    ensures lg <= lg'
  {}

  lemma LoggedWiden(o: St, st: St, lg: set<nat>, lg': set<nat>, n: nat, off: nat, turns: nat, limit: nat,
                    data: set<nat>, maps: set<nat>, news: nat)
    requires Logged(o, st, lg, lg', n, off, turns, data, maps, news) && turns <= limit
    ensures Logged(o, st, lg, lg', n, off, limit, data, maps, news)
  {}

  lemma LoggedStep(o: St, a: St, b: St, lg: set<nat>, lga: set<nat>, lgb: set<nat>, n: nat, off: nat, at: nat,
                   turns: nat,
                   data: set<nat>, maps: set<nat>, news: nat, more: set<nat>, addr: nat)
    requires Logged(o, a, lg, lga, n, off, turns, data, maps, news)
    requires WriteFootprint(a, b, lga, lgb, more, n, SlotOf(n, at / BSIZE), addr)
    requires turns == 0 ==> at == off && a == o
    ensures Logged(o, b, lg, lgb, n, off, turns + 1, if addr != 0 then data + {addr} else data, maps + more,
                   if Val(a, SlotOf(n, at / BSIZE)) == addr then news else news + 1)
  {}

  lemma SubsetCard(a: set<nat>, b: set<nat>)
    requires a <= b
    ensures |a| <= |b|
  {
    assert b == a + (b - a);
  }

  function Splice(b: Block, at: nat, bytes: seq<int>): (r: Block)
    requires at + |bytes| <= BSIZE
  {
    b[..at] + bytes + b[at + |bytes|..]
  }

  // Data blocks keep their places; only the block of offset `off` may change contents, and there
  // exactly the chunk replaces what was there (zeros, if the block is new).
  ghost predicate ChunkDid(o: St, st: St, n: nat, off: nat, chunk: seq<int>)
    requires off % BSIZE + |chunk| <= BSIZE
  {
    var s0 := SlotOf(n, off / BSIZE);
    && (forall s :: IsData(s) && Val(o, s) != 0 ==> Val(st, s) == Val(o, s))
    && (forall s :: IsData(s) && Val(o, s) != 0 && s != s0 ==> At(st, Val(o, s)) == At(o, Val(o, s)))
    && (chunk == [] ==> Val(o, s0) != 0 ==> At(st, Val(o, s0)) == At(o, Val(o, s0)))
    && (chunk != [] ==> && Val(st, s0) != 0
                        && At(st, Val(st, s0)) ==
                        Splice(if Val(o, s0) != 0 then At(o, Val(o, s0)) else Zero(), off % BSIZE, chunk))
  }

  // What bmap logged, and the data block.
  ghost predicate WriteFootprint(o: St, st: St, lg: set<nat>, lg': set<nat>, maps: set<nat>, n: nat, s: Slot,
                                 addr: nat) {
    && |maps| <= (if Val(o, IndPtr(n)) == Val(st, IndPtr(n)) then 0 else 1) + (if Val(o, s) == addr then 0 else 1)
    && (Val(o, IndPtr(n)) != 0 ==> Val(st, IndPtr(n)) == Val(o, IndPtr(n)))
    && (Val(o, s) != 0 ==> addr == Val(o, s))
    && lg <= lg'
    && (forall b :: b in lg' ==>
          (b in lg || b in maps || (b == addr && addr != 0) || (b == Val(st, IndPtr(n)) && Val(st, IndPtr(n)) != 0)))
  }

  // A block that is written back is logged, and one into which nothing was copied has not changed.
  lemma FramedWrite(st: St, bmapstart: nat, lg: set<nat>, addr: nat, at: nat, x: seq<int>, whole: bool)
    requires addr < |st.blocks| && at + |x| <= BSIZE && (if whole then addr in lg else x == [])
    ensures Framed(st, st.(blocks := st.blocks[addr := Splice(st.blocks[addr], at, x)]), bmapstart, lg)
  {
    if x == [] { assert Splice(st.blocks[addr], at, x) == st.blocks[addr]; }
  }

  lemma NoChunk(st0: St, st1: St, n: nat, off: nat, addr: nat)
    requires MapDid(st0, st1, n, SlotOf(n, off / BSIZE), addr)
    ensures ChunkDid(st0, st1, n, off, [])
  {}

  lemma ChunkWritten(st0: St, st1: St, n: nat, off: nat, chunk: seq<int>, addr: nat)
    requires Own(st1) && MapDid(st0, st1, n, SlotOf(n, off / BSIZE), addr) && 0 < addr < |st1.blocks|
    requires off % BSIZE + |chunk| <= BSIZE
    requires var data := Splice(st1.blocks[addr], off % BSIZE, chunk);
             forall s :: Val(st1.(blocks := st1.blocks[addr := data]), s) == Val(st1, s)
    ensures var data := Splice(st1.blocks[addr], off % BSIZE, chunk);
            ChunkDid(st0, st1.(blocks := st1.blocks[addr := data]), n, off, chunk)
  {
    var s0 := SlotOf(n, off / BSIZE);
    var data := Splice(st1.blocks[addr], off % BSIZE, chunk);
    var st2 := st1.(blocks := st1.blocks[addr := data]);
    forall s | IsData(s) && Val(st0, s) != 0 && s != s0 ensures At(st2, Val(st0, s)) == At(st0, Val(st0, s)) {
      assert Val(st1, s) == Val(st0, s);
      NoSharing(st1, s, s0);
    }
    if chunk == [] { assert data == st1.blocks[addr]; }
  }

  // Block c is the indirect block of inode n or is named by it.
  ghost predicate IndNames(st: St, n: nat, c: int) {
    c > 0 && (c == Val(st, IndPtr(n)) || c in IndBlocks(st, n, NINDIRECT))
  }

  lemma DirectNone(st: St, n: nat)
    ensures forall c :: !DirectUpto(st, n, 0, c)
  {}

  // Inode n names block c somewhere.
  ghost predicate Names(st: St, n: nat, c: int) {
    c != 0 && exists s: Slot :: s.inum == n && Val(st, s) == c
  }

  lemma NamesParts(st0: St, st1: St, n: nat, c: int)
    requires n in st0.inodes && c >= 0
    requires forall s: Slot :: s.Direct? || Val(st1, s) == Val(st0, s)
    ensures Names(st0, n, c) <==> DirectUpto(st0, n, NDIRECT, c) || IndNames(st1, n, c)
  {}

  ghost predicate DirectUpto(st: St, n: nat, k: nat, c: int) {
    exists i: nat :: i < k && i < NDIRECT && Val(st, Direct(n, i)) == c && c != 0
  }

  lemma DirectStep(st: St, n: nat, k: nat, c: int)
    requires k < NDIRECT
    ensures DirectUpto(st, n, k + 1, c) <==> DirectUpto(st, n, k, c) || (Val(st, Direct(n, k)) == c && c != 0)
  {}

  // The blocks named by the first k entries of the indirect block of inode n.
  ghost function IndBlocks(st: St, n: nat, k: nat): (r: set<nat>)
    ensures 0 !in r
  {
    set j | 0 <= j < k && Val(st, Ind(n, j)) > 0 :: Val(st, Ind(n, j)) as nat
  }

  // The state in which inode n has given up its indirect block and all the blocks that one names.
  ghost function Detached(st: St, n: nat): (r: St)
    requires n in st.inodes
  {
    var a: Addrs := st.inodes[n].addrs[NDIRECT := 0];
    var gone := IndBlocks(st, n, NINDIRECT) + {st.inodes[n].addrs[NDIRECT]};
    st.(inodes := st.inodes[n := st.inodes[n].(addrs := a)], owner := st.owner - gone, loose := st.loose + gone)
  }

  // What bmap does to the state: slot s names addr afterwards, and 0 means a full disk. An entry that
  // was there is left alone; a new block is zeroed; no other slot and no data block changes.
  ghost predicate MapDid(o: St, st: St, n: nat, s: Slot, addr: nat) {
    && st.loose == {} && st.nmeta == o.nmeta && |st.bitmap| == |o.bitmap|
    && addr == Val(st, s)
    && (Val(o, s) != 0 ==> st == o)
    && (Val(o, s) == 0 && addr != 0 ==> At(st, addr) == Zero())
    && (forall t :: t != s && t != IndPtr(n) ==> Val(st, t) == Val(o, t))
    && (Val(o, IndPtr(n)) != 0 ==> Val(st, IndPtr(n)) == Val(o, IndPtr(n)))
    && DataSame(o, st)
    && n in o.inodes && n in st.inodes && st.inodes.Keys == o.inodes.Keys
    && st.inodes == o.inodes[n := o.inodes[n].(addrs := st.inodes[n].addrs)]
    && (addr == 0 ==> forall c :: 0 <= c < |st.bitmap| ==> st.bitmap[c])
  }

  // Which blocks bmap logged: a bitmap block per allocation, the new block, the indirect block.
  ghost predicate Footprint(o: St, st: St, lg: set<nat>, lg': set<nat>, maps: set<nat>, n: nat, s: Slot, addr: nat) {
    && (Val(o, s) != 0 ==> lg' == lg && maps == {})
    && |maps| <= (if Val(o, IndPtr(n)) == Val(st, IndPtr(n)) then 0 else 1) + (if Val(o, s) == addr then 0 else 1)
    && lg <= lg'
    && (forall b :: b in lg' ==>
          (b in lg || b in maps || (b == addr && addr != 0) || (b == Val(st, IndPtr(n)) && Val(st, IndPtr(n)) != 0)))
  }

  lemma IndBlocksStart(st: St, n: nat)
    ensures IndBlocks(st, n, 0) == {}
  {}

  lemma IndBlocksStep(st: St, n: nat, j: nat)
    requires Own(st) && j < NINDIRECT
    ensures IndBlocks(st, n, j + 1) ==
            IndBlocks(st, n, j) + (if Val(st, Ind(n, j)) > 0 then {Val(st, Ind(n, j)) as nat} else {})
    ensures Val(st, Ind(n, j)) > 0 ==>
              Val(st, Ind(n, j)) !in IndBlocks(st, n, j) && Val(st, Ind(n, j)) in IndBlocks(st, n, NINDIRECT)
  {
    if Val(st, Ind(n, j)) > 0 {
      forall i | 0 <= i < j ensures Val(st, Ind(n, i)) != Val(st, Ind(n, j)) {
        NoSharing(st, Ind(n, j), Ind(n, i));
      }
    }
  }

  lemma IndBlocksEnd(st: St, n: nat)
    requires Own(st) && Val(st, IndPtr(n)) > 0
    ensures Val(st, IndPtr(n)) !in IndBlocks(st, n, NINDIRECT)
  {
    forall j: nat | j < NINDIRECT ensures Val(st, Ind(n, j)) != Val(st, IndPtr(n)) {
      NoSharing(st, IndPtr(n), Ind(n, j));
    }
  }

  lemma DetachVals(st: St, n: nat)
    requires n in st.inodes
    ensures forall t :: Val(Detached(st, n), t) == if t == IndPtr(n) || (t.Ind? && t.inum == n) then 0 else Val(st, t)
  {}

  // The owner of a block that Detached gives up is the indirect block or one of its entries.
  lemma DetachedOwners(st: St, n: nat, c: nat)
    requires Own(st) && n in st.inodes && c in st.owner
    ensures c in IndBlocks(st, n, NINDIRECT) + {st.inodes[n].addrs[NDIRECT]}
            <==> st.owner[c] == IndPtr(n) || (st.owner[c].Ind? && st.owner[c].inum == n)
  {
    assert OwnerOk(st, c);
    var s := st.owner[c];
    if s.Ind? && s.inum == n { assert c in IndBlocks(st, n, NINDIRECT); }
    if c in IndBlocks(st, n, NINDIRECT) {
      var j: nat :| j < NINDIRECT && Val(st, Ind(n, j)) == c;
      assert SlotOk(st, Ind(n, j));
    }
    if c == st.inodes[n].addrs[NDIRECT] { assert SlotOk(st, IndPtr(n)); }
  }

  lemma DetachOwn(st: St, n: nat)
    requires Own(st) && st.loose == {} && n in st.inodes && st.inodes[n].addrs[NDIRECT] != 0
    ensures Own(Detached(st, n))
  {
    var g := Detached(st, n);
    var gone := IndBlocks(st, n, NINDIRECT) + {st.inodes[n].addrs[NDIRECT]};
    DetachVals(st, n);
    forall c | c in gone ensures c in st.owner && st.nmeta <= c < |st.bitmap| {
      if c == st.inodes[n].addrs[NDIRECT] {
        assert SlotOk(st, IndPtr(n)) && OwnerOk(st, c);
      } else {
        var j: nat :| j < NINDIRECT && Val(st, Ind(n, j)) == c;
        assert SlotOk(st, Ind(n, j)) && OwnerOk(st, c);
      }
    }
    forall c: nat ensures BitOk(g, c) && OwnerOk(g, c) {
      assert BitOk(st, c) && OwnerOk(st, c);
      if c in st.owner { DetachedOwners(st, n, c); }
    }
    forall s ensures SlotOk(g, s) {
      assert SlotOk(st, s);
      if Val(g, s) != 0 { DetachedOwners(st, n, Val(st, s)); }
    }
  }

  lemma ClearAddrOwn(st: St, n: nat, i: nat, b: nat)
    requires Own(st) && n in st.inodes && i < NDIRECT && st.inodes[n].addrs[i] == b != 0 && b < |st.bitmap|
    ensures var st1 := SetAddr(st, n, i, 0);
            var st' := st1.(bitmap := st.bitmap[b := false], owner := st.owner - {b}, loose := st.loose + {b} - {b});
            && Own(st') && Val(st', Direct(n, i)) == 0
            && forall t :: t != Direct(n, i) ==> Val(st', t) == Val(st, t)
  {
    var st1 := SetAddr(st, n, i, 0).(owner := st.owner - {b}, loose := st.loose + {b});
    assert Val(st, Direct(n, i)) == b;
    UnplaceOwn(st, st1, Direct(n, i));
    FreeOwn(st1, b);
  }

  lemma NoIndirect(st: St, n: nat)
    requires n in st.inodes && st.inodes[n].addrs[NDIRECT] == 0
    ensures Val(st, IndPtr(n)) == 0 && forall j: nat :: Val(st, Ind(n, j)) == 0
    ensures IndBlocks(st, n, NINDIRECT) == {}
  {}

  lemma DetachedParts(st: St, n: nat)
    requires n in st.inodes
    ensures var g := Detached(st, n);
            && g.nmeta == st.nmeta && g.blocks == st.blocks && n in g.inodes
            && g.inodes == st.inodes[n := st.inodes[n].(addrs := st.inodes[n].addrs[NDIRECT := 0])]
  {}

  lemma ResizeOwn(st: St, n: nat, size: nat)
    requires Own(st) && n in st.inodes
    ensures var st' := st.(inodes := st.inodes[n := st.inodes[n].(size := size)]);
            Own(st') && forall s :: Val(st', s) == Val(st, s)
  {
    var st' := st.(inodes := st.inodes[n := st.inodes[n].(size := size)]);
    forall s ensures Val(st', s) == Val(st, s) { }
    forall c: nat ensures BitOk(st', c) && OwnerOk(st', c) { assert BitOk(st, c) && OwnerOk(st, c); }
    forall s ensures SlotOk(st', s) { assert SlotOk(st, s); }
  }

  lemma OutOfRange(st: St, n: nat)
    ensures forall i: nat :: i >= NDIRECT ==> Val(st, Direct(n, i)) == 0
  {}

  lemma DataSameRefl(st: St)
    ensures DataSame(st, st)
  {}

  lemma AddrVals(st: St, n: nat)
    requires n in st.inodes
    ensures forall i: nat :: i <= NDIRECT ==> Val(st, AddrSlot(n, i)) == st.inodes[n].addrs[i]
  {}

  lemma EmptyInd(st: St, n: nat, j: nat)
    requires Val(st, IndPtr(n)) == 0
    ensures Val(st, Ind(n, j)) == 0
  {}

  lemma IndVal(st: St, n: nat, j: nat)
    requires Own(st) && n in st.inodes && st.inodes[n].addrs[NDIRECT] != 0 && j < NINDIRECT
    ensures st.inodes[n].addrs[NDIRECT] < |st.blocks|
    ensures Val(st, Ind(n, j)) == Word(st.blocks[st.inodes[n].addrs[NDIRECT]], j) >= 0
  {
    assert Val(st, IndPtr(n)) == st.inodes[n].addrs[NDIRECT];
    SlotInUse(st, IndPtr(n));
    assert SlotOk(st, Ind(n, j));
  }

  lemma EmptyAddr(st: St, n: nat, i: nat)
    requires n in st.inodes && i <= NDIRECT && st.inodes[n].addrs[i] == 0
    ensures Val(st, AddrSlot(n, i)) == 0
  {}

  lemma PtrVal(st: St, n: nat)
    requires n in st.inodes
    ensures Val(st, IndPtr(n)) == st.inodes[n].addrs[NDIRECT]
  {}

  lemma SameVals(a: St, b: St)
    requires a.inodes == b.inodes && a.blocks == b.blocks
    ensures forall s :: Val(a, s) == Val(b, s)
  {}
}
