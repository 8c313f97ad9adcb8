/**
 Ownership of disk blocks (kernel/fs.c): the free bitmap against the block numbers stored in inodes
 and indirect blocks.
 */
module FsOwn {

  const BSIZE: nat := 1024
  const NDIRECT: nat := 12
  const NINDIRECT: nat := 256
  const MAXFILE: nat := 268

  type Block = b: seq<int> | |b| == BSIZE witness seq(BSIZE, _ => 0)
  type Addrs = a: seq<nat> | |a| == NDIRECT + 1 witness seq(NDIRECT + 1, _ => 0)

  function Zero(): (r: Block) {
    seq(BSIZE, _ => 0)
  }

  // ----- An indirect block is an array of little-endian 32-bit words -----

  function Word(b: Block, j: nat): (r: int)
    requires j < NINDIRECT
  {
    b[4 * j] + 0x100 * b[4 * j + 1] + 0x1_0000 * b[4 * j + 2] + 0x100_0000 * b[4 * j + 3]
  }

  function PutWord(b: Block, j: nat, w: nat): (r: Block)
    requires j < NINDIRECT
  {
    b[4 * j := w % 0x100][4 * j + 1 := w / 0x100 % 0x100]
     [4 * j + 2 := w / 0x1_0000 % 0x100][4 * j + 3 := w / 0x100_0000]
  }

  lemma PutWordMeaning(b: Block, j: nat, w: nat, k: nat)
    requires j < NINDIRECT && k < NINDIRECT
    ensures Word(PutWord(b, j, w), k) == if k == j then w else Word(b, k)
  {
    if k == j {
      assert w == w % 0x100 + 0x100 * (w / 0x100);
      assert w / 0x100 == w / 0x100 % 0x100 + 0x100 * (w / 0x100 / 0x100);
      assert w / 0x100 / 0x100 == w / 0x1_0000;
      assert w / 0x1_0000 == w / 0x1_0000 % 0x100 + 0x100 * (w / 0x1_0000 / 0x100);
      assert w / 0x1_0000 / 0x100 == w / 0x100_0000;
    } else if k < j {
      assert 4 * k + 3 < 4 * j;
    } else {
      assert 4 * j + 3 < 4 * k;
    }
  }

  // ----- State -----

  datatype Inode = Inode(size: nat, addrs: Addrs)

  // The places a block number can be stored in.
  datatype Slot = Direct(inum: nat, i: nat) | IndPtr(inum: nat) | Ind(inum: nat, j: nat)

  // owner: which place names a block. loose: allocated but not stored anywhere yet.
  datatype St = St(nmeta: nat, bitmap: seq<bool>, blocks: seq<Block>, inodes: map<nat, Inode>,
                   owner: map<nat, Slot>, loose: set<nat>)

  function At(st: St, b: int): (r: Block) {
    if 0 <= b < |st.blocks| then st.blocks[b] else Zero()
  }

  function Val(st: St, s: Slot): (r: int) {
    if s.inum !in st.inodes then 0
    else
      var a := st.inodes[s.inum].addrs;
      match s
      case Direct(_, i) => if i < NDIRECT then a[i] else 0
      case IndPtr(_) => a[NDIRECT]
      case Ind(_, j) => if a[NDIRECT] != 0 && j < NINDIRECT then Word(At(st, a[NDIRECT]), j) else 0
  }

  ghost predicate Shape(st: St) {
    && 1 <= st.nmeta <= |st.bitmap| == |st.blocks|
    && (forall b :: 0 <= b < st.nmeta ==> st.bitmap[b])
  }

  ghost predicate BitOk(st: St, b: nat) {
    st.nmeta <= b < |st.bitmap| ==> (st.bitmap[b] <==> b in st.owner || b in st.loose)
  }

  ghost predicate OwnerOk(st: St, b: nat) {
    b in st.owner ==> st.nmeta <= b < |st.bitmap| && b !in st.loose && Val(st, st.owner[b]) == b
  }

  ghost predicate SlotOk(st: St, s: Slot) {
    Val(st, s) != 0 ==> Val(st, s) >= 0 && Val(st, s) in st.owner && st.owner[Val(st, s)] == s
  }

  // A bit is set exactly when its block is metadata, or is stored in exactly one place, or has just
  // been allocated.
  ghost predicate Own(st: St) {
    && Shape(st)
    && (forall b: nat :: BitOk(st, b))
    && (forall b: nat :: OwnerOk(st, b))
    && (forall s :: SlotOk(st, s))
    && (forall b :: b in st.loose ==> st.nmeta <= b < |st.bitmap|)
  }

  // Two places never name the same block.
  lemma NoSharing(st: St, s: Slot, t: Slot)
    requires Own(st) && s != t && Val(st, s) != 0
    ensures Val(st, s) != Val(st, t)
  {
    assert SlotOk(st, s) && SlotOk(st, t);
  }

  lemma SlotInUse(st: St, s: Slot)
    requires Own(st) && Val(st, s) != 0
    ensures st.nmeta <= Val(st, s) < |st.bitmap| == |st.blocks| && st.bitmap[Val(st, s)] && Val(st, s) !in st.loose
  {
    assert SlotOk(st, s) && OwnerOk(st, Val(st, s)) && BitOk(st, Val(st, s));
  }

  // ----- The three ways the state changes -----

  // balloc: bit set, block zeroed.
  function Allocate(st: St, b: nat): (r: St)
    requires b < |st.bitmap| == |st.blocks|
  {
    st.(bitmap := st.bitmap[b := true], blocks := st.blocks[b := Zero()], loose := st.loose + {b})
  }

  lemma ValAfterWrite(st: St, st': St, b: nat, s: Slot)
    requires st'.inodes == st.inodes && |st'.blocks| == |st.blocks|
    requires forall c :: 0 <= c < |st.blocks| && c != b ==> st'.blocks[c] == st.blocks[c]
    requires Val(st, IndPtr(s.inum)) != b
    ensures Val(st', s) == Val(st, s)
  {}

  lemma AllocateOwn(st: St, b: nat)
    requires Own(st) && b < |st.bitmap| && !st.bitmap[b]
    ensures Own(Allocate(st, b)) && b >= st.nmeta && b !in st.owner && b !in st.loose
    ensures forall s :: Val(Allocate(st, b), s) == Val(st, s)
    ensures forall s :: Val(st, s) != b
  {
    var st' := Allocate(st, b);
    assert BitOk(st, b);
    forall s ensures Val(st', s) == Val(st, s) && Val(st, s) != b {
      assert SlotOk(st, s) && SlotOk(st, IndPtr(s.inum));
      ValAfterWrite(st, st', b, s);
    }
    forall c: nat ensures BitOk(st', c) { assert BitOk(st, c); }
    forall c: nat ensures OwnerOk(st', c) { assert OwnerOk(st, c); }
    forall s ensures SlotOk(st', s) { assert SlotOk(st, s); }
  }

  // The caller of balloc stores the block number in a slot that was empty.
  lemma PlaceOwn(st: St, st': St, b: nat, s: Slot)
    requires Own(st) && b in st.loose && Val(st, s) == 0 && b != 0
    requires st'.nmeta == st.nmeta && st'.bitmap == st.bitmap && |st'.blocks| == |st.blocks|
    requires st'.owner == st.owner[b := s] && st'.loose == st.loose - {b}
    requires Val(st', s) == b && forall t :: t != s ==> Val(st', t) == Val(st, t)
    ensures Own(st')
  {
    forall c: nat ensures BitOk(st', c) { assert BitOk(st, c); }
    forall c: nat ensures OwnerOk(st', c) {
      assert OwnerOk(st, c);
      if c in st.owner && c != b { assert st.owner[c] != s; }
    }
    forall t ensures SlotOk(st', t) {
      assert SlotOk(st, t) && OwnerOk(st, b);
    }
  }

  // A slot is emptied and the block it named becomes loose.
  lemma UnplaceOwn(st: St, st': St, s: Slot)
    requires Own(st) && Val(st, s) != 0
    requires st'.nmeta == st.nmeta && st'.bitmap == st.bitmap && |st'.blocks| == |st.blocks|
    requires Val(st, s) >= 0 && st'.owner == st.owner - {Val(st, s) as nat}
             && st'.loose == st.loose + {Val(st, s) as nat}
    requires Val(st', s) == 0 && forall t :: t != s ==> Val(st', t) == Val(st, t)
    ensures Own(st')
  {
    SlotInUse(st, s);
    var b := Val(st, s);
    assert SlotOk(st, s);
    forall c: nat ensures BitOk(st', c) { assert BitOk(st, c); }
    forall c: nat ensures OwnerOk(st', c) {
      assert OwnerOk(st, c);
      if c in st.owner && c != b { assert st.owner[c] != s; }
    }
    forall t ensures SlotOk(st', t) {
      assert SlotOk(st, t);
    }
  }

  // bfree of a block that is stored nowhere.
  lemma FreeOwn(st: St, b: nat)
    requires Own(st) && b in st.loose
    ensures b < |st.bitmap| && st.bitmap[b]
    ensures Own(st.(bitmap := st.bitmap[b := false], loose := st.loose - {b}))
  {
    assert BitOk(st, b) && OwnerOk(st, b);
    var st' := st.(bitmap := st.bitmap[b := false], loose := st.loose - {b});
    forall c: nat ensures BitOk(st', c) { assert BitOk(st, c) && OwnerOk(st, c); }
    forall c: nat ensures OwnerOk(st', c) { assert OwnerOk(st, c); }
    forall s ensures SlotOk(st', s) { assert SlotOk(st, s); }
  }

  // Writing a block that is not an indirect block changes no stored block number.
  lemma DataWriteOwn(st: St, b: nat, data: Block)
    requires Own(st) && b < |st.blocks| && (forall n :: Val(st, IndPtr(n)) != b)
    ensures Own(st.(blocks := st.blocks[b := data]))
    ensures forall s :: Val(st.(blocks := st.blocks[b := data]), s) == Val(st, s)
  {
    var st' := st.(blocks := st.blocks[b := data]);
    forall s ensures Val(st', s) == Val(st, s) {
      ValAfterWrite(st, st', b, s);
    }
    forall c: nat ensures BitOk(st', c) { assert BitOk(st, c); }
    forall c: nat ensures OwnerOk(st', c) { assert OwnerOk(st, c); }
    forall s ensures SlotOk(st', s) { assert SlotOk(st, s); }
  }
}
