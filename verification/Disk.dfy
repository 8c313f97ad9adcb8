/**
 The disk as the log sees it: an array of blocks, changed by atomic block writes that reach it one
 at a time and in order. A crash leaves the effect of a prefix of the writes issued so far.
 */
module Disk {

  // 32-bit words in a block of BSIZE (1024) bytes.
  const WORDS: nat := 256

  // Most blocks one operation may log, and most blocks a transaction may hold.
  const MAXOPBLOCKS: nat := 10
  const LOGSIZE: nat := MAXOPBLOCKS * 3

  type Block = b: seq<int> | |b| == WORDS witness seq(WORDS, _ => 0)

  type Image = seq<Block>

  datatype Write = Write(blockno: int, data: Block)

  function ApplyOne(d: Image, w: Write): (r: Image)
    ensures |r| == |d|
  {
    if 0 <= w.blockno < |d| then d[w.blockno := w.data] else d
  }

  function Apply(d: Image, ws: seq<Write>): (r: Image)
    ensures |r| == |d|
  {
    if ws == [] then d else ApplyOne(Apply(d, ws[..|ws| - 1]), ws[|ws| - 1])
  }

  lemma {:induction false} ApplyConcat(d: Image, a: seq<Write>, b: seq<Write>)
    ensures Apply(d, a + b) == Apply(Apply(d, a), b)
  {
    if b == [] {
      assert a + b == a;
    } else {
      ApplyConcat(d, a, b[..|b| - 1]);
      assert (a + b)[..|a + b| - 1] == a + b[..|b| - 1];
    }
  }

  lemma ApplySnoc(d: Image, a: seq<Write>, w: Write)
    ensures Apply(d, a + [w]) == ApplyOne(Apply(d, a), w)
  {}

  // A block that no write names keeps its contents.
  lemma {:induction false} ApplyFrame(d: Image, ws: seq<Write>, b: nat)
    requires b < |d|
    requires forall i :: 0 <= i < |ws| ==> ws[i].blockno != b
    ensures Apply(d, ws)[b] == d[b]
  {
    if ws != [] {
      ApplyFrame(d, ws[..|ws| - 1], b);
    }
  }

  // When the block numbers are distinct, each named block ends with the data written to it.
  lemma {:induction false} ApplyHit(d: Image, ws: seq<Write>, i: nat)
    requires i < |ws|
    requires 0 <= ws[i].blockno < |d|
    requires forall j :: i < j < |ws| ==> ws[j].blockno != ws[i].blockno
    ensures Apply(d, ws)[ws[i].blockno] == ws[i].data
  {
    if i < |ws| - 1 {
      ApplyHit(d, ws[..|ws| - 1], i);
    }
  }

  predicate Distinct(s: seq<int>)
  {
    forall i, j :: 0 <= i < j < |s| ==> s[i] != s[j]
  }
}
