/**
 The user-level heap allocator of Kernighan and Ritchie (user/umalloc.c; The C Programming Language,
 2nd edition, section 8.7). Addresses count Header units of 16 bytes. `base` is the static header,
 which lies below everything sbrk returns.
 */
module Umalloc {
  import opened Wrappers

  type Table = map<nat, nat>

  // A block: the address of its header and its size, header included.
  type Run = (nat, nat)

  function End(b: Run): (r: nat) { b.0 + b.1 }

  predicate Apart(a: Run, b: Run) { End(a) <= b.0 || End(b) <= a.0 }

  // The node after node i of the circular list.
  function Succ(l: seq<Run>, i: nat): (r: nat)
    requires i < |l|
  {
    if i + 1 < |l| then l[i + 1].0 else l[0].0
  }

  // In address order, disjoint and never adjacent.
  ghost predicate Gaps(l: seq<Run>) {
    forall i, j :: 0 <= i < j < |l| ==> End(l[i]) < l[j].0
  }

  // The headers in memory spell out the list l.
  ghost predicate Spells(next: Table, size: Table, l: seq<Run>) {
    forall i :: 0 <= i < |l| ==>
      l[i].0 in next && l[i].0 in size && next[l[i].0] == Succ(l, i) && size[l[i].0] == l[i].1
  }

  // The free list, from base upwards: one wrap, back to base, which is empty.
  ghost predicate ListOk(next: Table, size: Table, l: seq<Run>, base: nat) {
    && |l| >= 1 && l[0] == (base, 0)
    && (forall i :: 0 < i < |l| ==> l[i].1 >= 1)
    && Gaps(l) && Spells(next, size, l)
  }

  // Part of the list, from node j up to node k, becomes m.
  function Replaced(l: seq<Run>, j: nat, k: nat, m: seq<Run>): (r: seq<Run>)
    requires j <= k <= |l|
  {
    l[..j] + m + l[k..]
  }

  lemma ReplaceGaps(l: seq<Run>, j: nat, k: nat, m: seq<Run>)
    requires Gaps(l) && j < k <= |l| && |m| >= 1 && Gaps(m) && m[0].0 == l[j].0
    requires k < |l| ==> End(m[|m| - 1]) < l[k].0
    ensures Gaps(Replaced(l, j, k, m))
  {}

  // The headers outside the replaced part are as before; those of m spell m and lead on to node k.
  ghost predicate Relinked(next: Table, size: Table, next': Table, size': Table, l: seq<Run>, j: nat, k: nat,
                           m: seq<Run>)
    requires j < k <= |l| && |m| >= 1
  {
    && (forall i :: 0 <= i < |l| && !(j <= i < k) && l[i].0 in next && l[i].0 in size ==>
          l[i].0 in next' && l[i].0 in size' && next'[l[i].0] == next[l[i].0] && size'[l[i].0] == size[l[i].0])
    && (forall t :: 0 <= t < |m| ==> m[t].0 in next' && m[t].0 in size' && size'[m[t].0] == m[t].1)
    && (forall t :: 0 <= t < |m| ==> next'[m[t].0] == Onward(l, k, m, t))
  }

  // What node t of m leads to.
  function Onward(l: seq<Run>, k: nat, m: seq<Run>, t: nat): (r: nat)
    requires t < |m| && |l| >= 1
  {
    if t + 1 < |m| then m[t + 1].0 else if k < |l| then l[k].0 else l[0].0
  }

  lemma ReplaceSpells(next: Table, size: Table, next': Table, size': Table, l: seq<Run>, j: nat, k: nat, m: seq<Run>)
    requires Spells(next, size, l) && j < k <= |l| && |m| >= 1 && m[0].0 == l[j].0
    requires Relinked(next, size, next', size', l, j, k, m)
    ensures Spells(next', size', Replaced(l, j, k, m))
  {}

  ghost predicate In(l: seq<Run>, u: nat) {
    exists i :: 0 <= i < |l| && l[i].0 <= u < End(l[i])
  }

  lemma InReplaced(l: seq<Run>, j: nat, k: nat, m: seq<Run>, u: nat)
    requires j <= k <= |l|
    ensures In(Replaced(l, j, k, m), u) <==> In(l[..j], u) || In(m, u) || In(l[k..], u)
    ensures In(l, u) <==> In(l[..j], u) || In(l[j..k], u) || In(l[k..], u)
  {
    InConcat(l[..j] + m, l[k..], u);
    InConcat(l[..j], m, u);
    assert l == l[..j] + l[j..k] + l[k..];
    InConcat(l[..j] + l[j..k], l[k..], u);
    InConcat(l[..j], l[j..k], u);
  }

  lemma InConcat(a: seq<Run>, b: seq<Run>, u: nat)
    ensures In(a + b, u) <==> In(a, u) || In(b, u)
  {
    if In(a, u) {
      var i :| 0 <= i < |a| && a[i].0 <= u < End(a[i]);
      assert (a + b)[i] == a[i];
    }
    if In(b, u) {
      var i :| 0 <= i < |b| && b[i].0 <= u < End(b[i]);
      assert (a + b)[|a| + i] == b[i];
    }
    if In(a + b, u) {
      var i :| 0 <= i < |a + b| && (a + b)[i].0 <= u < End((a + b)[i]);
      if i < |a| { assert a[i].0 <= u < End(a[i]); } else { assert b[i - |a|].0 <= u < End(b[i - |a|]); }
    }
  }

  // ----- The heap -----

  // Allocated blocks: disjoint from each other and from the free ones.
  ghost predicate LiveOk(size: Table, l: seq<Run>, base: nat, live: Table) {
    && (forall a :: a in live ==> base < a && a in size && size[a] == live[a] >= 1)
    && (forall a, i :: a in live && 0 <= i < |l| ==> Apart((a, live[a]), l[i]))
    && (forall a, b :: a in live && b in live && a != b ==> Apart((a, live[a]), (b, live[b])))
  }

  ghost predicate InLive(live: Table, u: nat) {
    exists a :: a in live && a <= u < a + live[a]
  }

  // Every unit sbrk has granted is free or allocated, and no other is.
  ghost predicate Conserved(l: seq<Run>, live: Table, cores: seq<Run>) {
    forall u: nat :: In(cores, u) <==> In(l, u) || InLive(live, u)
  }

  ghost predicate Below(l: seq<Run>, live: Table, brk: nat) {
    && (forall i :: 0 <= i < |l| ==> l[i].0 < brk && End(l[i]) <= brk)
    && (forall a :: a in live ==> a + live[a] <= brk)
  }

  ghost predicate HeapOk(next: Table, size: Table, l: seq<Run>, base: nat, live: Table, cores: seq<Run>, brk: nat) {
    ListOk(next, size, l, base) && LiveOk(size, l, base, live) && Conserved(l, live, cores) && Below(l, live, brk)
  }

  // ----- free -----

  // bp belongs right after node j.
  predicate Between(l: seq<Run>, j: nat, bp: nat) {
    j < |l| && l[j].0 < bp && (j + 1 < |l| ==> bp < l[j + 1].0)
  }

  lemma {:induction false} FindPlace(l: seq<Run>, bp: nat, k: nat) returns (j: nat)
    requires k < |l| && l[k].0 < bp && (forall i :: 0 <= i < |l| ==> l[i].0 != bp)
    ensures Between(l, j, bp)
    decreases |l| - k
  {
    if k + 1 < |l| && l[k + 1].0 < bp {
      j := FindPlace(l, bp, k + 1);
    } else {
      j := k;
    }
  }

  // When free()'s loop stops at p, whose successor is q: bp lies between them, or at either end of the heap.
  predicate BelongsAfter(bp: nat, p: nat, q: nat) {
    (p < bp < q) || (p >= q && (bp > p || bp < q))
  }

  lemma StopsAtPlace(l: seq<Run>, j: nat, i: nat, bp: nat)
    requires Gaps(l) && Between(l, j, bp) && i < |l| && l[0].0 < bp
    ensures BelongsAfter(bp, l[i].0, Succ(l, i)) <==> i == j
  {}

  predicate Forward(l: seq<Run>, j: nat, b: Run)
    requires j < |l|
  {
    j + 1 < |l| && End(b) == l[j + 1].0
  }

  // The piece that takes the place of node j, and of node j+1 if b touches it.
  function Merged(l: seq<Run>, j: nat, b: Run): (m: seq<Run>)
    requires j < |l|
    ensures |m| >= 1
  {
    var total := if Forward(l, j, b) then b.1 + l[j + 1].1 else b.1;
    if End(l[j]) == b.0 then [(l[j].0, l[j].1 + total)] else [l[j], (b.0, total)]
  }

  function Freed(l: seq<Run>, j: nat, b: Run): (r: seq<Run>)
    requires j < |l|
  {
    Replaced(l, j, if Forward(l, j, b) then j + 2 else j + 1, Merged(l, j, b))
  }

  ghost predicate CanFree(l: seq<Run>, j: nat, b: Run) {
    Gaps(l) && Between(l, j, b.0) && b.1 >= 1 && forall i :: 0 <= i < |l| ==> Apart(b, l[i])
  }

  lemma FreedGaps(l: seq<Run>, j: nat, b: Run)
    requires CanFree(l, j, b)
    ensures Gaps(Freed(l, j, b)) && End(l[j]) <= b.0
    ensures j + 1 < |l| ==> End(b) <= l[j + 1].0
  {
    assert Apart(b, l[j]);
    if j + 1 < |l| { assert Apart(b, l[j + 1]); }
    var k := if Forward(l, j, b) then j + 2 else j + 1;
    if k < |l| { assert End(l[j + 1]) < l[k].0 || k == j + 1; }
    ReplaceGaps(l, j, k, Merged(l, j, b));
  }

  lemma FreedUnits(l: seq<Run>, j: nat, b: Run, u: nat)
    requires CanFree(l, j, b)
    ensures In(Freed(l, j, b), u) <==> In(l, u) || b.0 <= u < End(b)
  {
    FreedGaps(l, j, b);
    var fwd := Forward(l, j, b);
    var k, m := if fwd then j + 2 else j + 1, Merged(l, j, b);
    InReplaced(l, j, k, m, u);
    var o := l[j..k];
    assert o[0] == l[j];
    assert In(o, u) <==> l[j].0 <= u < End(l[j]) || (fwd && l[j + 1].0 <= u < End(l[j + 1])) by {
      if fwd { assert o[1] == l[j + 1]; }
    }
    assert In(m, u) <==> m[0].0 <= u < End(m[0]) || (|m| == 2 && m[1].0 <= u < End(m[1]));
  }

  // Node i of the list after free: an old node, or one of the merged piece.
  lemma FreedNode(l: seq<Run>, j: nat, b: Run, i: nat)
    requires j < |l| && i < |Freed(l, j, b)|
    ensures Freed(l, j, b)[i] in l || Freed(l, j, b)[i] in Merged(l, j, b)
    ensures i < j ==> Freed(l, j, b)[i] == l[i]
    ensures Freed(l, j, b)[j] == Merged(l, j, b)[0]
  {}

  lemma FreedNodes(l: seq<Run>, j: nat, b: Run, base: nat)
    requires CanFree(l, j, b) && l[0] == (base, 0) && base < b.0 && forall i :: 0 < i < |l| ==> l[i].1 >= 1
    ensures Freed(l, j, b)[0] == (base, 0)
    ensures forall i :: 0 < i < |Freed(l, j, b)| ==> Freed(l, j, b)[i].1 >= 1
  {}

  // A block apart from b and from every free block stays apart from the free blocks.
  lemma FreedApart(l: seq<Run>, j: nat, b: Run, a: Run, i: nat)
    requires CanFree(l, j, b) && i < |Freed(l, j, b)| && a.1 >= 1 && Apart(a, b)
    requires forall t :: 0 <= t < |l| ==> Apart(a, l[t])
    ensures Apart(a, Freed(l, j, b)[i])
  {}

  // The assignments of free(), after its loop has stopped at p.
  function FreeSize1(next: Table, size: Table, p: nat, bp: nat): (r: Table)
    requires p in next && bp in size
  {
    if bp + size[bp] == next[p] && next[p] in size then size[bp := size[bp] + size[next[p]]] else size
  }

  function FreeNext1(next: Table, size: Table, p: nat, bp: nat): (r: Table)
    requires p in next && bp in size
  {
    if bp + size[bp] == next[p] && next[p] in next then next[bp := next[next[p]]] else next[bp := next[p]]
  }

  function FreeSize2(size: Table, p: nat, bp: nat): (r: Table)
    requires p in size && bp in size
  {
    if p + size[p] == bp then size[p := size[p] + size[bp]] else size
  }

  function FreeNext2(next: Table, size: Table, p: nat, bp: nat): (r: Table)
    requires p in size && bp in next
  {
    if p + size[p] == bp then next[p := next[bp]] else next[p := bp]
  }

  lemma NotANode(l: seq<Run>, j: nat, bp: nat, i: nat)
    requires Gaps(l) && Between(l, j, bp) && i < |l|
    ensures l[i].0 != bp && (i != j ==> l[i].0 != l[j].0)
  {}

  // What free() reads, in terms of the list.
  lemma FreeReads(next: Table, size: Table, l: seq<Run>, base: nat, j: nat, bp: nat)
    requires ListOk(next, size, l, base) && bp in size && base < bp && CanFree(l, j, (bp, size[bp]))
    ensures var p := l[j].0;
            && p in next && p in size && next[p] in next && next[p] in size && size[p] == l[j].1 && p != bp
            && next[p] != bp
            && (Forward(l, j, (bp, size[bp])) <==> bp + size[bp] == next[p])
            && (Forward(l, j, (bp, size[bp])) ==> next[p] == l[j + 1].0 != p && size[next[p]] == l[j + 1].1
                                                  && next[next[p]] == if j + 2 < |l| then l[j + 2].0 else l[0].0)
            && next[p] == if j + 1 < |l| then l[j + 1].0 else l[0].0
  {}

  lemma FreeSpells(next: Table, size: Table, l: seq<Run>, base: nat, j: nat, bp: nat)
    requires ListOk(next, size, l, base) && bp in size && base < bp && CanFree(l, j, (bp, size[bp]))
    ensures var p := l[j].0;
            && p in next && p in size
            && var size1 := FreeSize1(next, size, p, bp);
               var next1 := FreeNext1(next, size, p, bp);
               Spells(FreeNext2(next1, size1, p, bp), FreeSize2(size1, p, bp), Freed(l, j, (bp, size[bp])))
  {
    var b := (bp, size[bp]);
    var p := l[j].0;
    FreeReads(next, size, l, base, j, bp);
    forall i: nat | i < |l| ensures l[i].0 != bp && (i != j ==> l[i].0 != p) { NotANode(l, j, bp, i); }
    FreePiece(next, size, l, base, j, bp);
    var size1, next1 := FreeSize1(next, size, p, bp), FreeNext1(next, size, p, bp);
    var size2, next2 := FreeSize2(size1, p, bp), FreeNext2(next1, size1, p, bp);
    var k, m := if Forward(l, j, b) then j + 2 else j + 1, Merged(l, j, b);
    hide Merged, FreeSize1, FreeSize2, FreeNext1, FreeNext2, Onward;
    ReplaceSpells(next, size, next2, size2, l, j, k, m);
  }

  // The new headers spell the merged piece.
  lemma FreePiece(next: Table, size: Table, l: seq<Run>, base: nat, j: nat, bp: nat)
    requires ListOk(next, size, l, base) && bp in size && base < bp && CanFree(l, j, (bp, size[bp]))
    ensures var b, p := (bp, size[bp]), l[j].0;
            && p in next && p in size
            && var size1 := FreeSize1(next, size, p, bp);
               var next1 := FreeNext1(next, size, p, bp);
               var size2 := FreeSize2(size1, p, bp);
               var next2 := FreeNext2(next1, size1, p, bp);
               var k, m := if Forward(l, j, b) then j + 2 else j + 1, Merged(l, j, b);
               && m[0].0 == p
               && (forall t :: 0 <= t < |m| ==> m[t].0 in next2 && m[t].0 in size2 && size2[m[t].0] == m[t].1)
               && (forall t :: 0 <= t < |m| ==> next2[m[t].0] == Onward(l, k, m, t))
               && (forall a :: a in next && a != p && a != bp ==> a in next2 && next2[a] == next[a])
               && (forall a :: a in size && a != p && a != bp ==> a in size2 && size2[a] == size[a])
  {
    FreeReads(next, size, l, base, j, bp);
    hide ListOk, CanFree;
  }

  // A heap in which block b belongs to nobody: it is neither free nor allocated.
  ghost predicate HeapWith(next: Table, size: Table, l: seq<Run>, base: nat, live: Table, cores: seq<Run>, brk: nat,
                           b: Run) {
    && ListOk(next, size, l, base) && LiveOk(size, l, base, live) && Below(l, live, brk)
    && base < b.0 && b.0 in size && size[b.0] == b.1 >= 1 && End(b) <= brk && b.0 !in live
    && (forall i :: 0 <= i < |l| ==> Apart(b, l[i]))
    && (forall a :: a in live ==> Apart((a, live[a]), b))
    && (forall u: nat :: In(cores, u) <==> In(l, u) || InLive(live, u) || b.0 <= u < End(b))
  }

  lemma FreedHeap(next: Table, size: Table, l: seq<Run>, base: nat, live: Table, cores: seq<Run>, brk: nat, b: Run,
                  j: nat)
    requires HeapWith(next, size, l, base, live, cores, brk, b) && Between(l, j, b.0)
    ensures var p := l[j].0;
            && p in next && p in size
            && var size1 := FreeSize1(next, size, p, b.0);
               var next1 := FreeNext1(next, size, p, b.0);
               HeapOk(FreeNext2(next1, size1, p, b.0), FreeSize2(size1, p, b.0), Freed(l, j, b), base, live, cores, brk)
  {
    FreedListOk(next, size, l, base, live, cores, brk, b, j);
    FreePiece(next, size, l, base, j, b.0);
    hide FreeSize1, FreeSize2, FreeNext1, FreeNext2, Freed, Merged, Onward;
    FreedLive(next, size, FreeSize2(FreeSize1(next, size, l[j].0, b.0), l[j].0, b.0), l, base, live, cores, brk, b, j);
    FreedConserved(next, size, l, base, live, cores, brk, b, j);
    FreedBelow(next, size, l, base, live, cores, brk, b, j);
  }

  lemma FreedListOk(next: Table, size: Table, l: seq<Run>, base: nat, live: Table, cores: seq<Run>, brk: nat, b: Run,
                    j: nat)
    requires HeapWith(next, size, l, base, live, cores, brk, b) && Between(l, j, b.0)
    ensures var p := l[j].0;
            && p in next && p in size
            && var size1 := FreeSize1(next, size, p, b.0);
               var next1 := FreeNext1(next, size, p, b.0);
               ListOk(FreeNext2(next1, size1, p, b.0), FreeSize2(size1, p, b.0), Freed(l, j, b), base)
  {
    FreeSpells(next, size, l, base, j, b.0);
    FreedGaps(l, j, b);
    FreedNodes(l, j, b, base);
    hide FreeSize1, FreeSize2, FreeNext1, FreeNext2, Freed, Gaps, Spells;
  }

  lemma FreedConserved(next: Table, size: Table, l: seq<Run>, base: nat, live: Table, cores: seq<Run>, brk: nat,
                       b: Run, j: nat)
    requires HeapWith(next, size, l, base, live, cores, brk, b) && Between(l, j, b.0)
    ensures Conserved(Freed(l, j, b), live, cores)
  {
    hide Freed, In, InLive;
    forall u: nat ensures In(cores, u) <==> In(Freed(l, j, b), u) || InLive(live, u) { FreedUnits(l, j, b, u); }
  }

  lemma FreedBelow(next: Table, size: Table, l: seq<Run>, base: nat, live: Table, cores: seq<Run>, brk: nat, b: Run,
                   j: nat)
    requires HeapWith(next, size, l, base, live, cores, brk, b) && Between(l, j, b.0)
    ensures Below(Freed(l, j, b), live, brk)
  {
    var r := Freed(l, j, b);
    forall i | 0 <= i < |r| ensures r[i].0 < brk && End(r[i]) <= brk {
      FreedNode(l, j, b, i);
      assert r[i] in l ==> exists t :: 0 <= t < |l| && l[t] == r[i];
    }
  }

  lemma FreedLive(next: Table, size: Table, size2: Table, l: seq<Run>, base: nat, live: Table, cores: seq<Run>,
                  brk: nat, b: Run, j: nat)
    requires HeapWith(next, size, l, base, live, cores, brk, b) && Between(l, j, b.0)
    requires forall a :: a in size && a != l[j].0 && a != b.0 ==> a in size2 && size2[a] == size[a]
    ensures LiveOk(size2, Freed(l, j, b), base, live)
  {
    var r := Freed(l, j, b);
    forall a | a in live ensures a in size2 && size2[a] == live[a] {
      assert Apart((a, live[a]), l[j]) && Apart((a, live[a]), b);
      assert j > 0 ==> l[j].1 >= 1;
    }
    forall a, i | a in live && 0 <= i < |r| ensures Apart((a, live[a]), r[i]) {
      FreedApart(l, j, b, (a, live[a]), i);
    }
  }

  // ----- malloc -----

  // Node e gives up its last n units, or leaves the list if it has no more.
  function TakenList(l: seq<Run>, e: nat, n: nat): (r: seq<Run>)
    requires 0 < e < |l| && n <= l[e].1
  {
    if l[e].1 == n then Replaced(l, e - 1, e + 1, [l[e - 1]]) else Replaced(l, e, e + 1, [(l[e].0, l[e].1 - n)])
  }

  function Taken(l: seq<Run>, e: nat, n: nat): (r: nat)
    requires 0 < e < |l| && n <= l[e].1
  {
    l[e].0 + (l[e].1 - n)
  }

  function TakeNext(next: Table, l: seq<Run>, e: nat, n: nat): (r: Table)
    requires 0 < e < |l| && l[e].0 in next
  {
    if l[e].1 == n then next[l[e - 1].0 := next[l[e].0]] else next
  }

  function TakeSize(size: Table, l: seq<Run>, e: nat, n: nat): (r: Table)
    requires 0 < e < |l| && n <= l[e].1
  {
    if l[e].1 == n then size else size[l[e].0 := l[e].1 - n][Taken(l, e, n) := n]
  }

  lemma TakenGaps(l: seq<Run>, e: nat, n: nat)
    requires Gaps(l) && 0 < e < |l| && 1 <= n <= l[e].1
    ensures Gaps(TakenList(l, e, n))
  {}

  // Each node of the list after malloc is an old one, or the old node e cut short.
  lemma TakenNode(l: seq<Run>, e: nat, n: nat, i: nat)
    requires 0 < e < |l| && 1 <= n <= l[e].1 && i < |TakenList(l, e, n)|
    ensures var r := TakenList(l, e, n)[i];
            (exists t :: 0 <= t < |l| && t != e && l[t] == r) || (l[e].1 > n && r == (l[e].0, l[e].1 - n))
    ensures TakenList(l, e, n)[0] == l[0] && (i > 0 ==> exists t :: 0 < t < |l| && l[t].0 == TakenList(l, e, n)[i].0)
  {}

  lemma NodesDiffer(l: seq<Run>, i: nat, e: nat)
    requires Gaps(l) && i < |l| && e < |l| && i != e
    ensures l[i].0 != l[e].0 && (l[i].0 < l[e].0 || End(l[e]) < l[i].0)
  {}

  lemma SpellsAt(next: Table, size: Table, l: seq<Run>, i: nat)
    requires Spells(next, size, l) && i < |l|
    ensures l[i].0 in next && l[i].0 in size && next[l[i].0] == Succ(l, i) && size[l[i].0] == l[i].1
  {}

  lemma ExactSpells(next: Table, size: Table, l: seq<Run>, e: nat)
    requires Gaps(l) && Spells(next, size, l) && 0 < e < |l|
    ensures l[e].0 in next
    ensures Spells(next[l[e - 1].0 := next[l[e].0]], size, Replaced(l, e - 1, e + 1, [l[e - 1]]))
  {
    hide Spells;
    SpellsAt(next, size, l, e);
    SpellsAt(next, size, l, e - 1);
    var next' := next[l[e - 1].0 := next[l[e].0]];
    forall i: nat | i < |l| && i != e - 1 ensures l[i].0 != l[e - 1].0 { NodesDiffer(l, i, e - 1); }
    var m := [l[e - 1]];
    assert size[l[e - 1].0] == l[e - 1].1;
    assert next'[m[0].0] == Onward(l, e + 1, m, 0);
    hide Gaps, Onward, Replaced, Succ;
    ReplaceSpells(next, size, next', size, l, e - 1, e + 1, m);
  }

  lemma SplitSpells(next: Table, size: Table, l: seq<Run>, e: nat, n: nat)
    requires Gaps(l) && Spells(next, size, l) && 0 < e < |l| && 1 <= n < l[e].1
    ensures Spells(next, size[l[e].0 := l[e].1 - n][Taken(l, e, n) := n], Replaced(l, e, e + 1, [(l[e].0, l[e].1 - n)]))
  {
    hide Spells;
    SpellsAt(next, size, l, e);
    var size' := size[l[e].0 := l[e].1 - n][Taken(l, e, n) := n];
    forall i: nat | i < |l| && i != e ensures l[i].0 != l[e].0 && l[i].0 != Taken(l, e, n) { NodesDiffer(l, i, e); }
    var m := [(l[e].0, l[e].1 - n)];
    assert next[m[0].0] == Onward(l, e + 1, m, 0);
    hide Gaps, Onward, Replaced, Succ;
    ReplaceSpells(next, size, next, size', l, e, e + 1, m);
  }

  lemma TakenSpells(next: Table, size: Table, l: seq<Run>, base: nat, e: nat, n: nat)
    requires ListOk(next, size, l, base) && 0 < e < |l| && 1 <= n <= l[e].1
    ensures l[e].0 in next && Spells(TakeNext(next, l, e, n), TakeSize(size, l, e, n), TakenList(l, e, n))
  {
    hide Spells, Gaps, Replaced;
    ExactSpells(next, size, l, e);
    if l[e].1 > n { SplitSpells(next, size, l, e, n); }
  }

  lemma TakenUnits(l: seq<Run>, e: nat, n: nat, u: nat)
    requires Gaps(l) && 0 < e < |l| && 1 <= n <= l[e].1
    ensures In(l, u) <==> In(TakenList(l, e, n), u) || Taken(l, e, n) <= u < Taken(l, e, n) + n
  {
    if l[e].1 == n {
      InReplaced(l, e - 1, e + 1, [l[e - 1]], u);
      var o, m := l[e - 1..e + 1], [l[e - 1]];
      assert o[0] == l[e - 1] && o[1] == l[e] && m[0] == l[e - 1];
      assert In(o, u) <==> l[e - 1].0 <= u < End(l[e - 1]) || l[e].0 <= u < End(l[e]);
      assert In(m, u) <==> l[e - 1].0 <= u < End(l[e - 1]);
    } else {
      var m := [(l[e].0, l[e].1 - n)];
      InReplaced(l, e, e + 1, m, u);
      var o := l[e..e + 1];
      assert o[0] == l[e];
      assert In(o, u) <==> l[e].0 <= u < End(l[e]);
      assert In(m, u) <==> l[e].0 <= u < Taken(l, e, n) by { assert m[0].0 == l[e].0 && End(m[0]) == Taken(l, e, n); }
    }
  }

  lemma TakenApart(l: seq<Run>, e: nat, n: nat, a: Run, i: nat)
    requires Gaps(l) && 0 < e < |l| && 1 <= n <= l[e].1 && i < |TakenList(l, e, n)| && a.1 >= 1
    requires (forall t :: 0 <= t < |l| ==> Apart(a, l[t])) || a == (Taken(l, e, n), n)
    ensures Apart(a, TakenList(l, e, n)[i])
  {}

  lemma TakenPart(l: seq<Run>, e: nat, n: nat, a: Run)
    requires 0 < e < |l| && 1 <= n <= l[e].1 && a.1 >= 1 && Apart(a, l[e])
    ensures a.0 != Taken(l, e, n) && a.0 != l[e].0 && Apart(a, (Taken(l, e, n), n))
  {}

  lemma TakenSizes(size: Table, l: seq<Run>, base: nat, live: Table, e: nat, n: nat)
    requires 0 < e < |l| && 1 <= n <= l[e].1 && l[e].0 in size && size[l[e].0] == l[e].1 && base < l[e].0
    requires forall a :: a in live ==> base < a && a != l[e].0 && a in size && size[a] == live[a] >= 1
    ensures var size', live' := TakeSize(size, l, e, n), live[Taken(l, e, n) := n];
            forall a :: a in live' ==> base < a && a in size' && size'[a] == live'[a] >= 1
  {}

  lemma TakenLive(next: Table, size: Table, l: seq<Run>, base: nat, live: Table, e: nat, n: nat)
    requires ListOk(next, size, l, base) && LiveOk(size, l, base, live) && 0 < e < |l| && 1 <= n <= l[e].1
    ensures Taken(l, e, n) !in live
    ensures LiveOk(TakeSize(size, l, e, n), TakenList(l, e, n), base, live[Taken(l, e, n) := n])
  {
    hide TakenList;
    var x, r, size', live' := Taken(l, e, n), TakenList(l, e, n), TakeSize(size, l, e, n), live[Taken(l, e, n) := n];
    assert size[l[e].0] == l[e].1 && End(l[0]) < l[e].0;
    hide TakeSize, Taken, Apart;
    forall a | a in live ensures a != x && a != l[e].0 && Apart((a, live[a]), (x, n)) {
      TakenPart(l, e, n, (a, live[a]));
    }
    TakenSizes(size, l, base, live, e, n);
    forall a, i | a in live' && 0 <= i < |r| ensures Apart((a, live'[a]), r[i]) {
      assert a != x ==> forall t :: 0 <= t < |l| ==> Apart((a, live[a]), l[t]);
      TakenApart(l, e, n, (a, live'[a]), i);
    }
    hide ListOk, Gaps;
    forall a, b | a in live' && b in live' && a != b ensures Apart((a, live'[a]), (b, live'[b])) {
      assert a != x && b != x ==> Apart((a, live[a]), (b, live[b]));
      assert a == x ==> Apart((b, live[b]), (x, n));
    }
  }

  lemma TakenHeap(next: Table, size: Table, l: seq<Run>, base: nat, live: Table, cores: seq<Run>, brk: nat, e: nat,
                  n: nat)
    requires HeapOk(next, size, l, base, live, cores, brk) && 0 < e < |l| && 1 <= n <= l[e].1
    ensures l[e].0 in next && Taken(l, e, n) !in live
    ensures HeapOk(TakeNext(next, l, e, n), TakeSize(size, l, e, n), TakenList(l, e, n), base,
                   live[Taken(l, e, n) := n], cores, brk)
  {
    TakenSpells(next, size, l, base, e, n);
    TakenGaps(l, e, n);
    TakenLive(next, size, l, base, live, e, n);
    TakenRest(l, base, live, cores, brk, e, n);
    hide TakenList, TakeNext, TakeSize, Taken, Spells, Gaps, LiveOk, Conserved, Below;
  }

  lemma TakenRest(l: seq<Run>, base: nat, live: Table, cores: seq<Run>, brk: nat, e: nat, n: nat)
    requires Gaps(l) && |l| > 0 && l[0] == (base, 0) && Conserved(l, live, cores) && Below(l, live, brk)
    requires 0 < e < |l| && 1 <= n <= l[e].1 && Taken(l, e, n) !in live
    requires forall i :: 0 < i < |l| ==> l[i].1 >= 1
    ensures |TakenList(l, e, n)| >= 1 && TakenList(l, e, n)[0] == (base, 0)
    ensures forall i :: 0 < i < |TakenList(l, e, n)| ==> TakenList(l, e, n)[i].1 >= 1
    ensures Conserved(TakenList(l, e, n), live[Taken(l, e, n) := n], cores)
    ensures Below(TakenList(l, e, n), live[Taken(l, e, n) := n], brk)
  {
    var r, x := TakenList(l, e, n), Taken(l, e, n);
    TakenNode(l, e, n, 0);
    TakenGaps(l, e, n);
    forall i | 0 <= i < |r| ensures (i > 0 ==> r[i].1 >= 1) && r[i].0 < brk && End(r[i]) <= brk {
      TakenNode(l, e, n, i);
      if i > 0 { assert End(r[0]) < r[i].0; }
    }
    forall u: nat ensures In(cores, u) <==> In(r, u) || InLive(live[x := n], u) {
      TakenUnits(l, e, n, u);
      MoreLive(live, x, n, u);
    }
  }

  lemma MoreLive(live: Table, x: nat, n: nat, u: nat)
    requires x !in live
    ensures InLive(live[x := n], u) <==> InLive(live, u) || x <= u < x + n
  {
    var live' := live[x := n];
    if InLive(live, u) { var a :| a in live && a <= u < a + live[a]; assert a in live' && live'[a] == live[a]; }
    if x <= u < x + n { assert x in live' && live'[x] == n; }
  }

  const SIZEOF_HEADER: nat := 16

  function Units(nbytes: nat): (r: nat)
    ensures r >= 1
  {
    (nbytes + SIZEOF_HEADER - 1) / SIZEOF_HEADER + 1
  }

  function CoreUnits(nu: nat): (r: nat) {
    if nu < 4096 then 4096 else nu
  }

  ghost predicate Fits(l: seq<Run>, n: nat) {
    exists i :: 0 <= i < |l| && l[i].1 >= n
  }

  // The argument of sbrk is an int: the byte count keeps its low 32 bits and their sign.
  function SbrkArgument(nu: nat): (r: int) {
    var low := nu * SIZEOF_HEADER % 0x1_0000_0000;
    if low < 0x8000_0000 then low else low - 0x1_0000_0000
  }

  // The units by which a successful sbrk of nu units moves the break: none or fewer than none for some nu.
  function Obtained(nu: nat): (r: int) {
    SbrkArgument(nu) / SIZEOF_HEADER
  }

  // The largest request whose byte count survives the conversion to int.
  const LARGEST_BACKED: nat := 0x7fff_ffe0

  // Of the requests a uint can hold, exactly those up to 2^31 - 32 bytes ask the kernel for what
  // morecore then records as the size of the region.
  lemma RequestReachesSbrk(nbytes: nat)
    requires nbytes < 0x1_0000_0000
    ensures SbrkArgument(CoreUnits(Units(nbytes))) == CoreUnits(Units(nbytes)) * SIZEOF_HEADER <==>
              nbytes <= LARGEST_BACKED
    ensures CoreUnits(Units(nbytes)) <= Obtained(CoreUnits(Units(nbytes))) <==> nbytes <= LARGEST_BACKED
  {}

  // The largest request obtains one unit and records 2^28 + 1 of them.
  lemma LargestRequestObtainsOneUnit()
    ensures Obtained(CoreUnits(Units(0xffff_ffff))) == 1 && CoreUnits(Units(0xffff_ffff)) == 0x1000_0001
  {}

  // A request of n bytes takes a header and the units for n bytes; morecore asks for 4096 units up to 65520 bytes, and
  // for the request itself beyond.
  lemma RequestSizes(nbytes: nat)
    ensures Units(nbytes) == (nbytes + 15) / 16 + 1
    ensures CoreUnits(Units(nbytes)) == if nbytes <= 65520 then 4096 else (nbytes + 15) / 16 + 1
  {}

  // The units of an allocated block after its header hold the bytes asked for, with less than a unit to spare.
  lemma RoomForRequest(nbytes: nat)
    ensures nbytes <= (Units(nbytes) - 1) * SIZEOF_HEADER < nbytes + SIZEOF_HEADER
  {}

  // How many steps along the circular list lead from node f to node t; a full turn for f itself.
  function Steps(f: nat, t: nat, len: nat): (r: int) {
    if t > f then t - f else t + len - f
  }

  // Every node between f and i has fewer than n units.
  ghost predicate Passed(l: seq<Run>, f: nat, i: nat, n: nat) {
    forall t :: 0 <= t < |l| && Steps(f, t, |l|) < Steps(f, i, |l|) ==> l[t].1 < n
  }

  function Without(live: Table, bp: nat): (r: Table) { map a | a in live && a != bp :: live[a] }

  lemma Loosen(next: Table, size: Table, l: seq<Run>, base: nat, live: Table, cores: seq<Run>, brk: nat, bp: nat)
    requires HeapOk(next, size, l, base, live, cores, brk) && bp in live
    ensures bp in size && size[bp] == live[bp]
            && HeapWith(next, size, l, base, Without(live, bp), cores, brk, (bp, size[bp]))
  {
    var live' := Without(live, bp);
    forall u: nat ensures In(cores, u) <==> In(l, u) || InLive(live', u) || bp <= u < bp + live[bp] {
      MoreLive(live', bp, live[bp], u);
      assert live'[bp := live[bp]] == live;
    }
    hide In, Gaps, Spells;
  }

  lemma Granted(next: Table, size: Table, l: seq<Run>, base: nat, live: Table, cores: seq<Run>, brk: nat, p: nat,
                n: nat)
    requires HeapOk(next, size, l, base, live, cores, brk) && p >= brk && n >= 1
    ensures HeapWith(next, size[p := n], l, base, live, cores + [(p, n)], p + n, (p, n))
  {
    var cores' := cores + [(p, n)];
    forall u: nat ensures In(cores', u) <==> In(l, u) || InLive(live, u) || p <= u < p + n {
      InConcat(cores, [(p, n)], u);
      assert In([(p, n)], u) <==> p <= u < p + n by { assert [(p, n)][0] == (p, n); }
    }
    hide In, InLive, Gaps;
    assert l[0].0 < p;
  }

  lemma TakeReads(next: Table, size: Table, l: seq<Run>, base: nat, live: Table, cores: seq<Run>, brk: nat, e: nat)
    requires HeapOk(next, size, l, base, live, cores, brk) && 0 < e < |l|
    ensures l[e].0 in size && size[l[e].0] == l[e].1 && l[e].0 in next && l[e - 1].0 in next && l[e - 1].0 >= base
  {}

  // The node before a taken one stays on the list.
  lemma BeforeStays(l: seq<Run>, e: nat, n: nat)
    requires 0 < e < |l| && n <= l[e].1
    ensures exists i :: 0 <= i < |TakenList(l, e, n)| && TakenList(l, e, n)[i].0 == l[e - 1].0
  {
    assert TakenList(l, e, n)[e - 1] == l[e - 1];
  }

  lemma EmptyHeap(next: Table, size: Table, base: nat, brk: nat)
    requires base in next && base in size && next[base] == base && size[base] == 0 && base < brk
    ensures HeapOk(next, size, [(base, 0)], base, map[], [], brk)
  {}

  lemma NothingFits(base: nat, n: nat)
    requires n >= 1
    ensures !Fits([], n) && !Fits([(base, 0)], n)
  {}

  function Onto(l: seq<Run>, i: nat): (r: nat)
    requires i < |l|
    ensures r < |l|
  {
    if i + 1 < |l| then i + 1 else 0
  }

  // malloc's search is at node i, coming from the node before it, and every node since freep was too small.
  ghost predicate Scan(next: Table, size: Table, l: seq<Run>, freep: nat, f: nat, i: nat, prevp: nat, p: nat, n: nat) {
    && f < |l| && freep == l[f].0 && i < |l| && p == l[i].0
    && p in size && p in next && size[p] == l[i].1 && next[p] == Succ(l, i)
    && prevp == l[if i > 0 then i - 1 else |l| - 1].0
    && Passed(l, f, i, n)
  }

  // Node e is the first to fit, going round the list from freep.
  ghost predicate FirstFit(l: seq<Run>, freep: nat, f: nat, e: nat, n: nat) {
    f < |l| && l[f].0 == freep && 0 < e < |l| && l[e].1 >= n && Passed(l, f, e, n)
  }

  lemma ScanStart(next: Table, size: Table, l: seq<Run>, base: nat, live: Table, cores: seq<Run>, brk: nat, f: nat,
                  n: nat)
    requires HeapOk(next, size, l, base, live, cores, brk) && f < |l|
    ensures l[f].0 in next && Scan(next, size, l, l[f].0, f, Onto(l, f), l[f].0, next[l[f].0], n)
  {
    hide LiveOk, Conserved, Below, Spells, Gaps;
    SpellsAt(next, size, l, f);
    SpellsAt(next, size, l, Onto(l, f));
  }

  lemma OneStep(l: seq<Run>, f: nat, i: nat, n: nat)
    requires f < |l| && i < |l| && i != f && Passed(l, f, i, n) && l[i].1 < n
    ensures Passed(l, f, Onto(l, i), n) && Steps(f, i, |l|) < Steps(f, Onto(l, i), |l|) <= |l|
  {}

  lemma ScanStep(next: Table, size: Table, l: seq<Run>, base: nat, live: Table, cores: seq<Run>, brk: nat,
                 freep: nat, f: nat, i: nat, prevp: nat, p: nat, n: nat)
    requires HeapOk(next, size, l, base, live, cores, brk)
    requires Scan(next, size, l, freep, f, i, prevp, p, n) && p in size && p in next && size[p] < n && p != freep
    ensures Scan(next, size, l, freep, f, Onto(l, i), p, next[p], n)
    ensures Steps(f, i, |l|) < Steps(f, Onto(l, i), |l|) <= |l|
  {
    hide LiveOk, Conserved, Below, Passed, Steps, Gaps, Spells;
    OneStep(l, f, i, n);
    SpellsAt(next, size, l, Onto(l, i));
  }

  lemma ScanDomain(next: Table, size: Table, l: seq<Run>, freep: nat, f: nat, i: nat, prevp: nat, p: nat, n: nat)
    requires Scan(next, size, l, freep, f, i, prevp, p, n)
    ensures i < |l| && p in size && p in next
  {}

  // A fitting node is not the static header.
  lemma FitAt(next: Table, size: Table, l: seq<Run>, base: nat, live: Table, cores: seq<Run>, brk: nat,
              freep: nat, f: nat, i: nat, prevp: nat, p: nat, n: nat)
    requires HeapOk(next, size, l, base, live, cores, brk) && Scan(next, size, l, freep, f, i, prevp, p, n)
             && p in size && size[p] >= n >= 1
    ensures 0 < i < |l| && n <= l[i].1 && p == l[i].0 && prevp == l[i - 1].0 && Fits(l, n)
            && FirstFit(l, freep, f, i, n)
  {}

  // Back at freep, the search has seen every node.
  lemma AllPassed(next: Table, size: Table, l: seq<Run>, base: nat, live: Table, cores: seq<Run>, brk: nat,
                  freep: nat, f: nat, i: nat, prevp: nat, p: nat, n: nat)
    requires HeapOk(next, size, l, base, live, cores, brk)
    requires Scan(next, size, l, freep, f, i, prevp, p, n) && p in size && size[p] < n && p == freep
    ensures !Fits(l, n)
  {}

  // The last node ends at brk, and no other has n units.
  ghost predicate OnlyLast(l: seq<Run>, n: nat, brk: nat) {
    |l| >= 1 && End(l[|l| - 1]) == brk && forall i :: 0 <= i < |l| - 1 ==> l[i].1 < n
  }

  // sbrk answered hp when morecore asked for n units: what is recorded, and where the break is.
  ghost predicate Enlarged(hp: nat, n: nat, brk: nat, top: int, cores0: seq<Run>, cores: seq<Run>) {
    && brk == hp + CoreUnits(n) && cores == cores0 + [(hp, CoreUnits(n))]
    && top == hp + Obtained(CoreUnits(n))
  }

  lemma EnlargedBacked(hp: nat, nbytes: nat, brk: nat, top: int, cores0: seq<Run>, cores: seq<Run>)
    requires nbytes < 0x1_0000_0000 && Enlarged(hp, Units(nbytes), brk, top, cores0, cores)
    ensures brk <= top <==> nbytes <= LARGEST_BACKED
  {
    RequestReachesSbrk(nbytes);
  }

  // A block released above a list in which nothing fits.
  lemma GrownList(l: seq<Run>, j: nat, b: Run, n: nat)
    requires CanFree(l, j, b) && !Fits(l, n) && forall i :: 0 <= i < |l| ==> l[i].0 < b.0
    ensures OnlyLast(Freed(l, j, b), n, End(b))
  {
    assert j + 1 == |l|;
    forall i | 0 <= i < |l| ensures l[i].1 < n {}
  }

  lemma FitsLast(l: seq<Run>, e: nat, n: nat, brk: nat)
    requires OnlyLast(l, n, brk) && 0 < e < |l| && n <= l[e].1
    ensures Taken(l, e, n) == brk - n
  {}

  lemma AllBelow(next: Table, size: Table, l: seq<Run>, base: nat, live: Table, cores: seq<Run>, brk: nat)
    requires HeapOk(next, size, l, base, live, cores, brk)
    ensures forall i :: 0 <= i < |l| ==> l[i].0 < brk
  {}

  class Heap {
    const base: nat
    var next: Table
    var size: Table
    var freep: nat              // 0 is the null pointer
    ghost var l: seq<Run>
    ghost var live: Table
    ghost var cores: seq<Run>
    ghost var brk: nat          // everything recorded as granted lies below
    var top: int                // where the last sbrk left the break of the process

    ghost predicate Valid()
      reads this
    {
      && 0 < base < brk
      && (freep == 0 ==> l == [] && live == map[] && cores == [])
      && (freep != 0 ==> Running(freep))
    }

    ghost predicate Running(p: nat)
      reads this
    {
      HeapOk(next, size, l, base, live, cores, brk) && OnList(p)
    }

    ghost predicate OnList(p: nat)
      reads this
    {
      exists i :: 0 <= i < |l| && l[i].0 == p
    }

    // The process owns all the memory that the allocator takes for its own.
    ghost predicate Backed()
      reads this
    {
      brk <= top
    }

    constructor (base: nat, brk: nat)
      requires 0 < base < brk
      ensures Valid() && Backed() && freep == 0 && this.base == base && this.brk == brk == top
    {
      this.base, this.brk, top, freep := base, brk, brk, 0;
      next, size, l, live, cores := map[], map[], [], map[], [];
    }

    // The search of free(), from freep to the node that bp belongs after.
    method FindBefore(bp: nat, ghost j: nat) returns (p: nat)
      requires ListOk(next, size, l, base) && OnList(freep) && base < bp && Between(l, j, bp)
      ensures p == l[j].0
    {
      p := freep;
      ghost var i: nat :| i < |l| && l[i].0 == p;
      hide ListOk, BelongsAfter, Onto;
      Stops(next, size, l, base, j, i, bp);
      while !BelongsAfter(bp, p, next[p])
        invariant i < |l| && p == l[i].0 && p in next && next[p] == l[Onto(l, i)].0
        invariant BelongsAfter(bp, p, next[p]) <==> i == j
        decreases (if i <= j then j else |l| + j) - i
      {
        Closer(l, i, j);
        p, i := next[p], Onto(l, i);
        Stops(next, size, l, base, j, i, bp);
      }
    }

    // The assignments of free() once p is found.
    method Insert(p: nat, bp: nat)
      requires p in next && p in size && next[p] in next && next[p] in size && bp in size && p != bp && next[p] != bp
      requires bp + size[bp] == next[p] ==> next[p] != p
      modifies this`next, this`size
      ensures var size1, next1 := old(FreeSize1(next, size, p, bp)), old(FreeNext1(next, size, p, bp));
              next == FreeNext2(next1, size1, p, bp) && size == FreeSize2(size1, p, bp)
    {
      if bp + size[bp] == next[p] {
        size := size[bp := size[bp] + size[next[p]]];
        next := next[bp := next[next[p]]];
      } else {
        next := next[bp := next[p]];
      }
      if p + size[p] == bp {
        size := size[p := size[p] + size[bp]];
        next := next[p := next[bp]];
      } else {
        next := next[p := bp];
      }
    }

    // free() of a block whose header is at bp and which belongs to nobody any more.
    method Release(bp: nat)
      requires bp in size && HeapWith(next, size, l, base, live, cores, brk, (bp, size[bp])) && OnList(freep)
      modifies this`next, this`size, this`freep, this`l
      ensures HeapOk(next, size, l, base, live, cores, brk) && OnList(freep) && freep >= base
      ensures Fits(l, old(size[bp]))
      ensures var b := (bp, old(size[bp]));
              exists j :: 0 <= j < |old(l)| && CanFree(old(l), j, b) && l == Freed(old(l), j, b)
    {
      hide HeapOk, HeapWith, ListOk, CanFree, Freed, Forward, Between, FreeSize1, FreeSize2, FreeNext1, FreeNext2, Fits;
      ghost var b := (bp, size[bp]);
      ghost var j := Place(next, size, l, base, live, cores, brk, b);
      var p := FindBefore(bp, j);
      FreedHeap(next, size, l, base, live, cores, brk, b, j);
      BigEnough(l, j, b, base);
      FreeReads(next, size, l, base, j, bp);
      Insert(p, bp);
      l := Freed(l, j, b);
      freep := p;
    }

    method Free(bp: nat)
      requires Valid() && bp in live
      modifies this`next, this`size, this`freep, this`l, this`live
      ensures Valid() && live == Without(old(live), bp)
    {
      Loosen(next, size, l, base, live, cores, brk, bp);
      live := Without(live, bp);
      hide HeapOk, HeapWith;
      Release(bp);
    }

    // grant is the answer of sbrk: the old break, above everything recorded before, or None for -1. The region
    // is recorded at the size asked for; the break moves by what the int argument says.
    method Morecore(nunits: nat, grant: Option<nat>) returns (r: Option<nat>)
      requires Valid() && freep != 0 && (grant.Some? ==> grant.value >= brk)
      modifies this
      ensures Valid() && freep != 0 && live == old(live)
      ensures r == (if grant.Some? then Some(freep) else None)
      ensures grant.None? ==> l == old(l) && cores == old(cores) && brk == old(brk) && top == old(top)
      ensures grant.Some? ==> Fits(l, nunits) && Enlarged(grant.value, nunits, brk, top, old(cores), cores)
      ensures grant.Some? && !Fits(old(l), nunits) ==> OnlyLast(l, nunits, brk)
    {
      hide HeapOk, HeapWith, Fits, Obtained, CanFree, Freed, OnlyLast;
      var nu := if nunits < 4096 then 4096 else nunits;
      match grant
      case None =>
        r := None;
      case Some(hp) =>
        Granted(next, size, l, base, live, cores, brk, hp, nu);
        AllBelow(next, size, l, base, live, cores, brk);
        size := size[hp := nu];
        cores, brk, top := cores + [(hp, nu)], hp + nu, hp + Obtained(nu);
        Release(hp);
        FitsLess(l, nu, nunits);
        ghost var j: nat :| j < |old(l)| && CanFree(old(l), j, (hp, nu)) && l == Freed(old(l), j, (hp, nu));
        if !Fits(old(l), nunits) { GrownList(old(l), j, (hp, nu), nunits); }
        r := Some(freep);
    }

    // The block found at p, node e of the list, after prevp.
    method TakeBlock(prevp: nat, p: nat, n: nat, ghost e: nat) returns (r: nat)
      requires Valid() && freep != 0 && 0 < e < |l| && 1 <= n <= l[e].1 && p == l[e].0 && prevp == l[e - 1].0
      modifies this`next, this`size, this`freep, this`l, this`live
      ensures Valid() && freep != 0 && r !in old(live) && live == old(live)[r := n]
      ensures r == old(Taken(l, e, n)) && r + n == old(l)[e].0 + old(l)[e].1
    {
      hide HeapOk, TakenList;
      TakeReads(next, size, l, base, live, cores, brk, e);
      TakenHeap(next, size, l, base, live, cores, brk, e, n);
      BeforeStays(l, e, n);
      if size[p] == n {
        next := next[prevp := next[p]];
        r := p;
      } else {
        size := size[p := size[p] - n];
        r := p + size[p];
        size := size[r := n];
      }
      l, live := TakenList(l, e, n), live[r := n];
      freep := prevp;
    }

    // The first call makes a circular list of the static header alone.
    method Begin(ghost n: nat)
      requires Valid() && n >= 1
      modifies this`next, this`size, this`freep, this`l
      ensures Valid() && freep != 0 && (Fits(l, n) <==> Fits(old(l), n))
      ensures old(freep) != 0 ==> freep == old(freep) && l == old(l)
    {
      if freep == 0 {
        next, size, freep := next[base := base], size[base := 0], base;
        l := [(base, 0)];
        EmptyHeap(next, size, base, brk);
        NothingFits(base, n);
        assert l[0].0 == freep;
      }
    }

    // grew reports whether sbrk was asked and granted.
    method Malloc(nbytes: nat, grant: Option<nat>) returns (r: Option<nat>, grew: bool)
      requires Valid() && nbytes < 0x1_0000_0000 && (grant.Some? ==> grant.value >= brk)
      modifies this
      ensures Valid() && (grew <==> !Fits(old(l), Units(nbytes)) && grant.Some?)
      ensures r.Some? <==> Fits(old(l), Units(nbytes)) || grant.Some?
      ensures r.Some? ==> r.value !in old(live) && live == old(live)[r.value := Units(nbytes)]
      ensures r.None? ==> live == old(live)
      ensures old(freep) != 0 && Fits(old(l), Units(nbytes)) ==>
                exists f: nat, e: nat :: FirstFit(old(l), old(freep), f, e, Units(nbytes))
                               && r == Some(old(l)[e].0 + old(l)[e].1 - Units(nbytes))
      ensures !grew ==> brk == old(brk) && top == old(top) && cores == old(cores)
      ensures grew ==> r == Some(brk - Units(nbytes))
      ensures grew ==> Enlarged(grant.value, Units(nbytes), brk, top, old(cores), cores)
      ensures old(Backed()) ==> (Backed() <==> !grew || nbytes <= LARGEST_BACKED)
    {
      hide HeapOk, Fits, Scan, Onto, Steps, FirstFit, Taken, OnlyLast, Enlarged;
      var nunits := (nbytes + SIZEOF_HEADER - 1) / SIZEOF_HEADER + 1;
      assert nunits == Units(nbytes);
      hide Units, CoreUnits;
      Begin(nunits);
      var prevp := freep;
      ghost var f: nat :| f < |l| && l[f].0 == freep;
      ghost var i: nat := Onto(l, f);
      ScanStart(next, size, l, base, live, cores, brk, f, nunits);
      ScanDomain(next, size, l, freep, f, i, prevp, next[prevp], nunits);
      var p := next[prevp];
      grew := false;
      while true
        invariant Valid() && freep != 0 && live == old(live)
        invariant Scan(next, size, l, freep, f, i, prevp, p, nunits) && i < |l| && p in size && p in next
        invariant !grew && old(freep) != 0 ==> l == old(l) && freep == old(freep)
        invariant grew ==> grant.Some? && !Fits(old(l), nunits) && Fits(l, nunits) && OnlyLast(l, nunits, brk)
        invariant grew ==> Enlarged(grant.value, nunits, brk, top, old(cores), cores)
        invariant !grew ==> brk == old(brk) && top == old(top) && cores == old(cores)
        invariant !grew ==> (Fits(l, nunits) <==> Fits(old(l), nunits))
        decreases !grew, |l| - Steps(f, i, |l|)
      {
        if size[p] >= nunits {
          FitAt(next, size, l, base, live, cores, brk, freep, f, i, prevp, p, nunits);
          if grew {
            FitsLast(l, i, nunits, brk);
            EnlargedBacked(grant.value, nbytes, brk, top, old(cores), cores);
          }
          var b := TakeBlock(prevp, p, nunits, i);
          return Some(b), grew;
        }
        if p == freep {
          AllPassed(next, size, l, base, live, cores, brk, freep, f, i, prevp, p, nunits);
          var more := Morecore(nunits, grant);
          if more.None? { return None, false; }
          p := more.value;
          f :| f < |l| && l[f].0 == freep;
          i, grew := Onto(l, f), true;
          ScanStart(next, size, l, base, live, cores, brk, f, nunits);
        } else {
          ScanStep(next, size, l, base, live, cores, brk, freep, f, i, prevp, p, nunits);
          i := Onto(l, i);
        }
        ScanDomain(next, size, l, freep, f, i, p, next[p], nunits);
        prevp, p := p, next[p];
      }
    }
  }

  lemma Closer(l: seq<Run>, i: nat, j: nat)
    requires i < |l| && j < |l| && i != j
    ensures var i' := Onto(l, i); (if i' <= j then j else |l| + j) - i' < (if i <= j then j else |l| + j) - i
  {}

  // The search at node i.
  lemma Stops(next: Table, size: Table, l: seq<Run>, base: nat, j: nat, i: nat, bp: nat)
    requires ListOk(next, size, l, base) && base < bp && Between(l, j, bp) && i < |l|
    ensures l[i].0 in next && next[l[i].0] == l[Onto(l, i)].0 && (BelongsAfter(bp, l[i].0, next[l[i].0]) <==> i == j)
  {
    assert next[l[i].0] == Succ(l, i);
    StopsAtPlace(l, j, i, bp);
  }

  lemma Place(next: Table, size: Table, l: seq<Run>, base: nat, live: Table, cores: seq<Run>, brk: nat, b: Run)
    returns (j: nat)
    requires HeapWith(next, size, l, base, live, cores, brk, b)
    ensures Between(l, j, b.0) && CanFree(l, j, b) && ListOk(next, size, l, base)
    ensures base < b.0 && l[0] == (base, 0) && l[j].0 >= base
  {
    forall i | 0 <= i < |l| ensures l[i].0 != b.0 {
      assert Apart(b, l[i]);
      assert i > 0 ==> l[i].1 >= 1;
    }
    j := FindPlace(l, b.0, 0);
    assert j > 0 ==> End(l[0]) < l[j].0;
  }

  // The released block, alone or merged, is on the list after free; so is the node before it.
  lemma BigEnough(l: seq<Run>, j: nat, b: Run, base: nat)
    requires CanFree(l, j, b) && l[0] == (base, 0)
    ensures Fits(Freed(l, j, b), b.1)
    ensures exists i :: 0 <= i < |Freed(l, j, b)| && Freed(l, j, b)[i].0 == l[j].0
  {
    var r, m := Freed(l, j, b), Merged(l, j, b);
    FreedGaps(l, j, b);
    FreedNode(l, j, b, j);
    assert r[j] == m[0];
    if |m| == 2 { assert r[j + 1] == m[1] && r[j + 1].1 >= b.1; } else { assert r[j].1 >= b.1; }
  }

  lemma FitsLess(l: seq<Run>, m: nat, n: nat)
    requires Fits(l, m) && n <= m
    ensures Fits(l, n)
  {}

  // ----- Whole programs -----

  // malloc(nbytes), where sbrk, if it is asked, fails or finds the break gap units higher; or free of a block.
  datatype Call = Alloc(nbytes: nat, gap: Option<nat>) | Drop(bp: nat)

  // The blocks a program holds after a call, given what the call returned.
  function Held(mine: Table, c: Call, answer: Option<nat>): (r: Table) {
    match c
    case Alloc(nbytes, _) => if answer.Some? then mine[answer.value := Units(nbytes)] else mine
    case Drop(bp) => Without(mine, bp)
  }

  // The blocks it holds after the calls answered so far.
  function Replay(script: seq<Call>, answers: seq<Option<nat>>): (r: Table)
    requires |answers| <= |script|
  {
    if answers == [] then map[]
    else var t := |answers| - 1; Held(Replay(script, answers[..t]), script[t], answers[t])
  }

  ghost predicate Disjoint(mine: Table) {
    forall a, b :: a in mine && b in mine && a != b ==> Apart((a, mine[a]), (b, mine[b]))
  }

  // Call t of the program, which had sbrk enlarge the heap or not: malloc fails only if sbrk does, and
  // returns a block that is new to the program and apart from every block it holds.
  ghost predicate Answered(script: seq<Call>, answers: seq<Option<nat>>, t: nat, grew: bool)
    requires t < |answers| <= |script|
  {
    && Disjoint(Replay(script, answers[..t + 1]))
    && match script[t]
       case Alloc(_, gap) =>
         && (grew ==> gap.Some?) && (answers[t].None? ==> gap.None?)
         && (answers[t].Some? ==> answers[t].value !in Replay(script, answers[..t]))
       case Drop(_) => !grew && answers[t].None?
  }

  // Call t had sbrk enlarge the heap by less than morecore recorded.
  predicate Truncated(c: Call, grew: bool) {
    grew && c.Alloc? && c.nbytes > LARGEST_BACKED
  }

  // One call of a program that holds the blocks mine.
  method Called(h: Heap, mine: Table, c: Call) returns (r: Option<nat>, grew: bool)
    requires h.Valid() && h.Backed() && h.live == mine && (c.Alloc? ==> c.nbytes < 0x1_0000_0000)
    modifies h
    ensures h.Valid() && h.live == Held(mine, c, r) && Disjoint(h.live)
    ensures c.Drop? ==> !grew && r.None?
    ensures c.Alloc? ==> (grew ==> c.gap.Some?) && (r.None? ==> c.gap.None?) && (r.Some? ==> r.value !in mine)
    ensures h.Backed() <==> !Truncated(c, grew)
    ensures !h.Backed() ==> r.Some? && r.value + Units(c.nbytes) > h.top
  {
    hide HeapOk, Fits, Units, CoreUnits, Obtained, FirstFit, Taken;
    match c {
      case Alloc(nbytes, gap) =>
        r, grew := h.Malloc(nbytes, if gap.Some? then Some(h.top + gap.value) else None);
      case Drop(bp) =>
        r, grew := None, false;
        if bp in mine { h.Free(bp); }
    }
    assert Disjoint(h.live) by {
      if h.freep != 0 { LiveApart(h.next, h.size, h.l, h.base, h.live, h.cores, h.brk); }
    }
  }

  lemma LiveApart(next: Table, size: Table, l: seq<Run>, base: nat, live: Table, cores: seq<Run>, brk: nat)
    requires HeapOk(next, size, l, base, live, cores, brk)
    ensures Disjoint(live)
  {}

  lemma OneMore(script: seq<Call>, answers: seq<Option<nat>>, r: Option<nat>)
    requires |answers| < |script|
    ensures (answers + [r])[..|answers|] == answers && (answers + [r])[..|answers| + 1] == answers + [r]
    ensures Replay(script, answers + [r]) == Held(Replay(script, answers), script[|answers|], r)
  {
    assert (answers + [r])[..|answers|] == answers;
  }

  lemma StillAnswered(script: seq<Call>, answers: seq<Option<nat>>, r: Option<nat>, t: nat, grew: bool)
    requires t < |answers| < |script| && Answered(script, answers, t, grew)
    ensures Answered(script, answers + [r], t, grew)
  {
    assert (answers + [r])[..t + 1] == answers[..t + 1] && (answers + [r])[..t] == answers[..t];
  }

  // Any sequence of calls, as far as the process owns the memory its heap is made of. It stops to own it
  // with the first truncated request, whose block then reaches beyond the break; up to there every block
  // handed out is apart from every other, and what is allocated is what the program holds.
  method Session(h: Heap, script: seq<Call>) returns (answers: seq<Option<nat>>, grew: seq<bool>)
    requires h.Valid() && h.Backed() && h.freep == 0
    requires forall t :: 0 <= t < |script| && script[t].Alloc? ==> script[t].nbytes < 0x1_0000_0000
    modifies h
    ensures h.Valid() && |grew| == |answers| <= |script| && h.live == Replay(script, answers)
    ensures forall t :: 0 <= t < |answers| ==> Answered(script, answers, t, grew[t])
    ensures forall t :: 0 <= t < |answers| - 1 ==> !Truncated(script[t], grew[t])
    ensures h.Backed() ==> |answers| == |script|
    ensures !h.Backed() <==> |answers| > 0 && Truncated(script[|answers| - 1], grew[|answers| - 1])
    ensures !h.Backed() ==>
              var last := |answers| - 1;
              answers[last].Some? && answers[last].value + Units(script[last].nbytes) > h.top
  {
    hide HeapOk, Units, Obtained, Answered;
    answers, grew := [], [];
    var mine, t, own := map[], 0, true;
    while t < |script| && own
      invariant 0 <= t <= |script| && h.Valid() && |grew| == |answers| == t
      invariant h.live == mine == Replay(script, answers)
      invariant forall k :: 0 <= k < t ==> Answered(script, answers, k, grew[k])
      invariant forall k :: 0 <= k < t - 1 ==> !Truncated(script[k], grew[k])
      invariant own <==> h.Backed()
      invariant !own <==> t > 0 && Truncated(script[t - 1], grew[t - 1])
      invariant !own ==> answers[t - 1].Some? && answers[t - 1].value + Units(script[t - 1].nbytes) > h.top
    {
      var r, g := Called(h, mine, script[t]);
      OneMore(script, answers, r);
      forall k | 0 <= k < t ensures Answered(script, answers + [r], k, grew[k]) {
        StillAnswered(script, answers, r, k, grew[k]);
      }
      LastAnswered(script, answers, r, g);
      mine, own := Held(mine, script[t], r), !Truncated(script[t], g);
      answers, grew, t := answers + [r], grew + [g], t + 1;
    }
  }

  lemma LastAnswered(script: seq<Call>, answers: seq<Option<nat>>, r: Option<nat>, grew: bool)
    requires |answers| < |script| && Disjoint(Held(Replay(script, answers), script[|answers|], r))
    requires script[|answers|].Drop? ==> !grew && r.None?
    requires script[|answers|].Alloc? ==>
               && (grew ==> script[|answers|].gap.Some?) && (r.None? ==> script[|answers|].gap.None?)
               && (r.Some? ==> r.value !in Replay(script, answers))
    ensures Answered(script, answers + [r], |answers|, grew)
  {
    OneMore(script, answers, r);
  }

  // After the largest request the break lies inside the block that malloc returned: the next sbrk answers
  // with an address in it.
  method BreakInsideBlock(h: Heap, gap: nat) returns (r: Option<nat>)
    requires h.Valid() && h.Backed() && !Fits(h.l, Units(0xffff_ffff))
    modifies h
    ensures h.Valid() && r.Some? && r.value in h.live && r.value < h.top < r.value + h.live[r.value]
  {
    LargestRequestObtainsOneUnit();
    var grew;
    r, grew := h.Malloc(0xffff_ffff, Some(h.top + gap));
  }
}
