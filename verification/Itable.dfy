/**
 The in-memory inode table (kernel/fs.c:198-362). Every method is one stretch that other processes see as a
 whole: under itable.lock, under an inode's sleeplock, or on one locked buffer. iput() and ialloc() are cut
 where the source lets go of its locks, so any interleaving is a sequence of these methods.
 */
module Itable {
  import opened Wrappers

  const NINODE: nat := 50

  // Device and inode number.
  type Key = (nat, nat)

  // An inode on disk, as the log has it: type (0 is free), links, and everything else.
  datatype Dinode = Dinode(kind: nat, nlink: nat, body: seq<nat>)

  datatype Entry = Entry(key: Key, ref: nat, valid: bool, copy: Dinode, lock: Option<nat>)

  // What the last iput() of an entry is about: its four steps under the sleeplock, then the final decrement.
  datatype Stage =
    | Normal
    | Trunc(t: nat)         // about to truncate
    | Typed(t: nat)         // type cleared in memory
    | Erased(t: nat)        // type cleared on disk
    | Invalid(t: nat)       // valid cleared
    | Drop(t: nat)          // sleeplock released; itable.lock not yet taken again

  predicate UnderLock(g: Stage) { g.Trunc? || g.Typed? || g.Erased? || g.Invalid? }

  // One entry: its count is the number of its holders, the lock's holder is one of them, and its copy is the
  // disk's inode unless a change has not been written back yet.
  ghost predicate EntryOk(en: Entry, holders: multiset<nat>, g: Stage, clean: bool, disk: map<Key, Dinode>) {
    && |holders| == en.ref
    && (en.ref > 0 ==> en.key in disk)
    && (en.lock.Some? ==> en.lock.value in holders)
    && (!g.Normal? ==> g.t in holders)
    && (UnderLock(g) ==> en.lock == Some(g.t))
    && (g.Trunc? || g.Typed? ==> en.valid && disk[en.key].kind != 0)
    && (g.Trunc? ==> en.copy.kind != 0)
    && (g.Typed? ==> en.copy.kind == 0)
    && (g.Invalid? ==> !en.valid)
    && (en.ref > 0 && en.valid && !UnderLock(g) ==> disk[en.key].kind != 0 && en.copy.kind != 0)
    && (en.ref > 0 && en.valid && !UnderLock(g) && clean ==> en.copy == disk[en.key])
  }

  ghost predicate Unique(table: seq<Entry>) {
    forall e, f :: 0 <= e < f < |table| && table[e].ref > 0 && table[f].ref > 0 ==> table[e].key != table[f].key
  }

  // A free inode taken by ialloc() is not valid in memory, or is in an iput() that will make it invalid before
  // it lets go of the sleeplock.
  lemma ClaimedKey(en: Entry, holders: multiset<nat>, g: Stage, clean: bool, disk: map<Key, Dinode>, d: Dinode)
    requires EntryOk(en, holders, g, clean, disk) && en.ref > 0 && disk[en.key].kind == 0
    ensures !en.valid || g.Erased?
    ensures EntryOk(en, holders, g, clean, disk[en.key := d])
  {}

  lemma OneMore(en: Entry, holders: multiset<nat>, g: Stage, clean: bool, disk: map<Key, Dinode>, t: nat)
    requires EntryOk(en, holders, g, clean, disk) && en.ref > 0
    ensures EntryOk(en.(ref := en.ref + 1), holders + multiset{t}, g, clean, disk)
  {}

  // A recycled entry starts out invalid.
  lemma Recycled(en: Entry, holders: multiset<nat>, g: Stage, clean: bool, disk: map<Key, Dinode>, t: nat, k: Key)
    requires EntryOk(en, holders, g, clean, disk) && en.ref == 0 && k in disk
    ensures EntryOk(Entry(k, 1, false, en.copy, en.lock), holders + multiset{t}, Normal, clean, disk) && en.lock.None?
  {}

  lemma OneLess(en: Entry, holders: multiset<nat>, g: Stage, clean: bool, disk: map<Key, Dinode>, t: nat)
    requires EntryOk(en, holders, g, clean, disk) && t in holders && en.lock != Some(t)
             && (g.Normal? || g.t != t || g.Drop?)
    ensures en.ref > 0
            && EntryOk(en.(ref := en.ref - 1), holders - multiset{t}, if g == Drop(t) then Normal else g, clean, disk)
  {}

  lemma OnlyOne(table: seq<Entry>, e: nat)
    requires Unique(table) && e < |table| && table[e].ref > 0
    ensures forall f: nat :: f < |table| && table[f].ref > 0 && table[f].key == table[e].key ==> f == e
  {}

  lemma SameKey(table: seq<Entry>, e: nat, en: Entry)
    requires Unique(table) && e < |table| && en.key == table[e].key && table[e].ref > 0
    ensures Unique(table[e := en])
  {}

  lemma NewKey(table: seq<Entry>, e: nat, en: Entry)
    requires Unique(table) && e < |table| && forall f :: 0 <= f < |table| && table[f].ref > 0 ==> table[f].key != en.key
    ensures Unique(table[e := en])
  {}

  ghost predicate TableOk(table: seq<Entry>, disk: map<Key, Dinode>, holders: seq<multiset<nat>>, stage: seq<Stage>,
                          clean: seq<bool>) {
    && |table| == |holders| == |stage| == |clean| == NINODE
    && (forall e :: 0 <= e < NINODE ==> EntryOk(table[e], holders[e], stage[e], clean[e], disk))
    && Unique(table)
  }

  // An inode without links: allocated on disk, no name leads to it.
  predicate Unlinked(disk: map<Key, Dinode>, k: Key) { k in disk && disk[k].kind != 0 && disk[k].nlink == 0 }

  ghost predicate Held(table: seq<Entry>, k: Key) {
    exists e :: 0 <= e < |table| && table[e].ref > 0 && table[e].key == k
  }

  // No name and no reference leads to the inode, and it is not free: nobody will ever free it.
  ghost predicate Left(table: seq<Entry>, disk: map<Key, Dinode>, k: Key) { Unlinked(disk, k) && !Held(table, k) }

  // Dropping a reference to entry e leaves its inode behind when it was the last one.
  lemma HeldAfterDrop(table: seq<Entry>, e: nat)
    requires Unique(table) && e < |table| && table[e].ref > 0
    ensures Held(table[e := table[e].(ref := table[e].ref - 1)], table[e].key) <==> table[e].ref > 1
  {
    var table' := table[e := table[e].(ref := table[e].ref - 1)];
    if table[e].ref > 1 { assert table'[e].ref > 0 && table'[e].key == table[e].key; }
  }

  lemma HeldByOne(table: seq<Entry>, e: nat)
    requires e < |table| && table[e].ref > 0
    ensures Held(table, table[e].key)
  {}

  class Table {
    var table: seq<Entry>
    var disk: map<Key, Dinode>
    // Bookkeeping of the model: who holds references to each entry, how far its last iput() is, and whether
    // every change of its copy has been written back.
    var holders: seq<multiset<nat>>
    var stage: seq<Stage>
    var clean: seq<bool>

    ghost predicate Valid()
      reads this
    {
      TableOk(table, disk, holders, stage, clean)
    }

    constructor (disk: map<Key, Dinode>)
      ensures Valid() && this.disk == disk && forall e :: 0 <= e < NINODE ==> table[e].ref == 0
    {
      table := seq(NINODE, _ => Entry((0, 0), 0, false, Dinode(0, 0, []), None));
      this.disk := disk;
      holders, stage, clean := seq(NINODE, _ => multiset{}), seq(NINODE, _ => Normal), seq(NINODE, _ => true);
    }

    // iget(): the entry for k, found or made; None is its panic when the table is full.
    method IGet(t: nat, k: Key) returns (r: Option<nat>)
      requires Valid() && k in disk
      modifies this`table, this`holders, this`stage
      ensures Valid()
      ensures r.None? ==> table == old(table) && holders == old(holders) && stage == old(stage)
      ensures |table| == 50 && (r.None? ==> forall e :: 0 <= e < |table| ==> table[e].ref > 0 && table[e].key != k)
      ensures r.Some? ==> r.value < NINODE && holders == old(holders)[r.value := old(holders)[r.value] + multiset{t}]
      ensures forall f: nat :: f < NINODE && old(table)[f].ref > 0 && old(table)[f].key == k ==> r == Some(f)
      ensures r.Some? && old(table)[r.value].ref > 0 ==>
                && old(table)[r.value].key == k && stage == old(stage)
                && table == old(table)[r.value := old(table)[r.value].(ref := old(table)[r.value].ref + 1)]
      ensures r.Some? && old(table)[r.value].ref == 0 ==>
                && (forall f :: 0 <= f < r.value ==> old(table)[f].ref > 0)
                && (forall f :: 0 <= f < NINODE && old(table)[f].ref > 0 ==> old(table)[f].key != k)
                && table == old(table)[r.value := Entry(k, 1, false, old(table)[r.value].copy, None)]
                && stage == old(stage)[r.value := Normal]
    {
      hide EntryOk, Unique;
      var hit, empty := Search(k);
      if hit.Some? {
        var e := hit.value;
        OneMore(table[e], holders[e], stage[e], clean[e], disk, t);
        OnlyOne(table, e);
        SameKey(table, e, table[e].(ref := table[e].ref + 1));
        table := table[e := table[e].(ref := table[e].ref + 1)];
        holders := holders[e := holders[e] + multiset{t}];
        return hit;
      }
      if empty.None? { return None; }
      var i := empty.value;
      Recycled(table[i], holders[i], stage[i], clean[i], disk, t, k);
      NewKey(table, i, Entry(k, 1, false, table[i].copy, table[i].lock));
      table := table[i := Entry(k, 1, false, table[i].copy, table[i].lock)];
      holders := holders[i := holders[i] + multiset{t}];
      stage := stage[i := Normal];
      return Some(i);
    }

    // The loop of iget(): the entry for k, or else the first free one.
    method Search(k: Key) returns (hit: Option<nat>, empty: Option<nat>)
      requires |table| == NINODE
      ensures hit.Some? ==> hit.value < NINODE && table[hit.value].ref > 0 && table[hit.value].key == k
      ensures hit.None? ==> forall f :: 0 <= f < NINODE && table[f].ref > 0 ==> table[f].key != k
      ensures hit.None? && empty.None? ==> forall f :: 0 <= f < NINODE ==> table[f].ref > 0
      ensures empty.Some? ==>
                empty.value < NINODE && table[empty.value].ref == 0 && forall f :: 0 <= f < empty.value ==>
                table[f].ref > 0
    {
      hit, empty := None, None;
      var e := 0;
      while e < NINODE
        invariant 0 <= e <= NINODE
        invariant forall f :: 0 <= f < e && table[f].ref > 0 ==> table[f].key != k
        invariant empty.Some? ==>
                    empty.value < e && table[empty.value].ref == 0 && forall f :: 0 <= f < empty.value ==>
                    table[f].ref > 0
        invariant empty.None? ==> forall f :: 0 <= f < e ==> table[f].ref > 0
      {
        if table[e].ref > 0 && table[e].key == k { return Some(e), empty; }
        if empty.None? && table[e].ref == 0 { empty := Some(e); }
        e := e + 1;
      }
    }

    method IDup(t: nat, e: nat, t': nat)
      requires Valid() && e < NINODE && t in holders[e]
      modifies this`table, this`holders
      ensures Valid() && table == old(table)[e := old(table)[e].(ref := old(table)[e].ref + 1)]
      ensures holders == old(holders)[e := old(holders)[e] + multiset{t'}]
    {
      table := table[e := table[e].(ref := table[e].ref + 1)];
      holders := holders[e := holders[e] + multiset{t'}];
    }

    // ilock(): the sleeplock, which the caller waits for while another holds it.
    method LockEntry(t: nat, e: nat)
      requires Valid() && e < NINODE && t in holders[e] && table[e].lock.None?
      modifies this`table
      ensures Valid() && table == old(table)[e := old(table)[e].(lock := Some(t))]
    {
      table := table[e := table[e].(lock := Some(t))];
    }

    // The rest of ilock(): an invalid copy is read from disk, whatever happened to the inode since it was last
    // valid. ok is false for its panic on a free inode.
    method Load(t: nat, e: nat) returns (ok: bool)
      requires Valid() && e < NINODE && table[e].lock == Some(t) && !UnderLock(stage[e])
      modifies this`table, this`clean
      ensures var en := old(table)[e];
              && en.key in disk && (ok <==> en.valid || disk[en.key].kind != 0)
              && table == old(table)[e := if en.valid then en else en.(valid := true, copy := disk[en.key])]
              && clean == if en.valid then old(clean) else old(clean)[e := true]
      ensures ok ==> Valid() && table[e].copy.kind != 0 && (clean[e] ==> table[e].copy == disk[table[e].key])
    {
      ok := true;
      assert EntryOk(table[e], holders[e], stage[e], clean[e], disk) && holders[e] != multiset{};
      if !table[e].valid {
        table := table[e := table[e].(copy := disk[table[e].key])];
        table := table[e := table[e].(valid := true)];
        clean := clean[e := true];
        if table[e].copy.kind == 0 { ok := false; }
      }
    }

    // The lock's holder changes its copy; nobody but iput() clears the type.
    method Change(t: nat, e: nat, d: Dinode)
      requires Valid() && e < NINODE && table[e].lock == Some(t) && table[e].valid && !UnderLock(stage[e])
               && d.kind != 0
      modifies this`table, this`clean
      ensures Valid() && table == old(table)[e := old(table)[e].(copy := d)] && clean == old(clean)[e := false]
    {
      table := table[e := table[e].(copy := d)];
      clean := clean[e := false];
    }

    method IUpdate(t: nat, e: nat)
      requires Valid() && e < NINODE && table[e].lock == Some(t) && table[e].valid && !UnderLock(stage[e])
      modifies this`disk, this`clean
      ensures Valid() && disk == old(disk)[table[e].key := table[e].copy] && clean == old(clean)[e := true]
    {
      ghost var k := table[e].key;
      assert EntryOk(table[e], holders[e], stage[e], clean[e], disk) && holders[e] != multiset{};
      Elsewhere(e, table[e].copy);
      disk := disk[table[e].key := table[e].copy];
      clean := clean[e := true];
    }

    // Entries other than e do not mind what becomes of e's inode on disk.
    lemma Elsewhere(e: nat, d: Dinode)
      requires Valid() && e < NINODE && table[e].ref > 0
      ensures forall f :: 0 <= f < NINODE && f != e ==>
                EntryOk(table[f], holders[f], stage[f], clean[f], disk[table[e].key := d])
    {}

    method IUnlock(t: nat, e: nat)
      requires Valid() && e < NINODE && table[e].lock == Some(t) && !UnderLock(stage[e])
      modifies this`table
      ensures Valid() && table == old(table)[e := old(table)[e].(lock := None)]
    {
      table := table[e := table[e].(lock := None)];
    }

    // One turn of ialloc()'s loop, on one locked buffer: a free inode becomes one of the given type.
    method Examine(k: Key, kind: nat) returns (claimed: bool)
      requires Valid() && kind != 0 && k in disk
      modifies this`disk
      ensures Valid() && (claimed <==> old(disk)[k].kind == 0)
      ensures disk == if claimed then old(disk)[k := Dinode(kind, 0, [])] else old(disk)
      ensures claimed ==> forall e :: 0 <= e < NINODE && table[e].ref > 0 && table[e].key == k ==>
                !table[e].valid || stage[e].Erased?
    {
      claimed := disk[k].kind == 0;
      if claimed {
        Claimed(k, Dinode(kind, 0, []));
        disk := disk[k := Dinode(kind, 0, [])];
      }
    }

    lemma Claimed(k: Key, d: Dinode)
      requires Valid() && k in disk && disk[k].kind == 0
      ensures forall e :: 0 <= e < NINODE ==> EntryOk(table[e], holders[e], stage[e], clean[e], disk[k := d])
      ensures forall e :: 0 <= e < NINODE && table[e].ref > 0 && table[e].key == k ==>
                !table[e].valid || stage[e].Erased?
    {}

    // iput() up to its first release(): the last reference to an unlinked inode locks the entry, without
    // waiting; any other is dropped.
    method PutStart(t: nat, e: nat) returns (freeing: bool)
      requires Valid() && e < NINODE && t in holders[e] && table[e].lock != Some(t)
               && (stage[e].Normal? || stage[e].t != t)
      modifies this`table, this`holders, this`stage
      ensures Valid()
      ensures freeing <==> old(table)[e].ref == 1 && old(table)[e].valid && old(table)[e].copy.nlink == 0
      ensures freeing ==> old(table)[e].lock.None? && table == old(table)[e := old(table)[e].(lock := Some(t))]
      ensures freeing ==> holders == old(holders) && stage == old(stage)[e := Trunc(t)]
      ensures !freeing ==> table == old(table)[e := old(table)[e].(ref := old(table)[e].ref - 1)]
      ensures !freeing ==> holders == old(holders)[e := old(holders)[e] - multiset{t}] && stage == old(stage)
      ensures Left(table, disk, table[e].key) <==> !freeing && old(table)[e].ref == 1 && Unlinked(disk, table[e].key)
      ensures Left(table, disk, table[e].key) ==> !old(table)[e].valid || !clean[e]
    {
      assert EntryOk(table[e], holders[e], stage[e], clean[e], disk);
      if table[e].ref == 1 { Alone(holders[e], t); }
      if table[e].ref == 1 && table[e].valid && table[e].copy.nlink == 0 {
        assert stage[e].Normal?;
        table := table[e := table[e].(lock := Some(t))];
        stage := stage[e := Trunc(t)];
        HeldByOne(table, e);
        return true;
      }
      Release(t, e);
      freeing := false;
    }

    // ref-- under itable.lock. At the end of an iput() that freed the entry's inode nothing is tested again: if
    // the inode was taken, used and unlinked meanwhile, this decrement leaves it behind.
    method Release(t: nat, e: nat)
      requires Valid() && e < NINODE && t in holders[e] && table[e].lock != Some(t)
      requires stage[e].Normal? || stage[e].t != t || stage[e].Drop?
      modifies this`table, this`holders, this`stage
      ensures Valid() && table == old(table)[e := old(table)[e].(ref := old(table)[e].ref - 1)]
      ensures holders == old(holders)[e := old(holders)[e] - multiset{t}]
      ensures stage == if old(stage)[e] == Drop(t) then old(stage)[e := Normal] else old(stage)
      ensures Left(table, disk, table[e].key) <==> old(table)[e].ref == 1 && Unlinked(disk, table[e].key)
    {
      hide EntryOk, Unique, Held;
      OneLess(table[e], holders[e], stage[e], clean[e], disk, t);
      HeldAfterDrop(table, e);
      SameKey(table, e, table[e].(ref := table[e].ref - 1));
      table := table[e := table[e].(ref := table[e].ref - 1)];
      holders := holders[e := holders[e] - multiset{t}];
      stage := stage[e := if stage[e] == Drop(t) then Normal else stage[e]];
    }

    // itrunc(), which writes the truncated inode, and the cleared type in memory.
    method PutTrunc(t: nat, e: nat, d: Dinode)
      requires Valid() && e < NINODE && stage[e] == Trunc(t) && d.kind == table[e].copy.kind
      modifies this`table, this`disk, this`stage
      ensures Valid() && disk == old(disk)[table[e].key := d] && stage == old(stage)[e := Typed(t)]
      ensures table == old(table)[e := old(table)[e].(copy := d.(kind := 0))]
    {
      assert EntryOk(table[e], holders[e], stage[e], clean[e], disk) && holders[e] != multiset{};
      Elsewhere(e, d);
      disk := disk[table[e].key := d];
      table := table[e := table[e].(copy := d.(kind := 0))];
      stage := stage[e := Typed(t)];
    }

    // iupdate(): from here on ialloc() may take the inode.
    method PutErase(t: nat, e: nat)
      requires Valid() && e < NINODE && stage[e] == Typed(t)
      modifies this`disk, this`stage
      ensures Valid() && disk == old(disk)[table[e].key := table[e].copy] && disk[table[e].key].kind == 0
      ensures stage == old(stage)[e := Erased(t)]
    {
      assert EntryOk(table[e], holders[e], stage[e], clean[e], disk) && holders[e] != multiset{};
      Elsewhere(e, table[e].copy);
      disk := disk[table[e].key := table[e].copy];
      stage := stage[e := Erased(t)];
    }

    method PutInvalidate(t: nat, e: nat)
      requires Valid() && e < NINODE && stage[e] == Erased(t)
      modifies this`table, this`stage
      ensures Valid() && table == old(table)[e := old(table)[e].(valid := false)]
              && stage == old(stage)[e := Invalid(t)]
    {
      table := table[e := table[e].(valid := false)];
      stage := stage[e := Invalid(t)];
    }

    method PutUnlock(t: nat, e: nat)
      requires Valid() && e < NINODE && stage[e] == Invalid(t)
      modifies this`table, this`stage
      ensures Valid() && table == old(table)[e := old(table)[e].(lock := None)] && stage == old(stage)[e := Drop(t)]
    {
      table := table[e := table[e].(lock := None)];
      stage := stage[e := Drop(t)];
    }
  }

  lemma Alone(holders: multiset<nat>, t: nat)
    requires |holders| == 1 && t in holders
    ensures holders == multiset{t}
  {
    assert holders == multiset{t} + (holders - multiset{t});
  }

  // Process 1 frees inode 1; before its last decrement, process 2 allocates the same inode, gives up on it with
  // no links, and drops it. The inode is then allocated, without links and without references.
  method DelayedDropLeavesInode() returns (tb: Table)
    ensures tb.Valid() && Left(tb.table, tb.disk, (1, 1))
  {
    hide Left;
    tb := new Table(map[(1, 1) := Dinode(2, 0, [])]);
    FirstUse(tb);
    var freeing := tb.PutStart(1, 0);
    tb.PutTrunc(1, 0, Dinode(2, 0, []));
    tb.PutErase(1, 0);
    Reuse(tb);
    var again := tb.PutStart(2, 0);
    tb.Release(1, 0);
  }

  // ilock and iunlock
  method LookAt(tb: Table, t: nat)
    requires tb.Valid() && t in tb.holders[0] && tb.table[0].lock.None? && !UnderLock(tb.stage[0]) && !tb.table[0].valid
    requires tb.table[0].key == (1, 1) && (1, 1) in tb.disk && tb.disk[(1, 1)] == Dinode(2, 0, [])
    modifies tb`table, tb`clean
    ensures tb.Valid() && tb.table[0] == old(tb.table)[0].(valid := true, copy := Dinode(2, 0, []))
  {
    hide EntryOk, Unique;
    tb.LockEntry(t, 0);
    var ok := tb.Load(t, 0);
    tb.IUnlock(t, 0);
  }

  method FirstUse(tb: Table)
    requires tb.Valid() && (1, 1) in tb.disk && tb.disk[(1, 1)] == Dinode(2, 0, []) && forall e :: 0 <= e < NINODE ==>
               tb.table[e].ref == 0
    modifies tb
    ensures tb.Valid() && tb.disk == old(tb.disk)
    ensures tb.table[0] == Entry((1, 1), 1, true, Dinode(2, 0, []), None) && tb.holders[0] == multiset{1}
            && tb.stage[0].Normal?
  {
    hide Unique;
    assert forall e :: 0 <= e < NINODE ==> EntryOk(tb.table[e], tb.holders[e], tb.stage[e], tb.clean[e], tb.disk);
    assert tb.holders[0] == multiset{};
    hide EntryOk;
    var r := tb.IGet(1, (1, 1));
    assert r == Some(0);
    LookAt(tb, 1);
  }

  method Reuse(tb: Table)
    requires tb.Valid() && (1, 1) in tb.disk && tb.disk[(1, 1)].kind == 0
    requires tb.table[0].key == (1, 1) && tb.table[0].ref == 1 && tb.holders[0] == multiset{1}
             && tb.stage[0] == Erased(1)
    modifies tb
    ensures tb.Valid() && (1, 1) in tb.disk && tb.disk[(1, 1)] == Dinode(2, 0, [])
    ensures tb.table[0] == Entry((1, 1), 2, true, Dinode(2, 0, []), None) && tb.holders[0] == multiset{1, 2}
            && tb.stage[0] == Drop(1)
  {
    hide EntryOk, Unique;
    var claimed := tb.Examine((1, 1), 2);
    var r := tb.IGet(2, (1, 1));
    assert r == Some(0);
    tb.PutInvalidate(1, 0);
    tb.PutUnlock(1, 0);
    LookAt(tb, 2);
  }

  // A process that allocates an inode and drops it without ever locking it leaves it behind too.
  method UnloadedDropLeavesInode() returns (tb: Table)
    ensures tb.Valid() && Left(tb.table, tb.disk, (1, 1))
  {
    hide Left, EntryOk, Unique;
    tb := new Table(map[(1, 1) := Dinode(0, 0, [])]);
    var claimed := tb.Examine((1, 1), 2);
    var r := tb.IGet(1, (1, 1));
    assert r == Some(0) && 1 in tb.holders[0];
    var freeing := tb.PutStart(1, 0);
  }

  // Some inode of device 1 below 3 is free.
  predicate SomeFree(disk: map<Key, Dinode>) {
    exists x: nat :: 1 <= x < 3 && (1, x) in disk && disk[(1, x)].kind == 0
  }

  lemma SomeFreeIs(disk: map<Key, Dinode>)
    ensures SomeFree(disk) <==>
              ((1, 1) in disk && disk[(1, 1)].kind == 0) || ((1, 2) in disk && disk[(1, 2)].kind == 0)
  {}

  // Inodes 1 and 2; the first is in use without links. Process 2 looks at inode 1, process 1 frees it, process 3 takes
  // inode 2, process 2 looks at inode 2. Both were taken when it looked, yet at every moment one was free.
  method FreeInodeMissed() returns (first: bool, second: bool, disks: seq<map<Key, Dinode>>)
    ensures !first && !second && |disks| == 6 && forall i :: 0 <= i < |disks| ==> SomeFree(disks[i])
  {
    hide EntryOk, Unique, Left, Held, Unlinked;
    var tb := new Table(map[(1, 1) := Dinode(2, 0, []), (1, 2) := Dinode(0, 0, [])]);
    disks := [tb.disk];
    FirstUse(tb);
    first := tb.Examine((1, 1), 2);
    disks := disks + [tb.disk];
    var freeing := tb.PutStart(1, 0);
    tb.PutTrunc(1, 0, Dinode(2, 0, []));
    disks := disks + [tb.disk];
    tb.PutErase(1, 0);
    disks := disks + [tb.disk];
    var other := tb.Examine((1, 2), 2);
    disks := disks + [tb.disk];
    second := tb.Examine((1, 2), 2);
    disks := disks + [tb.disk];
    assert (1, 2) in disks[0] && (1, 2) in disks[1] && (1, 2) in disks[2];
    assert (1, 1) in disks[3] && (1, 1) in disks[4] && (1, 1) in disks[5];
  }
}
