/**
 Every interleaving of the operations on the inode table (kernel/fs.c:194-362).

 An event lets one process do its next stretch: what it does under itable.lock, under an inode's sleeplock, or
 on one locked buffer. ialloc() lets go of each buffer before it looks at the next inode, so its search is one
 event for each inode and one for its iget(). `Step` says what an event does; `Run` performs any sequence of
 events on the real table and is proved to do exactly that.
 */
module ItableRun {
  import opened Wrappers
  import opened Itable

  // Where a process is inside ialloc(): about to look at inode i of n, or to call iget() for the one it took.
  datatype Call = Scan(dev: nat, kind: nat, i: nat, n: nat) | Take(k: Key)

  datatype Event =
    | Ialloc(t: nat, dev: nat, kind: nat, n: nat)   // enters ialloc()
    | Turn(t: nat)                                  // goes on with it
    | Iget(t: nat, k: Key)
    | Idup(t: nat, e: nat, t': nat)
    | Lock(t: nat, e: nat)
    | Load(t: nat, e: nat)
    | Change(t: nat, e: nat, d: Dinode)
    | Iupdate(t: nat, e: nat)
    | Iunlock(t: nat, e: nat)
    | Iput(t: nat, e: nat)
    | Itrunc(t: nat, e: nat, d: Dinode)             // the steps of an iput() that frees the inode
    | Erase(t: nat, e: nat)
    | Invalidate(t: nat, e: nat)
    | Unlock(t: nat, e: nat)
    | Finish(t: nat, e: nat)

  // Refused: the process is not at that point, or waits for a lock.
  datatype Out =
    | Refused
    | Done
    | Got(e: nat)
    | Loaded(d: Dinode)
    | Passed(k: Key)        // the inode was not free
    | Claimed(k: Key)
    | NoInodes
    | Freeing
    | Dropped
    | Panic                 // no free entry, or no type

  datatype State = State(
    table: seq<Entry>, disk: map<Key, Dinode>, holders: seq<multiset<nat>>, stage: seq<Stage>, clean: seq<bool>,
    calls: map<nat, Call>, halted: bool)

  predicate Sized(s: State) { |s.table| == |s.holders| == |s.stage| == |s.clean| == NINODE }

  // The lock's holder outside iput().
  predicate Holds(s: State, t: nat, e: nat)
    requires Sized(s)
  {
    e < NINODE && s.table[e].lock == Some(t) && !UnderLock(s.stage[e])
  }

  predicate Can(s: State, ev: Event)
    requires Sized(s)
  {
    && !s.halted && (ev.t in s.calls <==> ev.Turn?)
    && match ev
       case Ialloc(_, dev, kind, n) => kind != 0 && forall i: nat :: 1 <= i < n ==> (dev, i) in s.disk
       case Turn(t) => (
         match s.calls[t]
         case Scan(dev, _, i, n) => i < n ==> (dev, i) in s.disk
         case Take(k) => k in s.disk)
       case Iget(_, k) => k in s.disk
       case Idup(t, e, _) => e < NINODE && t in s.holders[e]
       case Lock(t, e) => e < NINODE && t in s.holders[e] && s.table[e].lock.None?
       case Load(t, e) => Holds(s, t, e) && s.table[e].key in s.disk
       case Change(t, e, d) => Holds(s, t, e) && s.table[e].valid && d.kind != 0
       case Iupdate(t, e) => Holds(s, t, e) && s.table[e].valid
       case Iunlock(t, e) => Holds(s, t, e)
       case Iput(t, e) =>
         && e < NINODE && t in s.holders[e] && s.table[e].ref > 0 && s.table[e].lock != Some(t)
         && (s.stage[e].Normal? || s.stage[e].t != t)
       case Itrunc(t, e, d) => e < NINODE && s.stage[e] == Trunc(t) && d.kind == s.table[e].copy.kind
       case Erase(t, e) => e < NINODE && s.stage[e] == Typed(t)
       case Invalidate(t, e) => e < NINODE && s.stage[e] == Erased(t)
       case Unlock(t, e) => e < NINODE && s.stage[e] == Invalid(t)
       case Finish(t, e) => e < NINODE && s.stage[e] == Drop(t) && s.table[e].ref > 0 && s.table[e].lock != Some(t)
  }

  // The entry for k, and the first free entry, from entry i on.
  function Find(table: seq<Entry>, k: Key, i: nat): (r: Option<nat>)
    decreases |table| - i
  {
    if i >= |table| then None
    else if table[i].ref > 0 && table[i].key == k then Some(i)
    else Find(table, k, i + 1)
  }

  function FindFree(table: seq<Entry>, i: nat): (r: Option<nat>)
    ensures r.Some? ==> i <= r.value < |table|
    decreases |table| - i
  {
    if i >= |table| then None else if table[i].ref == 0 then Some(i) else FindFree(table, i + 1)
  }

  function SetEntry(s: State, e: nat, en: Entry): (r: State)
    requires Sized(s) && e < NINODE
  {
    s.(table := s.table[e := en])
  }

  function SetStage(s: State, e: nat, g: Stage): (r: State)
    requires Sized(s) && e < NINODE
  {
    s.(stage := s.stage[e := g])
  }

  function Getting(s: State, t: nat, k: Key): (r: (State, Out))
    requires Sized(s)
  {
    var hit, empty := Find(s.table, k, 0), FindFree(s.table, 0);
    if hit.Some? && hit.value < NINODE then
      var e := hit.value;
      (SetEntry(s, e, s.table[e].(ref := s.table[e].ref + 1)).(holders := s.holders[e := s.holders[e] + multiset{t}]),
       Got(e))
    else if empty.Some? then
      var e := empty.value;
      (SetStage(SetEntry(s, e, Entry(k, 1, false, s.table[e].copy, None)), e, Normal)
       .(holders := s.holders[e := s.holders[e] + multiset{t}]), Got(e))
    else (s.(halted := true), Panic)
  }

  function Dropping(s: State, t: nat, e: nat): (r: State)
    requires Sized(s) && e < NINODE && s.table[e].ref > 0
  {
    SetEntry(s, e, s.table[e].(ref := s.table[e].ref - 1))
    .(holders := s.holders[e := s.holders[e] - multiset{t}],
      stage := if s.stage[e] == Drop(t) then s.stage[e := Normal] else s.stage)
  }

  function Step(s: State, ev: Event): (r: (State, Out))
    requires Sized(s)
    ensures Sized(r.0)
  {
    if !Can(s, ev) then (s, Refused) else
    match ev
    case Ialloc(t, dev, kind, n) => (s.(calls := s.calls[t := Scan(dev, kind, 1, n)]), Done)
    case Turn(t) => (
      match s.calls[t]
      case Scan(dev, kind, i, n) =>
        if i >= n then (s.(calls := s.calls - {t}), NoInodes)
        else if s.disk[(dev, i)].kind != 0 then
          (s.(calls := s.calls[t := Scan(dev, kind, i + 1, n)]), Passed((dev, i)))
        else
          (s.(calls := s.calls[t := Take((dev, i))], disk := s.disk[(dev, i) := Dinode(kind, 0, [])]),
           Claimed((dev, i)))
      case Take(k) => Getting(s.(calls := s.calls - {t}), t, k))
    case Iget(t, k) => Getting(s, t, k)
    case Idup(_, e, t') =>
      (SetEntry(s, e,
                s.table[e].(ref := s.table[e].ref + 1)).(holders := s.holders[e := s.holders[e] + multiset{t'}]), Done)
    case Lock(t, e) => (SetEntry(s, e, s.table[e].(lock := Some(t))), Done)
    case Load(_, e) =>
      var en := s.table[e];
      if en.valid then (s, Loaded(en.copy))
      else if s.disk[en.key].kind == 0 then (s.(halted := true), Panic)
      else (SetEntry(s, e, en.(valid := true, copy := s.disk[en.key])).(clean := s.clean[e := true]),
            Loaded(s.disk[en.key]))
    case Change(_, e, d) => (SetEntry(s, e, s.table[e].(copy := d)).(clean := s.clean[e := false]), Done)
    case Iupdate(_, e) => (s.(disk := s.disk[s.table[e].key := s.table[e].copy], clean := s.clean[e := true]), Done)
    case Iunlock(_, e) => (SetEntry(s, e, s.table[e].(lock := None)), Done)
    case Iput(t, e) =>
      if s.table[e].ref == 1 && s.table[e].valid && s.table[e].copy.nlink == 0 then
        (SetStage(SetEntry(s, e, s.table[e].(lock := Some(t))), e, Trunc(t)), Freeing)
      else (Dropping(s, t, e), Dropped)
    case Itrunc(t, e, d) =>
      (SetStage(SetEntry(s, e, s.table[e].(copy := d.(kind := 0))), e,
                Typed(t)).(disk := s.disk[s.table[e].key := d]), Done)
    case Erase(t, e) => (SetStage(s, e, Erased(t)).(disk := s.disk[s.table[e].key := s.table[e].copy]), Done)
    case Invalidate(t, e) => (SetStage(SetEntry(s, e, s.table[e].(valid := false)), e, Invalid(t)), Done)
    case Unlock(t, e) => (SetStage(SetEntry(s, e, s.table[e].(lock := None)), e, Drop(t)), Done)
    case Finish(t, e) => (Dropping(s, t, e), Dropped)
  }

  // The state before event i, and what event i answers.
  function After(s: State, script: seq<Event>, i: nat): (r: State)
    requires Sized(s) && i <= |script|
    ensures Sized(r)
  {
    if i == 0 then s else Step(After(s, script, i - 1), script[i - 1]).0
  }

  function Answer(s: State, script: seq<Event>, i: nat): (r: Out)
    requires Sized(s) && i < |script|
  {
    Step(After(s, script, i), script[i]).1
  }

  // ----- The table in every state -----

  ghost predicate CallOk(c: Call, disk: map<Key, Dinode>) {
    match c
    case Scan(dev, kind, i, n) => kind != 0 && i >= 1 && forall x: nat :: 1 <= x < n ==> (dev, x) in disk
    case Take(k) => k in disk
  }

  ghost predicate Ok(s: State) {
    && Sized(s)
    && (s.halted || TableOk(s.table, s.disk, s.holders, s.stage, s.clean))
    && forall t :: t in s.calls ==> CallOk(s.calls[t], s.disk)
  }

  // Every change is to one entry, and to the disk's inode of that entry at most.
  lemma EntryChanged(s: State, b: State, e: nat)
    requires Sized(s) && TableOk(s.table, s.disk, s.holders, s.stage, s.clean) && Sized(b) && e < NINODE
    requires forall f :: 0 <= f < NINODE && f != e ==>
               && b.table[f] == s.table[f] && b.holders[f] == s.holders[f] && b.stage[f] == s.stage[f]
               && b.clean[f] == s.clean[f]
    requires s.table[e].ref > 0 && b.table[e].key == s.table[e].key && s.table[e].key in s.disk
    requires forall k :: k in s.disk ==> k in b.disk && (k != s.table[e].key ==> b.disk[k] == s.disk[k])
    requires EntryOk(b.table[e], b.holders[e], b.stage[e], b.clean[e], b.disk)
    ensures TableOk(b.table, b.disk, b.holders, b.stage, b.clean)
  {
    forall f | 0 <= f < NINODE ensures EntryOk(b.table[f], b.holders[f], b.stage[f], b.clean[f], b.disk) {
      if f != e { assert s.table[f].ref > 0 ==> s.table[f].key != s.table[e].key; }
    }
  }

  lemma FindMeaning(table: seq<Entry>, k: Key, i: nat)
    requires Unique(table) && forall f :: 0 <= f < i < |table| && table[f].ref > 0 ==> table[f].key != k
    ensures forall f: nat :: i <= f < |table| && table[f].ref > 0 && table[f].key == k ==> Find(table, k, i) == Some(f)
    ensures Find(table, k, i).Some? ==>
              var f := Find(table, k, i).value; f < |table| && table[f].ref > 0 && table[f].key == k
    decreases |table| - i
  {}

  lemma FindFreeMeaning(table: seq<Entry>, i: nat)
    ensures FindFree(table, i).None? ==> forall f :: i <= f < |table| ==> table[f].ref > 0
    ensures FindFree(table, i).Some? ==>
              var e := FindFree(table, i).value; table[e].ref == 0 && forall f :: i <= f < e ==> table[f].ref > 0
    decreases |table| - i
  {}

  lemma FoundOk(s: State, t: nat, e: nat)
    requires Ok(s) && !s.halted && e < NINODE && s.table[e].ref > 0 && s.table[e].key in s.disk
    ensures Ok(SetEntry(s, e,
                        s.table[e].(ref := s.table[e].ref + 1)).(holders := s.holders[e := s.holders[e] + multiset{t}]))
  {
    OneMore(s.table[e], s.holders[e], s.stage[e], s.clean[e], s.disk, t);
    hide EntryOk, Unique;
    EntryChanged(
      s, SetEntry(s, e,
                  s.table[e].(ref := s.table[e].ref + 1)).(holders := s.holders[e := s.holders[e] + multiset{t}]), e);
  }

  lemma RecycledOk(s: State, t: nat, k: Key, e: nat)
    requires Ok(s) && !s.halted && e < NINODE && s.table[e].ref == 0 && k in s.disk
    requires forall f :: 0 <= f < NINODE && s.table[f].ref > 0 ==> s.table[f].key != k
    ensures Ok(SetStage(SetEntry(s, e, Entry(k, 1, false, s.table[e].copy, None)), e, Normal)
               .(holders := s.holders[e := s.holders[e] + multiset{t}]))
  {
    Recycled(s.table[e], s.holders[e], s.stage[e], s.clean[e], s.disk, t, k);
    NewKey(s.table, e, Entry(k, 1, false, s.table[e].copy, None));
    hide EntryOk, Unique;
  }

  lemma GettingOk(s: State, t: nat, k: Key)
    requires Ok(s) && !s.halted && k in s.disk
    ensures Ok(Getting(s, t, k).0)
  {
    FindMeaning(s.table, k, 0);
    FindFreeMeaning(s.table, 0);
    var hit, empty := Find(s.table, k, 0), FindFree(s.table, 0);
    hide Find, FindFree, EntryOk, Unique, SetEntry, SetStage;
    if hit.Some? { FoundOk(s, t, hit.value); } else if empty.Some? { RecycledOk(s, t, k, empty.value); }
  }

  lemma DroppingOk(s: State, t: nat, e: nat)
    requires Ok(s) && !s.halted && e < NINODE && t in s.holders[e] && s.table[e].ref > 0 && s.table[e].lock != Some(t)
    requires s.stage[e].Normal? || s.stage[e].t != t || s.stage[e].Drop?
    ensures Ok(Dropping(s, t, e))
  {
    OneLess(s.table[e], s.holders[e], s.stage[e], s.clean[e], s.disk, t);
    assert s.table[e].key in s.disk;
    hide EntryOk, Unique;
    EntryChanged(s, Dropping(s, t, e), e);
  }

  lemma TurnOk(s: State, t: nat)
    requires Ok(s) && Can(s, Turn(t))
    ensures Ok(Step(s, Turn(t)).0)
  {
    match s.calls[t]
    case Scan(dev, kind, i, n) =>
      if i < n && s.disk[(dev, i)].kind == 0 {
        var d := Dinode(kind, 0, []);
        forall e | 0 <= e < NINODE
          ensures EntryOk(s.table[e], s.holders[e], s.stage[e], s.clean[e], s.disk[(dev, i) := d]) {
          if s.table[e].ref > 0 && s.table[e].key == (dev, i) {
            ClaimedKey(s.table[e], s.holders[e], s.stage[e], s.clean[e], s.disk, d);
          }
        }
      }
    case Take(k) =>
      GettingOk(s.(calls := s.calls - {t}), t, k);
  }

  // An event that changes entry e only, if it leaves that entry in order.
  lemma OneEntry(s: State, ev: Event, e: nat)
    requires Ok(s) && Can(s, ev) && e < NINODE && s.holders[e] != multiset{}
    requires var b := Step(s, ev).0;
             && b.calls == s.calls && b.table[e].key == s.table[e].key
             && (forall f :: 0 <= f < NINODE && f != e ==>
                   && b.table[f] == s.table[f] && b.holders[f] == s.holders[f] && b.stage[f] == s.stage[f]
                   && b.clean[f] == s.clean[f])
             && (forall k :: k in s.disk ==> k in b.disk && (k != s.table[e].key ==> b.disk[k] == s.disk[k]))
             && EntryOk(b.table[e], b.holders[e], b.stage[e], b.clean[e], b.disk)
    ensures Ok(Step(s, ev).0)
  {
    assert EntryOk(s.table[e], s.holders[e], s.stage[e], s.clean[e], s.disk);
    hide Step, Unique;
    EntryChanged(s, Step(s, ev).0, e);
  }

  lemma SharingOk(s: State, ev: Event)
    requires Ok(s) && Can(s, ev) && (ev.Idup? || ev.Lock?)
    ensures Ok(Step(s, ev).0)
  {
    assert EntryOk(s.table[ev.e], s.holders[ev.e], s.stage[ev.e], s.clean[ev.e], s.disk);
    hide Unique, CallOk;
    OneEntry(s, ev, ev.e);
  }

  lemma LoadingOk(s: State, ev: Event)
    requires Ok(s) && Can(s, ev) && (ev.Load? || ev.Iunlock?)
    ensures Ok(Step(s, ev).0)
  {
    assert EntryOk(s.table[ev.e], s.holders[ev.e], s.stage[ev.e], s.clean[ev.e], s.disk);
    hide Unique, CallOk;
    if !Step(s, ev).1.Panic? { OneEntry(s, ev, ev.e); }
  }

  lemma EditingOk(s: State, ev: Event)
    requires Ok(s) && Can(s, ev) && (ev.Change? || ev.Iupdate?)
    ensures Ok(Step(s, ev).0)
  {
    assert EntryOk(s.table[ev.e], s.holders[ev.e], s.stage[ev.e], s.clean[ev.e], s.disk);
    hide Unique, CallOk;
    OneEntry(s, ev, ev.e);
  }

  lemma FreeingOk(s: State, ev: Event)
    requires Ok(s) && Can(s, ev) && (ev.Itrunc? || ev.Erase?)
    ensures Ok(Step(s, ev).0)
  {
    assert EntryOk(s.table[ev.e], s.holders[ev.e], s.stage[ev.e], s.clean[ev.e], s.disk);
    hide Unique, CallOk;
    OneEntry(s, ev, ev.e);
  }

  lemma UnlockingOk(s: State, ev: Event)
    requires Ok(s) && Can(s, ev) && (ev.Invalidate? || ev.Unlock?)
    ensures Ok(Step(s, ev).0)
  {
    assert EntryOk(s.table[ev.e], s.holders[ev.e], s.stage[ev.e], s.clean[ev.e], s.disk);
    hide Unique, CallOk;
    OneEntry(s, ev, ev.e);
  }

  lemma PuttingOk(s: State, ev: Event)
    requires Ok(s) && Can(s, ev) && (ev.Iput? || ev.Finish?)
    ensures Ok(Step(s, ev).0)
  {
    assert EntryOk(s.table[ev.e], s.holders[ev.e], s.stage[ev.e], s.clean[ev.e], s.disk);
    hide Unique, CallOk;
    if Step(s, ev).1.Freeing? {
      Alone(s.holders[ev.e], ev.t);
      OneEntry(s, ev, ev.e);
    } else {
      DroppingOk(s, ev.t, ev.e);
    }
  }

  // Every event keeps the invariant of the table.
  lemma StepOk(s: State, ev: Event)
    requires Ok(s)
    ensures Ok(Step(s, ev).0)
  {
    assert Sized(s);
    hide Ok, Can;
    if Can(s, ev) {
      match ev
      case Ialloc(_, _, _, _) => EnterOk(s, ev);
      case Turn(t) => TurnOk(s, t);
      case Iget(t, k) => IgetOk(s, ev);
      case Idup(_, _, _) => SharingOk(s, ev);
      case Lock(_, _) => SharingOk(s, ev);
      case Load(_, _) => LoadingOk(s, ev);
      case Iunlock(_, _) => LoadingOk(s, ev);
      case Change(_, _, _) => EditingOk(s, ev);
      case Iupdate(_, _) => EditingOk(s, ev);
      case Iput(_, _) => PuttingOk(s, ev);
      case Finish(_, _) => PuttingOk(s, ev);
      case Itrunc(_, _, _) => FreeingOk(s, ev);
      case Erase(_, _) => FreeingOk(s, ev);
      case Invalidate(_, _) => UnlockingOk(s, ev);
      case Unlock(_, _) => UnlockingOk(s, ev);
    }
  }

  lemma EnterOk(s: State, ev: Event)
    requires Ok(s) && Can(s, ev) && ev.Ialloc?
    ensures Ok(Step(s, ev).0)
  {}

  lemma IgetOk(s: State, ev: Event)
    requires Ok(s) && Can(s, ev) && ev.Iget?
    ensures Ok(Step(s, ev).0)
  {
    GettingOk(s, ev.t, ev.k);
  }

  lemma {:induction false} EveryRunOk(s: State, script: seq<Event>, i: nat)
    requires Ok(s) && i <= |script|
    ensures Ok(After(s, script, i))
  {
    if i > 0 {
      EveryRunOk(s, script, i - 1);
      StepOk(After(s, script, i - 1), script[i - 1]);
    }
  }

  // ----- What runs guarantee -----

  // Event i frees inode k on disk.
  ghost predicate Frees(s: State, script: seq<Event>, i: nat, k: Key)
    requires Sized(s) && i < |script|
  {
    var a := After(s, script, i);
    script[i].Erase? && Can(a, script[i]) && a.table[script[i].e].key == k
  }

  // Only the erasing step of iput() makes an inode free.
  lemma StaysAllocated(s: State, ev: Event, k: Key)
    requires Ok(s) && k in s.disk && s.disk[k].kind != 0
    requires !(ev.Erase? && Can(s, ev) && s.table[ev.e].key == k)
    ensures var b := Step(s, ev).0; k in b.disk && b.disk[k].kind != 0
  {
    if Can(s, ev) && (ev.Iupdate? || ev.Itrunc?) {
      assert EntryOk(s.table[ev.e], s.holders[ev.e], s.stage[ev.e], s.clean[ev.e], s.disk);
      assert s.holders[ev.e] != multiset{};
    }
    hide EntryOk, Unique, Find, FindFree;
  }

  lemma {:induction false} AllocatedUntilFreed(s: State, script: seq<Event>, i: nat, j: nat, k: Key)
    requires Ok(s) && i <= j <= |script|
    requires k in After(s, script, i).disk && After(s, script, i).disk[k].kind != 0
    requires forall m :: i <= m < j ==> !Frees(s, script, m, k)
    ensures k in After(s, script, j).disk && After(s, script, j).disk[k].kind != 0
  {
    if i < j {
      AllocatedUntilFreed(s, script, i, j - 1, k);
      EveryRunOk(s, script, j - 1);
      assert !Frees(s, script, j - 1, k);
      StaysAllocated(After(s, script, j - 1), script[j - 1], k);
    }
  }

  lemma ClaimMeaning(s: State, ev: Event, k: Key)
    requires Sized(s) && Step(s, ev).1 == Claimed(k)
    ensures ev.Turn? && k in s.disk && s.disk[k].kind == 0
    ensures Ok(s) ==> k in Step(s, ev).0.disk && Step(s, ev).0.disk[k].kind != 0
  {
    hide Find, FindFree;
  }

  // ialloc() gives an inode to one process only: between two claims of it, an iput() freed it.
  lemma AllocatedOnce(s: State, script: seq<Event>, i: nat, j: nat, k: Key)
    requires Ok(s) && i < j < |script| && Answer(s, script, i) == Claimed(k) == Answer(s, script, j)
    ensures exists m :: i < m < j && Frees(s, script, m, k)
  {
    EveryRunOk(s, script, i);
    ClaimMeaning(After(s, script, i), script[i], k);
    ClaimMeaning(After(s, script, j), script[j], k);
    if forall m :: i < m < j ==> !Frees(s, script, m, k) {
      AllocatedUntilFreed(s, script, i + 1, j, k);
    }
  }

  // What the lock's holder sees of its inode in memory and on disk.
  predicate Using(s: State, t: nat, e: nat)
    requires Sized(s)
  {
    Holds(s, t, e) && s.table[e].valid && s.table[e].key in s.disk
  }

  ghost predicate SameInode(a: State, b: State, e: nat)
    requires Sized(a) && Sized(b) && e < NINODE
  {
    && b.table[e].key == a.table[e].key && b.table[e].copy == a.table[e].copy && b.table[e].valid == a.table[e].valid
    && b.table[e].key in a.disk && b.table[e].key in b.disk && b.disk[b.table[e].key] == a.disk[b.table[e].key]
  }

  lemma TwoHold(holders: multiset<nat>, t: nat, t': nat)
    requires t in holders && t' in holders && t != t'
    ensures |holders| >= 2
  {
    assert holders == multiset{t, t'} + (holders - multiset{t, t'});
  }

  lemma GettingIsolated(s: State, t': nat, k: Key, t: nat, e: nat)
    requires Ok(s) && !s.halted && Using(s, t, e)
    ensures var b := Getting(s, t', k).0; Using(b, t, e) && SameInode(s, b, e)
  {
    assert EntryOk(s.table[e], s.holders[e], s.stage[e], s.clean[e], s.disk) && s.holders[e] != multiset{};
    FindFreeMeaning(s.table, 0);
    hide Find, FindFree, EntryOk, Unique;
  }

  // A step of another process leaves the holder's inode alone.
  lemma StepIsolated(s: State, ev: Event, t: nat, e: nat)
    requires Ok(s) && !s.halted && Using(s, t, e) && ev.t != t
    ensures var b := Step(s, ev).0; Using(b, t, e) && SameInode(s, b, e)
  {
    if !Can(s, ev) { return; }
    assert EntryOk(s.table[e], s.holders[e], s.stage[e], s.clean[e], s.disk);
    match ev
    case Ialloc(_, _, _, _) =>
    case Turn(t') => TurnIsolated(s, t', t, e);
    case Iget(t', k) => GettingIsolated(s, t', k, t, e);
    case _ => EntryIsolated(s, ev, t, e);
  }

  lemma TurnIsolated(s: State, t': nat, t: nat, e: nat)
    requires Ok(s) && !s.halted && Using(s, t, e) && Can(s, Turn(t'))
    ensures var b := Step(s, Turn(t')).0; Using(b, t, e) && SameInode(s, b, e)
  {
    assert EntryOk(s.table[e], s.holders[e], s.stage[e], s.clean[e], s.disk) && s.holders[e] != multiset{};
    if s.calls[t'].Take? { GettingIsolated(s.(calls := s.calls - {t'}), t', s.calls[t'].k, t, e); }
  }

  lemma EntryIsolated(s: State, ev: Event, t: nat, e: nat)
    requires Ok(s) && !s.halted && Using(s, t, e) && ev.t != t && Can(s, ev)
    requires !ev.Ialloc? && !ev.Turn? && !ev.Iget?
    ensures var b := Step(s, ev).0; Using(b, t, e) && SameInode(s, b, e)
  {
    hide Getting, CallOk;
    var f := ev.e;
    if f == e {
      SameEntryIsolated(s, ev, t);
    } else {
      assert EntryOk(s.table[e], s.holders[e], s.stage[e], s.clean[e], s.disk) && s.holders[e] != multiset{};
      assert EntryOk(s.table[f], s.holders[f], s.stage[f], s.clean[f], s.disk) && s.holders[f] != multiset{};
      assert s.table[f].key != s.table[e].key;
      hide EntryOk, Unique, Ok;
    }
  }

  lemma SameEntryIsolated(s: State, ev: Event, t: nat)
    requires !ev.Ialloc? && !ev.Turn? && !ev.Iget?
    requires Ok(s) && !s.halted && Using(s, t, ev.e) && ev.t != t && Can(s, ev)
    ensures var b := Step(s, ev).0; Using(b, t, ev.e) && SameInode(s, b, ev.e)
  {
    var e := ev.e;
    assert EntryOk(s.table[e], s.holders[e], s.stage[e], s.clean[e], s.disk) && s.holders[e] != multiset{};
    if ev.Iput? || ev.Finish? { TwoHold(s.holders[e], t, ev.t); }
    hide EntryOk, Unique, Ok, Getting;
  }

  // Between two steps of the process that has an inode locked, nothing changes it, in memory or on disk.
  lemma {:induction false} Isolated(s: State, script: seq<Event>, i: nat, j: nat, t: nat, e: nat)
    requires Ok(s) && i <= j <= |script| && Using(After(s, script, i), t, e) && !After(s, script, i).halted
    requires forall m :: i <= m < j ==> script[m].t != t
    ensures Using(After(s, script, j), t, e) && SameInode(After(s, script, i), After(s, script, j), e)
  {
    if i < j {
      Isolated(s, script, i, j - 1, t, e);
      EveryRunOk(s, script, j - 1);
      var a := After(s, script, j - 1);
      if a.halted {
        assert After(s, script, j) == a;
      } else {
        StepIsolated(a, script[j - 1], t, e);
      }
    }
  }

  // ----- Inodes left behind -----

  // ialloc() has taken the inode and goes on to its iget().
  ghost predicate Coming(s: State, k: Key) { exists t :: t in s.calls && s.calls[t] == Take(k) }

  ghost predicate Stranded(s: State, k: Key) { Left(s.table, s.disk, k) && !Coming(s, k) }

  // Allocated on disk, without links, without an entry that is in use, and not about to get one.
  lemma StrandedMeans(s: State, k: Key)
    ensures Stranded(s, k) <==>
              && k in s.disk && s.disk[k].kind != 0 && s.disk[k].nlink == 0
              && (forall e :: 0 <= e < |s.table| ==> s.table[e].ref <= 0 || s.table[e].key != k)
              && (forall t :: t in s.calls ==> s.calls[t] != Take(k))
  {}

  // The event lets go of the inode: it drops the last reference, without freeing the inode, or stops ialloc() with
  // iget()'s panic.
  ghost predicate LetsGo(s: State, ev: Event, k: Key)
    requires Sized(s) && Can(s, ev)
  {
    match ev
    case Iput(_, e) =>
      && s.table[e].key == k && s.table[e].ref == 1
      && !(s.table[e].valid && s.table[e].copy.nlink == 0)
    case Finish(_, e) => s.table[e].key == k && s.table[e].ref == 1
    case Turn(t) => s.calls[t] == Take(k) && Step(s, ev).1.Panic?
    case _ => false
  }

  lemma GettingHeld(s: State, t: nat, k: Key, k': Key)
    requires Sized(s) && Unique(s.table)
    ensures var (b, o) := Getting(s, t, k);
            && b.disk == s.disk && b.calls == s.calls && (o.Got? || o.Panic?)
            && (Held(b.table, k') <==> Held(s.table, k') || (k == k' && o.Got?))
  {
    FindMeaning(s.table, k, 0);
    FindFreeMeaning(s.table, 0);
    var b, o := Getting(s, t, k).0, Getting(s, t, k).1;
    hide Find, FindFree, Unique;
    if Held(s.table, k') {
      var e :| 0 <= e < |s.table| && s.table[e].ref > 0 && s.table[e].key == k';
      assert b.table[e].ref > 0 && b.table[e].key == k';
    }
    if o.Got? { assert b.table[o.e].ref > 0 && b.table[o.e].key == k; }
  }

  lemma TurnStranded(s: State, t: nat, k: Key)
    requires Ok(s) && Can(s, Turn(t)) && !Stranded(s, k)
    ensures var b := Step(s, Turn(t)).0;
            Stranded(b, k) <==> LetsGo(s, Turn(t), k) && Unlinked(s.disk, k) && !Held(s.table, k) && !Coming(b, k)
  {
    var b := Step(s, Turn(t)).0;
    match s.calls[t]
    case Scan(dev, kind, i, n) =>
      assert t in b.calls && b.calls[t] == Take(k) ==> Coming(b, k);
      if Coming(s, k) {
        var u :| u in s.calls && s.calls[u] == Take(k);
        assert u in b.calls && b.calls[u] == Take(k);
      }
    case Take(k') =>
      GettingHeld(s.(calls := s.calls - {t}), t, k', k);
      hide Getting, Held;
      if k' != k && Coming(s, k) {
        var u :| u in s.calls && s.calls[u] == Take(k);
        assert u in b.calls && b.calls[u] == Take(k);
      }
  }

  predicate OnEntry(ev: Event) { !ev.Ialloc? && !ev.Turn? && !ev.Iget? }

  lemma EntryInUse(s: State, ev: Event)
    requires Ok(s) && Can(s, ev) && OnEntry(ev)
    ensures ev.e < NINODE && s.table[ev.e].ref > 0
  {
    assert EntryOk(s.table[ev.e], s.holders[ev.e], s.stage[ev.e], s.clean[ev.e], s.disk);
    assert s.holders[ev.e] != multiset{};
    hide Unique, Getting, CallOk;
  }

  // A step on an entry in use keeps what refers to which inode, and writes no inode but the entry's.
  lemma EntryStep(s: State, ev: Event)
    requires Sized(s) && Can(s, ev) && OnEntry(ev) && !Step(s, ev).1.Dropped?
    ensures Step(s, ev).0.calls == s.calls && (ev.e < NINODE && s.table[ev.e].ref > 0 ==>
              forall f :: 0 <= f < NINODE ==> SameRef(s.table[f], Step(s, ev).0.table[f]))
  {
    hide Getting;
  }

  predicate SameRef(a: Entry, b: Entry) { b.key == a.key && (b.ref > 0 <==> a.ref > 0) }

  lemma EntryWrites(s: State, ev: Event, k: Key)
    requires Sized(s) && Can(s, ev) && OnEntry(ev) && ev.e < NINODE && k != s.table[ev.e].key
    ensures Unlinked(Step(s, ev).0.disk, k) <==> Unlinked(s.disk, k)
  {
    hide Getting;
  }

  lemma SameHeld(a: seq<Entry>, b: seq<Entry>, k: Key)
    requires |a| == |b|
    requires forall f :: 0 <= f < |a| ==> SameRef(a[f], b[f])
    ensures Held(b, k) <==> Held(a, k)
  {
    if Held(a, k) {
      var f :| 0 <= f < |a| && a[f].ref > 0 && a[f].key == k;
      assert SameRef(a[f], b[f]) && b[f].ref > 0 && b[f].key == k;
    }
  }

  lemma KeepsStranded(s: State, ev: Event, k: Key)
    requires Ok(s) && Can(s, ev) && OnEntry(ev) && !Step(s, ev).1.Dropped?
    ensures Stranded(Step(s, ev).0, k) <==> Stranded(s, k)
  {
    assert Sized(s);
    hide Step, Can, Ok, Unlinked, Coming, SameRef;
    EntryInUse(s, ev);
    EntryStep(s, ev);
    SameCalls(s, Step(s, ev).0, k);
    SameHeld(s.table, Step(s, ev).0.table, k);
    if s.table[ev.e].key == k { HeldByOne(s.table, ev.e); } else { EntryWrites(s, ev, k); }
    hide Held;
  }

  lemma DropEffect(s: State, ev: Event, k: Key)
    requires Sized(s) && Can(s, ev) && Step(s, ev).1.Dropped?
    ensures (ev.Iput? || ev.Finish?) && s.table[ev.e].ref > 0 && Step(s, ev).0.disk == s.disk
    ensures Step(s, ev).0.calls == s.calls
    ensures Step(s, ev).0.table == s.table[ev.e := s.table[ev.e].(ref := s.table[ev.e].ref - 1)]
    ensures LetsGo(s, ev, k) <==> s.table[ev.e].key == k && s.table[ev.e].ref == 1
  {
    hide Find, FindFree;
  }

  lemma DropStranded(s: State, ev: Event, k: Key)
    requires Ok(s) && Can(s, ev) && Step(s, ev).1.Dropped? && !Stranded(s, k)
    ensures Stranded(Step(s, ev).0, k) <==> LetsGo(s, ev, k) && Unlinked(s.disk, k) && !Coming(s, k)
    ensures Step(s, ev).0.calls == s.calls
  {
    assert Sized(s) && !s.halted && Unique(s.table);
    hide Ok, Step, Can, Unique, LetsGo, Unlinked, Coming;
    DropEffect(s, ev, k);
    var e, b := ev.e, Step(s, ev).0;
    HeldAfterDrop(s.table, e);
    if s.table[e].key != k && Held(s.table, k) {
      var f :| 0 <= f < |s.table| && s.table[f].ref > 0 && s.table[f].key == k;
      assert b.table[f].ref > 0 && b.table[f].key == k;
    }
    SameCalls(s, b, k);
  }

  lemma SameCalls(s: State, b: State, k: Key)
    requires b.calls == s.calls
    ensures Coming(b, k) <==> Coming(s, k)
  {}

  // An inode comes to be left behind exactly when it is allocated without links, no ialloc() is about to use it, and
  // the step lets go of it: the last decrement of an iput() that freed the entry's inode, a drop by an iput() that did
  // not see that the inode has no links, or a panic.
  lemma StrandedExactly(s: State, ev: Event, k: Key)
    requires Ok(s) && !Stranded(s, k)
    ensures Stranded(Step(s, ev).0, k) <==>
              && Can(s, ev) && LetsGo(s, ev, k) && Unlinked(s.disk, k) && !Coming(Step(s, ev).0, k)
              && (ev.Turn? ==> !Held(s.table, k))
  {
    if !Can(s, ev) { return; }
    match ev
    case Ialloc(t, _, _, _) => EnterStranded(s, ev, k);
    case Turn(t) => TurnStranded(s, t, k);
    case Iget(t, k') =>
      GettingHeld(s, t, k', k);
      hide Getting, Held;
    case _ => EntryStranded(s, ev, k);
  }

  lemma EnterStranded(s: State, ev: Event, k: Key)
    requires Ok(s) && Can(s, ev) && ev.Ialloc? && !Stranded(s, k)
    ensures !Stranded(Step(s, ev).0, k)
  {
    if Coming(s, k) {
      var u :| u in s.calls && s.calls[u] == Take(k);
      assert u in Step(s, ev).0.calls && Step(s, ev).0.calls[u] == Take(k);
    }
  }

  lemma EntryStranded(s: State, ev: Event, k: Key)
    requires Ok(s) && Can(s, ev) && OnEntry(ev) && !Stranded(s, k)
    ensures Stranded(Step(s, ev).0, k) <==> LetsGo(s, ev, k) && Unlinked(s.disk, k) && !Coming(Step(s, ev).0, k)
  {
    if Step(s, ev).1.Dropped? {
      DropStranded(s, ev, k);
      SameCalls(s, Step(s, ev).0, k);
    } else {
      KeepsStranded(s, ev, k);
      assert !LetsGo(s, ev, k);
    }
  }

  // An iput() that leaves an inode behind was not shown the inode: its entry was never loaded since it was recycled or
  // invalidated, or holds changes that were not written.
  lemma PutStrandsUnseen(s: State, t: nat, e: nat)
    requires Ok(s) && Can(s, Iput(t, e)) && LetsGo(s, Iput(t, e), s.table[e].key) && Unlinked(s.disk, s.table[e].key)
    ensures !s.table[e].valid || !s.clean[e]
  {
    assert EntryOk(s.table[e], s.holders[e], s.stage[e], s.clean[e], s.disk);
    Alone(s.holders[e], t);
    hide Unique, Getting, Step;
  }

  // Whatever is left behind after a run was let go by one of its events.
  lemma {:induction false} StrandedBy(s: State, script: seq<Event>, j: nat, k: Key)
    requires Ok(s) && j <= |script| && !Stranded(s, k) && Stranded(After(s, script, j), k)
    ensures exists i :: 0 <= i < j && LetGoAt(s, script, i, k)
  {
    assert Sized(s) && j > 0;
    hide Step, Ok, Stranded, Can;
    if Stranded(After(s, script, j - 1), k) {
      StrandedBy(s, script, j - 1, k);
    } else {
      EveryRunOk(s, script, j - 1);
      StrandedExactly(After(s, script, j - 1), script[j - 1], k);
      assert LetGoAt(s, script, j - 1, k);
    }
  }

  ghost predicate LetGoAt(s: State, script: seq<Event>, i: nat, k: Key)
    requires Sized(s) && i < |script|
  {
    var a := After(s, script, i);
    Can(a, script[i]) && LetsGo(a, script[i], k) && Unlinked(a.disk, k)
  }

  // ----- The search of ialloc() -----

  // The turn of t, after b and before j, that found inode k taken.
  predicate PassedAt(s: State, script: seq<Event>, b: nat, j: nat, t: nat, k: Key, p: nat)
    requires Sized(s) && j <= |script|
  {
    b < p < j && script[p] == Turn(t) && Answer(s, script, p) == Passed(k)
  }

  ghost predicate Seen(s: State, script: seq<Event>, b: nat, j: nat, t: nat, k: Key)
    requires Sized(s) && j <= |script|
  {
    exists p: nat :: PassedAt(s, script, b, j, t, k, p)
  }

  // Event b entered the call, and since then every inode before i was found taken.
  ghost predicate Searched(s: State, script: seq<Event>, b: nat, j: nat, t: nat, dev: nat, i: nat, n: nat)
    requires Sized(s) && j <= |script|
  {
    && b < j && script[b].Ialloc? && script[b].t == t && script[b].dev == dev && script[b].n == n
    && Answer(s, script, b) == Done
    && forall x: nat :: 1 <= x < i ==> Seen(s, script, b, j, t, (dev, x))
  }

  lemma SearchedOn(s: State, script: seq<Event>, b: nat, j: nat, t: nat, dev: nat, i: nat, n: nat)
    requires Sized(s) && j < |script| && Searched(s, script, b, j, t, dev, i, n)
    ensures Searched(s, script, b, j + 1, t, dev, i, n)
    ensures i >= 1 && script[j] == Turn(t) && Answer(s, script, j) == Passed((dev, i)) ==>
              Searched(s, script, b, j + 1, t, dev, i + 1, n)
  {
    forall x: nat | 1 <= x < i ensures Seen(s, script, b, j + 1, t, (dev, x)) {
      assert Seen(s, script, b, j, t, (dev, x));
      var p: nat :| PassedAt(s, script, b, j, t, (dev, x), p);
      assert PassedAt(s, script, b, j + 1, t, (dev, x), p);
    }
    if i >= 1 && script[j] == Turn(t) && Answer(s, script, j) == Passed((dev, i)) {
      assert PassedAt(s, script, b, j + 1, t, (dev, i), j);
      forall x: nat | 1 <= x < i + 1 ensures Seen(s, script, b, j + 1, t, (dev, x)) {}
    }
  }

  // How a process comes to be at inode i of its search.
  lemma ScanStep(s: State, ev: Event, t: nat)
    requires Ok(s) && t in Step(s, ev).0.calls && Step(s, ev).0.calls[t].Scan?
    ensures var c := Step(s, ev).0.calls[t];
            || (t in s.calls && s.calls[t] == c)
            || (t in s.calls && c.i > 1 && s.calls[t] == c.(i := c.i - 1) && ev == Turn(t)
                && Step(s, ev).1 == Passed((c.dev, c.i - 1)))
            || (c.i == 1 && Step(s, ev).1 == Done && ev.Ialloc? && ev.t == t && ev.dev == c.dev && ev.n == c.n)
  {
    hide TableOk, Find, FindFree;
  }

  lemma {:induction false} ScanIsSearched(s: State, script: seq<Event>, j: nat, t: nat) returns (b: nat)
    requires Ok(s) && t !in s.calls && j <= |script|
    requires t in After(s, script, j).calls && After(s, script, j).calls[t].Scan?
    ensures var c := After(s, script, j).calls[t]; Searched(s, script, b, j, t, c.dev, c.i, c.n)
  {
    assert Sized(s) && j > 0;
    hide Ok, Step, Searched, Can;
    var a, c := After(s, script, j - 1), After(s, script, j).calls[t];
    EveryRunOk(s, script, j - 1);
    ScanStep(a, script[j - 1], t);
    if t in a.calls && a.calls[t].Scan? {
      b := ScanIsSearched(s, script, j - 1, t);
      SearchedOn(s, script, b, j - 1, t, a.calls[t].dev, a.calls[t].i, a.calls[t].n);
    } else {
      b := j - 1;
      NothingSearched(s, script, b, t, c.dev, c.n);
    }
  }

  lemma NothingSearched(s: State, script: seq<Event>, b: nat, t: nat, dev: nat, n: nat)
    requires Sized(s) && b < |script| && script[b].Ialloc? && script[b].t == t && script[b].dev == dev
             && script[b].n == n
    requires Answer(s, script, b) == Done
    ensures Searched(s, script, b, b + 1, t, dev, 1, n)
  {}

  // ialloc() takes an inode that is free at that moment, after it found every earlier one taken when it looked;
  // it reports that there is none when it found each of them taken, each at its own time.
  lemma SearchOutcome(s: State, script: seq<Event>, j: nat, t: nat) returns (b: nat)
    requires Ok(s) && t !in s.calls && j < |script| && script[j] == Turn(t)
    requires Answer(s, script, j).NoInodes? || Answer(s, script, j).Claimed?
    ensures b < j && script[b].Ialloc? && script[b].t == t
    ensures Answer(s, script, j).NoInodes? ==>
              forall x: nat :: 1 <= x < script[b].n ==> Seen(s, script, b, j, t, (script[b].dev, x))
    ensures Answer(s, script, j).Claimed? ==>
              var k := Answer(s, script, j).k;
              && k.0 == script[b].dev && k in After(s, script, j).disk && After(s, script, j).disk[k].kind == 0
              && 1 <= k.1 < script[b].n && forall x: nat :: 1 <= x < k.1 ==> Seen(s, script, b, j, t, (k.0, x))
  {
    EveryRunOk(s, script, j);
    var a := After(s, script, j);
    TurnMeaning(a, t);
    hide Step, Can, Getting;
    b := ScanIsSearched(s, script, j, t);
  }

  lemma TurnMeaning(s: State, t: nat)
    requires Ok(s) && (Step(s, Turn(t)).1.NoInodes? || Step(s, Turn(t)).1.Claimed?)
    ensures t in s.calls && s.calls[t].Scan?
    ensures var c, out := s.calls[t], Step(s, Turn(t)).1;
            && (out.NoInodes? ==> c.i >= c.n)
            && (out.Claimed? ==>
                c.i < c.n && c.i >= 1 && out.k == (c.dev, c.i) && out.k in s.disk && s.disk[out.k].kind == 0)
  {
    hide TableOk, Find, FindFree;
  }

  // Since event p, inode k was freed and not taken again.
  ghost predicate LeftFree(s: State, script: seq<Event>, p: nat, j: nat, k: Key)
    requires Sized(s) && j <= |script|
  {
    exists m: nat :: p <= m < j && Frees(s, script, m, k) && Untaken(s, script, m + 1, j, k)
  }

  ghost predicate Untaken(s: State, script: seq<Event>, m: nat, j: nat, k: Key)
    requires Sized(s) && j <= |script|
  {
    forall c: nat :: m <= c < j ==> Answer(s, script, c) != Claimed(k)
  }

  // An inode is free after the event that frees it, and from then on until ialloc() takes it.
  lemma StaysFree(s: State, ev: Event, k: Key)
    requires Ok(s) && k in s.disk
    ensures var (b, o) := Step(s, ev);
            && k in b.disk
            && (s.disk[k].kind == 0 ==> (b.disk[k].kind == 0 <==> o != Claimed(k)))
            && (ev.Erase? && Can(s, ev) && s.table[ev.e].key == k ==> b.disk[k].kind == 0 && o != Claimed(k))
  {
    if Can(s, ev) && (ev.Iupdate? || ev.Itrunc? || ev.Erase?) {
      assert EntryOk(s.table[ev.e], s.holders[ev.e], s.stage[ev.e], s.clean[ev.e], s.disk);
      assert s.holders[ev.e] != multiset{};
    }
    hide EntryOk, Unique, Find, FindFree;
  }

  predicate FreeNow(s: State, k: Key) { k in s.disk && s.disk[k].kind == 0 }

  lemma FreeAfter(s: State, ev: Event, k: Key)
    requires Ok(s) && k in s.disk
    ensures var (b, o) := Step(s, ev);
            && k in b.disk
            && (FreeNow(b, k) <==>
                (ev.Erase? && Can(s, ev) && s.table[ev.e].key == k) || (FreeNow(s, k) && o != Claimed(k)))
  {
    assert Sized(s);
    StaysFree(s, ev, k);
    hide Step, Ok;
    if s.disk[k].kind != 0 && !(ev.Erase? && Can(s, ev) && s.table[ev.e].key == k) { StaysAllocated(s, ev, k); }
  }

  lemma LeftFreeOn(s: State, script: seq<Event>, p: nat, j: nat, k: Key)
    requires Sized(s) && p <= j < |script|
    ensures LeftFree(s, script, p, j + 1, k) <==>
              Frees(s, script, j, k) || (LeftFree(s, script, p, j, k) && Answer(s, script, j) != Claimed(k))
  {
    hide Frees, Answer;
    if LeftFree(s, script, p, j + 1, k) && !Frees(s, script, j, k) {
      var m: nat :| p <= m < j + 1 && Frees(s, script, m, k) && Untaken(s, script, m + 1, j + 1, k);
      assert p <= m < j && Untaken(s, script, m + 1, j, k);
    }
    if LeftFree(s, script, p, j, k) && Answer(s, script, j) != Claimed(k) {
      var m: nat :| p <= m < j && Frees(s, script, m, k) && Untaken(s, script, m + 1, j, k);
      assert p <= m < j + 1 && Untaken(s, script, m + 1, j + 1, k);
    }
    if Frees(s, script, j, k) { assert Untaken(s, script, j + 1, j + 1, k); }
  }

  // An inode that was taken at event p is free at event j exactly when it was freed in between and not taken again.
  lemma {:induction false} FreeExactly(s: State, script: seq<Event>, p: nat, j: nat, k: Key)
    requires Ok(s) && p <= j <= |script| && k in After(s, script, p).disk && !FreeNow(After(s, script, p), k)
    ensures k in After(s, script, j).disk
    ensures FreeNow(After(s, script, j), k) <==> LeftFree(s, script, p, j, k)
  {
    assert Sized(s);
    hide Step, Ok, Can, LeftFree;
    if p == j {
      NothingFreed(s, script, p, k);
    } else {
      FreeExactly(s, script, p, j - 1, k);
      EveryRunOk(s, script, j - 1);
      LeftFreeOn(s, script, p, j - 1, k);
      FreeAfter(After(s, script, j - 1), script[j - 1], k);
    }
  }

  lemma NothingFreed(s: State, script: seq<Event>, p: nat, k: Key)
    requires Sized(s) && p <= |script|
    ensures !LeftFree(s, script, p, p, k)
  {}

  // When ialloc() reports that there is no inode, an inode is nevertheless free exactly when it was freed after the
  // turn that passed it and not taken since.
  lemma NoInodesExactly(s: State, script: seq<Event>, j: nat, t: nat) returns (b: nat)
    requires Ok(s) && t !in s.calls && j < |script| && script[j] == Turn(t) && Answer(s, script, j).NoInodes?
    ensures b < j && script[b].Ialloc? && script[b].t == t
    ensures forall x: nat :: 1 <= x < script[b].n ==> Seen(s, script, b, j, t, (script[b].dev, x))
    ensures forall k, p: nat :: PassedAt(s, script, b, j, t, k, p) ==>
              (FreeNow(After(s, script, j), k) <==> LeftFree(s, script, p, j, k))
  {
    assert Sized(s);
    hide Ok, Step, Can, LeftFree;
    b := SearchOutcome(s, script, j, t);
    forall k, p: nat | PassedAt(s, script, b, j, t, k, p)
      ensures FreeNow(After(s, script, j), k) <==> LeftFree(s, script, p, j, k)
    {
      PassedMeaning(After(s, script, p), t, k);
      FreeExactly(s, script, p, j, k);
    }
  }

  lemma PassedMeaning(s: State, t: nat, k: Key)
    requires Sized(s) && Step(s, Turn(t)).1 == Passed(k)
    ensures k in s.disk && s.disk[k].kind != 0
  {
    hide Find, FindFree;
  }

  // So the report is right if no inode was freed during the call.
  lemma NoInodesIsRight(s: State, script: seq<Event>, j: nat, t: nat) returns (b: nat)
    requires Ok(s) && t !in s.calls && j < |script| && script[j] == Turn(t) && Answer(s, script, j).NoInodes?
    ensures b < j && script[b].Ialloc? && script[b].t == t
    ensures var dev, n := script[b].dev, script[b].n;
            (forall x: nat, m: nat :: 1 <= x < n && b < m < j ==> !Frees(s, script, m, (dev, x))) ==>
              forall x: nat :: 1 <= x < n ==> !FreeNow(After(s, script, j), (dev, x))
  {
    assert Sized(s);
    hide Ok, Step, Can, After, FreeNow, Frees, PassedAt;
    b := NoInodesExactly(s, script, j, t);
    var dev, n := script[b].dev, script[b].n;
    if forall x: nat, m: nat :: 1 <= x < n && b < m < j ==> !Frees(s, script, m, (dev, x)) {
      forall x: nat | 1 <= x < n ensures !FreeNow(After(s, script, j), (dev, x)) {
        assert Seen(s, script, b, j, t, (dev, x));
        var p: nat :| PassedAt(s, script, b, j, t, (dev, x), p);
        assert b < p < j by { PassedWithin(s, script, b, j, t, (dev, x), p); }
      }
    }
  }

  lemma PassedWithin(s: State, script: seq<Event>, b: nat, j: nat, t: nat, k: Key, p: nat)
    requires Sized(s) && j <= |script| && PassedAt(s, script, b, j, t, k, p)
    ensures b < p < j
  {
    hide Answer;
  }

  // ----- The real table -----

  function Snap(tb: Table, calls: map<nat, Call>): (r: State)
    reads tb
  {
    State(tb.table, tb.disk, tb.holders, tb.stage, tb.clean, calls, false)
  }

  // What iget() found, as Find and FindFree have it.
  lemma Picked(table: seq<Entry>, k: Key, r: Option<nat>)
    requires Unique(table)
    requires forall f: nat :: f < |table| && table[f].ref > 0 && table[f].key == k ==> r == Some(f)
    requires r.None? ==> forall f :: 0 <= f < |table| ==> table[f].ref > 0
    requires r.Some? ==> r.value < |table|
    requires r.Some? && table[r.value].ref > 0 ==> table[r.value].key == k
    requires r.Some? && table[r.value].ref == 0 ==> forall f :: 0 <= f < r.value ==> table[f].ref > 0
    ensures r.Some? && table[r.value].ref > 0 ==> Find(table, k, 0) == r
    ensures r.None? || table[r.value].ref == 0 ==> Find(table, k, 0) == None && FindFree(table, 0) == r
  {
    FindMeaning(table, k, 0);
    FindFreeMeaning(table, 0);
  }

  method GetStep(tb: Table, calls: map<nat, Call>, t: nat, k: Key) returns (out: Out)
    requires tb.Valid() && k in tb.disk
    modifies tb
    ensures (Snap(tb, calls).(halted := out.Panic?), out) == Getting(old(Snap(tb, calls)), t, k) && tb.Valid()
  {
    hide Find, FindFree, EntryOk, Unique;
    var r := tb.IGet(t, k);
    Picked(old(tb.table), k, r);
    out := if r.Some? then Got(r.value) else Panic;
  }

  method TurnStep(tb: Table, calls: map<nat, Call>, t: nat) returns (out: Out, calls': map<nat, Call>)
    requires Ok(Snap(tb, calls)) && Can(Snap(tb, calls), Turn(t))
    modifies tb
    ensures (Snap(tb, calls').(halted := out.Panic?), out) == Step(old(Snap(tb, calls)), Turn(t)) && tb.Valid()
  {
    hide TableOk, Getting;
    match calls[t] {
      case Scan(dev, kind, i, n) =>
        if i >= n { return NoInodes, calls - {t}; }
        var claimed := tb.Examine((dev, i), kind);
        if claimed {
          return Claimed((dev, i)), calls[t := Take((dev, i))];
        } else {
          return Passed((dev, i)), calls[t := Scan(dev, kind, i + 1, n)];
        }
      case Take(k) =>
        calls' := calls - {t};
        out := GetStep(tb, calls', t, k);
    }
  }

  // ilock(), the changes made under it, and iunlock().
  method LockedStep(tb: Table, calls: map<nat, Call>, ev: Event) returns (out: Out)
    requires tb.Valid() && Can(Snap(tb, calls), ev)
    requires ev.Idup? || ev.Lock? || ev.Load? || ev.Change? || ev.Iupdate? || ev.Iunlock?
    modifies tb
    ensures out == Step(old(Snap(tb, calls)), ev).1
    ensures !out.Panic? ==> Snap(tb, calls) == Step(old(Snap(tb, calls)), ev).0 && tb.Valid()
    ensures out.Panic? <==> Step(old(Snap(tb, calls)), ev).0.halted
  {
    hide EntryOk, Unique, Getting;
    out := Done;
    match ev {
      case Idup(t, e, t') => tb.IDup(t, e, t');
      case Lock(t, e) => tb.LockEntry(t, e);
      case Load(t, e) =>
        var ok := tb.Load(t, e);
        out := if ok then Loaded(tb.table[e].copy) else Panic;
      case Change(t, e, d) => tb.Change(t, e, d);
      case Iupdate(t, e) => tb.IUpdate(t, e);
      case Iunlock(t, e) => tb.IUnlock(t, e);
    }
  }

  // The first locked stretch of iput().
  method PutStep(tb: Table, calls: map<nat, Call>, t: nat, e: nat) returns (out: Out)
    requires tb.Valid() && Can(Snap(tb, calls), Iput(t, e))
    modifies tb
    ensures (Snap(tb, calls), out) == Step(old(Snap(tb, calls)), Iput(t, e)) && tb.Valid()
  {
    hide EntryOk, Unique, Getting;
    var freeing := tb.PutStart(t, e);
    out := if freeing then Freeing else Dropped;
  }

  // Its last one, after it has freed the inode.
  method LastStep(tb: Table, calls: map<nat, Call>, t: nat, e: nat)
    requires tb.Valid() && Can(Snap(tb, calls), Finish(t, e))
    modifies tb
    ensures (Snap(tb, calls), Dropped) == Step(old(Snap(tb, calls)), Finish(t, e)) && tb.Valid()
  {
    assert EntryOk(tb.table[e], tb.holders[e], tb.stage[e], tb.clean[e], tb.disk);
    hide EntryOk, Unique, Getting;
    tb.Release(t, e);
  }

  // The steps of iput() between them.
  method FreeStep(tb: Table, calls: map<nat, Call>, ev: Event)
    requires tb.Valid() && Can(Snap(tb, calls), ev) && (ev.Itrunc? || ev.Erase? || ev.Invalidate? || ev.Unlock?)
    modifies tb
    ensures (Snap(tb, calls), Done) == Step(old(Snap(tb, calls)), ev) && tb.Valid()
  {
    hide EntryOk, Unique, Getting;
    match ev {
      case Itrunc(t, e, d) => tb.PutTrunc(t, e, d);
      case Erase(t, e) => tb.PutErase(t, e);
      case Invalidate(t, e) => tb.PutInvalidate(t, e);
      case Unlock(t, e) => tb.PutUnlock(t, e);
    }
  }

  // One event on the real table, of which nothing is said after a panic.
  method Perform(tb: Table, calls: map<nat, Call>, ev: Event) returns (out: Out, calls': map<nat, Call>)
    requires Ok(Snap(tb, calls))
    modifies tb
    ensures var (b, o) := Step(old(Snap(tb, calls)), ev);
            out == o && (out.Panic? <==> b.halted) && (!out.Panic? ==> Snap(tb, calls') == b)
  {
    calls' := calls;
    if !Can(Snap(tb, calls), ev) { return Refused, calls; }
    hide EntryOk, Unique, Getting;
    match ev {
      case Ialloc(t, dev, kind, n) => out, calls' := Done, calls[t := Scan(dev, kind, 1, n)];
      case Turn(t) => out, calls' := TurnStep(tb, calls, t);
      case Iget(t, k) => out := GetStep(tb, calls, t, k);
      case Iput(t, e) => out := PutStep(tb, calls, t, e);
      case Finish(t, e) => LastStep(tb, calls, t, e); out := Dropped;
      case Itrunc(_, _, _) => FreeStep(tb, calls, ev); out := Done;
      case Erase(_, _) => FreeStep(tb, calls, ev); out := Done;
      case Invalidate(_, _) => FreeStep(tb, calls, ev); out := Done;
      case Unlock(_, _) => FreeStep(tb, calls, ev); out := Done;
      case _ => out := LockedStep(tb, calls, ev);
    }
  }

  // The real table is in the state before event i, unless a panic stopped it.
  ghost predicate Follows(tb: Table, s: State, script: seq<Event>, i: nat, calls: map<nat, Call>, halted: bool)
    requires Sized(s) && i <= |script|
    reads tb
  {
    var a := After(s, script, i);
    Ok(a) && (halted <==> a.halted) && (!halted ==> Snap(tb, calls) == a)
  }

  method Advance(tb: Table, ghost s: State, script: seq<Event>, i: nat, calls: map<nat, Call>, halted: bool)
    returns (out: Out, calls': map<nat, Call>, halted': bool)
    requires Sized(s) && i < |script| && Follows(tb, s, script, i, calls, halted)
    modifies tb
    ensures out == Answer(s, script, i) && Follows(tb, s, script, i + 1, calls', halted')
  {
    hide Step, Ok, Can, After, Answer, TableOk;
    Onward(s, script, i);
    StepOk(After(s, script, i), script[i]);
    if halted {
      HaltedStep(After(s, script, i), script[i]);
      return Refused, calls, true;
    }
    out, calls' := Perform(tb, calls, script[i]);
    halted' := out.Panic?;
  }

  // Every run of the real table, up to a panic, is a run of the machine above.
  method Run(tb: Table, script: seq<Event>) returns (outs: seq<Out>, calls: map<nat, Call>, halted: bool)
    requires tb.Valid()
    modifies tb
    ensures |outs| == |script| && forall i :: 0 <= i < |script| ==> outs[i] == Answer(old(Snap(tb, map[])), script, i)
    ensures Follows(tb, old(Snap(tb, map[])), script, |script|, calls, halted)
  {
    hide Ok, After, Answer, TableOk, Step, Follows, Can;
    ghost var s := Snap(tb, map[]);
    StartFollows(tb, script);
    outs, calls, halted := [], map[], false;
    while |outs| < |script|
      invariant |outs| <= |script| && forall i :: 0 <= i < |outs| ==> outs[i] == Answer(s, script, i)
      invariant Follows(tb, s, script, |outs|, calls, halted)
    {
      var out;
      out, calls, halted := Advance(tb, s, script, |outs|, calls, halted);
      outs := outs + [out];
    }
  }

  lemma StartFollows(tb: Table, script: seq<Event>)
    requires tb.Valid()
    ensures Sized(Snap(tb, map[])) && Follows(tb, Snap(tb, map[]), script, 0, map[], false)
  {
    hide Step, EntryOk, Unique;
  }

  lemma Onward(s: State, script: seq<Event>, i: nat)
    requires Sized(s) && i < |script|
    ensures (After(s, script, i + 1), Answer(s, script, i)) == Step(After(s, script, i), script[i])
  {}

  lemma HaltedStep(s: State, ev: Event)
    requires Sized(s) && s.halted
    ensures Step(s, ev) == (s, Refused)
  {}
}
