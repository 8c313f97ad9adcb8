/**
 Many processes, group commit and crashes (kernel/log.c, kernel/bio.c, kernel/fs.c:56).

 File system calls of several processes run at the same time: each may hold any number of buffers, waits for
 a buffer that another holds, and shares one transaction with the others. The process that commits works in
 turns, and between them processes outside any operation go on reading. `Step` is the machine they believe
 in: blocks behind locks, and a store of which a crash keeps what the last header write saved. `Run` performs
 any sequence of events on the real cache and log, through any number of crashes at any point of a commit and
 in the middle of a recovery, and is proved to answer exactly as that machine.
 */
module LogGroup {
  import opened Wrappers
  import opened Disk
  import opened Crash
  import opened Bio
  import opened Log

  // Who has a block's buffer, and whether a change of it has not been logged yet.
  datatype Own = Own(p: nat, dirty: bool)

  // What a commit is about.
  datatype Phase =
    | Logging(tail: nat)       // write_log
    | Heading                  // write_head: the transaction counts from here on
    | Installing(tail: nat)    // install_trans
    | Clearing                 // write_head with no block
    | Leaving                  // committing = 0

  // The process that commits, the log block whose buffer it has, and whether it has asked for the buffer of the logged
  // block of its turn.
  datatype Com = Com(p: nat, phase: Phase, area: Option<nat>, asked: bool)

  // The processes: inside begin_op .. end_op, holding buffers, waiting for one, committing.
  datatype Client = Client(ops: set<nat>, held: map<nat, Own>, waiting: map<nat, nat>, commit: Option<Com>)

  const NOBODY := Client({}, map[], map[], None)

  datatype Event =
    | Begin(p: nat)                       // begin_op
    | End(p: nat)                         // end_op, up to the release of log.lock; the last to leave commits
    | Turn                                // the committing process goes on: bread, or copy, bwrite and brelse
    | Bread(p: nat, b: nat)
    | Wake(p: nat)                        // a waiting process gets the buffer's lock
    | Fill(p: nat, b: nat, d: Block)      // the holder changes the buffer
    | LogWrite(p: nat, b: nat)
    | Brelse(p: nat, b: nat)
    | Crash(cuts: seq<nat>)               // then again during recoveries, after so many of their writes

  // Refused: the process is not at that point, or sleeps.
  datatype Out = Refused | Done | Waits | Got(d: Block) | Panic | Rebooted

  // `saved` is what a crash leaves; lh lists the blocks that differ from it, or that a commit has yet to install.
  datatype Ideal = Ideal(c: Client, store: Image, saved: Image, data: map<nat, Block>, lh: seq<int>, halted: bool)

  // ----- The processes -----

  // The process can act: it does not sleep and is not inside commit.
  predicate Free(c: Client, p: nat) { p !in c.waiting && (c.commit.None? || c.commit.value.p != p) }

  predicate Holds(c: Client, p: nat, b: nat) { Free(c, p) && b in c.held && c.held[b].p == p }

  predicate Can(c: Client, lh: seq<int>, l: Layout, disk: Image, ev: Event) {
    match ev
    case Begin(p) => Free(c, p) && p !in c.ops && c.commit.None? && |lh| + (|c.ops| + 1) * MAXOPBLOCKS <= LOGSIZE
    case End(p) => Free(c, p) && p in c.ops
    case Turn => c.commit.Some? && c.commit.value.p !in c.waiting
    case Bread(p, b) => Free(c, p) && l.Home(disk, b)
    case Wake(p) => p in c.waiting && c.waiting[p] !in c.held
    case Fill(p, b, _) => Holds(c, p, b)
    case LogWrite(p, b) => Holds(c, p, b)
    case Brelse(p, b) => Holds(c, p, b) && !c.held[b].dirty
    case Crash(_) => true
  }

  // write_log and install_trans copy one logged block a turn.
  predicate Copies(ph: Phase) { ph.Logging? || ph.Installing? }

  predicate PhaseOk(ph: Phase, lh: seq<int>) {
    match ph
    case Logging(tail) => tail < |lh|
    case Installing(tail) => tail < |lh|
    case Leaving => lh == []
    case _ => lh != []
  }

  function NextPhase(ph: Phase, lh: seq<int>): (r: Phase) {
    match ph
    case Logging(tail) => if tail + 1 < |lh| then Logging(tail + 1) else Heading
    case Heading => Installing(0)
    case Installing(tail) => if tail + 1 < |lh| then Installing(tail + 1) else Clearing
    case _ => Leaving
  }

  // The block of the log area that a turn works on, and the logged block.
  function AreaBlock(l: Layout, ph: Phase): (r: nat) { if Copies(ph) then l.start + 1 + ph.tail else l.start }

  function Subject(ph: Phase, lh: seq<int>): (r: nat) {
    if Copies(ph) && ph.tail < |lh| && lh[ph.tail] >= 0 then lh[ph.tail] else 0
  }

  function WithCom(c: Client, m: Com): (r: Client) { c.(commit := Some(m)) }

  function Ended(c: Client, lh: seq<int>, p: nat): (r: Client) {
    c.(ops := c.ops - {p},
       commit := if c.ops == {p} then Some(Com(p, if lh == [] then Leaving else Logging(0), None, false)) else c.commit)
  }

  // A turn is over: its buffers are released.
  function Finished(c: Client, lh: seq<int>): (r: Client)
    requires c.commit.Some?
  {
    var m := c.commit.value;
    c.(held := if Copies(m.phase) then c.held - {Subject(m.phase, lh)} else c.held,
       commit := Some(Com(m.p, NextPhase(m.phase, lh), None, false)))
  }

  function Asking(c: Client, p: nat, b: nat): (r: Client) {
    if b in c.held then c.(waiting := c.waiting[p := b]) else c.(held := c.held[b := Own(p, false)])
  }

  function Turning(c: Client, lh: seq<int>, l: Layout): (r: Client)
    requires c.commit.Some?
  {
    var m := c.commit.value;
    if m.phase.Leaving? then c.(commit := None)
    else if m.area.None? then WithCom(c, m.(area := Some(AreaBlock(l, m.phase))))
    else if Copies(m.phase) && !m.asked then Asking(WithCom(c, m.(asked := true)), m.p, Subject(m.phase, lh))
    else Finished(c, lh)
  }

  // The processes after an event that is neither refused nor a panic.
  function Next(c: Client, lh: seq<int>, l: Layout, ev: Event): (r: Client) {
    match ev
    case Begin(p) => c.(ops := c.ops + {p})
    case End(p) => Ended(c, lh, p)
    case Turn => if c.commit.Some? then Turning(c, lh, l) else c
    case Bread(p, b) => Asking(c, p, b)
    case Wake(p) =>
      if p in c.waiting then c.(waiting := c.waiting - {p}, held := c.held[c.waiting[p] := Own(p, false)]) else c
    case Fill(p, b, _) => c.(held := c.held[b := Own(p, true)])
    case LogWrite(p, b) => c.(held := c.held[b := Own(p, false)])
    case Brelse(_, b) => c.(held := c.held - {b})
    case Crash(_) => NOBODY
  }

  // The logged blocks whose buffers are pinned: install_trans lets go of them one by one.
  function Pins(c: Client, lh: seq<int>): (r: seq<int>) {
    if c.commit.None? then lh
    else match c.commit.value.phase
      case Installing(tail) => if tail <= |lh| then lh[tail..] else []
      case Clearing => []
      case _ => lh
  }

  function Area(c: Client): (r: Option<nat>) { if c.commit.Some? then c.commit.value.area else None }

  // The blocks whose buffers are in use.
  ghost function Busy(c: Client, pins: seq<int>): (r: set<int>) {
    Elems(pins) + (set b | b in c.held :: b as int) + (set p | p in c.waiting :: c.waiting[p] as int)
    + if Area(c).Some? then {Area(c).value as int} else {}
  }

  ghost predicate Crowded(c: Client, pins: seq<int>, b: nat) {
    b !in Busy(c, pins) && |Busy(c, pins)| >= NBUF
  }

  // ----- The machine -----

  ghost predicate Sized(s: Ideal) {
    && s.data.Keys == s.c.held.Keys && |s.store| == |s.saved| && (forall b :: b in s.c.held ==> b < |s.store|)
    && (forall p :: p in s.c.waiting ==> s.c.waiting[p] < |s.store|)
    && (forall i :: 0 <= i < |s.lh| ==> 0 <= s.lh[i] < |s.store|)
    && (s.c.commit.Some? ==> s.c.ops == {} && PhaseOk(s.c.commit.value.phase, s.lh))
  }

  // Block b has an owner and contents of its own.
  ghost function Owned(s: Ideal, b: nat, own: Own, d: Block): (r: Ideal)
    requires Sized(s) && b < |s.store|
    ensures Sized(r)
  {
    s.(c := s.c.(held := s.c.held[b := own]), data := s.data[b := d])
  }

  ghost function Freed(s: Ideal, b: nat): (r: Ideal)
    requires Sized(s)
    ensures Sized(r)
  {
    s.(c := s.c.(held := s.c.held - {b}), data := s.data - {b})
  }

  ghost function Logged(s: Ideal, p: nat, b: nat): (r: Ideal)
    requires Sized(s) && b in s.c.held && s.c.commit.None?
    ensures Sized(r)
  {
    s.(c := s.c.(held := s.c.held[b := Own(p, false)]), store := s.store[b := s.data[b]],
       lh := if b in s.lh then s.lh else s.lh + [b])
  }

  ghost function Waiting(s: Ideal, p: nat, b: nat): (r: Ideal)
    requires Sized(s) && b in s.c.held
    ensures Sized(r)
  {
    s.(c := s.c.(waiting := s.c.waiting[p := b]))
  }

  ghost function Woken(s: Ideal, p: nat): (r: Ideal)
    requires Sized(s) && p in s.c.waiting
    ensures Sized(r)
  {
    var b := s.c.waiting[p];
    Owned(s.(c := s.c.(waiting := s.c.waiting - {p})), b, Own(p, false), s.store[b])
  }

  ghost function Reading(s: Ideal, p: nat, b: nat): (r: (Ideal, Out))
    requires Sized(s) && b < |s.store|
    ensures Sized(r.0)
  {
    if b in s.c.held then (Waiting(s, p, b), Waits)
    else if Crowded(s.c, Pins(s.c, s.lh), b) then (s.(halted := true), Panic)
    else (Owned(s, b, Own(p, false), s.store[b]), Got(s.store[b]))
  }

  // The end of a turn: the header write saves the store, the last one empties the log.
  ghost function Over(s: Ideal): (r: Ideal)
    requires Sized(s) && s.c.commit.Some? && !s.c.commit.value.phase.Leaving?
    ensures Sized(r)
  {
    var ph := s.c.commit.value.phase;
    s.(c := Finished(s.c, s.lh),
       data := if Copies(ph) then s.data - {Subject(ph, s.lh)} else s.data,
       saved := if ph.Heading? then s.store else s.saved, lh := if ph.Clearing? then [] else s.lh)
  }

  ghost function Turned(s: Ideal, l: Layout): (r: (Ideal, Out))
    requires Sized(s) && s.c.commit.Some?
    ensures Sized(r.0)
  {
    var m := s.c.commit.value;
    if m.phase.Leaving? then (s.(c := s.c.(commit := None)), Done)
    else if m.area.None? then
      var a := AreaBlock(l, m.phase);
      if Crowded(s.c, Pins(s.c, s.lh), a) then (s.(halted := true), Panic)
      else (s.(c := WithCom(s.c, m.(area := Some(a)))), Done)
    else if Copies(m.phase) && !m.asked then
      Reading(s.(c := WithCom(s.c, m.(asked := true))), m.p, Subject(m.phase, s.lh))
    else (Over(s), Done)
  }

  ghost function Step(s: Ideal, l: Layout, ev: Event): (r: (Ideal, Out))
    requires Sized(s)
    ensures Sized(r.0)
  {
    if ev.Crash? then (Booted(s.saved), Rebooted)
    else if s.halted || !Can(s.c, s.lh, l, s.store, ev) then (s, Refused) else
    match ev
    case Begin(p) => (s.(c := s.c.(ops := s.c.ops + {p})), Done)
    case End(p) => (s.(c := Ended(s.c, s.lh, p)), Done)
    case Turn => Turned(s, l)
    case Bread(p, b) => Reading(s, p, b)
    case Wake(p) => (Woken(s, p), Got(s.store[s.c.waiting[p]]))
    case Fill(p, b, d) => (Owned(s, b, Own(p, true), d), Done)
    case LogWrite(p, b) =>
      if |s.lh| >= LOGSIZE || |s.lh| >= l.size - 1 || s.c.ops == {} then (s.(halted := true), Panic)
      else (Logged(s, p, b), Done)
    case Brelse(_, b) => (Freed(s, b), Done)
  }

  // The machine after a boot on a disk from which recovery rebuilds t.
  ghost function Booted(t: Image): (r: Ideal)
    ensures Sized(r)
  {
    Ideal(NOBODY, t, t, map[], [], false)
  }

  ghost function After(s: Ideal, l: Layout, script: seq<Event>, i: nat): (r: Ideal)
    requires Sized(s) && i <= |script|
    ensures Sized(r)
  {
    if i == 0 then s else Step(After(s, l, script, i - 1), l, script[i - 1]).0
  }

  ghost function Answer(s: Ideal, l: Layout, script: seq<Event>, i: nat): (r: Out)
    requires Sized(s) && i < |script|
  {
    Step(After(s, l, script, i), l, script[i]).1
  }

  // ----- What the machine promises -----

  // A moment at which no operation is under way and everything is saved.
  ghost predicate AtRest(s: Ideal) { s.c.ops == {} && s.saved == s.store }

  lemma SavedStep(s: Ideal, l: Layout, ev: Event)
    requires Sized(s)
    ensures var b := Step(s, l, ev).0; b.saved == s.saved || (s.c.ops == {} && b.saved == s.store)
  {
    hide Busy;
  }

  // What a crash restores is the store as it was at some moment since m, when no operation was under way: it
  // undoes whole operations only, and none of those that were saved at m.
  lemma {:induction false} CrashUndoesWholeOperations(s: Ideal, l: Layout, script: seq<Event>, m: nat, i: nat)
    returns (j: nat)
    requires Sized(s) && m <= i <= |script| && AtRest(After(s, l, script, m))
    ensures m <= j <= i && After(s, l, script, j).c.ops == {}
            && After(s, l, script, i).saved == After(s, l, script, j).store
  {
    hide Step;
    if i == m { return i; }
    var a := After(s, l, script, i - 1);
    SavedStep(a, l, script[i - 1]);
    j := CrashUndoesWholeOperations(s, l, script, m, i - 1);
    if After(s, l, script, i).saved != a.saved { j := i - 1; }
  }

  // The header write of a commit, or a reboot, is such a moment.
  lemma HeaderIsDurable(s: Ideal, l: Layout, ev: Event)
    requires Sized(s)
    requires
      || ev.Crash?
      || (ev.Turn? && !s.halted && Can(s.c, s.lh, l, s.store, ev) && s.c.commit.value.phase.Heading?
          && s.c.commit.value.area.Some?)
    ensures AtRest(Step(s, l, ev).0)
  {}

  // The store changes with log_write and with a crash, and with no step of a commit.
  lemma StoreStep(s: Ideal, l: Layout, ev: Event, b: nat)
    requires Sized(s) && b < |s.store| && !ev.Crash? && !(ev.LogWrite? && ev.b == b)
    ensures var s' := Step(s, l, ev).0; |s'.store| == |s.store| && s'.store[b] == s.store[b]
  {
    hide Busy, Pins;
  }

  // So reads give the last logged contents, commit or not: Bread and Wake answer with the store.
  lemma {:induction false} StoreKept(s: Ideal, l: Layout, script: seq<Event>, i: nat, j: nat, b: nat)
    requires Sized(s) && i <= j <= |script| && b < |After(s, l, script, i).store|
    requires forall m :: i <= m < j ==> !script[m].Crash? && !(script[m].LogWrite? && script[m].b == b)
    ensures b < |After(s, l, script, j).store| && After(s, l, script, j).store[b] == After(s, l, script, i).store[b]
  {
    hide Step;
    if i < j {
      StoreKept(s, l, script, i, j - 1, b);
      StoreStep(After(s, l, script, j - 1), l, script[j - 1], b);
    }
  }

  // A turn of commit panics exactly when it needs a buffer for a log block and NBUF other blocks are busy.
  lemma TurnPanicsExactlyWhen(s: Ideal, l: Layout)
    requires Clean(s, l) && !s.halted && Can(s.c, s.lh, l, s.store, Turn)
    ensures var m := s.c.commit.value;
            Step(s, l, Turn).1.Panic? <==>
              !m.phase.Leaving? && m.area.None? && Crowded(s.c, Pins(s.c, s.lh), AreaBlock(l, m.phase))
  {
    hide Busy;
    if Copies(s.c.commit.value.phase) { SubjectIsBusy(s); }
  }

  lemma SubjectIsBusy(s: Ideal)
    requires Sized(s) && s.c.commit.Some? && Copies(s.c.commit.value.phase)
    ensures var m := s.c.commit.value; var b := Subject(m.phase, s.lh);
            b < |s.store| && !Crowded(WithCom(s.c, m.(asked := true)), Pins(s.c, s.lh), b)
  {
    var m := s.c.commit.value;
    var pins := Pins(s.c, s.lh);
    assert m.phase.Installing? ==> pins[0] == s.lh[m.phase.tail];
    assert Subject(m.phase, s.lh) in Elems(pins);
  }

  // Alone, a commit finds a buffer exactly when fewer than NBUF blocks are pinned.
  lemma CrowdedAlone(c: Client, pins: seq<int>, a: nat)
    requires c.held == map[] && c.waiting == map[] && Area(c).None? && a !in pins && Distinct(pins)
    ensures Crowded(c, pins, a) <==> |pins| >= NBUF
  {
    ElemsSize(pins);
    assert Busy(c, pins) == Elems(pins);
  }

  // A reader outside any operation that has one more block makes the same commit panic with one block fewer.
  lemma ReaderStopsCommit(c: Client, pins: seq<int>, a: nat, b: nat, p: nat)
    requires c.held == map[b := Own(p, false)] && c.waiting == map[] && Area(c).None? && Distinct(pins)
    requires a !in pins && b !in pins && a != b && |pins| == NBUF - 1
    ensures Crowded(c, pins, a)
  {
    ElemsSize(pins);
    assert b in c.held && forall x :: x in c.held ==> x == b;
    assert Busy(c, pins) == Elems(pins) + {b as int};
  }

  // ----- What the machine keeps -----

  // The committing process has the buffers that its turn is about, or waits for the logged block's.
  ghost predicate CommitterOk(c: Client, lh: seq<int>, l: Layout)
    requires c.commit.Some?
  {
    var m := c.commit.value;
    && (m.area.Some? ==> m.area.value == AreaBlock(l, m.phase) && !m.phase.Leaving?)
    && (m.asked ==> m.area.Some? && Copies(m.phase))
    && (m.p in c.waiting ==> m.asked && c.waiting[m.p] == Subject(m.phase, lh))
    && (m.asked && m.p !in c.waiting ==>
          Subject(m.phase, lh) in c.held && c.held[Subject(m.phase, lh)] == Own(m.p, false))
  }

  // Only home blocks are read and logged, and a clean buffer has the store's contents.
  ghost predicate BlocksOk(s: Ideal, l: Layout)
    requires Sized(s)
  {
    && (forall b :: b in s.c.held ==> l.Home(s.store, b) && (!s.c.held[b].dirty ==> s.data[b] == s.store[b]))
    && (forall p :: p in s.c.waiting ==> l.Home(s.store, s.c.waiting[p]))
    && (forall i :: 0 <= i < |s.lh| ==> l.Home(s.store, s.lh[i]))
  }

  // Once the header is written nothing is unsaved.
  ghost predicate SavedOk(s: Ideal) {
    s.c.commit.Some? && (s.c.commit.value.phase.Installing? || s.c.commit.value.phase.Clearing?) ==> s.saved == s.store
  }

  ghost predicate Clean(s: Ideal, l: Layout) {
    Sized(s) && BlocksOk(s, l) && SavedOk(s) && (s.c.commit.Some? ==> CommitterOk(s.c, s.lh, l))
  }

  lemma ReadingBlocks(s: Ideal, l: Layout, p: nat, b: nat)
    requires Sized(s) && BlocksOk(s, l) && l.Home(s.store, b)
    ensures BlocksOk(Reading(s, p, b).0, l)
  {
    hide Crowded, Pins;
  }

  lemma ReadingClean(s: Ideal, l: Layout, p: nat, b: nat)
    requires Clean(s, l) && Free(s.c, p) && l.Home(s.store, b)
    ensures Clean(Reading(s, p, b).0, l)
  {
    hide Crowded, Pins, BlocksOk, CommitterOk;
    ReadingBlocks(s, l, p, b);
    if s.c.commit.Some? { CommitterStays(s.c, Reading(s, p, b).0.c, s.lh, l); }
  }

  // The committing process goes on as before when others take blocks that are free, or wait.
  lemma CommitterStays(c: Client, c': Client, lh: seq<int>, l: Layout)
    requires c.commit.Some? && c'.commit == c.commit && CommitterOk(c, lh, l)
    requires var p := c.commit.value.p;
             && (p in c'.waiting <==> p in c.waiting) && (p in c.waiting ==> c'.waiting[p] == c.waiting[p])
    requires forall b :: b in c.held && c.held[b].p == c.commit.value.p ==> b in c'.held && c'.held[b] == c.held[b]
    ensures CommitterOk(c', lh, l)
  {}

  lemma AskedClean(s: Ideal, l: Layout)
    requires Clean(s, l) && s.c.commit.Some? && s.c.commit.value.p !in s.c.waiting
    requires var m := s.c.commit.value; m.area.Some? && Copies(m.phase) && !m.asked
    ensures Clean(Turned(s, l).0, l)
  {
    SubjectIsBusy(s);
    var m := s.c.commit.value;
    var s1, b := s.(c := WithCom(s.c, m.(asked := true))), Subject(m.phase, s.lh);
    assert l.Home(s.store, s.lh[m.phase.tail]) && BlocksOk(s1, l) && Pins(s1.c, s.lh) == Pins(s.c, s.lh);
    ReadingBlocks(s1, l, m.p, b);
    hide Crowded, BlocksOk, Pins, Subject, AreaBlock;
  }

  lemma OverClean(s: Ideal, l: Layout)
    requires Clean(s, l) && s.c.commit.Some? && s.c.commit.value.p !in s.c.waiting
    requires !s.c.commit.value.phase.Leaving?
    ensures Clean(Over(s), l)
  {}

  lemma TurnedClean(s: Ideal, l: Layout)
    requires Clean(s, l) && s.c.commit.Some? && s.c.commit.value.p !in s.c.waiting
    ensures Clean(Turned(s, l).0, l)
  {
    hide Crowded, Over, Reading;
    var m := s.c.commit.value;
    if !m.phase.Leaving? && m.area.Some? {
      if Copies(m.phase) && !m.asked { AskedClean(s, l); } else { OverClean(s, l); }
    }
  }

  lemma EndedClean(s: Ideal, l: Layout, p: nat)
    requires Clean(s, l) && Free(s.c, p) && p in s.c.ops
    ensures Clean(s.(c := Ended(s.c, s.lh, p)), l)
  {}

  lemma HolderBlocks(s: Ideal, l: Layout, ev: Event)
    requires Clean(s, l) && !s.halted && Can(s.c, s.lh, l, s.store, ev)
    requires ev.Fill? || ev.LogWrite? || ev.Brelse? || ev.Wake?
    ensures BlocksOk(Step(s, l, ev).0, l)
  {
    hide Busy, CommitterOk;
  }

  lemma HolderClean(s: Ideal, l: Layout, ev: Event)
    requires Clean(s, l) && !s.halted && Can(s.c, s.lh, l, s.store, ev)
    requires ev.Fill? || ev.LogWrite? || ev.Brelse?
    ensures Clean(Step(s, l, ev).0, l)
  {
    HolderBlocks(s, l, ev);
    hide Busy, BlocksOk, CommitterOk, Turned, Reading;
    if s.c.commit.Some? { CommitterStays(s.c, Step(s, l, ev).0.c, s.lh, l); }
  }

  lemma WakeClean(s: Ideal, l: Layout, p: nat)
    requires Clean(s, l) && !s.halted && Can(s.c, s.lh, l, s.store, Wake(p))
    ensures Clean(Step(s, l, Wake(p)).0, l)
  {
    HolderBlocks(s, l, Wake(p));
    hide Busy, BlocksOk, Turned, Reading;
  }

  lemma StepClean(s: Ideal, l: Layout, ev: Event)
    requires Clean(s, l)
    ensures Clean(Step(s, l, ev).0, l)
  {
    assert Sized(s);
    hide Clean, Turned, Reading, Ended;
    if ev.Crash? {
      BootedClean(s.saved, l);
    } else if !s.halted && Can(s.c, s.lh, l, s.store, ev) {
      match ev
      case Begin(p) => BegunClean(s, l, p);
      case End(p) => EndedClean(s, l, p);
      case Turn => TurnedClean(s, l);
      case Bread(p, b) => ReadingClean(s, l, p, b);
      case Wake(p) => WakeClean(s, l, p);
      case _ => HolderClean(s, l, ev);
    }
  }

  lemma BootedClean(t: Image, l: Layout)
    ensures Clean(Booted(t), l)
  {}

  lemma BegunClean(s: Ideal, l: Layout, p: nat)
    requires Clean(s, l) && s.c.commit.None?
    ensures Clean(s.(c := s.c.(ops := s.c.ops + {p})), l)
  {}

  // ----- A commit that nobody disturbs -----

  ghost function Turns(s: Ideal, l: Layout, n: nat): (r: Ideal)
    requires Sized(s)
    ensures Sized(r)
    decreases n
  {
    if n == 0 then s else Turns(Step(s, l, Turn).0, l, n - 1)
  }

  // Nobody but the committing process uses a buffer.
  ghost predicate Alone(s: Ideal, l: Layout) {
    && Clean(s, l) && !s.halted && s.c.commit.Some? && s.c.waiting == map[]
    && var m := s.c.commit.value;
       s.c.held == if m.asked then map[Subject(m.phase, s.lh) := Own(m.p, false)] else map[]
  }

  // How many turns are left.
  function ToGo(m: Com, n: nat): (r: int) {
    if m.phase.Leaving? then 0
    else 3 * (2 * n + 2 - Writes(m.phase, n)) + if m.area.None? then 2 else if m.asked || !Copies(m.phase) then 0 else 1
  }

  lemma AloneIsNotCrowded(c: Client, pins: seq<int>, a: nat)
    requires c.held == map[] && c.waiting == map[] && Area(c).None? && |pins| < NBUF
    ensures !Crowded(c, pins, a)
  {
    ElemsSize(pins);
    assert Busy(c, pins) == Elems(pins);
  }

  lemma AloneTurn(s: Ideal, l: Layout)
    requires Alone(s, l) && |s.lh| < NBUF
    ensures var (s', out) := Step(s, l, Turn); var m := s.c.commit.value;
            && !out.Panic? && s'.store == s.store && |s'.lh| < NBUF
            && (if m.phase.Leaving? then s'.c.commit.None? && s'.saved == s.saved && !s'.halted
                else Alone(s', l) && 0 <= ToGo(s'.c.commit.value, |s'.lh|) < ToGo(m, |s.lh|))
            && (!m.phase.Leaving? && s'.c.commit.value.phase.Leaving? ==> s'.saved == s.store)
  {
    var m := s.c.commit.value;
    StepClean(s, l, Turn);
    if !m.phase.Leaving? && m.area.None? { AloneIsNotCrowded(s.c, Pins(s.c, s.lh), AreaBlock(l, m.phase)); }
    if Copies(m.phase) { SubjectIsBusy(s); }
    hide Busy, Crowded, BlocksOk, CommitterOk, Pins, Subject, AreaBlock;
  }

  // Undisturbed, a commit of fewer than NBUF blocks completes, and the store is saved.
  lemma {:induction false} AloneCompletes(s: Ideal, l: Layout) returns (n: nat)
    requires Alone(s, l) && |s.lh| < NBUF
    ensures var r := Turns(s, l, n);
            r.c.commit.None? && !r.halted && r.store == s.store
            && r.saved == if s.c.commit.value.phase.Leaving? then s.saved else s.store
    decreases ToGo(s.c.commit.value, |s.lh|)
  {
    hide Alone, Step, Clean;
    AloneTurn(s, l) by { assert Alone(s, l); }
    AloneSized(s, l);
    var s' := Step(s, l, Turn).0;
    if s.c.commit.value.phase.Leaving? {
      n := 1;
    } else {
      n := AloneCompletes(s', l);
      n := n + 1;
    }
  }

  lemma AloneSized(s: Ideal, l: Layout)
    requires Alone(s, l)
    ensures Sized(s) && s.c.commit.Some?
  {}

  // ----- Buffers shared by the processes -----

  ghost function Waiters(waiting: map<nat, nat>, b: nat): (r: set<nat>) {
    set p | p in waiting && waiting[p] == b
  }

  function One(c: bool): (r: nat) { if c then 1 else 0 }

  predicate Taken(c: Client, b: nat) { b in c.held || Area(c) == Some(b) }

  // A buffer is locked when a process has it, and referenced by the log, by that process and by those waiting.
  ghost predicate BufShared(f: Buf, c: Client, data: map<nat, Block>, pinned: set<int>) {
    f.dev == ROOTDEV ==>
      && (f.locked <==> Taken(c, f.blockno))
      && f.refcnt == One(f.blockno in pinned) + One(f.locked) + |Waiters(c.waiting, f.blockno)|
      && (f.blockno in c.held && f.blockno in data ==> f.data == data[f.blockno])
  }

  ghost predicate InUse(c: Client, b: nat) { Taken(c, b) || exists p :: p in c.waiting && c.waiting[p] == b }

  ghost predicate Shared(bufs: seq<Buf>, c: Client, data: map<nat, Block>, pinned: set<int>) {
    && (forall i :: 0 <= i < |bufs| ==> BufShared(bufs[i], c, data, pinned))
    && (forall b: nat :: InUse(c, b) ==> Cached(bufs, b))
  }

  lemma WaiterCounts(waiting: map<nat, nat>, b: nat)
    ensures |Waiters(waiting, b)| > 0 <==> exists p :: p in waiting && waiting[p] == b
  {
    if p :| p in waiting && waiting[p] == b { assert p in Waiters(waiting, b); }
    if |Waiters(waiting, b)| > 0 { var p :| p in Waiters(waiting, b); }
  }

  // A buffer is referenced exactly when its block is busy.
  lemma ReferencedIffBusy(f: Buf, c: Client, data: map<nat, Block>, pins: seq<int>)
    requires BufShared(f, c, data, Elems(pins)) && f.dev == ROOTDEV
    ensures f.refcnt > 0 <==> f.blockno in Busy(c, pins)
    ensures InUse(c, f.blockno) ==> f.refcnt > 0
  {
    WaiterCounts(c.waiting, f.blockno);
    if p :| p in c.waiting && c.waiting[p] == f.blockno { assert c.waiting[p] as int in Busy(c, pins); }
  }

  // bget finds neither the block nor an unused buffer exactly when NBUF other blocks are busy.
  lemma CrowdedIff(bufs: seq<Buf>, blocks: nat, c: Client, data: map<nat, Block>, pins: seq<int>, b: nat)
    requires TableOk(bufs, blocks) && Shared(bufs, c, data, Elems(pins))
    requires forall x :: x in Elems(pins) ==> Cached(bufs, x)
    ensures NotCached(bufs, b) && !Unused(bufs) <==> Crowded(c, pins, b)
  {
    forall i | 0 <= i < |bufs| && bufs[i].dev == ROOTDEV
      ensures bufs[i].refcnt > 0 <==> bufs[i].blockno in Busy(c, pins)
    {
      assert BufShared(bufs[i], c, data, Elems(pins));
      ReferencedIffBusy(bufs[i], c, data, pins);
    }
    forall x | x in Busy(c, pins) ensures x >= 0 && Cached(bufs, x) { BusyCached(bufs, c, data, pins, x); }
    if !Unused(bufs) {
      AllBusy(bufs, blocks, Busy(c, pins));
    } else {
      SomeFree(bufs, Busy(c, pins));
    }
  }

  lemma BusyCached(bufs: seq<Buf>, c: Client, data: map<nat, Block>, pins: seq<int>, x: int)
    requires Shared(bufs, c, data, Elems(pins)) && x in Busy(c, pins)
    requires forall b :: b in Elems(pins) ==> Cached(bufs, b)
    ensures x >= 0 && Cached(bufs, x)
  {
    if x !in Elems(pins) { assert x >= 0 && InUse(c, x); }
  }

  lemma AllBusy(bufs: seq<Buf>, blocks: nat, busy: set<int>)
    requires TableOk(bufs, blocks) && !Unused(bufs)
    requires forall i :: 0 <= i < |bufs| && bufs[i].dev == ROOTDEV && bufs[i].refcnt > 0 ==> bufs[i].blockno in busy
    ensures |busy| >= NBUF && forall i :: 0 <= i < |bufs| ==> bufs[i].dev == ROOTDEV && bufs[i].blockno in busy
  {
    var nos := BlockNos(bufs);
    forall i | 0 <= i < |bufs| ensures bufs[i].dev == ROOTDEV && nos[i] in busy { assert BufOk(bufs[i], blocks); }
    assert Distinct(nos);
    ElemsSize(nos);
    SubsetSize(Elems(nos), busy);
  }

  lemma SomeFree(bufs: seq<Buf>, busy: set<int>)
    requires |bufs| == NBUF && Unused(bufs) && forall x :: x in busy ==> Cached(bufs, x)
    requires forall i :: 0 <= i < |bufs| && bufs[i].dev == ROOTDEV && bufs[i].blockno in busy ==> bufs[i].refcnt > 0
    ensures |busy| < NBUF
  {
    var u :| 0 <= u < |bufs| && bufs[u].refcnt == 0;
    var nos := BlockNos(bufs)[..u] + BlockNos(bufs)[u + 1..];
    forall x | x in busy ensures x in Elems(nos) {
      assert Cached(bufs, x);
      var i :| 0 <= i < |bufs| && bufs[i].dev == ROOTDEV && bufs[i].blockno == x;
      assert nos[if i < u then i else i - 1] == x;
    }
    ElemsSize(nos);
    SubsetSize(busy, Elems(nos));
  }

  // Block x is used in the same way before and after.
  ghost predicate SameUse(c: Client, data: map<nat, Block>, L: set<int>, c': Client, data': map<nat, Block>,
                          L': set<int>, x: nat) {
    && (x in c.held <==> x in c'.held) && (Area(c) == Some(x) <==> Area(c') == Some(x))
    && (x in L <==> x in L') && Waiters(c.waiting, x) == Waiters(c'.waiting, x)
    && (x in data <==> x in data') && (x in data ==> data[x] == data'[x])
  }

  // One buffer, t, now serves block b; it did before, or it was unused.
  lemma Reshare(o: seq<Buf>, n: seq<Buf>, blocks: nat, c: Client, data: map<nat, Block>, L: set<int>,
                c': Client, data': map<nat, Block>, L': set<int>, t: nat, b: nat)
    requires Shared(o, c, data, L) && TableOk(o, blocks) && t < |o| == |n|
    requires forall i :: 0 <= i < |o| && i != t ==> n[i] == o[i]
    requires Caches(n[t], b) && (Caches(o[t], b) || (NotCached(o, b) && o[t].refcnt == 0))
    requires forall x: nat :: x != b ==> SameUse(c, data, L, c', data', L', x)
    requires BufShared(n[t], c', data', L')
    ensures Shared(n, c', data', L')
  {
    forall i | 0 <= i < |n| ensures BufShared(n[i], c', data', L') {
      if i != t && n[i].dev == ROOTDEV {
        assert BufShared(o[i], c, data, L) && n[i].blockno != b;
        assert SameUse(c, data, L, c', data', L', n[i].blockno);
      }
    }
    forall x: nat | InUse(c', x) ensures Cached(n, x) {
      if x == b {
        assert Caches(n[t], b);
      } else {
        UseCarries(c, data, L, c', data', L', x);
        assert Cached(o, x);
        var i :| 0 <= i < |o| && o[i].dev == ROOTDEV && o[i].blockno == x;
        assert BufShared(o[i], c, data, L);
        WaiterCounts(c.waiting, x);
        assert i != t;
        assert n[i].blockno == x;
      }
    }
  }

  lemma UseCarries(c: Client, data: map<nat, Block>, L: set<int>, c': Client, data': map<nat, Block>, L': set<int>,
                   x: nat)
    requires SameUse(c, data, L, c', data', L', x) && InUse(c', x)
    ensures InUse(c, x)
  {
    WaiterCounts(c.waiting, x);
    WaiterCounts(c'.waiting, x);
  }

  lemma OneWaiterMore(waiting: map<nat, nat>, p: nat, b: nat)
    requires p !in waiting
    ensures |Waiters(waiting[p := b], b)| == |Waiters(waiting, b)| + 1
    ensures forall x: nat :: x != b ==> Waiters(waiting[p := b], x) == Waiters(waiting, x)
  {
    assert Waiters(waiting[p := b], b) == Waiters(waiting, b) + {p};
  }

  lemma OneWaiterLess(waiting: map<nat, nat>, p: nat)
    requires p in waiting
    ensures |Waiters(waiting - {p}, waiting[p])| == |Waiters(waiting, waiting[p])| - 1
    ensures forall x: nat :: x != waiting[p] ==> Waiters(waiting - {p}, x) == Waiters(waiting, x)
  {
    assert Waiters(waiting, waiting[p]) == Waiters(waiting - {p}, waiting[p]) + {p};
  }

  // What bread does to the count of a block that nobody has.
  lemma ReadCount(o: seq<Buf>, n: seq<Buf>, disk: Image, c: Client, data: map<nat, Block>, L: set<int>, b: nat, t: nat)
    requires Shared(o, c, data, L) && BreadDid(o, n, disk, b, t) && !Taken(c, b)
    requires forall x :: x in L ==> Cached(o, x)
    ensures n[t].locked && n[t].refcnt == One(b in L) + 1 + |Waiters(c.waiting, b)| && Caches(n[t], b)
    ensures Caches(o[t], b) || (NotCached(o, b) && o[t].refcnt == 0)
  {
    assert BufShared(o[t], c, data, L);
    WaiterCounts(c.waiting, b);
    if NotCached(o, b) {
      assert !Cached(o, b);
      assert !InUse(c, b) && b !in L;
    }
  }

  lemma ReadShares(o: seq<Buf>, n: seq<Buf>, disk: Image, c: Client, data: map<nat, Block>, L: set<int>, p: nat,
                   b: nat, t: nat)
    requires Shared(o, c, data, L) && TableOk(o, |disk|) && BreadDid(o, n, disk, b, t) && !Taken(c, b)
    requires forall x :: x in L ==> Cached(o, x)
    ensures Shared(n, c.(held := c.held[b := Own(p, false)]), data[b := n[t].data], L)
  {
    ReadCount(o, n, disk, c, data, L, b, t);
    Reshare(o, n, |disk|, c, data, L, c.(held := c.held[b := Own(p, false)]), data[b := n[t].data], L, t, b);
  }

  lemma AreaShares(o: seq<Buf>, n: seq<Buf>, disk: Image, c: Client, data: map<nat, Block>, L: set<int>, a: nat, t: nat)
    requires Shared(o, c, data, L) && TableOk(o, |disk|) && BreadDid(o, n, disk, a, t) && c.commit.Some?
    requires Area(c).None? && a !in c.held && forall x :: x in L ==> Cached(o, x)
    ensures Shared(n, WithCom(c, c.commit.value.(area := Some(a))), data, L)
  {
    ReadCount(o, n, disk, c, data, L, a, t);
    Reshare(o, n, |disk|, c, data, L, WithCom(c, c.commit.value.(area := Some(a))), data, L, t, a);
  }

  lemma WaitShares(o: seq<Buf>, n: seq<Buf>, blocks: nat, c: Client, data: map<nat, Block>, L: set<int>, p: nat,
                   b: nat, t: nat)
    requires Shared(o, c, data, L) && TableOk(o, blocks) && t < |o| && Caches(o[t], b) && p !in c.waiting
    requires n == o[t := o[t].(refcnt := o[t].refcnt + 1)]
    ensures Shared(n, c.(waiting := c.waiting[p := b]), data, L)
  {
    OneWaiterMore(c.waiting, p, b);
    assert BufShared(o[t], c, data, L);
    Reshare(o, n, blocks, c, data, L, c.(waiting := c.waiting[p := b]), data, L, t, b);
  }

  lemma WakeShares(o: seq<Buf>, n: seq<Buf>, blocks: nat, c: Client, data: map<nat, Block>, L: set<int>, p: nat, t: nat)
    requires Shared(o, c, data, L) && TableOk(o, blocks) && p in c.waiting && !Taken(c, c.waiting[p])
    requires t < |o| && Caches(o[t], c.waiting[p]) && n == o[t := o[t].(locked := true)]
    ensures var b := c.waiting[p];
            Shared(n, c.(waiting := c.waiting - {p}, held := c.held[b := Own(p, false)]), data[b := o[t].data], L)
    ensures o[t].refcnt > One(c.waiting[p] in L) && !o[t].locked
  {
    var b := c.waiting[p];
    OneWaiterLess(c.waiting, p);
    assert BufShared(o[t], c, data, L);
    Reshare(o, n, blocks, c, data, L, c.(waiting := c.waiting - {p}, held := c.held[b := Own(p, false)]),
            data[b := o[t].data], L, t, b);
  }

  lemma FillShares(o: seq<Buf>, n: seq<Buf>, blocks: nat, c: Client, data: map<nat, Block>, L: set<int>, p: nat,
                   b: nat, d: Block, t: nat)
    requires Shared(o, c, data, L) && TableOk(o, blocks) && t < |o| && Caches(o[t], b) && b in c.held
    requires n == o[t := o[t].(data := d)]
    ensures Shared(n, c.(held := c.held[b := Own(p, true)]), data[b := d], L) && o[t].locked
  {
    assert BufShared(o[t], c, data, L);
    Reshare(o, n, blocks, c, data, L, c.(held := c.held[b := Own(p, true)]), data[b := d], L, t, b);
  }

  lemma LogShares(o: seq<Buf>, n: seq<Buf>, blocks: nat, c: Client, data: map<nat, Block>, L: set<int>, p: nat,
                  b: nat, t: nat)
    requires Shared(o, c, data, L) && TableOk(o, blocks) && t < |o| && Caches(o[t], b) && b in c.held
    requires n == o[t := o[t].(refcnt := o[t].refcnt + if b in L then 0 else 1)]
    ensures Shared(n, c.(held := c.held[b := Own(p, false)]), data, L + {b as int})
  {
    assert BufShared(o[t], c, data, L);
    Reshare(o, n, blocks, c, data, L, c.(held := c.held[b := Own(p, false)]), data, L + {b as int}, t, b);
  }

  // brelse, with or without bunpin before it.
  lemma ReleaseShares(o: seq<Buf>, n: seq<Buf>, blocks: nat, c: Client, data: map<nat, Block>, L: set<int>, b: nat,
                      t: nat, L': set<int>)
    requires Shared(o, c, data, L) && TableOk(o, blocks) && t < |o| == |n| && Caches(o[t], b) && b in c.held
    requires Area(c) != Some(b) && (L' == L || (b in L && L' == L - {b as int}))
    requires n[t].refcnt == o[t].refcnt - (if L' == L then 1 else 2)
    requires n == o[t := o[t].(refcnt := n[t].refcnt, locked := false, data := n[t].data)]
    ensures Shared(n, c.(held := c.held - {b}), data - {b}, L')
  {
    assert BufShared(o[t], c, data, L);
    Reshare(o, n, blocks, c, data, L, c.(held := c.held - {b}), data - {b}, L', t, b);
  }

  // The committing process is done with the log block.
  lemma AreaReleased(o: seq<Buf>, n: seq<Buf>, blocks: nat, c: Client, data: map<nat, Block>, L: set<int>, a: nat,
                     t: nat, m: Com)
    requires Shared(o, c, data, L) && TableOk(o, blocks) && t < |o| == |n| && Caches(o[t], a) && Area(c) == Some(a)
    requires a !in c.held && m.area.None? && n[t].refcnt == o[t].refcnt - 1
    requires n == o[t := o[t].(refcnt := n[t].refcnt, locked := false, data := n[t].data)]
    ensures Shared(n, WithCom(c, m), data, L)
  {
    assert BufShared(o[t], c, data, L);
    Reshare(o, n, blocks, c, data, L, WithCom(c, m), data, L, t, a);
  }

  lemma SharedSame(bufs: seq<Buf>, c: Client, c': Client, data: map<nat, Block>, L: set<int>)
    requires Shared(bufs, c, data, L) && c'.held == c.held && c'.waiting == c.waiting && Area(c') == Area(c)
    ensures Shared(bufs, c', data, L)
  {
    forall i | 0 <= i < |bufs| ensures BufShared(bufs[i], c', data, L) { assert BufShared(bufs[i], c, data, L); }
    forall b: nat | InUse(c', b) ensures Cached(bufs, b) { assert InUse(c, b); }
  }

  // ----- How far a commit has come on disk -----

  predicate Headed(ph: Phase) { ph.Installing? || ph.Clearing? }

  function Copied(ph: Phase, n: nat): (r: nat) { if ph.Logging? then ph.tail else n }

  function Writes(ph: Phase, n: nat): (r: nat) {
    match ph
    case Logging(tail) => tail
    case Heading => n
    case Installing(tail) => n + 1 + tail
    case Clearing => 2 * n + 1
    case Leaving => 2 * n + 2
  }

  predicate InImage(lh: seq<int>, store: Image) {
    |lh| <= LOGSIZE && forall i :: 0 <= i < |lh| ==> 0 <= lh[i] < |store|
  }

  // The block writes of the whole commit.
  function Want(head: Block, l: Layout, lh: seq<int>, store: Image): (r: seq<Write>)
    requires InImage(lh, store)
  {
    CommitTrace(head, l.start, lh, StoreData(store, lh))
  }

  lemma WantAt(head: Block, l: Layout, lh: seq<int>, store: Image, ph: Phase)
    requires InImage(lh, store) && PhaseOk(ph, lh) && !ph.Leaving?
    ensures var n, w := |lh|, Want(head, l, lh, store);
            && |w| == 2 * n + 2 && Writes(ph, n) < |w|
            && w[Writes(ph, n)] ==
               match ph
               case Logging(t) => Write(l.start + 1 + t, store[lh[t]])
               case Heading => Write(l.start, EncodeHead(head, lh))
               case Installing(t) => Write(lh[t], store[lh[t]])
               case Clearing => Write(l.start, EncodeHead(EncodeHead(head, lh), []))
  {
    hide EncodeHead;
  }

  // In the given phase of a commit of the blocks lh, that began with this header block on disk after `begun` writes.
  ghost predicate Progress(ph: Phase, l: Layout, disk: Image, trace: seq<Write>, begun: nat, head: Block, lh: seq<int>,
                           store: Image) {
    && l.Fits(disk) && |lh| < l.size && InImage(lh, store) && PhaseOk(ph, lh) && !ph.Leaving?
    && head[0] <= LOGSIZE && HeadBlocks(head) == []
    && disk[l.start] == (if Headed(ph) then EncodeHead(head, lh) else head)
    && (forall i :: 0 <= i < |lh| && i < Copied(ph, |lh|) ==> disk[l.start + 1 + i] == store[lh[i]])
    && Writes(ph, |lh|) <= |Want(head, l, lh, store)|
    && begun <= |trace| && trace[begun..] == Want(head, l, lh, store)[..Writes(ph, |lh|)]
  }

  ghost predicate CommitOk(commit: Option<Com>, l: Layout, disk: Image, trace: seq<Write>, begun: nat, head: Block,
                           lh: seq<int>, store: Image) {
    if commit.None? || commit.value.phase.Leaving? then Quiet(disk, l)
    else Progress(commit.value.phase, l, disk, trace, begun, head, lh, store)
  }

  lemma TraceStep(trace: seq<Write>, begun: nat, w: seq<Write>, k: nat, x: Write)
    requires begun <= |trace| && k < |w| && trace[begun..] == w[..k] && x == w[k]
    ensures (trace + [x])[begun..] == w[..k + 1]
  {
    assert (trace + [x])[begun..] == trace[begun..] + [x];
  }

  lemma BeginProgress(l: Layout, disk: Image, trace: seq<Write>, lh: seq<int>, store: Image)
    requires Quiet(disk, l) && LhOk(lh, l, disk) && |store| == |disk| && lh != []
    ensures Progress(Logging(0), l, disk, trace, |trace|, disk[l.start], lh, store)
  {
    hide CommitTrace, EncodeHead;
    assert trace[|trace|..] == [];
  }

  lemma LogProgress(l: Layout, disk: Image, trace: seq<Write>, begun: nat, head: Block, lh: seq<int>, store: Image,
                    tail: nat)
    requires Progress(Logging(tail), l, disk, trace, begun, head, lh, store)
    ensures var a, x := l.start + 1 + tail, store[lh[tail]];
            Progress(NextPhase(Logging(tail), lh), l, disk[a := x], trace + [Write(a, x)], begun, head, lh, store)
  {
    hide EncodeHead, CommitTrace, Quiet;
    WantAt(head, l, lh, store, Logging(tail));
    hide Want;
    TraceStep(trace, begun, Want(head, l, lh, store), tail, Write(l.start + 1 + tail, store[lh[tail]]));
  }

  lemma HeadProgress(l: Layout, disk: Image, trace: seq<Write>, begun: nat, head: Block, lh: seq<int>, store: Image)
    requires Progress(Heading, l, disk, trace, begun, head, lh, store)
    ensures var hb := EncodeHead(disk[l.start], lh);
            Progress(Installing(0), l, disk[l.start := hb], trace + [Write(l.start, hb)], begun, head, lh, store)
  {
    hide EncodeHead, CommitTrace, Quiet;
    WantAt(head, l, lh, store, Heading);
    hide Want;
    TraceStep(trace, begun, Want(head, l, lh, store), |lh|, Write(l.start, EncodeHead(head, lh)));
  }

  lemma InstallProgress(l: Layout, disk: Image, trace: seq<Write>, begun: nat, head: Block, lh: seq<int>, store: Image,
                        tail: nat)
    requires Progress(Installing(tail), l, disk, trace, begun, head, lh, store) && |disk| == |store|
    requires l.Home(disk, lh[tail])
    ensures var b, x := lh[tail], store[lh[tail]];
            Progress(NextPhase(Installing(tail), lh), l, disk[b := x], trace + [Write(b, x)], begun, head, lh, store)
  {
    hide EncodeHead, CommitTrace, Quiet;
    WantAt(head, l, lh, store, Installing(tail));
    hide Want;
    TraceStep(trace, begun, Want(head, l, lh, store), |lh| + 1 + tail, Write(lh[tail], store[lh[tail]]));
  }

  // After the last write the log is empty, and the commit has written what it was to write.
  lemma ClearProgress(l: Layout, disk: Image, trace: seq<Write>, begun: nat, head: Block, lh: seq<int>, store: Image)
    requires Progress(Clearing, l, disk, trace, begun, head, lh, store)
    ensures var hb := EncodeHead(disk[l.start], []);
            && Quiet(disk[l.start := hb], l)
            && (trace + [Write(l.start, hb)])[begun..] == Want(head, l, lh, store)
  {
    var hb := EncodeHead(disk[l.start], []);
    HeadRoundTrip(disk[l.start], []);
    hide EncodeHead, CommitTrace;
    WantAt(head, l, lh, store, Clearing);
    hide Want;
    var w := Want(head, l, lh, store);
    TraceStep(trace, begun, w, 2 * |lh| + 1, Write(l.start, hb));
    assert w[..|w|] == w;
  }

  // ----- What recovery would rebuild -----

  lemma RecoverableAfterLog(disk: Image, t: Image, l: Layout, a: nat, x: Block)
    requires Recoverable(disk, t, l) && Quiet(disk, l) && l.start < a < l.start + l.size
    ensures Recoverable(disk[a := x], t, l)
  {}

  lemma RecoverableAfterHead(bufs: seq<Buf>, disk: Image, store: Image, t: Image, l: Layout, lh: seq<int>)
    requires Coherent(bufs, l, disk, store, Elems(lh)) && SameHome(store, t, l) && LhOk(lh, l, disk) && l.Fits(disk)
    requires forall i :: 0 <= i < |lh| ==> disk[l.start + 1 + i] == store[lh[i]]
    ensures Recoverable(disk[l.start := EncodeHead(disk[l.start], lh)], t, l)
  {
    HeadRoundTrip(disk[l.start], lh);
    hide EncodeHead;
  }

  lemma RecoverableAfterInstall(disk: Image, t: Image, l: Layout, head: Block, lh: seq<int>, b: int, x: Block)
    requires Recoverable(disk, t, l) && |lh| <= LOGSIZE && disk[l.start] == EncodeHead(head, lh) && b in lh
    requires l.Home(disk, b)
    ensures Recoverable(disk[b := x], t, l)
  {
    HeadRoundTrip(head, lh);
    hide EncodeHead;
  }

  lemma RecoverableAfterClear(bufs: seq<Buf>, disk: Image, store: Image, t: Image, l: Layout)
    requires Coherent(bufs, l, disk, store, {}) && SameHome(store, t, l) && l.Fits(disk)
    ensures Recoverable(disk[l.start := EncodeHead(disk[l.start], [])], t, l)
  {
    HeadRoundTrip(disk[l.start], []);
    hide EncodeHead;
  }

  // ----- The real cache and log -----

  // The committing process has read the log block.
  ghost predicate AreaRead(bufs: seq<Buf>, c: Client, disk: Image) {
    Area(c).Some? ==>
      && Area(c).value < |disk|
      && forall i :: 0 <= i < |bufs| && Caches(bufs[i], Area(c).value) ==> bufs[i].data == disk[Area(c).value]
  }

  lemma AreaKept(o: seq<Buf>, n: seq<Buf>, c: Client, c': Client, disk: Image, t: nat, b: nat)
    requires AreaRead(o, c, disk) && t < |o| == |n| && (forall i :: 0 <= i < |o| && i != t ==> n[i] == o[i])
    requires Caches(n[t], b) && Area(c) != Some(b) && Area(c') == Area(c)
    ensures AreaRead(n, c', disk)
  {}

  ghost predicate Real(fl: FsLog, s: Ideal)
    reads fl, fl.bc
  {
    && |s.store| == |fl.bc.disk| && Recoverable(fl.bc.disk, s.saved, fl.l)
    && (!s.halted ==>
          && fl.Running() && fl.lh == s.lh && fl.pinned == Elems(Pins(s.c, s.lh)) && fl.outstanding == |s.c.ops|
          && SameHome(fl.store, s.store, fl.l) && Shared(fl.bc.bufs, s.c, s.data, fl.pinned)
          && AreaRead(fl.bc.bufs, s.c, fl.bc.disk)
          && CommitOk(s.c.commit, fl.l, fl.bc.disk, fl.bc.trace, fl.begun, fl.head, fl.lh, fl.store))
  }

  ghost predicate Match(fl: FsLog, s: Ideal)
    reads fl, fl.bc
  {
    Clean(s, fl.l) && Real(fl, s)
  }

  // The buffer of a block that is in the cache.
  method Find(bc: Bcache, b: nat) returns (t: nat)
    requires Cached(bc.bufs, b)
    ensures t < |bc.bufs| && Caches(bc.bufs[t], b)
  {
    t := 0;
    while !(bc.bufs[t].dev == ROOTDEV && bc.bufs[t].blockno == b)
      invariant t < |bc.bufs| && forall i :: 0 <= i < t ==> !Caches(bc.bufs[i], b)
      decreases |bc.bufs| - t
    {
      t := t + 1;
    }
  }

  lemma TakenIsLocked(bufs: seq<Buf>, c: Client, data: map<nat, Block>, L: set<int>, b: nat)
    requires Shared(bufs, c, data, L)
    ensures forall i :: 0 <= i < |bufs| && Caches(bufs[i], b) ==> (bufs[i].locked <==> Taken(c, b))
    ensures Taken(c, b) ==> Cached(bufs, b)
    ensures forall i :: 0 <= i < |bufs| && Caches(bufs[i], b) && b in c.held && b in data ==> bufs[i].data == data[b]
  {
    forall i | 0 <= i < |bufs| && Caches(bufs[i], b) ensures bufs[i].locked <==> Taken(c, b) {
      assert BufShared(bufs[i], c, data, L);
    }
    if Taken(c, b) { assert InUse(c, b); }
  }

  lemma PinnedIsCached(bufs: seq<Buf>, l: Layout, disk: Image, store: Image, L: set<int>)
    requires Coherent(bufs, l, disk, store, L)
    ensures forall x :: x in L ==> Cached(bufs, x)
  {}

  // bread of a home block by process p.
  method Fetch(fl: FsLog, ghost s: Ideal, p: nat, b: nat) returns (out: Out)
    requires Sized(s) && Real(fl, s) && !s.halted && p !in s.c.waiting && fl.l.Home(s.store, b) && Area(s.c) != Some(b)
    modifies fl.bc`bufs
    ensures out == Reading(s, p, b).1 && Real(fl, Reading(s, p, b).0)
  {
    hide Ring, Covers, Apply, TableOk, Coherent, Shared, Busy, CommitOk, AreaRead, Recoverable, Elems;
    ghost var o := fl.bc.bufs;
    PinnedIsCached(o, fl.l, fl.bc.disk, fl.store, fl.pinned);
    CrowdedIff(o, |fl.bc.disk|, s.c, s.data, Pins(s.c, s.lh), b);
    TakenIsLocked(o, s.c, s.data, fl.pinned, b);
    var r, waits := fl.Read(b);
    if r.None? { return Panic; }
    var t := r.value;
    AreaKept(o, fl.bc.bufs, s.c, Reading(s, p, b).0.c, fl.bc.disk, t, b);
    if waits {
      WaitShares(o, fl.bc.bufs, |fl.bc.disk|, s.c, s.data, fl.pinned, p, b, t);
      return Waits;
    }
    ReadShares(o, fl.bc.bufs, fl.bc.disk, s.c, s.data, fl.pinned, p, b, t);
    out := Got(fl.bc.bufs[t].data);
  }

  // A home block is not the log block that the committing process has.
  lemma NotArea(s: Ideal, l: Layout, b: nat)
    requires Clean(s, l) && l.Home(s.store, b) && l.Fits(s.store) && |s.lh| < l.size
    ensures Area(s.c) != Some(b)
  {
    hide BlocksOk;
  }

  lemma RealFits(fl: FsLog, s: Ideal)
    requires Real(fl, s) && !s.halted
    ensures fl.l.Fits(s.store) && |s.lh| < fl.l.size && fl.bc.Valid() && |s.store| == |fl.bc.disk| == |fl.store|
    ensures fl.lh == s.lh && LhOk(fl.lh, fl.l, fl.bc.disk)
  {}

  method BreadStep(fl: FsLog, ghost s: Ideal, p: nat, b: nat) returns (out: Out)
    requires Match(fl, s) && !s.halted && Can(s.c, s.lh, fl.l, s.store, Bread(p, b))
    modifies fl.bc`bufs
    ensures out == Step(s, fl.l, Bread(p, b)).1 && Real(fl, Step(s, fl.l, Bread(p, b)).0)
  {
    RealFits(fl, s);
    NotArea(s, fl.l, b);
    hide Real, Clean, Reading;
    out := Fetch(fl, s, p, b);
  }

  lemma WaitedIsCached(bufs: seq<Buf>, c: Client, data: map<nat, Block>, L: set<int>, p: nat)
    requires Shared(bufs, c, data, L) && p in c.waiting
    ensures Cached(bufs, c.waiting[p])
  {
    assert InUse(c, c.waiting[p]);
  }

  lemma WaitedIsHome(s: Ideal, l: Layout, p: nat)
    requires Clean(s, l) && p in s.c.waiting
    ensures l.Home(s.store, s.c.waiting[p])
  {}

  lemma StepIs(s: Ideal, l: Layout, ev: Event)
    requires Sized(s) && !s.halted && Can(s.c, s.lh, l, s.store, ev)
    ensures ev.Wake? ==> ev.p in s.c.waiting && !(s.c.waiting[ev.p] in s.c.held)
    ensures ev.Wake? ==> Step(s, l, ev) == (Woken(s, ev.p), Got(s.store[s.c.waiting[ev.p]]))
    ensures ev.Fill? ==> ev.b in s.c.held && Step(s, l, ev) == (Owned(s, ev.b, Own(ev.p, true), ev.d), Done)
    ensures ev.Brelse? ==> ev.b in s.c.held && !s.c.held[ev.b].dirty && Step(s, l, ev) == (Freed(s, ev.b), Done)
    ensures ev.LogWrite? ==> ev.b in s.c.held
    ensures ev.LogWrite? ==>
              Step(s, l, ev) ==
              if |s.lh| >= LOGSIZE || |s.lh| >= l.size - 1 || s.c.ops == {} then (s.(halted := true), Panic)
              else (Logged(s, ev.p, ev.b), Done)
  {
    hide Turned, Reading;
  }

  method WakeStep(fl: FsLog, ghost s: Ideal, p: nat, b: nat) returns (out: Out)
    requires Match(fl, s) && !s.halted && Can(s.c, s.lh, fl.l, s.store, Wake(p)) && b == s.c.waiting[p]
    modifies fl.bc`bufs
    ensures out == Step(s, fl.l, Wake(p)).1 && Real(fl, Step(s, fl.l, Wake(p)).0)
  {
    RealFits(fl, s);
    WaitedIsHome(s, fl.l, p);
    NotArea(s, fl.l, b);
    StepIs(s, fl.l, Wake(p));
    hide Step, Can, Ring, Covers, Apply, TableOk, Coherent, Shared, Busy, CommitOk, AreaRead, Recoverable, Elems, Clean,
         BlocksOk;
    ghost var o := fl.bc.bufs;
    WaitedIsCached(o, s.c, s.data, fl.pinned, p);
    var t := Find(fl.bc, b);
    WakeShares(o, o[t := o[t].(locked := true)], |fl.bc.disk|, s.c, s.data, fl.pinned, p, t);
    fl.Acquire(t);
    AreaKept(o, fl.bc.bufs, s.c, Woken(s, p).c, fl.bc.disk, t, b);
    out := Got(fl.bc.bufs[t].data);
  }

  // What the holder of a block may rely on.
  lemma HeldFacts(fl: FsLog, s: Ideal, ev: Event)
    requires Match(fl, s) && !s.halted && Can(s.c, s.lh, fl.l, s.store, ev) && (ev.Fill? || ev.Brelse? || ev.LogWrite?)
    ensures Sized(s) && ev.b in s.c.held && fl.l.Home(s.store, ev.b) && Area(s.c) != Some(ev.b)
    ensures ev.Fill? ==> Step(s, fl.l, ev) == (Owned(s, ev.b, Own(ev.p, true), ev.d), Done)
    ensures ev.Brelse? ==> s.data[ev.b] == s.store[ev.b] && Step(s, fl.l, ev) == (Freed(s, ev.b), Done)
  {
    StepIs(s, fl.l, ev);
    RealFits(fl, s);
    hide Real, Step, Can;
    assert fl.l.Home(s.store, ev.b);
    NotArea(s, fl.l, ev.b);
  }

  method FillStep(fl: FsLog, ghost s: Ideal, p: nat, b: nat, d: Block)
    requires Match(fl, s) && !s.halted && Can(s.c, s.lh, fl.l, s.store, Fill(p, b, d))
    modifies fl.bc`bufs
    ensures Done == Step(s, fl.l, Fill(p, b, d)).1 && Real(fl, Step(s, fl.l, Fill(p, b, d)).0)
  {
    hide Step, Can, Ring, Covers, Apply, TableOk, Coherent, Shared, Busy, CommitOk, AreaRead, Recoverable, Elems, Clean,
         BlocksOk;
    HeldFacts(fl, s, Fill(p, b, d));
    ghost var o := fl.bc.bufs;
    TakenIsLocked(o, s.c, s.data, fl.pinned, b);
    var t := Find(fl.bc, b);
    FillShares(o, o[t := o[t].(data := d)], |fl.bc.disk|, s.c, s.data, fl.pinned, p, b, d, t);
    fl.Edit(t, d);
    AreaKept(o, fl.bc.bufs, s.c, Owned(s, b, Own(p, true), d).c, fl.bc.disk, t, b);
  }

  method ReleaseStep(fl: FsLog, ghost s: Ideal, p: nat, b: nat)
    requires Match(fl, s) && !s.halted && Can(s.c, s.lh, fl.l, s.store, Brelse(p, b))
    modifies fl.bc
    ensures Done == Step(s, fl.l, Brelse(p, b)).1 && Real(fl, Step(s, fl.l, Brelse(p, b)).0)
  {
    hide Step, Can, Ring, Covers, Apply, TableOk, Coherent, Shared, Busy, CommitOk, AreaRead, Recoverable, Elems, Clean,
         BlocksOk;
    HeldFacts(fl, s, Brelse(p, b));
    ghost var o := fl.bc.bufs;
    TakenIsLocked(o, s.c, s.data, fl.pinned, b);
    var t := Find(fl.bc, b);
    LockedIsReferenced(o, |fl.bc.disk|, t);
    ReleaseShares(o, o[t := o[t].(refcnt := o[t].refcnt - 1, locked := false)], |fl.bc.disk|, s.c, s.data,
                  fl.pinned, b, t, fl.pinned);
    fl.Release(t);
    AreaKept(o, fl.bc.bufs, s.c, Freed(s, b).c, fl.bc.disk, t, b);
  }

  lemma LockedIsReferenced(bufs: seq<Buf>, blocks: nat, t: nat)
    requires TableOk(bufs, blocks) && t < |bufs| && bufs[t].locked
    ensures bufs[t].refcnt > 0
  {
    assert BufOk(bufs[t], blocks);
  }

  // ----- Logging a block -----

  // log_write of block b, whose buffer is t.
  method LogBlock(fl: FsLog, t: nat, b: nat) returns (ok: bool)
    requires fl.Running() && (fl.outstanding >= 1 ==> fl.pinned == Elems(fl.lh))
    requires t < NBUF && fl.bc.bufs[t].locked && fl.bc.bufs[t].blockno == b && fl.l.Home(fl.bc.disk, b)
    modifies fl`lh, fl`store, fl`pinned, fl.bc`bufs
    ensures ok <==> |old(fl.lh)| < LOGSIZE && |old(fl.lh)| < fl.l.size - 1 && fl.outstanding >= 1
    ensures ok ==> fl.Running() && fl.lh == if b in old(fl.lh) then old(fl.lh) else old(fl.lh) + [b]
    ensures ok ==> fl.pinned == Elems(fl.lh) == Elems(old(fl.lh)) + {b as int}
    ensures ok ==> fl.store == old(fl.store)[b := old(fl.bc.bufs)[t].data]
    ensures ok ==> fl.bc.bufs == old(fl.bc.bufs)[t := old(fl.bc.bufs)[t].(
                     refcnt := old(fl.bc.bufs)[t].refcnt + if b in Elems(old(fl.lh)) then 0 else 1)]
  {
    hide Ring, Covers, Apply, TableOk, Coherent;
    ok := fl.LogWrite(t);
  }

  lemma StoredSame(d: Image, t: Image, l: Layout, b: nat, data: Block)
    requires SameHome(d, t, l) && b < |d|
    ensures SameHome(d[b := data], t[b := data], l)
  {}

  lemma HaltedReal(fl: FsLog, s: Ideal)
    requires |s.store| == |fl.bc.disk| && Recoverable(fl.bc.disk, s.saved, fl.l)
    ensures Real(fl, s.(halted := true))
  {}

  lemma LoggedReal(fl: FsLog, s: Ideal, p: nat, b: nat)
    requires Sized(s) && b in s.c.held && s.c.commit.None? && !s.halted && fl.Running()
    requires |s.store| == |fl.bc.disk| && Recoverable(fl.bc.disk, s.saved, fl.l) && Quiet(fl.bc.disk, fl.l)
    requires fl.outstanding == |s.c.ops| && fl.lh == Logged(s, p, b).lh && fl.pinned == Elems(fl.lh)
    requires SameHome(fl.store, Logged(s, p, b).store, fl.l)
    requires Shared(fl.bc.bufs, s.c.(held := s.c.held[b := Own(p, false)]), s.data, fl.pinned)
    ensures Real(fl, Logged(s, p, b))
  {
    hide Shared, SameHome, Coherent, TableOk, Ring, LhOk, Quiet, Recoverable;
  }

  // What log_write needs of the state.
  lemma LogFacts(fl: FsLog, s: Ideal, p: nat, b: nat)
    requires Match(fl, s) && !s.halted && Can(s.c, s.lh, fl.l, s.store, LogWrite(p, b))
    ensures Sized(s) && b in s.c.held && b in s.data && fl.l.Home(fl.bc.disk, b) && b < |fl.store|
    ensures fl.Running() && fl.lh == s.lh
    ensures Step(s, fl.l, LogWrite(p, b)) ==
            if |s.lh| >= LOGSIZE || |s.lh| >= fl.l.size - 1 || s.c.ops == {} then (s.(halted := true), Panic)
            else (Logged(s, p, b), Done)
    ensures fl.outstanding == |s.c.ops| && (s.c.ops != {} ==> s.c.commit.None? && fl.pinned == Elems(fl.lh))
    ensures s.c.ops != {} ==> Quiet(fl.bc.disk, fl.l)
    ensures |s.store| == |fl.bc.disk| && Recoverable(fl.bc.disk, s.saved, fl.l)
    ensures SameHome(fl.store, s.store, fl.l) && Shared(fl.bc.bufs, s.c, s.data, fl.pinned)
    ensures |fl.bc.bufs| == NBUF && TableOk(fl.bc.bufs, |fl.bc.disk|) && Cached(fl.bc.bufs, b)
    ensures forall i :: 0 <= i < NBUF && Caches(fl.bc.bufs[i], b) ==>
              fl.bc.bufs[i].locked && fl.bc.bufs[i].data == s.data[b]
  {
    StepIs(s, fl.l, LogWrite(p, b));
    hide Step, Turned, Reading;
    TakenIsLocked(fl.bc.bufs, s.c, s.data, fl.pinned, b);
    assert fl.l.Home(s.store, b);
    hide Shared, TableOk, Coherent, Ring, Apply, Recoverable;
  }

  method LogStep(fl: FsLog, ghost s: Ideal, p: nat, b: nat) returns (out: Out)
    requires Match(fl, s) && !s.halted && Can(s.c, s.lh, fl.l, s.store, LogWrite(p, b))
    modifies fl`lh, fl`store, fl`pinned, fl.bc`bufs
    ensures out == Step(s, fl.l, LogWrite(p, b)).1 && Real(fl, Step(s, fl.l, LogWrite(p, b)).0)
  {
    hide Match, Real, Can, Step, Shared, SameHome, Coherent, TableOk, Ring, LhOk, Elems, Sized, Quiet, Apply, Covers,
         Recoverable;
    ghost var o, L := fl.bc.bufs, fl.pinned;
    LogFacts(fl, s, p, b);
    var t := Find(fl.bc, b);
    LogShares(o, o[t := o[t].(refcnt := o[t].refcnt + if b in L then 0 else 1)], |fl.bc.disk|, s.c, s.data, L, p, b, t);
    StoredSame(fl.store, s.store, fl.l, b, s.data[b]);
    var ok := LogBlock(fl, t, b);
    if ok { LoggedReal(fl, s, p, b); } else { HaltedReal(fl, s); }
    out := if ok then Done else Panic;
  }

  // ----- Operations begin and end -----

  lemma OpSizes(ops: set<nat>, p: nat)
    ensures p !in ops ==> |ops + {p}| == |ops| + 1
    ensures p in ops ==> |ops - {p}| == |ops| - 1
  {
    if p in ops { assert (ops - {p}) + {p} == ops; }
  }

  method OpStep(fl: FsLog, ghost s: Ideal, p: nat, begin: bool)
    requires Match(fl, s) && !s.halted && Can(s.c, s.lh, fl.l, s.store, if begin then Begin(p) else End(p))
    modifies fl`outstanding, fl`head, fl`begun
    ensures var (b, out) := Step(s, fl.l, if begin then Begin(p) else End(p)); out == Done && Real(fl, b)
  {
    hide Ring, Covers, Apply, TableOk, Coherent, Shared, Busy, Recoverable, Progress, BlocksOk, CommitterOk, Quiet;
    ghost var c' := Step(s, fl.l, if begin then Begin(p) else End(p)).0.c;
    SharedSame(fl.bc.bufs, s.c, c', s.data, fl.pinned);
    OpSizes(s.c.ops, p);
    assert s.c.commit.None?;
    if !begin && s.c.ops == {p} && fl.lh != [] {
      BeginProgress(fl.l, fl.bc.disk, fl.bc.trace, fl.lh, fl.store);
      fl.head, fl.begun := fl.bc.disk[fl.l.start], |fl.bc.trace|;
    }
    fl.outstanding := if begin then fl.outstanding + 1 else fl.outstanding - 1;
  }

  // ----- The turns of a commit -----

  lemma TableReleased(o: seq<Buf>, n: seq<Buf>, blocks: nat, t: nat)
    requires TableOk(o, blocks) && t < |o| == |n| && o[t].dev == ROOTDEV
    requires n == o[t := o[t].(refcnt := n[t].refcnt, locked := false, data := n[t].data)]
    ensures TableOk(n, blocks)
  {
    forall i | 0 <= i < |n| ensures BufOk(n[i], blocks) { assert BufOk(o[i], blocks); }
  }

  // Two buffers are released: t of the log block, f of the logged block, whose pin may go too.
  lemma BothReleased(o: seq<Buf>, n: seq<Buf>, blocks: nat, c: Client, data: map<nat, Block>, L: set<int>, a: nat,
                     t: nat, b: nat, f: nat, L': set<int>, m: Com)
    requires Shared(o, c, data, L) && TableOk(o, blocks) && t < |o| == |n| && f < |o|
    requires Caches(o[t], a) && Area(c) == Some(a) && a !in c.held && m.area.None?
    requires Caches(o[f], b) && b in c.held && a != b && (L' == L || (b in L && L' == L - {b as int}))
    requires n[t].refcnt == o[t].refcnt - 1 && n[f].refcnt == o[f].refcnt - (if L' == L then 1 else 2)
    requires n == o[t := o[t].(refcnt := n[t].refcnt, locked := false, data := n[t].data)]
                   [f := o[f].(refcnt := n[f].refcnt, locked := false, data := n[f].data)]
    ensures Shared(n, WithCom(c.(held := c.held - {b}), m), data - {b}, L')
  {
    hide Shared, TableOk;
    var o1 := o[f := o[f].(refcnt := n[f].refcnt, locked := false, data := n[f].data)];
    assert t != f && n == o1[t := o1[t].(refcnt := n[t].refcnt, locked := false, data := n[t].data)];
    ReleaseShares(o, o1, blocks, c, data, L, b, f, L');
    TableReleased(o, o1, blocks, f);
    AreaReleased(o1, n, blocks, c.(held := c.held - {b}), data - {b}, L', a, t, m);
  }

  // What a turn that has its buffers may rely on.
  lemma TurnFacts(fl: FsLog, s: Ideal)
    requires Match(fl, s) && !s.halted && Can(s.c, s.lh, fl.l, s.store, Turn) && !s.c.commit.value.phase.Leaving?
    ensures Sized(s) && fl.Running() && fl.lh == s.lh && fl.pinned == Elems(Pins(s.c, s.lh))
    ensures fl.outstanding == |s.c.ops| && SameHome(fl.store, s.store, fl.l)
    ensures |s.store| == |fl.bc.disk| && Recoverable(fl.bc.disk, s.saved, fl.l)
    ensures Shared(fl.bc.bufs, s.c, s.data, fl.pinned) && TableOk(fl.bc.bufs, |fl.bc.disk|) && |fl.bc.bufs| == NBUF
    ensures var ph := s.c.commit.value.phase;
            && Progress(ph, fl.l, fl.bc.disk, fl.bc.trace, fl.begun, fl.head, fl.lh, fl.store)
            && fl.l.start <= AreaBlock(fl.l, ph) < fl.l.start + fl.l.size && AreaBlock(fl.l, ph) !in s.c.held
    ensures Step(s, fl.l, Turn) == Turned(s, fl.l)
  {
    assert forall b :: b in s.c.held ==> fl.l.Home(s.store, b);
    hide Shared, TableOk, Coherent, Ring, Apply, Recoverable, Turned;
  }

  // ... of the log block,
  lemma AreaFacts(fl: FsLog, s: Ideal)
    requires Match(fl, s) && !s.halted && Can(s.c, s.lh, fl.l, s.store, Turn) && Area(s.c).Some?
    ensures var a := Area(s.c).value;
            && !s.c.commit.value.phase.Leaving? && a == AreaBlock(fl.l, s.c.commit.value.phase) < |fl.bc.disk|
            && Cached(fl.bc.bufs, a)
            && forall i :: 0 <= i < |fl.bc.bufs| && Caches(fl.bc.bufs[i], a) ==>
                 fl.bc.bufs[i].locked && fl.bc.bufs[i].data == fl.bc.disk[a]
  {
    TakenIsLocked(fl.bc.bufs, s.c, s.data, fl.pinned, Area(s.c).value);
    hide Shared, TableOk, Coherent, Ring, Apply, Recoverable;
  }

  // ... and of the logged block.
  lemma SubjectFacts(fl: FsLog, s: Ideal)
    requires Match(fl, s) && !s.halted && Can(s.c, s.lh, fl.l, s.store, Turn) && Copies(s.c.commit.value.phase)
    ensures var ph := s.c.commit.value.phase; var b := Subject(ph, s.lh);
            && PhaseOk(ph, s.lh) && b == s.lh[ph.tail] && fl.l.Home(s.store, b) && b < |fl.store| && b in fl.pinned
            && fl.store[b] == s.store[b] && |s.store| == |fl.bc.disk|
            && (s.c.commit.value.asked ==>
                  && b in s.c.held && Cached(fl.bc.bufs, b)
                  && forall i :: 0 <= i < |fl.bc.bufs| && Caches(fl.bc.bufs[i], b) ==>
                       fl.bc.bufs[i].locked && fl.bc.bufs[i].data == fl.store[b])
  {
    var ph := s.c.commit.value.phase;
    var b := Subject(ph, s.lh);
    TakenIsLocked(fl.bc.bufs, s.c, s.data, fl.pinned, b);
    var pins := Pins(s.c, s.lh);
    assert ph.Installing? ==> pins[0] == s.lh[ph.tail];
    hide Shared, TableOk, Coherent, Ring, Apply, Recoverable, Progress;
  }

  lemma AreaReadNow(n: seq<Buf>, blocks: nat, c: Client, disk: Image, t: nat, a: nat)
    requires TableOk(n, blocks) && t < |n| && Caches(n[t], a) && a < |disk| && n[t].data == disk[a]
    requires Area(c) == Some(a)
    ensures AreaRead(n, c, disk)
  {}

  // bread of the log block.
  method AreaStep(fl: FsLog, ghost s: Ideal, a: nat) returns (out: Out)
    requires Match(fl, s) && !s.halted && Can(s.c, s.lh, fl.l, s.store, Turn) && s.c.commit.Some?
    requires var m := s.c.commit.value; !m.phase.Leaving? && m.area.None? && a == AreaBlock(fl.l, m.phase)
    modifies fl.bc`bufs
    ensures out == Step(s, fl.l, Turn).1 && Real(fl, Step(s, fl.l, Turn).0)
  {
    hide Match, Step, Can, Ring, Covers, Apply, TableOk, Coherent, Shared, Busy, Recoverable, Elems, Progress;
    TurnFacts(fl, s);
    ghost var o := fl.bc.bufs;
    PinnedIsCached(o, fl.l, fl.bc.disk, fl.store, fl.pinned);
    CrowdedIff(o, |fl.bc.disk|, s.c, s.data, Pins(s.c, s.lh), a);
    TakenIsLocked(o, s.c, s.data, fl.pinned, a);
    var r, waits := fl.Read(a);
    if r.None? { return Panic; }
    ghost var t := r.value;
    AreaShares(o, fl.bc.bufs, fl.bc.disk, s.c, s.data, fl.pinned, a, t);
    AreaReadNow(fl.bc.bufs, |fl.bc.disk|, Turned(s, fl.l).0.c, fl.bc.disk, t, a);
    out := Done;
  }

  // bread of the logged block.
  method AskStep(fl: FsLog, ghost s: Ideal, p: nat, b: nat) returns (out: Out)
    requires Match(fl, s) && !s.halted && Can(s.c, s.lh, fl.l, s.store, Turn)
    requires var m := s.c.commit.value;
             Copies(m.phase) && m.area.Some? && !m.asked && p == m.p && b == Subject(m.phase, s.lh)
    modifies fl.bc`bufs
    ensures out == Step(s, fl.l, Turn).1 && Real(fl, Step(s, fl.l, Turn).0)
  {
    SubjectFacts(fl, s);
    RealFits(fl, s);
    NotArea(s, fl.l, b);
    TurnFacts(fl, s);
    ghost var s1 := s.(c := WithCom(s.c, s.c.commit.value.(asked := true)));
    AskedReal(fl, s, s1);
    assert Turned(s, fl.l) == Reading(s1, p, b);
    hide Match, Real, Step, Reading, Turned;
    out := Fetch(fl, s1, p, b);
  }

  lemma AskedReal(fl: FsLog, s: Ideal, s1: Ideal)
    requires Sized(s) && Real(fl, s) && s.c.commit.Some?
    requires s1 == s.(c := WithCom(s.c, s.c.commit.value.(asked := true)))
    ensures Sized(s1) && Real(fl, s1)
  {
    hide Shared, TableOk, Coherent, Ring, Apply, Recoverable, Progress, Quiet;
    if !s.halted { SharedSame(fl.bc.bufs, s.c, s1.c, s.data, fl.pinned); }
  }

  // The state after a turn, piece by piece.
  lemma OverParts(s: Ideal, l: Layout)
    requires Sized(s) && s.c.commit.Some? && !s.c.commit.value.phase.Leaving? && s.c.commit.value.area.Some?
    requires Copies(s.c.commit.value.phase) ==> s.c.commit.value.asked
    ensures Turned(s, l) == (Over(s), Done)
    ensures var m, s' := s.c.commit.value, Over(s); var b := Subject(m.phase, s.lh);
            && s'.c.commit == Some(Com(m.p, NextPhase(m.phase, s.lh), None, false)) && Area(s'.c).None?
            && s'.c == WithCom(if Copies(m.phase) then s.c.(held := s.c.held - {b}) else s.c, s'.c.commit.value)
            && s'.data == (if Copies(m.phase) then s.data - {b} else s.data) && s'.c.ops == s.c.ops
            && s'.saved == (if m.phase.Heading? then s.store else s.saved) && s'.store == s.store
            && s'.lh == (if m.phase.Clearing? then [] else s.lh) && s'.halted == s.halted
  {}

  lemma OverReal(fl: FsLog, s': Ideal)
    requires !s'.halted && s'.c.commit.Some? && Area(s'.c).None? && |s'.store| == |fl.bc.disk|
    requires Recoverable(fl.bc.disk, s'.saved, fl.l) && fl.Running() && fl.lh == s'.lh
    requires fl.pinned == Elems(Pins(s'.c, s'.lh)) && fl.outstanding == |s'.c.ops|
    requires SameHome(fl.store, s'.store, fl.l) && Shared(fl.bc.bufs, s'.c, s'.data, fl.pinned)
    requires CommitOk(s'.c.commit, fl.l, fl.bc.disk, fl.bc.trace, fl.begun, fl.head, fl.lh, fl.store)
    ensures Real(fl, s')
  {
    hide Shared, TableOk, Coherent, Ring, Apply, Recoverable, CommitOk, SameHome;
  }

  // A turn of write_log is over.
  method LogOver(fl: FsLog, ghost s: Ideal, tail: nat, a: nat, b: nat)
    requires Match(fl, s) && !s.halted && Can(s.c, s.lh, fl.l, s.store, Turn) && s.c.commit.Some?
    requires var m := s.c.commit.value;
             m.phase == Logging(tail) && m.area == Some(a) && m.asked && b == Subject(m.phase, s.lh)
    modifies fl.bc
    ensures Step(s, fl.l, Turn).1 == Done && Real(fl, Step(s, fl.l, Turn).0)
  {
    hide Match, Step, Can, Turned, Over, Real, Ring, Covers, Apply, TableOk, Coherent, Shared, Busy, Recoverable, Elems,
         Progress, Quiet, EncodeHead, SameHome, Sized;
    TurnFacts(fl, s);
    OverParts(s, fl.l);
    AreaFacts(fl, s);
    SubjectFacts(fl, s);
    ghost var o, d0, tr0 := fl.bc.bufs, fl.bc.disk, fl.bc.trace;
    var t := Find(fl.bc, a);
    var f := Find(fl.bc, b);
    fl.LogTurn(t, f);
    BothReleased(o, fl.bc.bufs, |d0|, s.c, s.data, fl.pinned, a, t, b, f, fl.pinned, Over(s).c.commit.value);
    LogProgress(fl.l, d0, tr0, fl.begun, fl.head, fl.lh, fl.store, tail);
    LoggingIsQuiet(Logging(tail), fl.l, d0, tr0, fl.begun, fl.head, fl.lh, fl.store);
    RecoverableAfterLog(d0, s.saved, fl.l, a, fl.store[b]);
    OverReal(fl, Over(s));
  }

  lemma LoggingIsQuiet(ph: Phase, l: Layout, disk: Image, trace: seq<Write>, begun: nat, head: Block, lh: seq<int>,
                       store: Image)
    requires Progress(ph, l, disk, trace, begun, head, lh, store) && !Headed(ph)
    ensures Quiet(disk, l)
  {
    hide CommitTrace;
  }

  // write_head is over: from here on the transaction survives a crash.
  method HeadOver(fl: FsLog, ghost s: Ideal, a: nat)
    requires Match(fl, s) && !s.halted && Can(s.c, s.lh, fl.l, s.store, Turn) && s.c.commit.Some?
    requires var m := s.c.commit.value; m.phase == Heading && m.area == Some(a)
    modifies fl.bc
    ensures Step(s, fl.l, Turn).1 == Done && Real(fl, Step(s, fl.l, Turn).0)
  {
    hide Match, Step, Can, Turned, Over, Real, Ring, Covers, Apply, TableOk, Coherent, Shared, Busy, Recoverable, Elems,
         Progress, Quiet, EncodeHead, SameHome, Sized;
    TurnFacts(fl, s);
    OverParts(s, fl.l);
    AreaFacts(fl, s);
    ghost var o, d0, tr0 := fl.bc.bufs, fl.bc.disk, fl.bc.trace;
    var t := Find(fl.bc, a);
    LogIsThere(fl.l, d0, tr0, fl.begun, fl.head, fl.lh, fl.store);
    RecoverableAfterHead(o, d0, fl.store, s.store, fl.l, fl.lh);
    fl.HeadTurn(t);
    AreaReleased(o, fl.bc.bufs, |d0|, s.c, s.data, fl.pinned, a, t, Over(s).c.commit.value);
    HeadProgress(fl.l, d0, tr0, fl.begun, fl.head, fl.lh, fl.store);
    assert s.lh[0..] == s.lh;
    OverReal(fl, Over(s));
  }

  lemma LogIsThere(l: Layout, disk: Image, trace: seq<Write>, begun: nat, head: Block, lh: seq<int>, store: Image)
    requires Progress(Heading, l, disk, trace, begun, head, lh, store)
    ensures forall i :: 0 <= i < |lh| ==> disk[l.start + 1 + i] == store[lh[i]]
  {
    hide CommitTrace;
  }

  lemma InstallReady(l: Layout, disk: Image, trace: seq<Write>, begun: nat, head: Block, lh: seq<int>, store: Image,
                     tail: nat)
    requires Progress(Installing(tail), l, disk, trace, begun, head, lh, store)
    ensures disk[l.start + 1 + tail] == store[lh[tail]] && |lh| <= LOGSIZE && disk[l.start] == EncodeHead(head, lh)
  {
    hide CommitTrace;
  }

  lemma PinsShrink(c: Client, lh: seq<int>, c': Client, tail: nat)
    requires c.commit.Some? && c.commit.value.phase == Installing(tail) && tail < |lh| && Distinct(lh)
    requires c'.commit.Some? && c'.commit.value.phase == NextPhase(Installing(tail), lh)
    ensures Elems(Pins(c', lh)) == Elems(Pins(c, lh)) - {lh[tail]}
  {
    RestOfLog(lh, tail);
    assert Elems(lh[|lh|..]) == {};
  }

  // A turn of install_trans is over.
  method InstallOver(fl: FsLog, ghost s: Ideal, tail: nat, a: nat, b: nat)
    requires Match(fl, s) && !s.halted && Can(s.c, s.lh, fl.l, s.store, Turn) && s.c.commit.Some?
    requires var m := s.c.commit.value;
             m.phase == Installing(tail) && m.area == Some(a) && m.asked && b == Subject(m.phase, s.lh)
    modifies fl`pinned, fl.bc
    ensures Step(s, fl.l, Turn).1 == Done && Real(fl, Step(s, fl.l, Turn).0)
  {
    hide Match, Step, Can, Turned, Over, Real, Ring, Covers, Apply, TableOk, Coherent, Shared, Busy, Recoverable, Elems,
         Progress, Quiet, EncodeHead, SameHome, Sized;
    TurnFacts(fl, s);
    OverParts(s, fl.l);
    AreaFacts(fl, s);
    SubjectFacts(fl, s);
    ghost var o, d0, tr0, L := fl.bc.bufs, fl.bc.disk, fl.bc.trace, fl.pinned;
    InstallReady(fl.l, d0, tr0, fl.begun, fl.head, fl.lh, fl.store, tail);
    var t := Find(fl.bc, a);
    var f := Find(fl.bc, b);
    fl.InstallTurn(t, f);
    BothReleased(o, fl.bc.bufs, |d0|, s.c, s.data, L, a, t, b, f, fl.pinned, Over(s).c.commit.value);
    PinsShrink(s.c, s.lh, Over(s).c, tail);
    InstallProgress(fl.l, d0, tr0, fl.begun, fl.head, fl.lh, fl.store, tail);
    RecoverableAfterInstall(d0, s.saved, fl.l, fl.head, fl.lh, b, fl.store[b]);
    OverReal(fl, Over(s));
  }

  // The header is cleared: the commit has written exactly the blocks of CommitTrace, in that order.
  method ClearOver(fl: FsLog, ghost s: Ideal, a: nat)
    requires Match(fl, s) && !s.halted && Can(s.c, s.lh, fl.l, s.store, Turn) && s.c.commit.Some?
    requires var m := s.c.commit.value; m.phase == Clearing && m.area == Some(a)
    modifies fl`lh, fl.bc
    ensures Step(s, fl.l, Turn).1 == Done && Real(fl, Step(s, fl.l, Turn).0)
    ensures InImage(s.lh, fl.store) && fl.begun <= |fl.bc.trace|
            && fl.bc.trace[fl.begun..] == Want(fl.head, fl.l, s.lh, fl.store)
  {
    hide Match, Step, Can, Turned, Over, Real, Ring, Covers, Apply, TableOk, Coherent, Shared, Busy, Recoverable, Elems,
         Progress, Quiet, EncodeHead, SameHome, Sized;
    TurnFacts(fl, s);
    OverParts(s, fl.l);
    AreaFacts(fl, s);
    SavedNow(fl, s);
    ghost var o, d0, tr0 := fl.bc.bufs, fl.bc.disk, fl.bc.trace;
    var t := Find(fl.bc, a);
    ClearProgress(fl.l, d0, tr0, fl.begun, fl.head, fl.lh, fl.store) by { ClearImage(fl, s); }
    RecoverableAfterClear(o, d0, fl.store, s.saved, fl.l);
    ClearImage(fl, s);
    fl.lh := [];
    fl.HeadTurn(t);
    AreaReleased(o, fl.bc.bufs, |d0|, s.c, s.data, fl.pinned, a, t, Over(s).c.commit.value);
    OverReal(fl, Over(s));
  }

  lemma ClearImage(fl: FsLog, s: Ideal)
    requires Progress(Clearing, fl.l, fl.bc.disk, fl.bc.trace, fl.begun, fl.head, fl.lh, fl.store) && fl.lh == s.lh
    ensures InImage(s.lh, fl.store) && fl.begun <= |fl.bc.trace|
  {
    hide CommitTrace;
  }

  lemma SavedNow(fl: FsLog, s: Ideal)
    requires Match(fl, s) && !s.halted && s.c.commit.Some? && s.c.commit.value.phase.Clearing?
    ensures s.saved == s.store && fl.pinned == {} && Elems([]) == {}
  {
    hide Shared, TableOk, Coherent, Ring, Apply, Recoverable, Progress;
  }

  method Leave(fl: FsLog, ghost s: Ideal)
    requires Match(fl, s) && !s.halted && Can(s.c, s.lh, fl.l, s.store, Turn) && s.c.commit.value.phase.Leaving?
    ensures Step(s, fl.l, Turn).1 == Done && Real(fl, Step(s, fl.l, Turn).0)
  {
    hide Ring, Covers, Apply, TableOk, Coherent, Shared, Busy, Recoverable, Progress, BlocksOk, Quiet;
    SharedSame(fl.bc.bufs, s.c, s.c.(commit := None), s.data, fl.pinned);
    LeaveEmpty(s.c, s.lh);
  }

  lemma LeaveEmpty(c: Client, lh: seq<int>)
    requires c.commit.Some? && c.commit.value.phase.Leaving?
    ensures Pins(c.(commit := None), lh) == Pins(c, lh)
  {}

  method TurnStep(fl: FsLog, ghost s: Ideal, c: Client) returns (out: Out)
    requires Match(fl, s) && !s.halted && c == s.c && Can(s.c, s.lh, fl.l, s.store, Turn)
    modifies fl`lh, fl`pinned, fl.bc
    ensures out == Step(s, fl.l, Turn).1 && Real(fl, Step(s, fl.l, Turn).0)
  {
    RealFits(fl, s);
    TurnSplit(s, fl.l);
    hide Match, Step, Can, Real;
    var m := c.commit.value;
    var b := Subject(m.phase, fl.lh);
    out := Done;
    if m.phase.Leaving? {
      Leave(fl, s);
    } else if m.area.None? {
      out := AreaStep(fl, s, AreaBlock(fl.l, m.phase));
    } else if Copies(m.phase) && !m.asked {
      out := AskStep(fl, s, m.p, b);
    } else {
      match m.phase {
        case Logging(tail) => LogOver(fl, s, tail, m.area.value, b);
        case Heading => HeadOver(fl, s, m.area.value);
        case Installing(tail) => InstallOver(fl, s, tail, m.area.value, b);
        case Clearing => ClearOver(fl, s, m.area.value);
      }
    }
  }

  lemma TurnSplit(s: Ideal, l: Layout)
    requires Clean(s, l) && Can(s.c, s.lh, l, s.store, Turn)
    ensures s.c.commit.Some?
  {}

  // ----- Crashes -----

  method Boot(d: Image, l: Layout, ghost t: Image, cuts: seq<nat>) returns (fl: FsLog)
    requires Recoverable(d, t, l)
    ensures fresh(fl) && fresh(fl.bc) && fl.l == l && Match(fl, Booted(t))
  {
    hide Ring, Covers, Apply, SaneHead, HeadBlocks, TableOk, Coherent, Shared, Busy, Steady;
    InterruptedKeeps(d, t, l, cuts);
    var bc := new Bcache(Interrupted(d, l, cuts));
    fl := new FsLog(bc, l, t);
    fl.RecoverFromLog();
    SteadyIsShared(fl.bc.bufs, l, fl.bc.disk, fl.store);
    assert Elems([]) == {};
  }

  lemma SteadyIsShared(bufs: seq<Buf>, l: Layout, disk: Image, store: Image)
    requires Steady(bufs, l, disk, store, {})
    ensures Shared(bufs, NOBODY, map[], {}) && Coherent(bufs, l, disk, store, {}) && SameHome(disk, store, l)
  {
    forall i | 0 <= i < |bufs| ensures BufShared(bufs[i], NOBODY, map[], {}) {
      assert BufSteady(bufs[i], l, disk, store);
      assert Waiters(NOBODY.waiting, bufs[i].blockno) == {};
    }
    SteadyIsCoherent(bufs, l, disk, store);
  }

  // ----- Runs -----

  lemma NextIs(s: Ideal, l: Layout, ev: Event)
    requires Sized(s) && !s.halted && Can(s.c, s.lh, l, s.store, ev)
    ensures var (b, out) := Step(s, l, ev);
            out != Refused && (b.halted <==> out == Panic) && (out != Panic ==> b.c == Next(s.c, s.lh, l, ev))
  {
    hide Busy, Pins;
  }

  lemma CanSame(c: Client, lh: seq<int>, l: Layout, d: Image, t: Image, ev: Event)
    requires |d| == |t|
    ensures Can(c, lh, l, d, ev) <==> Can(c, lh, l, t, ev)
  {}

  // One event that is not a crash, by processes that are at that point.
  method Act(fl: FsLog, ghost s: Ideal, c: Client, ev: Event) returns (out: Out)
    requires Match(fl, s) && !s.halted && s.c == c && !ev.Crash? && Can(s.c, s.lh, fl.l, s.store, ev)
    modifies fl, fl.bc
    ensures out == Step(s, fl.l, ev).1 && Real(fl, Step(s, fl.l, ev).0)
  {
    hide Match, Real, Step;
    match ev {
      case Begin(p) => OpStep(fl, s, p, true); out := Done;
      case End(p) => OpStep(fl, s, p, false); out := Done;
      case Turn => out := TurnStep(fl, s, c);
      case Bread(p, b) => out := BreadStep(fl, s, p, b);
      case Wake(p) => out := WakeStep(fl, s, p, c.waiting[p]);
      case Fill(p, b, d) => FillStep(fl, s, p, b, d); out := Done;
      case LogWrite(p, b) => out := LogStep(fl, s, p, b);
      case Brelse(p, b) => ReleaseStep(fl, s, p, b); out := Done;
    }
  }

  // The processes, the cache and the log are in the state of the machine. After a panic the processes are no more.
  ghost predicate Follows(fl: FsLog, c: Client, halted: bool, s: Ideal)
    reads fl, fl.bc
  {
    Match(fl, s) && halted == s.halted && (!halted ==> c == s.c)
  }

  method Perform(fl: FsLog, c: Client, halted: bool, ghost s: Ideal, ev: Event)
    returns (fl': FsLog, c': Client, halted': bool, out: Out)
    requires Follows(fl, c, halted, s)
    modifies fl, fl.bc
    ensures Sized(s) && fl'.l == fl.l && (fl' == fl || fresh(fl')) && (fl'.bc == fl.bc || fresh(fl'.bc))
    ensures out == Step(s, fl.l, ev).1 && Follows(fl', c', halted', Step(s, fl.l, ev).0)
  {
    MatchFacts(fl, s);
    StepClean(s, fl.l, ev);
    CanSame(s.c, s.lh, fl.l, fl.bc.disk, s.store, ev);
    fl', c', halted', out := fl, c, halted, Refused;
    hide Real, Clean;
    if ev.Crash? {
      fl' := Boot(fl.bc.disk, fl.l, s.saved, ev.cuts);
      c', halted', out := NOBODY, false, Rebooted;
    } else if !halted && Can(c, fl.lh, fl.l, fl.bc.disk, ev) {
      NextIs(s, fl.l, ev);
      hide Can, Step;
      c' := Next(c, fl.lh, fl.l, ev);
      out := Act(fl, s, c, ev);
      halted' := out == Panic;
    }
  }

  lemma MatchFacts(fl: FsLog, s: Ideal)
    requires Match(fl, s)
    ensures Sized(s) && |s.store| == |fl.bc.disk| && Recoverable(fl.bc.disk, s.saved, fl.l)
    ensures !s.halted ==> fl.lh == s.lh
  {}

  lemma BootFollows(fl: FsLog, t: Image)
    requires Match(fl, Booted(t))
    ensures Follows(fl, NOBODY, false, Booted(t))
  {}

  // Every run of the processes on the real cache and log, from any disk that recovery can act on.
  method Run(d: Image, l: Layout, ghost t: Image, script: seq<Event>)
    returns (outs: seq<Out>, fl: FsLog, c: Client, halted: bool)
    requires Recoverable(d, t, l)
    ensures |outs| == |script| && forall i :: 0 <= i < |script| ==> outs[i] == Answer(Booted(t), l, script, i)
    ensures fresh(fl) && fl.l == l && Follows(fl, c, halted, After(Booted(t), l, script, |script|))
  {
    hide Match, Follows, Step, After, Answer, Booted, Recoverable;
    fl := Boot(d, l, t, []);
    BootFollows(fl, t);
    ghost var s := Booted(t);
    Start(s, l, script);
    outs, c, halted := [], NOBODY, false;
    while |outs| < |script|
      invariant |outs| <= |script| && fresh(fl) && fresh(fl.bc) && fl.l == l
      invariant forall i :: 0 <= i < |outs| ==> outs[i] == Answer(s, l, script, i)
      invariant Follows(fl, c, halted, After(s, l, script, |outs|))
    {
      Onward(s, l, script, |outs|);
      var out;
      fl, c, halted, out := Perform(fl, c, halted, After(s, l, script, |outs|), script[|outs|]);
      outs := outs + [out];
    }
  }

  lemma Start(s: Ideal, l: Layout, script: seq<Event>)
    requires Sized(s)
    ensures After(s, l, script, 0) == s
  {}

  lemma Onward(s: Ideal, l: Layout, script: seq<Event>, i: nat)
    requires Sized(s) && i < |script|
    ensures (After(s, l, script, i + 1), Answer(s, l, script, i)) == Step(After(s, l, script, i), l, script[i])
  {}
}
