/**
 Whole runs of a pipe: any interleaving of the stretches of any number of write() and read() calls, of close()
 and of kill(). The ring with its wrapping counters refines `Ideal`, a bounded queue; and about every run of
 `Ideal` it is proved that bytes come out as they went in, that a sleeping writer means a full queue, and
 exactly when a reader is left asleep with something to read.
 */
module PipeRun {
  import opened Pipe

  // A call in progress: the bytes to write and how far it has come, or how many to read.
  datatype Call = Writing(src: Bytes, i: nat) | Reading(n: nat)

  // readers and writers are those asleep.
  datatype Ideal = Ideal(queue: Bytes, calls: map<nat, Call>, readers: set<nat>, writers: set<nat>,
                         readopen: bool, writeopen: bool)

  datatype Event =
    | BeginWrite(pid: nat, src: Bytes)
    | BeginRead(pid: nat, n: nat)
    | Go(pid: nat, killed: seq<bool>, fault: seq<bool>)   // pid runs, up to a sleep or its return
    | Close(writable: bool)
    | Kill(pid: nat)

  datatype Out =
    | Skipped
    | Began
    | Wrote(bytes: Bytes, end: End)
    | Got(bytes: Bytes, count: nat, end: End)
    | Closed(freed: bool)
    | Woken

  predicate Awake(m: Ideal, pid: nat) { pid in m.calls && pid !in m.readers && pid !in m.writers }

  function Finish(calls: map<nat, Call>, pid: nat): (r: map<nat, Call>) { map q | q in calls && q != pid :: calls[q] }

  function GoWrite(m: Ideal, pid: nat, src: Bytes, i: nat, killed: seq<bool>, fault: seq<bool>): (r: (Ideal, Out))
    requires i <= |src|
  {
    var (queue, j, end) := Fill(m.queue, src, i, m.readopen, killed, fault);
    (m.(queue := queue,
        calls := if end.Asleep? then m.calls[pid := Writing(src, j)] else Finish(m.calls, pid),
        readers := if end.Failed? then m.readers else {},
        writers := if end.Asleep? then m.writers + {pid} else m.writers),
     Wrote(if i <= j <= |src| then src[i..j] else [], end))
  }

  function GoRead(m: Ideal, pid: nat, n: nat, killed: seq<bool>, fault: seq<bool>): (r: (Ideal, Out)) {
    if m.queue == [] && m.writeopen then
      if Says(killed, 0) then (m.(calls := Finish(m.calls, pid)), Got([], 0, Failed))
      else (m.(readers := m.readers + {pid}), Got([], 0, Asleep))
    else
      var (count, j) := Pour(|m.queue|, n, 0, fault);
      (m.(queue := m.queue[j..], calls := Finish(m.calls, pid), writers := {}), Got(m.queue[..j], count, Returned))
  }

  // What is not possible when it comes changes nothing; once both ends are closed the pipe is gone.
  function Step(m: Ideal, e: Event): (r: (Ideal, Out)) {
    if !m.readopen && !m.writeopen then (m, Skipped)
    else
      match e
      case BeginWrite(pid, src) =>
        if pid in m.calls then (m, Skipped) else (m.(calls := m.calls[pid := Writing(src, 0)]), Began)
      case BeginRead(pid, n) =>
        if pid in m.calls then (m, Skipped) else (m.(calls := m.calls[pid := Reading(n)]), Began)
      case Go(pid, killed, fault) =>
        if !Awake(m, pid) then (m, Skipped)
        else
          (match m.calls[pid]
           case Writing(src, i) => if i <= |src| then GoWrite(m, pid, src, i, killed, fault) else (m, Skipped)
           case Reading(n) => GoRead(m, pid, n, killed, fault))
      case Close(writable) =>
        if writable then (m.(writeopen := false, readers := {}), Closed(!m.readopen))
        else (m.(readopen := false, writers := {}), Closed(!m.writeopen))
      case Kill(pid) => (m.(readers := m.readers - {pid}, writers := m.writers - {pid}), Woken)
  }

  function After(m: Ideal, script: seq<Event>): (r: Ideal) {
    if script == [] then m else Step(After(m, script[..|script| - 1]), script[|script| - 1]).0
  }

  function Outs(m: Ideal, script: seq<Event>): (r: seq<Out>)
    ensures |r| == |script|
  {
    if script == [] then []
    else Outs(m, script[..|script| - 1]) + [Step(After(m, script[..|script| - 1]), script[|script| - 1]).1]
  }

  // ----- Bytes -----

  function PutBytes(o: Out): (r: Bytes) { if o.Wrote? then o.bytes else [] }

  function GotBytes(o: Out): (r: Bytes) { if o.Got? then o.bytes else [] }

  // Everything the writes put, and everything the reads took, in order.
  function AllPut(outs: seq<Out>): (r: Bytes) {
    if outs == [] then [] else AllPut(outs[..|outs| - 1]) + PutBytes(outs[|outs| - 1])
  }

  function AllGot(outs: seq<Out>): (r: Bytes) {
    if outs == [] then [] else AllGot(outs[..|outs| - 1]) + GotBytes(outs[|outs| - 1])
  }

  lemma OneMore(outs: seq<Out>, o: Out)
    ensures AllPut(outs + [o]) == AllPut(outs) + PutBytes(o) && AllGot(outs + [o]) == AllGot(outs) + GotBytes(o)
  {
    assert (outs + [o])[..|outs|] == outs;
  }

  lemma NextStep(m: Ideal, script: seq<Event>, n: nat)
    requires n < |script|
    ensures After(m, script[..n + 1]) == Step(After(m, script[..n]), script[n]).0
    ensures Outs(m, script[..n + 1]) == Outs(m, script[..n]) + [Step(After(m, script[..n]), script[n]).1]
  {
    hide Step;
    assert script[..n + 1][..n] == script[..n];
  }

  // What pid's current write call has put so far.
  function PutBy(script: seq<Event>, outs: seq<Out>, pid: nat): (r: Bytes)
    requires |script| == |outs|
  {
    if script == [] then []
    else
      var n := |script| - 1;
      if script[n].BeginWrite? && script[n].pid == pid && outs[n].Began? then []
      else PutBy(script[..n], outs[..n], pid) + if script[n].Go? && script[n].pid == pid then PutBytes(outs[n]) else []
  }

  ghost predicate WellFormed(m: Ideal) {
    && |m.queue| <= PIPESIZE && (m.writers != {} ==> |m.queue| == PIPESIZE && m.readopen)
    && (forall pid :: pid in m.calls && m.calls[pid].Writing? ==> m.calls[pid].i <= |m.calls[pid].src|)
  }

  lemma {:induction false} FillKeeps(queue: Bytes, src: Bytes, i: nat, open: bool, killed: seq<bool>, fault: seq<bool>)
    requires i <= |src| && |queue| <= PIPESIZE
    ensures var (q, j, end) := Fill(queue, src, i, open, killed, fault);
            && i <= j <= |src| && q == queue + src[i..j] && |q| <= PIPESIZE
            && (end.Asleep? ==> |q| == PIPESIZE && open) && (|queue| == PIPESIZE ==> j == i)
            && (forall k: nat :: i <= k < j ==> !Says(killed, k) && !Says(fault, k)) && (j == |src| ==> end.Returned?)
            && (j < |src| ==> if !open || Says(killed, j) then end.Failed? else if |q| == 512 then end.Asleep?
                              else end.Returned? && Says(fault, j))
    decreases |src| - i
  {
    var (q, j, end) := Fill(queue, src, i, open, killed, fault);
    if i < |src| && open && !Says(killed, i) && |queue| < PIPESIZE && !Says(fault, i) {
      FillKeeps(queue + [src[i]], src, i + 1, open, killed, fault);
      assert queue + [src[i]] + src[i + 1..j] == queue + src[i..j];
    }
  }

  // The bytes counted are those before the first fault, and the byte at the fault is taken and lost.
  lemma {:induction false} PourCounts(len: nat, n: nat, i: nat, fault: seq<bool>)
    requires i <= n && i <= len
    ensures var (count, j) := Pour(len, n, i, fault);
            && (forall k: nat :: i <= k < count ==> !Says(fault, k))
            && if count == n || count == len then j == count else j == count + 1 && Says(fault, count)
    decreases n - i
  {
    if i < n && i < len && !Says(fault, i) { PourCounts(len, n, i + 1, fault); }
  }

  lemma StepKeeps(m: Ideal, e: Event)
    requires WellFormed(m)
    ensures var (m', o) := Step(m, e); WellFormed(m') && m.queue + PutBytes(o) == GotBytes(o) + m'.queue
  {
    var (m', o) := Step(m, e);
    if e.Go? && Awake(m, e.pid) && m.calls[e.pid].Writing? {
      var c := m.calls[e.pid];
      FillKeeps(m.queue, c.src, c.i, m.readopen, e.killed, e.fault);
      hide Fill;
    }
  }

  // Over every run: the bytes that were in the queue and those put are those taken and those still there, in
  // order; the queue never exceeds 512 bytes; and a sleeping writer means a full queue that somebody can read.
  lemma {:induction false} EveryRunConserves(m: Ideal, script: seq<Event>)
    requires WellFormed(m)
    ensures var m', outs := After(m, script), Outs(m, script);
            WellFormed(m') && m.queue + AllPut(outs) == AllGot(outs) + m'.queue
  {
    hide Step, WellFormed, PutBytes, GotBytes;
    if script != [] {
      var n := |script| - 1;
      EveryRunConserves(m, script[..n]);
      var m1, outs, o := After(m, script[..n]), Outs(m, script[..n]), Step(After(m, script[..n]), script[n]).1;
      StepKeeps(m1, script[n]);
      OneMore(outs, o);
      var m' := After(m, script);
      hide AllPut, AllGot, After, Outs;
      calc {
        m.queue + (AllPut(outs) + PutBytes(o));
        (m.queue + AllPut(outs)) + PutBytes(o);
        AllGot(outs) + (m1.queue + PutBytes(o));
        AllGot(outs) + GotBytes(o) + m'.queue;
      }
    }
  }

  // A write call puts the bytes of its source, in order and without gaps.
  lemma {:induction false} CallsPutPrefixes(m: Ideal, script: seq<Event>, pid: nat)
    requires WellFormed(m) && m.calls == map[]
    ensures var m', outs := After(m, script), Outs(m, script);
            pid in m'.calls && m'.calls[pid].Writing? ==>
              m'.calls[pid].i <= |m'.calls[pid].src| && PutBy(script, outs, pid) == m'.calls[pid].src[..m'.calls[pid].i]
  {
    if script != [] {
      var n := |script| - 1;
      CallsPutPrefixes(m, script[..n], pid);
      EveryRunConserves(m, script[..n]);
      var m1, outs := After(m, script[..n]), Outs(m, script);
      assert outs[..n] == Outs(m, script[..n]);
      CallStep(m1, script[n], pid);
      hide Step;
    }
  }

  lemma CallStep(m: Ideal, e: Event, pid: nat)
    requires WellFormed(m)
    ensures var (m', o) := Step(m, e);
            && (pid in m'.calls && m'.calls[pid].Writing? ==>
                  if pid in m.calls then
                    && m.calls[pid].Writing? && m'.calls[pid].src == m.calls[pid].src
                    && m.calls[pid].i <= m'.calls[pid].i <= |m.calls[pid].src|
                    && m'.calls[pid].src[..m'.calls[pid].i]
                       == m.calls[pid].src[..m.calls[pid].i] + (if e.Go? && e.pid == pid then PutBytes(o) else [])
                    && !(e.BeginWrite? && e.pid == pid && o.Began?)
                  else e.BeginWrite? && e.pid == pid && o.Began? && m'.calls[pid].i == 0)
  {
    if e.Go? && Awake(m, e.pid) && m.calls[e.pid].Writing? {
      var c := m.calls[e.pid];
      FillKeeps(m.queue, c.src, c.i, m.readopen, e.killed, e.fault);
      hide Fill;
    }
  }

  // ----- Readers left asleep -----

  // A reader sleeps although there is something to read, or nothing will ever come.
  predicate Stranded(m: Ideal) { m.readers != {} && (m.queue != [] || !m.writeopen) }

  // A write call that fails after it has put bytes, while a reader sleeps.
  predicate Strands(m: Ideal, o: Out) { o.Wrote? && o.end.Failed? && o.bytes != [] && m.readers != {} }

  lemma StrandedStep(m: Ideal, e: Event)
    requires WellFormed(m) && !Stranded(m)
    ensures Stranded(Step(m, e).0) <==> Strands(m, Step(m, e).1)
  {
    if e.Go? && Awake(m, e.pid) && m.calls[e.pid].Writing? {
      var c := m.calls[e.pid];
      FillKeeps(m.queue, c.src, c.i, m.readopen, e.killed, e.fault);
      hide Fill;
    }
  }

  ghost predicate StrandedBy(m: Ideal, script: seq<Event>, n: nat)
    requires n <= |script|
  {
    exists t :: 0 <= t <= n && Stranded(After(m, script[..t]))
  }

  ghost predicate StrandingBy(m: Ideal, script: seq<Event>, n: nat)
    requires n <= |script|
  {
    exists t :: 0 <= t < n && Strands(After(m, script[..t]), Outs(m, script)[t])
  }

  // Over every run: some reader is at some time left asleep with something to read, or with no writer, exactly
  // if some write failed after putting bytes while a reader slept.
  lemma {:induction false} StrandedExactly(m: Ideal, script: seq<Event>, n: nat)
    requires WellFormed(m) && !Stranded(m) && n <= |script|
    ensures StrandedBy(m, script, n) <==> StrandingBy(m, script, n)
    decreases n
  {
    hide Stranded, Strands, Step, WellFormed, After, Outs;
    if n == 0 {
      AfterNone(m, script);
    } else {
      StrandedExactly(m, script, n - 1);
      var m1 := After(m, script[..n - 1]);
      AtStep(m, script, n - 1);
      EveryRunConserves(m, script[..n - 1]);
      if StrandedBy(m, script, n - 1) {
        var t :| 0 <= t <= n - 1 && Stranded(After(m, script[..t]));
        assert StrandedBy(m, script, n);
      } else {
        assert !Stranded(After(m, script[..n - 1]));
        StrandedStep(m1, script[n - 1]);
      }
    }
  }

  lemma AfterNone(m: Ideal, script: seq<Event>)
    ensures After(m, script[..0]) == m
  {}

  lemma {:induction false} AtStep(m: Ideal, script: seq<Event>, t: nat)
    requires t < |script|
    ensures After(m, script[..t + 1]) == Step(After(m, script[..t]), script[t]).0
    ensures Outs(m, script)[t] == Step(After(m, script[..t]), script[t]).1
    decreases |script|
  {
    hide Step;
    assert script[..t + 1][..t] == script[..t];
    var n := |script| - 1;
    if t < n {
      AtStep(m, script[..n], t);
      assert script[..n][..t] == script[..t];
    }
  }

  // ----- The ring follows the queue -----

  ghost predicate Reflects(p: Channel, m: Ideal, calls: map<nat, Call>)
    reads p, p.data
  {
    && p.Valid() && p.Contents() == m.queue && calls == m.calls && p.readers == m.readers && p.writers == m.writers
    && p.readopen == m.readopen && p.writeopen == m.writeopen && WellFormed(m)
  }

  method WentWriting(p: Channel, pid: nat, src: Bytes, i: nat, killed: seq<bool>, fault: seq<bool>, ghost m: Ideal,
                     calls: map<nat, Call>)
    returns (o: Out, calls': map<nat, Call>)
    requires Reflects(p, m, calls) && pid in calls && calls[pid] == Writing(src, i) && i <= |src|
    modifies p, p.data
    ensures o == GoWrite(m, pid, src, i, killed, fault).1
    ensures WellFormed(GoWrite(m, pid, src, i, killed, fault).0) ==>
              Reflects(p, GoWrite(m, pid, src, i, killed, fault).0, calls')
    ensures p.put == old(p.put) + PutBytes(o) && p.taken == old(p.taken)
  {
    hide Fill, Low32, Holds;
    FillKeeps(m.queue, src, i, m.readopen, killed, fault);
    var j, end := p.Write(pid, src, i, killed, fault);
    o := Wrote(src[i..j], end);
    calls' := if end.Asleep? then calls[pid := Writing(src, j)] else Finish(calls, pid);
  }

  method WentReading(p: Channel, pid: nat, n: nat, killed: seq<bool>, fault: seq<bool>, ghost m: Ideal,
                     calls: map<nat, Call>)
    returns (o: Out, calls': map<nat, Call>)
    requires Reflects(p, m, calls) && pid in calls && calls[pid] == Reading(n)
    modifies p
    ensures o == GoRead(m, pid, n, killed, fault).1
    ensures WellFormed(GoRead(m, pid, n, killed, fault).0) ==> Reflects(p, GoRead(m, pid, n, killed, fault).0, calls')
    ensures p.put == old(p.put) && p.taken == old(p.taken) + GotBytes(o)
  {
    hide Pour, Low32, Holds;
    EmptyTells(p);
    var count, got, end := p.Read(pid, n, Says(killed, 0), fault);
    o := Got(got, count, end);
    calls' := if end.Asleep? then calls else Finish(calls, pid);
  }

  lemma EmptyTells(p: Channel)
    requires p.Valid()
    ensures p.put == p.taken <==> p.Contents() == []
  {
    p.Conserved();
  }

  method Went(p: Channel, e: Event, ghost m: Ideal, calls: map<nat, Call>) returns (o: Out, calls': map<nat, Call>)
    requires Reflects(p, m, calls)
    modifies p, p.data
    ensures o == Step(m, e).1 && Reflects(p, Step(m, e).0, calls')
    ensures p.put == old(p.put) + PutBytes(o) && p.taken == old(p.taken) + GotBytes(o)
  {
    hide GoWrite, GoRead, Low32, Holds, WellFormed, PutBytes, GotBytes;
    StepKeeps(m, e);
    Nothing();
    o, calls' := Skipped, calls;
    if p.readopen || p.writeopen {
      match e {
        case BeginWrite(pid, src) => if pid !in calls { o, calls' := Began, calls[pid := Writing(src, 0)]; }
        case BeginRead(pid, n) => if pid !in calls { o, calls' := Began, calls[pid := Reading(n)]; }
        case Go(pid, killed, fault) =>
          if pid in calls && pid !in p.readers && pid !in p.writers {
            CallInside(m, pid);
            match calls[pid] {
              case Writing(src, i) => o, calls' := WentWriting(p, pid, src, i, killed, fault, m, calls);
              case Reading(n) => o, calls' := WentReading(p, pid, n, killed, fault, m, calls);
            }
          }
        case Close(writable) =>
          var freed := p.Close(writable);
          o := Closed(freed);
        case Kill(pid) =>
          p.Wake(pid);
          o := Woken;
      }
    }
  }

  lemma Nothing()
    ensures forall o: Out :: !o.Wrote? ==> PutBytes(o) == []
    ensures forall o: Out :: !o.Got? ==> GotBytes(o) == []
  {}

  lemma CallInside(m: Ideal, pid: nat)
    requires WellFormed(m) && pid in m.calls
    ensures m.calls[pid].Writing? ==> m.calls[pid].i <= |m.calls[pid].src|
  {}

  // The queue's view of a pipe that no call is using.
  ghost function Unused(p: Channel): (m: Ideal)
    requires p.Valid()
    reads p, p.data
  {
    Ideal(p.Contents(), map[], p.readers, p.writers, p.readopen, p.writeopen)
  }

  // Any run of a pipe is the run of the bounded queue: the same results, the same queue, the same sleepers. What
  // was put and taken is what the results say, so the bytes come out as they went in.
  method Run(p: Channel, script: seq<Event>) returns (outs: seq<Out>)
    requires p.Valid() && p.readers == p.writers == {}
    modifies p, p.data
    ensures p.Valid()
    ensures var m := After(old(Unused(p)), script);
            && outs == Outs(old(Unused(p)), script) && WellFormed(m)
            && p.Contents() == m.queue && p.readers == m.readers && p.writers == m.writers
            && p.readopen == m.readopen && p.writeopen == m.writeopen
    ensures p.put == old(p.put) + AllPut(outs) && p.taken == old(p.taken) + AllGot(outs)
    ensures old(p.Contents()) + AllPut(outs) == AllGot(outs) + p.Contents()
    ensures StrandedBy(old(Unused(p)), script, |script|) <==> StrandingBy(old(Unused(p)), script, |script|)
  {
    hide Step, Low32, Holds, WellFormed, StrandedBy, StrandingBy, Stranded, AllPut, AllGot, After, Outs;
    ghost var m0 := Unused(p);
    UnusedWellFormed(p);
    var calls;
    outs, calls := Play(p, script, m0);
    EveryRunConserves(m0, script);
    StrandedExactly(m0, script, |script|);
  }

  method Play(p: Channel, script: seq<Event>, ghost m0: Ideal) returns (outs: seq<Out>, calls: map<nat, Call>)
    requires Reflects(p, m0, map[])
    modifies p, p.data
    ensures Reflects(p, After(m0, script), calls) && outs == Outs(m0, script)
    ensures p.put == old(p.put) + AllPut(outs) && p.taken == old(p.taken) + AllGot(outs)
  {
    hide Step, Low32, Holds, WellFormed, AllPut, AllGot, After, Outs, PutBytes, GotBytes, Reflects;
    AllNone(m0, script);
    ghost var m := m0;
    calls, outs := map[], [];
    var t := 0;
    while t < |script|
      invariant 0 <= t <= |script| && Reflects(p, m, calls) && m == After(m0, script[..t])
                && outs == Outs(m0, script[..t])
      invariant p.put == old(p.put) + AllPut(outs) && p.taken == old(p.taken) + AllGot(outs)
    {
      var o;
      o, calls := Went(p, script[t], m, calls);
      NextStep(m0, script, t);
      OneMore(outs, o);
      m, outs := Step(m, script[t]).0, outs + [o];
      t := t + 1;
    }
    assert script[..t] == script;
  }

  lemma AllNone(m: Ideal, script: seq<Event>)
    ensures After(m, script[..0]) == m && Outs(m, script[..0]) == [] && AllPut([]) == AllGot([]) == []
  {}

  lemma UnusedWellFormed(p: Channel)
    requires p.Valid() && p.readers == p.writers == {}
    ensures WellFormed(Unused(p)) && !Stranded(Unused(p))
  {
    p.Conserved();
  }
}
