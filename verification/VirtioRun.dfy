/**
 Whole runs of the disk driver and its device: any interleaving of requests, device steps in any order,
 interrupts and returns. The driver with its descriptors and rings refines `Ideal`, a machine with nothing but
 the requests in flight, one for each buffer; and in every run of `Ideal` each request that returns was carried
 out by exactly one transfer, its own.
 */
module VirtioRun {
  import opened Virtio

  datatype Event =
    | Fill(b: nat, bytes: Bytes)                  // the holder of a buffer writes into it
    | Submit(b: nat, blockno: nat, write: bool)   // virtio_disk_rw up to its wait
    | Take                                        // the device looks at the available ring
    | Perform(b: nat)                             // the device completes a request it took
    | Interrupt                                   // one turn of virtio_disk_intr
    | Return(b: nat)                              // virtio_disk_rw goes on after its wait

  // What comes of an event. A request is known by the place of its Submit in the script.
  datatype Out = Idle | Accepted | Done(b: nat) | Answered(id: nat, bytes: Bytes)

  // ----- The ideal machine -----

  datatype Mode = Waiting | Held | Finished | Noticed

  datatype Req = Req(id: nat, write: bool, sector: nat, mode: Mode)

  // A transfer, and the request it was made for.
  type Entry = (nat, Transfer)

  datatype Ideal = Ideal(reqs: map<nat, Req>, posted: seq<nat>, done: seq<nat>,
                         data: map<nat, Bytes>, store: Medium, history: seq<Entry>)

  function SetMode(m: Ideal, b: nat, mode: Mode): (r: map<nat, Req>)
    requires b in m.reqs
  {
    m.reqs[b := m.reqs[b].(mode := mode)]
  }

  predicate InMode(m: Ideal, b: nat, mode: Mode) { b in m.reqs && m.reqs[b].mode == mode }

  predicate Accepts(m: Ideal, b: nat) { b in m.data && b !in m.reqs && |m.reqs| < 2 }

  function Bytes0(m: Ideal, b: nat): (r: Bytes)
    requires b in m.reqs && b in m.data
  {
    if m.reqs[b].write then m.data[b] else OnMedium(m.store, m.reqs[b].sector * SECTOR, BSIZE)
  }

  function Carry(m: Ideal, b: nat): (r: Ideal)
    requires b in m.reqs && b in m.data
  {
    var q, bytes := m.reqs[b], Bytes0(m, b);
    m.(reqs := SetMode(m, b, Finished), done := m.done + [b], data := m.data[b := bytes],
       store := if q.write then Put(m.store, q.sector * SECTOR, bytes) else m.store,
       history := m.history + [(q.id, Transfer(b, q.write, q.sector, bytes))])
  }

  function Without(reqs: map<nat, Req>, b: nat): (r: map<nat, Req>) { map c | c in reqs && c != b :: reqs[c] }

  // Event number i. What is not possible when it comes changes nothing.
  function Step(m: Ideal, i: nat, e: Event): (r: (Ideal, Out)) {
    match e
    case Fill(b, bytes) =>
      if b in m.data && b !in m.reqs then (m.(data := m.data[b := bytes]), Out.Done(b)) else (m, Idle)
    case Submit(b, blockno, write) =>
      if Accepts(m, b) then
        (m.(reqs := m.reqs[b := Req(i, write, Sector(blockno), Waiting)], posted := m.posted + [b]), Accepted)
      else (m, Idle)
    case Take =>
      if m.posted != [] && m.posted[0] in m.reqs then
        (m.(reqs := SetMode(m, m.posted[0], Held), posted := m.posted[1..]), Out.Done(m.posted[0]))
      else (m, Idle)
    case Perform(b) =>
      if InMode(m, b, Held) && b in m.data then (Carry(m, b), Out.Done(b)) else (m, Idle)
    case Interrupt =>
      if m.done != [] && m.done[0] in m.reqs then
        (m.(reqs := SetMode(m, m.done[0], Noticed), done := m.done[1..]), Out.Done(m.done[0]))
      else (m, Idle)
    case Return(b) =>
      if InMode(m, b, Noticed) && b in m.data then
        (m.(reqs := Without(m.reqs, b)), Answered(m.reqs[b].id, m.data[b]))
      else (m, Idle)
  }

  function Start(data: map<nat, Bytes>, store: Medium): (m: Ideal) { Ideal(map[], [], [], data, store, []) }

  function After(m: Ideal, script: seq<Event>): (r: Ideal) {
    if script == [] then m else Step(After(m, script[..|script| - 1]), |script| - 1, script[|script| - 1]).0
  }

  function Outs(m: Ideal, script: seq<Event>): (r: seq<Out>)
    ensures |r| == |script|
  {
    if script == [] then []
    else
      var n := |script| - 1;
      Outs(m, script[..n]) + [Step(After(m, script[..n]), n, script[n]).1]
  }

  // ----- What every run of the ideal machine keeps -----

  // Request j is the accepted Submit of buffer b with this direction and sector.
  predicate Asks(script: seq<Event>, outs: seq<Out>, j: nat, b: nat, write: bool, sector: nat) {
    && j < |script| == |outs| && outs[j].Accepted?
    && script[j].Submit? && script[j].b == b && script[j].write == write && Sector(script[j].blockno) == sector
  }

  ghost predicate Made(history: seq<Entry>, j: nat, t: Transfer) {
    exists k :: 0 <= k < |history| && history[k] == (j, t)
  }

  ghost predicate Unmade(history: seq<Entry>, j: nat) { forall k :: 0 <= k < |history| ==> history[k].0 != j }

  // Every transfer was asked for, and no request was carried out twice.
  ghost predicate HistoryOk(script: seq<Event>, outs: seq<Out>, history: seq<Entry>) {
    && (forall k :: 0 <= k < |history| ==>
          var (j, t) := history[k]; Asks(script, outs, j, t.buf, t.write, t.sector))
    && (forall k, l :: 0 <= k < l < |history| ==> history[k].0 != history[l].0)
  }

  // A request in flight has been carried out exactly when the device is done with it, and its buffer then holds
  // the bytes transferred.
  ghost predicate ReqOk(script: seq<Event>, outs: seq<Out>, m: Ideal, b: nat)
    requires b in m.reqs
  {
    var q := m.reqs[b];
    && b in m.data && Asks(script, outs, q.id, b, q.write, q.sector)
    && (q.mode.Waiting? || q.mode.Held? ==> Unmade(m.history, q.id))
    && (q.mode.Finished? || q.mode.Noticed? ==> Made(m.history, q.id, Transfer(b, q.write, q.sector, m.data[b])))
    && forall i :: 0 <= i < |outs| && outs[i].Answered? ==> outs[i].id != q.id
  }

  // Answer number i goes to an earlier request for the same buffer, with the bytes of that request's transfer.
  ghost predicate AnswerOk(script: seq<Event>, outs: seq<Out>, history: seq<Entry>, i: nat)
    requires i < |outs| && outs[i].Answered?
  {
    && i < |script| && script[i].Return? && outs[i].id < i
    && exists write, sector ::
         && Asks(script, outs, outs[i].id, script[i].b, write, sector)
         && Made(history, outs[i].id, Transfer(script[i].b, write, sector, outs[i].bytes))
  }

  ghost predicate AnswersOk(script: seq<Event>, outs: seq<Out>, history: seq<Entry>) {
    && (forall i :: 0 <= i < |outs| && outs[i].Answered? ==> AnswerOk(script, outs, history, i))
    && (forall i, l :: 0 <= i < l < |outs| && outs[i].Answered? && outs[l].Answered? ==> outs[i].id != outs[l].id)
  }

  ghost predicate AnsweredAt(outs: seq<Out>, j: nat) {
    exists i :: 0 <= i < |outs| && outs[i].Answered? && outs[i].id == j
  }

  predicate InFlight(script: seq<Event>, m: Ideal, j: nat) {
    j < |script| && script[j].Submit? && script[j].b in m.reqs && m.reqs[script[j].b].id == j
  }

  // An accepted request is answered, or still in flight.
  ghost predicate Accounted(script: seq<Event>, outs: seq<Out>, m: Ideal) {
    forall j :: 0 <= j < |outs| && outs[j].Accepted? ==> AnsweredAt(outs, j) || InFlight(script, m, j)
  }

  ghost predicate Good(script: seq<Event>, outs: seq<Out>, m: Ideal) {
    && |outs| == |script| && (forall j :: 0 <= j < |outs| && outs[j].Accepted? ==> script[j].Submit?)
    && (forall b :: b in m.reqs ==> ReqOk(script, outs, m, b))
    && HistoryOk(script, outs, m.history) && AnswersOk(script, outs, m.history) && Accounted(script, outs, m)
  }

  // ----- One more event -----

  lemma AsksMore(script: seq<Event>, outs: seq<Out>, e: Event, o: Out, j: nat, b: nat, write: bool, sector: nat)
    requires Asks(script, outs, j, b, write, sector)
    ensures Asks(script + [e], outs + [o], j, b, write, sector) && j < |script|
  {}

  // The old requests, transfers and answers, after an event that is not an answer to them.
  lemma KeptHistory(script: seq<Event>, outs: seq<Out>, history: seq<Entry>, e: Event, o: Out)
    requires HistoryOk(script, outs, history)
    ensures HistoryOk(script + [e], outs + [o], history)
  {
    hide Asks;
    forall k | 0 <= k < |history|
      ensures var (j, t) := history[k]; Asks(script + [e], outs + [o], j, t.buf, t.write, t.sector)
    {
      var (j, t) := history[k];
      AsksMore(script, outs, e, o, j, t.buf, t.write, t.sector);
    }
  }

  lemma KeptAnswer(script: seq<Event>, outs: seq<Out>, history: seq<Entry>, e: Event, o: Out, i: nat)
    requires |script| == |outs| && i < |outs| && outs[i].Answered? && AnswerOk(script, outs, history, i)
    ensures AnswerOk(script + [e], outs + [o], history, i)
  {
    var write, sector :| Asks(script, outs, outs[i].id, script[i].b, write, sector)
                         && Made(history, outs[i].id, Transfer(script[i].b, write, sector, outs[i].bytes));
    AsksMore(script, outs, e, o, outs[i].id, script[i].b, write, sector);
  }

  lemma KeptAnswers(script: seq<Event>, outs: seq<Out>, history: seq<Entry>, e: Event, o: Out)
    requires AnswersOk(script, outs, history) && |script| == |outs| && !o.Answered?
    ensures AnswersOk(script + [e], outs + [o], history)
  {
    var script', outs' := script + [e], outs + [o];
    forall i | 0 <= i < |outs'| && outs'[i].Answered? ensures AnswerOk(script', outs', history, i) {
      KeptAnswer(script, outs, history, e, o, i);
    }
  }

  lemma AnswersOfMore(script: seq<Event>, outs: seq<Out>, history: seq<Entry>, x: Entry)
    requires AnswersOk(script, outs, history)
    ensures AnswersOk(script, outs, history + [x])
  {
    forall i | 0 <= i < |outs| && outs[i].Answered? ensures AnswerOk(script, outs, history + [x], i) {
      assert AnswerOk(script, outs, history, i);
      forall j, t | Made(history, j, t) ensures Made(history + [x], j, t) { MadeMore(history, x, j, t); }
    }
  }

  lemma MadeMore(history: seq<Entry>, x: Entry, j: nat, t: Transfer)
    requires Made(history, j, t)
    ensures Made(history + [x], j, t)
  {
    var k :| 0 <= k < |history| && history[k] == (j, t);
    assert (history + [x])[k] == (j, t);
  }

  lemma KeptReq(script: seq<Event>, outs: seq<Out>, m: Ideal, e: Event, o: Out, b: nat)
    requires b in m.reqs && ReqOk(script, outs, m, b) && (o.Answered? ==> o.id != m.reqs[b].id)
    ensures ReqOk(script + [e], outs + [o], m, b)
  {}

  lemma KeptAccounted(script: seq<Event>, outs: seq<Out>, m: Ideal, e: Event, o: Out)
    requires Accounted(script, outs, m) && |script| == |outs| && !o.Accepted?
    ensures Accounted(script + [e], outs + [o], m)
  {
    var outs' := outs + [o];
    forall j | 0 <= j < |outs'| && outs'[j].Accepted?
      ensures AnsweredAt(outs', j) || InFlight(script + [e], m, j)
    {
      if AnsweredAt(outs, j) {
        var i :| 0 <= i < |outs| && outs[i].Answered? && outs[i].id == j;
        assert outs'[i] == outs[i];
      }
    }
  }

  // Nothing changes but the record.
  lemma IdleStep(script: seq<Event>, outs: seq<Out>, m: Ideal, e: Event, o: Out)
    requires Good(script, outs, m) && (o.Idle? || o.Done?)
    ensures Good(script + [e], outs + [o], m)
  {
    hide ReqOk, HistoryOk, AnswersOk, Accounted;
    KeptHistory(script, outs, m.history, e, o);
    KeptAnswers(script, outs, m.history, e, o);
    KeptAccounted(script, outs, m, e, o);
    forall b | b in m.reqs ensures ReqOk(script + [e], outs + [o], m, b) { KeptReq(script, outs, m, e, o, b); }
  }

  // A request moves on without a transfer.
  lemma ModeStep(script: seq<Event>, outs: seq<Out>, m: Ideal, b: nat, mode: Mode, m': Ideal)
    requires Good(script, outs, m) && b in m.reqs
    requires (m.reqs[b].mode.Waiting? && mode.Held?) || (m.reqs[b].mode.Finished? && mode.Noticed?)
    requires m'.reqs == SetMode(m, b, mode) && m'.data == m.data && m'.history == m.history
    ensures Good(script, outs, m')
  {
    hide HistoryOk, AnswersOk;
    forall c | c in m'.reqs ensures ReqOk(script, outs, m', c) { assert ReqOk(script, outs, m, c); }
    hide ReqOk;
  }

  lemma SubmitStep(script: seq<Event>, outs: seq<Out>, m: Ideal, e: Event, m': Ideal)
    requires Good(script, outs, m) && e.Submit? && Accepts(m, e.b)
    requires m' == Step(m, |script|, e).0
    ensures Good(script + [e], outs + [Accepted], m')
  {
    var script', outs', b := script + [e], outs + [Accepted], e.b;
    KeptHistory(script, outs, m.history, e, Accepted);
    KeptAnswers(script, outs, m.history, e, Accepted);
    forall c | c in m'.reqs ensures ReqOk(script', outs', m', c) {
      if c != b {
        KeptReq(script, outs, m, e, Accepted, c);
      } else {
        NewId(script, outs, m);
      }
    }
    AccountedSubmit(script, outs, m, e, m');
    hide ReqOk, HistoryOk, AnswersOk, Accounted;
  }

  lemma AccountedSubmit(script: seq<Event>, outs: seq<Out>, m: Ideal, e: Event, m': Ideal)
    requires Accounted(script, outs, m) && |script| == |outs| && e.Submit? && Accepts(m, e.b)
    requires m' == Step(m, |script|, e).0
    ensures Accounted(script + [e], outs + [Accepted], m')
  {
    var script', outs' := script + [e], outs + [Accepted];
    forall j | 0 <= j < |outs'| && outs'[j].Accepted?
      ensures AnsweredAt(outs', j) || InFlight(script', m', j)
    {
      if j < |outs| && AnsweredAt(outs, j) {
        var i :| 0 <= i < |outs| && outs[i].Answered? && outs[i].id == j;
        assert outs'[i] == outs[i];
      }
    }
  }

  // The number of a new event is no request's yet.
  lemma NewId(script: seq<Event>, outs: seq<Out>, m: Ideal)
    requires Good(script, outs, m)
    ensures Unmade(m.history, |script|) && forall i :: 0 <= i < |outs| && outs[i].Answered? ==> outs[i].id != |script|
  {
    forall i | 0 <= i < |outs| && outs[i].Answered? ensures outs[i].id != |script| {
      assert AnswerOk(script, outs, m.history, i);
    }
    hide ReqOk, AnswersOk, Accounted;
  }

  lemma PerformStep(script: seq<Event>, outs: seq<Out>, m: Ideal, b: nat)
    requires Good(script, outs, m) && InMode(m, b, Held) && b in m.data
    ensures Good(script, outs, Carry(m, b))
  {
    var m', q := Carry(m, b), m.reqs[b];
    var x := (q.id, Transfer(b, q.write, q.sector, Bytes0(m, b)));
    assert ReqOk(script, outs, m, b);
    AnswersOfMore(script, outs, m.history, x);
    forall c | c in m'.reqs ensures ReqOk(script, outs, m', c) {
      assert ReqOk(script, outs, m, c);
      if c == b {
        assert m'.history[|m.history|] == x;
      } else {
        CarryOther(script, outs, m, b, c, x);
      }
    }
    hide ReqOk, AnswersOk;
  }

  lemma CarryOther(script: seq<Event>, outs: seq<Out>, m: Ideal, b: nat, c: nat, x: Entry)
    requires b in m.reqs && c in m.reqs && b != c && ReqOk(script, outs, m, b) && ReqOk(script, outs, m, c)
    requires x.0 == m.reqs[b].id
    ensures m.reqs[c].id != x.0
    ensures Unmade(m.history, m.reqs[c].id) ==> Unmade(m.history + [x], m.reqs[c].id)
    ensures forall t :: Made(m.history, m.reqs[c].id, t) ==> Made(m.history + [x], m.reqs[c].id, t)
  {
    forall t | Made(m.history, m.reqs[c].id, t) ensures Made(m.history + [x], m.reqs[c].id, t) {
      MadeMore(m.history, x, m.reqs[c].id, t);
    }
  }

  lemma ReturnStep(script: seq<Event>, outs: seq<Out>, m: Ideal, b: nat)
    requires Good(script, outs, m) && InMode(m, b, Noticed) && b in m.data
    ensures Good(script + [Return(b)], outs + [Answered(m.reqs[b].id, m.data[b])], m.(reqs := Without(m.reqs, b)))
  {
    var q, o := m.reqs[b], Answered(m.reqs[b].id, m.data[b]);
    var e, m' := Return(b), m.(reqs := Without(m.reqs, b));
    var script', outs' := script + [e], outs + [o];
    assert ReqOk(script, outs, m, b);
    KeptHistory(script, outs, m.history, e, o);
    forall c | c in m'.reqs ensures ReqOk(script', outs', m', c) {
      assert ReqOk(script, outs, m, c);
      KeptReq(script, outs, m, e, o, c);
    }
    forall i | 0 <= i < |outs'| && outs'[i].Answered? ensures AnswerOk(script', outs', m.history, i) {
      if i < |outs| {
        KeptAnswer(script, outs, m.history, e, o, i);
      } else {
        AsksMore(script, outs, e, o, q.id, b, q.write, q.sector);
        assert Asks(script', outs', outs'[i].id, script'[i].b, q.write, q.sector);
        assert Made(m.history, outs'[i].id, Transfer(script'[i].b, q.write, q.sector, outs'[i].bytes));
      }
    }
    AccountedReturn(script, outs, m, b);
    hide ReqOk, HistoryOk, Accounted;
  }

  lemma AccountedReturn(script: seq<Event>, outs: seq<Out>, m: Ideal, b: nat)
    requires Good(script, outs, m) && b in m.reqs && b in m.data
    ensures Accounted(script + [Return(b)], outs + [Answered(m.reqs[b].id, m.data[b])], m.(reqs := Without(m.reqs, b)))
  {
    var o, m' := Answered(m.reqs[b].id, m.data[b]), m.(reqs := Without(m.reqs, b));
    var script', outs' := script + [Return(b)], outs + [o];
    forall j | 0 <= j < |outs'| && outs'[j].Accepted?
      ensures AnsweredAt(outs', j) || InFlight(script', m', j)
    {
      if AnsweredAt(outs, j) {
        var i :| 0 <= i < |outs| && outs[i].Answered? && outs[i].id == j;
        assert outs'[i] == outs[i];
      } else if j == o.id {
        assert outs'[|outs|] == o;
      }
    }
  }

  lemma FillStep(script: seq<Event>, outs: seq<Out>, m: Ideal, b: nat, bytes: Bytes)
    requires Good(script, outs, m) && b !in m.reqs
    ensures Good(script, outs, m.(data := m.data[b := bytes]))
  {
    var m' := m.(data := m.data[b := bytes]);
    forall c | c in m'.reqs ensures ReqOk(script, outs, m', c) { assert ReqOk(script, outs, m, c); }
    hide ReqOk, HistoryOk, AnswersOk;
  }

  lemma StepGood(script: seq<Event>, outs: seq<Out>, m: Ideal, e: Event)
    requires Good(script, outs, m) && QueuesOk(m)
    ensures var (m', o) := Step(m, |script|, e); Good(script + [e], outs + [o], m') && QueuesOk(m')
  {
    hide Good;
    var (m', o) := Step(m, |script|, e);
    match e
    case Fill(b, bytes) =>
      if b in m.data && b !in m.reqs { FillStep(script, outs, m, b, bytes); }
      IdleStep(script, outs, m', e, o);
    case Submit(b, _, _) =>
      if Accepts(m, b) { SubmitStep(script, outs, m, e, m'); } else { IdleStep(script, outs, m, e, o); }
    case Take =>
      if m.posted != [] { ModeStep(script, outs, m, m.posted[0], Held, m'); }
      IdleStep(script, outs, m', e, o);
    case Perform(b) =>
      if InMode(m, b, Held) && b in m.data { PerformStep(script, outs, m, b); }
      IdleStep(script, outs, m', e, o);
    case Interrupt =>
      if m.done != [] { ModeStep(script, outs, m, m.done[0], Noticed, m'); }
      IdleStep(script, outs, m', e, o);
    case Return(b) =>
      if InMode(m, b, Noticed) && b in m.data {
        ReturnStep(script, outs, m, b);
      } else {
        IdleStep(script, outs, m, e, o);
      }
  }

  ghost predicate Queue(m: Ideal, q: seq<nat>, mode: Mode) {
    && (forall k :: 0 <= k < |q| ==> InMode(m, q[k], mode))
    && (forall k, l :: 0 <= k < l < |q| ==> q[k] != q[l])
  }

  ghost predicate QueuesOk(m: Ideal) { Queue(m, m.posted, Waiting) && Queue(m, m.done, Finished) }

  lemma StartGood(data: map<nat, Bytes>, store: Medium)
    ensures Good([], [], Start(data, store)) && QueuesOk(Start(data, store))
  {}

  // In every run of the ideal machine the record is in order.
  lemma {:induction false} EveryRunGood(data: map<nat, Bytes>, store: Medium, script: seq<Event>)
    ensures Good(script, Outs(Start(data, store), script), After(Start(data, store), script))
    ensures QueuesOk(After(Start(data, store), script))
  {
    hide Good, QueuesOk, Step;
    if script == [] {
      StartGood(data, store);
    } else {
      var n := |script| - 1;
      EveryRunGood(data, store, script[..n]);
      StepGood(script[..n], Outs(Start(data, store), script[..n]), After(Start(data, store), script[..n]), script[n]);
      assert script[..n] + [script[n]] == script;
    }
  }

  // ----- What a write sends -----

  // The bytes x are those buffer b held when event j came.
  ghost predicate HeldAt(m0: Ideal, script: seq<Event>, j: nat, b: nat, x: Bytes) {
    j <= |script| && var data := After(m0, script[..j]).data; b in data && data[b] == x
  }

  // A request that the device has not carried out still has the bytes it was made with, and a write that was carried
  // out put those bytes on the medium.
  ghost predicate Sent(m0: Ideal, script: seq<Event>, m: Ideal) {
    && (forall b :: Open(m, b) ==> b in m.data && HeldAt(m0, script, m.reqs[b].id, b, m.data[b]))
    && (forall k :: 0 <= k < |m.history| && m.history[k].1.write ==>
          HeldAt(m0, script, m.history[k].0, m.history[k].1.buf, m.history[k].1.bytes))
  }

  lemma HeldLater(m0: Ideal, script: seq<Event>, e: Event)
    ensures forall j, b, x :: HeldAt(m0, script, j, b, x) ==> HeldAt(m0, script + [e], j, b, x)
  {
    forall j: nat | j <= |script| ensures (script + [e])[..j] == script[..j] {}
  }

  predicate Open(m: Ideal, b: nat) { InMode(m, b, Waiting) || InMode(m, b, Held) }

  // What a step does to the open requests and to the transfers.
  lemma StepOpen(m: Ideal, i: nat, e: Event)
    requires QueuesOk(m)
    ensures var m' := Step(m, i, e).0;
            && (forall b :: Open(m', b) ==> Open(m, b) || (m'.reqs[b].id == i && b in m.data))
            && (forall b :: Open(m', b) && Open(m, b) ==> m'.reqs[b].id == m.reqs[b].id)
            && (forall b :: Open(m', b) && b in m.data ==> b in m'.data && m'.data[b] == m.data[b])
            && (m'.history == m.history || Carried(m, m'))
  {
    match e
    case Submit(b, _, _) => hide Sector;
    case Perform(b) => hide QueuesOk;
    case _ =>
  }

  ghost predicate Carried(m: Ideal, m': Ideal) {
    exists b :: Open(m, b) && b in m.data && CarriedFor(m, m', b)
  }

  ghost predicate CarriedFor(m: Ideal, m': Ideal, b: nat)
    requires b in m.reqs && b in m.data
  {
    var q := m.reqs[b];
    m'.history == m.history + [(q.id, Transfer(b, q.write, q.sector, Bytes0(m, b)))]
  }

  lemma StepSent(m0: Ideal, script: seq<Event>, m: Ideal, e: Event)
    requires m == After(m0, script) && Sent(m0, script, m) && QueuesOk(m)
    ensures Sent(m0, script + [e], Step(m, |script|, e).0)
  {
    hide After, Step, QueuesOk, HeldAt;
    var m' := Step(m, |script|, e).0;
    StepOpen(m, |script|, e);
    HeldLater(m0, script, e);
    HeldNow(m0, script, e);
    forall b | Open(m', b) ensures b in m'.data && HeldAt(m0, script + [e], m'.reqs[b].id, b, m'.data[b]) {
      if Open(m, b) { assert b in m.data && HeldAt(m0, script, m.reqs[b].id, b, m.data[b]); }
    }
    if m'.history != m.history {
      var b :| Open(m, b) && b in m.data && CarriedFor(m, m', b);
      assert HeldAt(m0, script, m.reqs[b].id, b, m.data[b]);
    }
  }

  lemma HeldNow(m0: Ideal, script: seq<Event>, e: Event)
    ensures var m := After(m0, script);
            forall b :: b in m.data ==> HeldAt(m0, script + [e], |script|, b, m.data[b])
  {
    assert (script + [e])[..|script|] == script;
  }

  lemma StartSent(data: map<nat, Bytes>, store: Medium)
    ensures Sent(Start(data, store), [], After(Start(data, store), []))
  {}

  // In every run a write puts on the medium the bytes its buffer held when the write was asked for.
  lemma {:induction false} WritesSendWhatWasAsked(data: map<nat, Bytes>, store: Medium, script: seq<Event>)
    ensures Sent(Start(data, store), script, After(Start(data, store), script))
  {
    hide Sent, QueuesOk, Step, Good;
    if script == [] {
      StartSent(data, store);
    } else {
      var n := |script| - 1;
      WritesSendWhatWasAsked(data, store, script[..n]);
      EveryRunGood(data, store, script[..n]);
      StepSent(Start(data, store), script[..n], After(Start(data, store), script[..n]), script[n]);
      assert script[..n] + [script[n]] == script;
    }
  }

  // ----- The driver follows the ideal machine -----

  predicate Is(p: Phase, mode: Mode) {
    match mode
    case Waiting => p.Posted?
    case Held => p.Taken?
    case Finished => p.Done?
    case Noticed => p.Seen?
  }

  predicate Same(c: Chain, b: nat, q: Req) {
    c.buf == b && c.write == q.write && c.sector == q.sector && Is(c.phase, q.mode)
  }

  // The ring's heads hs are those of the requests for the buffers q.
  ghost predicate Heads(flights: map<nat, nat>, q: seq<nat>, hs: seq<nat>) {
    |q| == |hs| && forall k :: 0 <= k < |q| ==> q[k] in flights && hs[k] == flights[q[k]]
  }

  // flights: where the request for a buffer is.
  ghost predicate Match(chains: map<nat, Chain>, posted: seq<nat>, done: seq<nat>, m: Ideal, flights: map<nat, nat>) {
    && flights.Keys == m.reqs.Keys
    && (forall b :: b in flights ==> flights[b] in chains && Same(chains[flights[b]], b, m.reqs[b]))
    && (forall h :: h in chains ==> chains[h].buf in flights && flights[chains[h].buf] == h)
    && Heads(flights, m.posted, posted) && Heads(flights, m.done, done)
  }

  lemma MatchSize(chains: map<nat, Chain>, posted: seq<nat>, done: seq<nat>, m: Ideal, flights: map<nat, nat>)
    requires Match(chains, posted, done, m, flights)
    ensures |chains| == |m.reqs| && flights.Keys == m.reqs.Keys
  {
    SameSize(chains, flights);
    assert |chains| == |flights.Keys| && |m.reqs| == |m.reqs.Keys|;
  }

  lemma {:induction false} SameSize(chains: map<nat, Chain>, flights: map<nat, nat>)
    requires forall b :: b in flights ==> flights[b] in chains && chains[flights[b]].buf == b
    requires forall h :: h in chains ==> chains[h].buf in flights && flights[chains[h].buf] == h
    ensures |chains| == |flights.Keys|
    decreases |chains|
  {
    if chains == map[] {
      assert flights.Keys == {};
    } else {
      var h :| h in chains;
      var b := chains[h].buf;
      var flights' := map c | c in flights && c != b :: flights[c];
      DropCount(chains, h);
      SameSize(Drop(chains, h), flights');
      assert flights.Keys == flights'.Keys + {b};
    }
  }

  lemma SubmitMatch(chains: map<nat, Chain>, chains': map<nat, Chain>, posted: seq<nat>, done: seq<nat>, m: Ideal,
                    flights: map<nat, nat>, i: nat, e: Event, h: nat)
    requires Match(chains, posted, done, m, flights) && e.Submit? && Accepts(m, e.b)
    requires Adds(chains, chains', h, e.b, e.write, Sector(e.blockno))
    ensures Match(chains', posted + [h], done, Step(m, i, e).0, flights[e.b := h])
  {
    var mid, tail :| chains' == chains[h := Chain(h, mid, tail, e.b, e.write, Sector(e.blockno), Posted)];
    assert h !in chains;
    hide Sector, Adds;
    var m' := Step(m, i, e).0;
    assert m'.reqs == m.reqs[e.b := Req(i, e.write, Sector(e.blockno), Waiting)];
    assert m'.posted == m.posted + [e.b] && m'.done == m.done;
    hide Step;
    NewMatch(chains, posted, done, m, flights, e.b, h, chains'[h], m');
  }

  lemma NewMatch(chains: map<nat, Chain>, posted: seq<nat>, done: seq<nat>, m: Ideal, flights: map<nat, nat>, b: nat,
                 h: nat, c: Chain, m': Ideal)
    requires Match(chains, posted, done, m, flights) && h !in chains && b !in m.reqs
    requires b in m'.reqs && m'.reqs == m.reqs[b := m'.reqs[b]] && Same(c, b, m'.reqs[b])
             && m'.posted == m.posted + [b] && m'.done == m.done
    ensures Match(chains[h := c], posted + [h], done, m', flights[b := h])
  {
    var chains', flights' := chains[h := c], flights[b := h];
    HeadsLater(flights, m.posted, posted, b, h);
    HeadsLater(flights, m.done, done, b, h);
    HeadsMore(flights', m.posted, posted, b);
    hide Heads;
    forall x | x in flights'
      ensures x in m'.reqs && flights'[x] in chains' && Same(chains'[flights'[x]], x, m'.reqs[x])
    {
      if x != b { assert Same(chains[flights[x]], x, m.reqs[x]); }
    }
    hide Same;
  }

  lemma HeadsLater(flights: map<nat, nat>, q: seq<nat>, hs: seq<nat>, b: nat, h: nat)
    requires Heads(flights, q, hs) && b !in flights
    ensures Heads(flights[b := h], q, hs)
  {}

  // The request at h moves on, and with it the queues.
  lemma MoveMatch(chains: map<nat, Chain>, posted: seq<nat>, done: seq<nat>, m: Ideal, flights: map<nat, nat>, b: nat,
                  p: Phase, mode: Mode, m': Ideal, posted': seq<nat>, done': seq<nat>)
    requires Match(chains, posted, done, m, flights) && b in m.reqs && Is(p, mode)
    requires m'.reqs == SetMode(m, b, mode) && Heads(flights, m'.posted, posted') && Heads(flights, m'.done, done')
    ensures flights[b] in chains && Match(Moved(chains, flights[b], p), posted', done', m', flights)
  {
    hide Heads;
    assert m'.reqs.Keys == m.reqs.Keys;
    var h, chains' := flights[b], Moved(chains, flights[b], p);
    forall c | c in flights ensures flights[c] in chains' && Same(chains'[flights[c]], c, m'.reqs[c]) {
      assert Same(chains[flights[c]], c, m.reqs[c]);
      if c != b { assert flights[c] != h; }
    }
  }

  lemma ReturnMatch(chains: map<nat, Chain>, posted: seq<nat>, done: seq<nat>, m: Ideal, flights: map<nat, nat>, b: nat)
    requires Match(chains, posted, done, m, flights) && InMode(m, b, Noticed) && QueuesOk(m)
    ensures flights[b] in chains
    ensures Match(Drop(chains, flights[b]), posted, done, m.(reqs := Without(m.reqs, b)),
                  map c | c in flights && c != b :: flights[c])
  {
    var m', flights' := m.(reqs := Without(m.reqs, b)), map c | c in flights && c != b :: flights[c];
    assert m'.reqs.Keys == m.reqs.Keys - {b} && flights'.Keys == flights.Keys - {b};
    assert Heads(flights', m'.posted, posted) && Heads(flights', m'.done, done);
    hide Heads, QueuesOk;
  }

  lemma HeadsTail(flights: map<nat, nat>, q: seq<nat>, hs: seq<nat>)
    requires Heads(flights, q, hs) && q != []
    ensures Heads(flights, q[1..], hs[1..]) && q[0] in flights && hs[0] == flights[q[0]]
  {}

  lemma HeadsMore(flights: map<nat, nat>, q: seq<nat>, hs: seq<nat>, b: nat)
    requires Heads(flights, q, hs) && b in flights
    ensures Heads(flights, q + [b], hs + [flights[b]])
  {}

  // The device's history from h0 on is the ideal one.
  ghost predicate SameHistory(history: seq<Transfer>, h0: nat, ideal: seq<Entry>) {
    |history| == h0 + |ideal| && forall k :: 0 <= k < |ideal| ==> history[h0 + k] == ideal[k].1
  }

  // ids: the number of the request for a buffer. taken: the buffers whose requests the device has taken.
  ghost predicate Follows(d: Disk, m: Ideal, flights: map<nat, nat>, ids: map<nat, nat>, taken: set<nat>, h0: nat)
    reads d
  {
    && d.Valid() && QueuesOk(m) && Match(d.chains, d.posted, d.done, m, flights)
    && d.data == m.data && d.store == m.store && SameHistory(d.history, h0, m.history)
    && Known(m, ids, taken)
  }

  ghost predicate Known(m: Ideal, ids: map<nat, nat>, taken: set<nat>) {
    && (forall b :: b in m.reqs ==> b in m.data && b in ids && ids[b] == m.reqs[b].id)
    && (forall b :: b in taken <==> InMode(m, b, Held))
  }

  lemma StepQueues(m: Ideal, i: nat, e: Event)
    requires QueuesOk(m)
    ensures QueuesOk(Step(m, i, e).0)
  {
    hide OnMedium, Put, Sector, Bytes0;
    match e
    case Perform(b) =>
    case _ =>
  }

  lemma StepKnown(m: Ideal, i: nat, e: Event, ids: map<nat, nat>, taken: set<nat>)
    requires Known(m, ids, taken) && QueuesOk(m)
    ensures var (m', o) := Step(m, i, e);
            Known(m', if o.Accepted? then ids[e.b := i] else ids,
                  if e.Take? && o.Done? then taken + {o.b} else if e.Perform? && o.Done? then taken - {o.b} else taken)
  {}

  // The driver's and the device's tests of the ring counters see whether there is something to do.
  lemma CountersTell(d: Disk, m: Ideal, flights: map<nat, nat>, ids: map<nat, nat>, taken: set<nat>, h0: nat)
    requires Follows(d, m, flights, ids, taken, h0)
    ensures d.availDev != d.availIdx <==> m.posted != []
    ensures d.usedIdx != d.usedDev <==> m.done != []
  {
    hide Core, Ring, Low16, QueuesOk;
    CoreSizes(d.free, d.desc, d.ops, d.info, d.chains, d.posted, d.done, d.busy, d.data, d.history);
    if d.availDev == d.availIdx { SameCounter(d.ntaken, |d.posted|); }
    if d.usedIdx == d.usedDev { SameCounter(d.nseen, |d.done|); }
  }

  // The flag of a buffer is clear exactly when its request has been noticed.
  lemma FlagTells(chains: map<nat, Chain>, busy: set<nat>, data: map<nat, Bytes>, history: seq<Transfer>,
                  posted: seq<nat>, done: seq<nat>, m: Ideal, flights: map<nat, nat>, b: nat)
    requires Buffers(chains, busy, data, history) && Match(chains, posted, done, m, flights) && b in flights
    ensures flights[b] in chains && chains[flights[b]].buf == b && (b !in busy <==> InMode(m, b, Noticed))
  {
    assert Same(chains[flights[b]], b, m.reqs[b]);
    hide Buffers, Heads;
    PendingOwn(chains, busy, data, history, flights[b]);
  }

  lemma HasBuffers(d: Disk)
    requires d.Valid()
    ensures Buffers(d.chains, d.busy, d.data, d.history)
  {
    hide Triples, Descriptors, Virtio.Waiting, Buffers, Ring, Low16;
  }

  method Submitted(d: Disk, i: nat, e: Event, ghost m: Ideal, flights: map<nat, nat>, ids: map<nat, nat>,
                   ghost taken: set<nat>, ghost h0: nat)
    returns (o: Out, flights': map<nat, nat>, ids': map<nat, nat>)
    requires Follows(d, m, flights, ids, taken, h0) && e.Submit?
    modifies d
    ensures Follows(d, Step(m, i, e).0, flights', ids', taken, h0) && o == Step(m, i, e).1
  {
    hide Core, Ring, Low16, Adds, Sector, QueuesOk, SameHistory, Match, Known, Step;
    o, flights', ids' := Idle, flights, ids;
    StepQueues(m, i, e);
    StepKnown(m, i, e, ids, taken);
    SubmitEffect(m, i, e);
    MatchSize(d.chains, d.posted, d.done, m, flights);
    if e.b in d.data && e.b !in flights {
      ghost var chains, posted := d.chains, d.posted;
      Unasked(chains, posted, d.done, m, flights, e.b);
      CoreSizes(d.free, d.desc, d.ops, d.info, d.chains, d.posted, d.done, d.busy, d.data, d.history);
      var r := d.Start(e.b, e.blockno, e.write);
      if r.Some? {
        SubmitMatch(chains, d.chains, posted, d.done, m, flights, i, e, r.value);
        o, flights', ids' := Accepted, flights[e.b := r.value], ids[e.b := i];
      }
    }
  }

  lemma SubmitEffect(m: Ideal, i: nat, e: Event)
    requires e.Submit?
    ensures var (m', o) := Step(m, i, e);
            && o == (if Accepts(m, e.b) then Accepted else Idle) && (o.Idle? ==> m' == m)
            && m'.data == m.data && m'.store == m.store && m'.history == m.history
  {
    hide Accepts;
  }

  lemma Unasked(chains: map<nat, Chain>, posted: seq<nat>, done: seq<nat>, m: Ideal, flights: map<nat, nat>, b: nat)
    requires Match(chains, posted, done, m, flights) && b !in flights
    ensures forall h :: h in chains ==> chains[h].buf != b
  {}

  method TookOne(d: Disk, i: nat, ghost m: Ideal, flights: map<nat, nat>, ghost ids: map<nat, nat>, taken: set<nat>,
                 ghost h0: nat)
    returns (o: Out, taken': set<nat>)
    requires Follows(d, m, flights, ids, taken, h0)
    modifies d
    ensures Follows(d, Step(m, i, Take).0, flights, ids, taken', h0) && o == Step(m, i, Take).1
  {
    hide Core, Ring, Low16, QueuesOk, SameHistory, Moved;
    o, taken' := Idle, taken;
    CountersTell(d, m, flights, ids, taken, h0);
    StepQueues(m, i, Take);
    StepKnown(m, i, Take, ids, taken);
    if d.availDev != d.availIdx {
      ghost var chains, posted := d.chains, d.posted;
      HeadsTail(flights, m.posted, posted);
      var h := d.DeviceTake();
      MoveMatch(chains, posted, d.done, m, flights, m.posted[0], Taken, Held, Step(m, i, Take).0, d.posted, d.done);
      var b :| b in flights && flights[b] == h;
      SameHead(chains, posted, d.done, m, flights, b, m.posted[0]);
      hide Match;
      o, taken' := Out.Done(b), taken + {b};
    }
  }

  lemma SameHead(chains: map<nat, Chain>, posted: seq<nat>, done: seq<nat>, m: Ideal, flights: map<nat, nat>, b: nat,
                 c: nat)
    requires Match(chains, posted, done, m, flights) && b in flights && c in flights && flights[b] == flights[c]
    ensures b == c
  {}

  method Performed(d: Disk, i: nat, b: nat, ghost m: Ideal, flights: map<nat, nat>, ghost ids: map<nat, nat>,
                   taken: set<nat>, ghost h0: nat)
    returns (o: Out, taken': set<nat>)
    requires Follows(d, m, flights, ids, taken, h0)
    modifies d
    ensures Follows(d, Step(m, i, Perform(b)).0, flights, ids, taken', h0) && o == Step(m, i, Perform(b)).1
  {
    hide Core, Ring, Low16, QueuesOk, Moved, OnMedium, Put, Step, Known, SameHistory, Carry, Effect;
    o, taken' := Idle, taken;
    StepQueues(m, i, Perform(b));
    StepKnown(m, i, Perform(b), ids, taken);
    PerformEffect(m, i, b, ids, taken);
    if b in taken {
      ghost var chains, done, history, data, store := d.chains, d.done, d.history, d.data, d.store;
      assert Same(chains[flights[b]], b, m.reqs[b]);
      d.DevicePerform(flights[b]);
      CarryEffect(chains[flights[b]], m, b, data, d.data, store, d.store, history, d.history, h0);
      HeadsMore(flights, m.done, done, b);
      MoveMatch(chains, d.posted, done, m, flights, b, Phase.Done(|history|), Finished, Step(m, i, Perform(b)).0,
                d.posted, d.done);
      hide Match;
      o, taken' := Out.Done(b), taken - {b};
    }
  }

  lemma PerformEffect(m: Ideal, i: nat, b: nat, ids: map<nat, nat>, taken: set<nat>)
    requires Known(m, ids, taken)
    ensures b in taken ==> InMode(m, b, Held) && b in m.data && Step(m, i, Perform(b)) == (Carry(m, b), Out.Done(b))
    ensures b !in taken ==> Step(m, i, Perform(b)) == (m, Idle)
  {
    hide Carry;
  }

  lemma CarryEffect(c: Chain, m: Ideal, b: nat, data: map<nat, Bytes>, data': map<nat, Bytes>, store: Medium,
                    store': Medium, history: seq<Transfer>, history': seq<Transfer>, h0: nat)
    requires b in m.reqs && b in m.data && Same(c, b, m.reqs[b]) && data == m.data && store == m.store
    requires SameHistory(history, h0, m.history) && Effect(c, data, data', store, store', history, history')
    ensures var m' := Carry(m, b);
            && data' == m'.data && store' == m'.store && SameHistory(history', h0, m'.history)
            && m'.reqs == SetMode(m, b, Finished) && m'.posted == m.posted && m'.done == m.done + [b]
  {
    hide OnMedium, Put;
  }

  method Noticing(d: Disk, i: nat, ghost m: Ideal, ghost flights: map<nat, nat>, ghost ids: map<nat, nat>,
                  ghost taken: set<nat>, ghost h0: nat)
    returns (o: Out)
    requires Follows(d, m, flights, ids, taken, h0)
    modifies d
    ensures Follows(d, Step(m, i, Interrupt).0, flights, ids, taken, h0) && o == Step(m, i, Interrupt).1
  {
    hide Core, Ring, Low16, QueuesOk, SameHistory, Moved;
    o := Idle;
    CountersTell(d, m, flights, ids, taken, h0);
    StepQueues(m, i, Interrupt);
    StepKnown(m, i, Interrupt, ids, taken);
    if d.usedIdx != d.usedDev {
      ghost var chains, done := d.chains, d.done;
      HeadsTail(flights, m.done, done);
      assert Same(chains[flights[m.done[0]]], m.done[0], m.reqs[m.done[0]]);
      var b := d.IntrOne();
      MoveMatch(chains, d.posted, done, m, flights, b, Seen(chains[flights[b]].phase.k), Noticed,
                Step(m, i, Interrupt).0, d.posted, d.done);
      hide Match;
      o := Out.Done(b);
    }
  }

  method Returned(d: Disk, i: nat, b: nat, ghost m: Ideal, flights: map<nat, nat>, ids: map<nat, nat>,
                  ghost taken: set<nat>, ghost h0: nat)
    returns (o: Out, flights': map<nat, nat>)
    requires Follows(d, m, flights, ids, taken, h0)
    modifies d
    ensures Follows(d, Step(m, i, Return(b)).0, flights', ids, taken, h0) && o == Step(m, i, Return(b)).1
  {
    hide Core, Ring, Low16, QueuesOk, SameHistory, Drop, Buffers;
    o, flights' := Idle, flights;
    StepQueues(m, i, Return(b));
    StepKnown(m, i, Return(b), ids, taken);
    if b in flights {
      HasBuffers(d);
      FlagTells(d.chains, d.busy, d.data, d.history, d.posted, d.done, m, flights, b);
      if b !in d.busy {
        ReturnMatch(d.chains, d.posted, d.done, m, flights, b);
        d.Finish(flights[b]);
        hide Match;
        o, flights' := Answered(ids[b], d.data[b]), map c | c in flights && c != b :: flights[c];
      }
    }
  }

  method Filled(d: Disk, i: nat, b: nat, bytes: Bytes, ghost m: Ideal, flights: map<nat, nat>,
                ghost ids: map<nat, nat>, ghost taken: set<nat>, ghost h0: nat)
    returns (o: Out)
    requires Follows(d, m, flights, ids, taken, h0)
    modifies d
    ensures Follows(d, Step(m, i, Fill(b, bytes)).0, flights, ids, taken, h0) && o == Step(m, i, Fill(b, bytes)).1
  {
    hide Core, Ring, Low16, QueuesOk, SameHistory, Match;
    o := Idle;
    StepQueues(m, i, Fill(b, bytes));
    StepKnown(m, i, Fill(b, bytes), ids, taken);
    MatchSize(d.chains, d.posted, d.done, m, flights);
    if b in d.data && b !in flights {
      Unasked(d.chains, d.posted, d.done, m, flights, b);
      d.Fill(b, bytes);
      FillMatch(d.chains, d.posted, d.done, m, flights, b, bytes);
      o := Out.Done(b);
    }
  }

  lemma FillMatch(chains: map<nat, Chain>, posted: seq<nat>, done: seq<nat>, m: Ideal, flights: map<nat, nat>, b: nat,
                  bytes: Bytes)
    requires Match(chains, posted, done, m, flights)
    ensures Match(chains, posted, done, m.(data := m.data[b := bytes]), flights)
  {}

  // Any interleaving, from an idle driver: the answers, the buffers, the medium and the transfers are those of
  // the ideal machine, whose record is in order.
  method Run(d: Disk, script: seq<Event>) returns (outs: seq<Out>)
    requires d.Valid() && d.chains == map[]
    modifies d
    ensures d.Valid()
    ensures var m := After(old(Start(d.data, d.store)), script);
            && outs == Outs(old(Start(d.data, d.store)), script) && Good(script, outs, m)
            && d.data == m.data && d.store == m.store && SameHistory(d.history, |old(d.history)|, m.history)
            && |d.chains| == |m.reqs|
  {
    hide Core, Ring, Low16, QueuesOk, SameHistory, Match, Step;
    ghost var m0, h0 := Start(d.data, d.store), |d.history|;
    ghost var m := m0;
    var flights, ids, taken: set<nat> := map[], map[], {};
    outs := [];
    Beginning(d, h0);
    var t := 0;
    while t < |script|
      invariant 0 <= t <= |script| && m == After(m0, script[..t]) && outs == Outs(m0, script[..t])
      invariant Follows(d, m, flights, ids, taken, h0)
    {
      assert script[..t + 1][..t] == script[..t];
      var o;
      match script[t] {
        case Fill(b, bytes) => o := Filled(d, t, b, bytes, m, flights, ids, taken, h0);
        case Submit(_, _, _) => o, flights, ids := Submitted(d, t, script[t], m, flights, ids, taken, h0);
        case Take => o, taken := TookOne(d, t, m, flights, ids, taken, h0);
        case Perform(b) => o, taken := Performed(d, t, b, m, flights, ids, taken, h0);
        case Interrupt => o := Noticing(d, t, m, flights, ids, taken, h0);
        case Return(b) => o, flights := Returned(d, t, b, m, flights, ids, taken, h0);
      }
      m, outs := Step(m, t, script[t]).0, outs + [o];
      t := t + 1;
    }
    assert script[..t] == script;
    EveryRunGood(m0.data, m0.store, script);
    MatchSize(d.chains, d.posted, d.done, m, flights);
  }

  lemma Beginning(d: Disk, h0: nat)
    requires d.Valid() && d.chains == map[] && h0 == |d.history|
    ensures Follows(d, Start(d.data, d.store), map[], map[], {}, h0)
  {
    NoneQueued(d.posted, d.chains, true);
    NoneQueued(d.done, d.chains, false);
    hide Core, Ring, Low16;
  }

  lemma NoneQueued(q: seq<nat>, chains: map<nat, Chain>, posted: bool)
    requires chains == map[] && Virtio.Waiting(q, chains, posted)
    ensures q == []
  {
    QueueCount(q, chains.Keys);
  }
}
