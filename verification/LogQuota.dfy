/**
 Room in the log (kernel/log.c:122-147, 215-235), over every run of the machine that the real log follows in `LogGroup`.

 begin_op admits an operation only if a whole quota is left for it. So as long as no operation logs more new blocks than
 its quota, what is logged and what may still be logged fit the log, and log_write finds room for every new block.
 */
module LogQuota {
  import opened Wrappers
  import opened Disk
  import opened LogGroup
  import Crash

  type Layout = Crash.Layout

  // Event i is refused exactly for these reasons, as long as the machine has not stopped; Crash never is.
  lemma RefusedExactly(s: Ideal, l: Layout, ev: Event)
    requires Sized(s) && !s.halted
    ensures Step(s, l, ev).1.Refused? <==>
              match ev
              case Begin(p) =>
                || p in s.c.waiting || p in s.c.ops || s.c.commit.Some? || |s.lh| + (|s.c.ops| + 1) * 10 > 30
              case End(p) => p in s.c.waiting || p !in s.c.ops
              case Turn => s.c.commit.None? || s.c.commit.value.p in s.c.waiting
              case Bread(p, b) =>
                || p in s.c.waiting || (s.c.commit.Some? && s.c.commit.value.p == p)
                || b >= |s.store| || (l.start <= b < l.start + l.size)
              case Wake(p) => p !in s.c.waiting || s.c.waiting[p] in s.c.held
              case Fill(p, b, _) =>
                || p in s.c.waiting || (s.c.commit.Some? && s.c.commit.value.p == p)
                || b !in s.c.held || s.c.held[b].p != p
              case LogWrite(p, b) =>
                || p in s.c.waiting || (s.c.commit.Some? && s.c.commit.value.p == p)
                || b !in s.c.held || s.c.held[b].p != p
              case Brelse(p, b) =>
                || p in s.c.waiting || (s.c.commit.Some? && s.c.commit.value.p == p)
                || b !in s.c.held || s.c.held[b].p != p || s.c.held[b].dirty
              case Crash(_) => false
  {
    hide Busy, Pins;
  }

  // ----- Quotas -----

  // The event logs a block that was not logged yet.
  ghost predicate LogsNew(s: Ideal, l: Layout, ev: Event)
    requires Sized(s)
  {
    ev.LogWrite? && Step(s, l, ev).1.Done? && ev.b !in s.lh
  }

  // How many new blocks the operation of process p has logged since its begin_op, before event i.
  ghost function Used(s: Ideal, l: Layout, script: seq<Event>, i: nat, p: nat): (r: nat)
    requires Sized(s) && i <= |script|
  {
    if i == 0 then 0
    else
      var a, ev := After(s, l, script, i - 1), script[i - 1];
      if ev == Begin(p) && Step(a, l, ev).1.Done? then 0
      else Used(s, l, script, i - 1, p) + if ev.LogWrite? && ev.p == p && LogsNew(a, l, ev) then 1 else 0
  }

  // Up to event i, blocks are logged inside operations only, and none logs more than ten new ones.
  ghost predicate InQuotas(s: Ideal, l: Layout, script: seq<Event>, i: nat)
    requires Sized(s) && i <= |script|
  {
    forall x: nat :: x < i && LogsNew(After(s, l, script, x), l, script[x]) ==>
      script[x].p in After(s, l, script, x).c.ops && Used(s, l, script, x, script[x].p) < 10
  }

  ghost predicate UsedOk(s: Ideal, l: Layout, script: seq<Event>, i: nat)
    requires Sized(s) && i <= |script|
  {
    forall p: nat :: Used(s, l, script, i, p) <= 10
  }

  // What the operations may still log.
  ghost function Unused(s: Ideal, l: Layout, script: seq<Event>, i: nat, ops: set<nat>): (r: int)
    requires Sized(s) && i <= |script|
    decreases |ops|
  {
    if ops == {} then 0
    else
      var p :| p in ops;
      10 - Used(s, l, script, i, p) + Unused(s, l, script, i, ops - {p})
  }

  lemma {:induction false} UnusedSplit(s: Ideal, l: Layout, script: seq<Event>, i: nat, ops: set<nat>, p: nat)
    requires Sized(s) && i <= |script| && p in ops
    ensures Unused(s, l, script, i, ops) == 10 - Used(s, l, script, i, p) + Unused(s, l, script, i, ops - {p})
    decreases |ops|
  {
    hide Used;
    var q :| q in ops && Unused(s, l, script, i, ops)
                         == 10 - Used(s, l, script, i, q) + Unused(s, l, script, i, ops - {q});
    if q != p {
      UnusedSplit(s, l, script, i, ops - {q}, p);
      UnusedSplit(s, l, script, i, ops - {p}, q);
      assert ops - {q} - {p} == ops - {p} - {q};
    }
  }

  // What is unused depends on these operations only, and is between nothing and ten each.
  lemma {:induction false} UnusedSame(s: Ideal, l: Layout, script: seq<Event>, i: nat, k: nat, ops: set<nat>)
    requires Sized(s) && i <= |script| && k <= |script|
    requires forall p :: p in ops ==> Used(s, l, script, i, p) == Used(s, l, script, k, p)
    ensures Unused(s, l, script, i, ops) == Unused(s, l, script, k, ops)
    decreases |ops|
  {
    hide Used;
    if ops != {} {
      var p :| p in ops;
      UnusedSplit(s, l, script, i, ops, p);
      UnusedSplit(s, l, script, k, ops, p);
      UnusedSame(s, l, script, i, k, ops - {p});
    }
  }

  lemma {:induction false} UnusedBounds(s: Ideal, l: Layout, script: seq<Event>, i: nat, ops: set<nat>)
    requires Sized(s) && i <= |script| && UsedOk(s, l, script, i)
    ensures 0 <= Unused(s, l, script, i, ops) <= 10 * |ops|
    decreases |ops|
  {
    hide Used;
    if ops != {} {
      var p :| p in ops;
      UnusedSplit(s, l, script, i, ops, p);
      UnusedBounds(s, l, script, i, ops - {p});
    }
  }

  // ----- One event -----

  // What an event does to the operations and to the list of logged blocks.
  lemma StepShape(s: Ideal, l: Layout, ev: Event)
    requires Sized(s)
    ensures var (s', out) := Step(s, l, ev);
            if ev.Crash? then s'.c.ops == {} && s'.lh == []
            else if ev.Begin? && out.Done? then
              && s'.c.ops == s.c.ops + {ev.p} && ev.p !in s.c.ops && s'.lh == s.lh
              && |s.lh| + (|s.c.ops| + 1) * 10 <= 30
            else if ev.End? && out.Done? then
              && s'.c.ops == s.c.ops - {ev.p} && ev.p in s.c.ops && s'.lh == s.lh
              && (s'.c.commit.None? ==> s.c.commit.None?)
            else if LogsNew(s, l, ev) then
              s'.c.ops == s.c.ops && s'.lh == s.lh + [ev.b] && s.c.commit.None?
            else
              && s'.c.ops == s.c.ops
              && (s'.c.commit.None? ==> (s.c.commit.None? && s'.lh == s.lh) || (s.c.ops == {} && s'.lh == []))
  {
    hide Busy, Pins, Crowded, Subject, AreaBlock;
  }

  // Outside a commit, what is logged and what may still be logged fit the log.
  ghost predicate Room(s: Ideal, l: Layout, script: seq<Event>, i: nat)
    requires Sized(s) && i <= |script|
  {
    && UsedOk(s, l, script, i)
    && var a := After(s, l, script, i);
       a.c.commit.None? ==> |a.lh| + Unused(s, l, script, i, a.c.ops) <= 30
  }

  // An event changes the count of one process at most.
  lemma UsedStep(s: Ideal, l: Layout, script: seq<Event>, i: nat, p: nat)
    requires Sized(s) && i < |script|
    ensures var a, ev := After(s, l, script, i), script[i];
            Used(s, l, script, i + 1, p) ==
              if ev == Begin(p) && Step(a, l, ev).1.Done? then 0
              else Used(s, l, script, i, p) + if ev.LogWrite? && ev.p == p && LogsNew(a, l, ev) then 1 else 0
  {
    hide Step, LogsNew;
  }

  lemma UsedOkStep(s: Ideal, l: Layout, script: seq<Event>, i: nat)
    requires Sized(s) && i < |script| && UsedOk(s, l, script, i) && InQuotas(s, l, script, i + 1)
    ensures UsedOk(s, l, script, i + 1)
  {
    hide Step, LogsNew, Used;
    var a, ev, k := After(s, l, script, i), script[i], i + 1;
    forall p: nat ensures Used(s, l, script, k, p) <= 10 {
      UsedStep(s, l, script, i, p);
      if ev.LogWrite? && ev.p == p && LogsNew(a, l, ev) { assert Used(s, l, script, i, script[i].p) < 10; }
    }
  }

  lemma BeginRoom(s: Ideal, l: Layout, script: seq<Event>, i: nat, ops: set<nat>, n: nat, p: nat)
    requires Sized(s) && i <= |script| && UsedOk(s, l, script, i)
    requires p !in ops && n + (|ops| + 1) * 10 <= 30
    ensures n + Unused(s, l, script, i, ops + {p}) <= 30
  {
    hide Used, Unused;
    UnusedBounds(s, l, script, i, ops + {p});
  }

  lemma RoomStep(s: Ideal, l: Layout, script: seq<Event>, i: nat)
    requires Sized(s) && i < |script| && Room(s, l, script, i) && InQuotas(s, l, script, i + 1)
    ensures Room(s, l, script, i + 1)
  {
    hide Step, Used, Unused, LogsNew;
    var a, ev := After(s, l, script, i), script[i];
    var b := After(s, l, script, i + 1);
    StepShape(a, l, ev);
    UsedOkStep(s, l, script, i);
    if b.c.commit.None? { RoomLeft(s, l, script, i); }
  }

  lemma RoomLeft(s: Ideal, l: Layout, script: seq<Event>, i: nat)
    requires Sized(s) && i < |script| && Room(s, l, script, i) && InQuotas(s, l, script, i + 1)
    requires UsedOk(s, l, script, i + 1)
    requires After(s, l, script, i + 1).c.commit.None?
    ensures var b := After(s, l, script, i + 1); |b.lh| + Unused(s, l, script, i + 1, b.c.ops) <= 30
  {
    hide Step, Used, Unused;
    var a, ev := After(s, l, script, i), script[i];
    var b := After(s, l, script, i + 1);
    StepShape(a, l, ev);
    forall p: nat ensures !(ev == Begin(p) && Step(a, l, ev).1.Done?) && !(LogsNew(a, l, ev) && ev.p == p) ==>
                            Used(s, l, script, i + 1, p) == Used(s, l, script, i, p)
    {
      UsedStep(s, l, script, i, p);
    }
    if ev.Crash? {
      UnusedBounds(s, l, script, i + 1, {});
    } else if ev.Begin? && Step(a, l, ev).1.Done? {
      BeginRoom(s, l, script, i + 1, a.c.ops, |a.lh|, ev.p);
    } else if ev.End? && Step(a, l, ev).1.Done? {
      UnusedSplit(s, l, script, i, a.c.ops, ev.p);
      UnusedSame(s, l, script, i, i + 1, b.c.ops);
    } else if LogsNew(a, l, ev) {
      UsedStep(s, l, script, i, ev.p);
      UnusedSplit(s, l, script, i, a.c.ops, ev.p);
      UnusedSplit(s, l, script, i + 1, a.c.ops, ev.p);
      UnusedSame(s, l, script, i, i + 1, a.c.ops - {ev.p});
    } else if a.c.commit.None? && b.lh == a.lh {
      UnusedSame(s, l, script, i, i + 1, a.c.ops);
    } else {
      UnusedBounds(s, l, script, i + 1, {});
    }
  }

  // ----- Over runs -----

  // In every run, as long as the operations keep to their quotas.
  lemma {:induction false} EveryRunHasRoom(t: Image, l: Layout, script: seq<Event>, i: nat)
    requires i <= |script| && InQuotas(Booted(t), l, script, i)
    ensures Room(Booted(t), l, script, i)
    ensures var a := After(Booted(t), l, script, i);
            a.c.commit.None? ==> |a.lh| + Unused(Booted(t), l, script, i, a.c.ops) <= 30
  {
    hide Step, LogsNew, Used, Unused, InQuotas, UsedOk;
    if i == 0 {
      StartRoom(t, l, script);
    } else {
      FewerInQuotas(Booted(t), l, script, i);
      EveryRunHasRoom(t, l, script, i - 1);
      RoomStep(Booted(t), l, script, i - 1);
    }
  }

  lemma StartRoom(t: Image, l: Layout, script: seq<Event>)
    ensures Room(Booted(t), l, script, 0)
  {
    hide Step;
  }

  lemma FewerInQuotas(s: Ideal, l: Layout, script: seq<Event>, i: nat)
    requires Sized(s) && 0 < i <= |script| && InQuotas(s, l, script, i)
    ensures InQuotas(s, l, script, i - 1)
  {
    hide Step, LogsNew, Used, After;
  }

  // A log_write inside an operation that still has quota panics exactly if the log on disk is full, or if all LOGSIZE
  // places are taken and the block has one of them. On a log of more than LOGSIZE blocks a new block always finds room.
  lemma LogWritePanicsExactly(t: Image, l: Layout, script: seq<Event>, i: nat)
    requires i < |script| && script[i].LogWrite? && InQuotas(Booted(t), l, script, i)
    requires var a, ev := After(Booted(t), l, script, i), script[i];
             && !Answer(Booted(t), l, script, i).Refused? && ev.p in a.c.ops
             && (ev.b !in a.lh ==> Used(Booted(t), l, script, i, ev.p) < 10)
    ensures var a, ev := After(Booted(t), l, script, i), script[i];
            && |a.lh| <= 30
            && (Answer(Booted(t), l, script, i).Panic? <==>
                  |a.lh| >= l.size - 1 || (|a.lh| == 30 && ev.b in a.lh))
  {
    hide Unused, Used, InQuotas;
    var a, ev := After(Booted(t), l, script, i), script[i];
    EveryRunHasRoom(t, l, script, i);
    UnusedSplit(Booted(t), l, script, i, a.c.ops, ev.p);
    UnusedBounds(Booted(t), l, script, i, a.c.ops);
    UnusedBounds(Booted(t), l, script, i, a.c.ops - {ev.p});
    hide Room, UsedOk;
  }

  // No more than three operations are ever under way.
  lemma {:induction false} AtMostThree(t: Image, l: Layout, script: seq<Event>, i: nat)
    requires i <= |script|
    ensures |After(Booted(t), l, script, i).c.ops| <= 3
  {
    hide Step;
    if i > 0 {
      AtMostThree(t, l, script, i - 1);
      StepShape(After(Booted(t), l, script, i - 1), l, script[i - 1]);
      var ops, ev := After(Booted(t), l, script, i - 1).c.ops, script[i - 1];
      if ev.Begin? || ev.End? { assert |ops - {ev.p}| <= |ops| && |ops + {ev.p}| <= |ops| + 1; }
    }
  }
}
