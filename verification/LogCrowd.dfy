/**
 A commit among readers (kernel/log.c:195-224, kernel/bio.c:69-98).

 The buffers of a transaction stay pinned until it is installed, and a reader outside any operation holds buffers of its
 own. The scripts here start from a boot, keep every operation within its quota, and find exactly when the commit is
 left without a buffer.
 */
module LogCrowd {
  import opened Wrappers
  import opened Disk
  import opened Bio
  import opened Log
  import opened LogGroup
  import Crash

  type Layout = Crash.Layout

  // Every event is answered, and none with a panic.
  ghost predicate Leads(s: Ideal, l: Layout, script: seq<Event>, e: Ideal)
    requires Sized(s)
  {
    && After(s, l, script, |script|) == e
    && forall i :: 0 <= i < |script| ==> Answer(s, l, script, i).Done? || Answer(s, l, script, i).Got?
  }

  lemma {:induction false} AfterJoin(s: Ideal, l: Layout, a: seq<Event>, b: seq<Event>, i: nat)
    requires Sized(s) && i <= |a| + |b|
    ensures After(s, l, a + b, i)
            == if i <= |a| then After(s, l, a, i) else After(After(s, l, a, |a|), l, b, i - |a|)
  {
    hide Step;
    if i > 0 { AfterJoin(s, l, a, b, i - 1); }
  }

  lemma LeadsOn(s: Ideal, l: Layout, a: seq<Event>, m: Ideal, b: seq<Event>, e: Ideal)
    requires Sized(s) && Sized(m) && Leads(s, l, a, m) && Leads(m, l, b, e)
    ensures Leads(s, l, a + b, e)
  {
    hide Step;
    forall i | 0 <= i < |a + b|
      ensures Answer(s, l, a + b, i) == if i < |a| then Answer(s, l, a, i) else Answer(m, l, b, i - |a|)
    {
      AfterJoin(s, l, a, b, i);
    }
    AfterJoin(s, l, a, b, |a + b|);
  }

  lemma LeadsNowhere(s: Ideal, l: Layout)
    requires Sized(s)
    ensures Leads(s, l, [], s)
  {}

  lemma LeadsOne(s: Ideal, l: Layout, ev: Event, e: Ideal)
    requires Sized(s) && Step(s, l, ev).0 == e && (Step(s, l, ev).1.Done? || Step(s, l, ev).1.Got?)
    ensures Leads(s, l, [ev], e)
  {
    hide Step;
    assert After(s, l, [ev], 0) == s;
  }

  // bread, log_write and brelse of each block, ten by each of the processes 0, 1, 2.
  function LogEach(bs: seq<nat>): (r: seq<Event>) {
    if bs == [] then []
    else
      var k := |bs| - 1;
      var p := k / MAXOPBLOCKS;
      LogEach(bs[..k]) + ([Bread(p, bs[k])] + [LogWrite(p, bs[k])] + [Brelse(p, bs[k])])
  }

  // Process 3, outside any operation, reads blocks and keeps their buffers.
  function ReadEach(rs: seq<nat>): (r: seq<Event>) {
    if rs == [] then [] else ReadEach(rs[..|rs| - 1]) + [Bread(3, rs[|rs| - 1])]
  }

  // Three operations log bs and end, process 3 reads rs, and the commit begins.
  function CommitAmongReaders(bs: seq<nat>, rs: seq<nat>): (r: seq<Event>) {
    ([Begin(0)] + [Begin(1)] + [Begin(2)]) + LogEach(bs) + ([End(0)] + [End(1)] + [End(2)]) + ReadEach(rs)
  }

  // Blocks lh logged with their old contents.
  ghost function Midway(t: Image, ops: set<nat>, lh: seq<int>): (r: Ideal) {
    Ideal(Client(ops, map[], map[], None), t, t, map[], lh, false)
  }

  ghost predicate Within(t: Image, rs: seq<nat>) { forall i :: 0 <= i < |rs| ==> rs[i] < |t| }

  // Process 3 has the buffers of rs while process 2 is about to commit.
  ghost function AmongReaders(t: Image, lh: seq<int>, rs: seq<nat>): (r: Ideal)
    requires Within(t, rs)
  {
    var m := Com(2, if lh == [] then Leaving else Logging(0), None, false);
    Ideal(Client({}, map b | b in rs :: Own(3, false), map[], Some(m)), t, t, map b | b in rs :: t[b], lh, false)
  }

  ghost predicate AllHome(l: Layout, t: Image, bs: seq<int>) { forall i :: 0 <= i < |bs| ==> l.Home(t, bs[i]) }

  lemma MidwaySized(t: Image, l: Layout, lh: seq<int>, ops: set<nat>)
    requires AllHome(l, t, lh)
    ensures Sized(Midway(t, ops, lh))
  {}

  // Process p has the buffer of b meanwhile.
  ghost function Holding(t: Image, ops: set<nat>, lh: seq<int>, p: nat, b: nat): (r: Ideal)
    requires b < |t|
  {
    Ideal(Client(ops, map[b := Own(p, false)], map[], None), t, t, map[b := t[b]], lh, false)
  }

  lemma BreadOne(t: Image, l: Layout, ops: set<nat>, lh: seq<int>, p: nat, b: nat)
    requires AllHome(l, t, lh) && l.Home(t, b) && |lh| < NBUF
    ensures Leads(Midway(t, ops, lh), l, [Bread(p, b)], Holding(t, ops, lh, p, b))
  {
    hide Busy, Crowded;
    AloneIsNotCrowded(Midway(t, ops, lh).c, lh, b);
    LeadsOne(Midway(t, ops, lh), l, Bread(p, b), Holding(t, ops, lh, p, b));
  }

  lemma LogWriteOne(t: Image, l: Layout, ops: set<nat>, lh: seq<int>, p: nat, b: nat)
    requires AllHome(l, t, lh) && l.Home(t, b) && p in ops && b !in lh && |lh| < LOGSIZE && |lh| < l.size - 1
    ensures Leads(Holding(t, ops, lh, p, b), l, [LogWrite(p, b)], Holding(t, ops, lh + [b], p, b))
  {
    var s := Holding(t, ops, lh, p, b);
    assert t[b := t[b]] == t;
    assert s.c.held[b := Own(p, false)] == s.c.held;
    LeadsOne(s, l, LogWrite(p, b), Holding(t, ops, lh + [b], p, b));
  }

  lemma BrelseOne(t: Image, l: Layout, ops: set<nat>, lh: seq<int>, p: nat, b: nat)
    requires AllHome(l, t, lh) && l.Home(t, b)
    ensures Leads(Holding(t, ops, lh, p, b), l, [Brelse(p, b)], Midway(t, ops, lh))
  {
    var s := Holding(t, ops, lh, p, b);
    assert s.c.held - {b} == map[] && s.data - {b} == map[];
    LeadsOne(s, l, Brelse(p, b), Midway(t, ops, lh));
  }

  lemma LogOneLeads(t: Image, l: Layout, ops: set<nat>, lh: seq<int>, p: nat, b: nat)
    requires AllHome(l, t, lh) && l.Home(t, b) && p in ops && b !in lh
    requires |lh| < NBUF && |lh| < LOGSIZE && |lh| < l.size - 1
    ensures Leads(Midway(t, ops, lh), l, [Bread(p, b)] + [LogWrite(p, b)] + [Brelse(p, b)],
                  Midway(t, ops, lh + [b]))
  {
    hide Step, Leads;
    var s, s1, s2 := Midway(t, ops, lh), Holding(t, ops, lh, p, b), Holding(t, ops, lh + [b], p, b);
    BreadOne(t, l, ops, lh, p, b);
    LogWriteOne(t, l, ops, lh, p, b);
    BrelseOne(t, l, ops, lh + [b], p, b);
    LeadsOn(s, l, [Bread(p, b)], s1, [LogWrite(p, b)], s2);
    LeadsOn(s, l, [Bread(p, b)] + [LogWrite(p, b)], s2, [Brelse(p, b)], Midway(t, ops, lh + [b]));
  }

  lemma {:induction false} LogEachLeads(t: Image, l: Layout, bs: seq<nat>)
    requires AllHome(l, t, bs) && Distinct(bs) && |bs| <= NBUF && |bs| <= LOGSIZE && (|bs| < l.size || bs == [])
    ensures Leads(Midway(t, {0, 1, 2}, []), l, LogEach(bs), Midway(t, {0, 1, 2}, bs))
  {
    hide Step, Leads;
    var s := Midway(t, {0, 1, 2}, []);
    if bs == [] {
      LeadsNowhere(s, l);
    } else {
      var k := |bs| - 1;
      var p := k / MAXOPBLOCKS;
      LogEachLeads(t, l, bs[..k]);
      assert bs[..k] + [bs[k]] == bs;
      LogOneLeads(t, l, {0, 1, 2}, bs[..k], p, bs[k]);
      LeadsOn(s, l, LogEach(bs[..k]), Midway(t, {0, 1, 2}, bs[..k]),
              [Bread(p, bs[k])] + [LogWrite(p, bs[k])] + [Brelse(p, bs[k])], Midway(t, {0, 1, 2}, bs));
    }
  }

  // The busy buffers are those of the logged blocks and of the blocks read.
  lemma BusyAmongReaders(t: Image, lh: seq<int>, rs: seq<nat>)
    requires Within(t, rs) && Distinct(lh + rs)
    ensures var c := AmongReaders(t, lh, rs).c;
            Busy(c, lh) == Elems(lh + rs) && |Busy(c, lh)| == |lh| + |rs|
  {
    var c := AmongReaders(t, lh, rs).c;
    ElemsSize(lh + rs);
    forall x: int | x in rs ensures x in set b | b in c.held :: b as int {
      var b: nat := x;
      assert b in c.held;
    }
    assert (set b | b in c.held :: b as int) == Elems(rs);
    assert Busy(c, lh) == Elems(lh) + Elems(rs) == Elems(lh + rs);
  }

  lemma ReadingLeads(s: Ideal, l: Layout, b: nat, e: Ideal)
    requires Sized(s) && !s.halted && Can(s.c, s.lh, l, s.store, Bread(3, b)) && b !in s.c.held
    requires !Crowded(s.c, Pins(s.c, s.lh), b) && e == Owned(s, b, Own(3, false), s.store[b])
    ensures Leads(s, l, [Bread(3, b)], e)
  {
    hide Crowded, Pins, Owned;
    LeadsOne(s, l, Bread(3, b), e);
  }

  lemma AmongReadersSized(t: Image, l: Layout, lh: seq<int>, rs: seq<nat>)
    requires AllHome(l, t, lh) && AllHome(l, t, rs)
    ensures Sized(AmongReaders(t, lh, rs))
  {}

  lemma OneReaderMore(t: Image, lh: seq<int>, rs: seq<nat>, b: nat)
    requires Within(t, rs) && b < |t| && Sized(AmongReaders(t, lh, rs))
    ensures Owned(AmongReaders(t, lh, rs), b, Own(3, false), t[b]) == AmongReaders(t, lh, rs + [b])
  {
    var s, e := AmongReaders(t, lh, rs), AmongReaders(t, lh, rs + [b]);
    assert s.c.held[b := Own(3, false)] == e.c.held;
    assert s.data[b := t[b]] == e.data;
  }

  lemma RoomForReader(t: Image, lh: seq<int>, rs: seq<nat>, b: nat)
    requires Within(t, rs) && Distinct(lh + rs) && |lh| + |rs| < NBUF
    ensures !Crowded(AmongReaders(t, lh, rs).c, lh, b)
  {
    hide Busy;
    BusyAmongReaders(t, lh, rs);
  }

  lemma ReadOneLeads(t: Image, l: Layout, lh: seq<int>, rs: seq<nat>, b: nat)
    requires AllHome(l, t, lh) && AllHome(l, t, rs) && l.Home(t, b) && Distinct(lh + rs) && b !in rs
    requires |lh| + |rs| < NBUF
    ensures Leads(AmongReaders(t, lh, rs), l, [Bread(3, b)], AmongReaders(t, lh, rs + [b]))
  {
    hide Busy, Crowded, Owned, Step, Leads, Sized;
    AmongReadersSized(t, l, lh, rs);
    RoomForReader(t, lh, rs, b);
    OneReaderMore(t, lh, rs, b);
    ReadingLeads(AmongReaders(t, lh, rs), l, b, AmongReaders(t, lh, rs + [b]));
  }

  lemma LastIsNew(lh: seq<int>, rs: seq<nat>)
    requires Distinct(lh + rs) && rs != []
    ensures var k := |rs| - 1; rs[k] !in lh && rs[k] !in rs[..k] && Distinct(lh + rs[..k])
  {
    var k, all := |rs| - 1, lh + rs;
    assert forall i :: 0 <= i < |lh + rs[..k]| ==> (lh + rs[..k])[i] == all[i];
    assert all[|lh| + k] == rs[k];
    assert forall i :: 0 <= i < |lh| ==> lh[i] == all[i];
    assert forall i :: 0 <= i < k ==> rs[..k][i] == all[|lh| + i];
  }

  lemma {:induction false} ReadEachLeads(t: Image, l: Layout, lh: seq<int>, rs: seq<nat>)
    requires AllHome(l, t, lh) && AllHome(l, t, rs) && Distinct(lh + rs) && |lh| + |rs| <= NBUF
    ensures Leads(AmongReaders(t, lh, []), l, ReadEach(rs), AmongReaders(t, lh, rs))
  {
    hide Step, Leads;
    var s := AmongReaders(t, lh, []);
    if rs == [] {
      LeadsNowhere(s, l);
    } else {
      var k := |rs| - 1;
      var r := rs[..k];
      assert r + [rs[k]] == rs;
      LastIsNew(lh, rs);
      ReadEachLeads(t, l, lh, r);
      ReadOneLeads(t, l, lh, r, rs[k]);
      LeadsOn(s, l, ReadEach(r), AmongReaders(t, lh, r), [Bread(3, rs[k])], AmongReaders(t, lh, rs));
    }
  }

  lemma BeginOne(t: Image, l: Layout, ops: set<nat>, p: nat)
    requires p !in ops && |ops| < 3
    ensures Leads(Midway(t, ops, []), l, [Begin(p)], Midway(t, ops + {p}, []))
  {
    LeadsOne(Midway(t, ops, []), l, Begin(p), Midway(t, ops + {p}, []));
  }

  // begin_op three times.
  lemma BeginLeads(t: Image, l: Layout)
    ensures Leads(Booted(t), l, [Begin(0)] + [Begin(1)] + [Begin(2)], Midway(t, {0, 1, 2}, []))
  {
    hide Step, Leads;
    var s0, s1, s2, s3 := Booted(t), Midway(t, {0}, []), Midway(t, {0, 1}, []), Midway(t, {0, 1, 2}, []);
    assert {} + {0} == {0} && {0} + {1} == {0, 1} && {0, 1} + {2} == {0, 1, 2};
    BeginOne(t, l, {}, 0);
    BeginOne(t, l, {0}, 1);
    BeginOne(t, l, {0, 1}, 2);
    LeadsOn(s0, l, [Begin(0)], s1, [Begin(1)], s2);
    LeadsOn(s0, l, [Begin(0)] + [Begin(1)], s2, [Begin(2)], s3);
  }

  lemma EndOne(t: Image, l: Layout, lh: seq<int>, ops: set<nat>, p: nat)
    requires AllHome(l, t, lh) && p in ops && ops != {p}
    ensures Leads(Midway(t, ops, lh), l, [End(p)], Midway(t, ops - {p}, lh))
  {
    LeadsOne(Midway(t, ops, lh), l, End(p), Midway(t, ops - {p}, lh));
  }

  lemma EndLast(t: Image, l: Layout, lh: seq<int>)
    requires AllHome(l, t, lh)
    ensures Leads(Midway(t, {2}, lh), l, [End(2)], AmongReaders(t, lh, []))
  {
    assert {2 as nat} - {2} == {};
    LeadsOne(Midway(t, {2}, lh), l, End(2), AmongReaders(t, lh, []));
  }

  // end_op three times: the last one commits.
  lemma EndLeads(t: Image, l: Layout, lh: seq<int>)
    requires AllHome(l, t, lh)
    ensures Leads(Midway(t, {0, 1, 2}, lh), l, [End(0)] + [End(1)] + [End(2)], AmongReaders(t, lh, []))
  {
    hide Step, Leads;
    var s0, s1, s2, s3 := Midway(t, {0, 1, 2}, lh), Midway(t, {1, 2}, lh), Midway(t, {2}, lh), AmongReaders(t, lh, []);
    assert {0, 1, 2} - {0} == {1, 2} && {1, 2} - {1} == {2};
    EndOne(t, l, lh, {0, 1, 2}, 0);
    EndOne(t, l, lh, {1, 2}, 1);
    EndLast(t, l, lh);
    LeadsOn(s0, l, [End(0)], s1, [End(1)], s2);
    LeadsOn(s0, l, [End(0)] + [End(1)], s2, [End(2)], s3);
  }

  lemma FirstTurn(t: Image, l: Layout, bs: seq<nat>, rs: seq<nat>)
    requires AllHome(l, t, bs) && AllHome(l, t, rs) && Distinct(bs + rs) && (|bs| < l.size || bs == [])
    requires |bs| + |rs| <= NBUF
    ensures Step(AmongReaders(t, bs, rs), l, Turn).1.Panic? <==> bs != [] && |bs| + |rs| == NBUF
  {
    hide Busy;
    BusyAmongReaders(t, bs, rs);
    assert bs != [] ==> l.start + 1 !in bs && l.start + 1 !in rs;
  }

  lemma AnsweredLast(s: Ideal, l: Layout, script: seq<Event>, e: Ideal, ev: Event)
    requires Sized(s) && Sized(e) && Leads(s, l, script, e)
    ensures Answer(s, l, script + [ev], |script|) == Step(e, l, ev).1
  {
    hide Step;
    AfterJoin(s, l, script, [ev], |script|);
  }

  // From a boot, three operations that log the blocks of bs, within their quotas, run and end without a panic, and so
  // do the reads. The commit then panics at its first turn exactly when the logged blocks and the blocks held by the
  // reader are as many as there are buffers.
  lemma ReadersStopCommit(t: Image, l: Layout, bs: seq<nat>, rs: seq<nat>)
    requires AllHome(l, t, bs) && AllHome(l, t, rs) && Distinct(bs + rs)
    requires |bs| <= LOGSIZE && (|bs| < l.size || bs == []) && |bs| + |rs| <= NBUF
    ensures Leads(Booted(t), l, CommitAmongReaders(bs, rs), AmongReaders(t, bs, rs))
    ensures var script := CommitAmongReaders(bs, rs) + [Turn];
            Answer(Booted(t), l, script, |script| - 1).Panic? <==> bs != [] && |bs| + |rs| == 30
  {
    hide Step, Leads, LogEach, ReadEach, AmongReaders, Sized;
    AmongReadersSized(t, l, bs, []);
    AmongReadersSized(t, l, bs, rs);
    MidwaySized(t, l, [], {0, 1, 2});
    MidwaySized(t, l, bs, {0, 1, 2});
    var s0, s1, s2, s3 := Booted(t), Midway(t, {0, 1, 2}, []), Midway(t, {0, 1, 2}, bs), AmongReaders(t, bs, []);
    assert forall i :: 0 <= i < |bs| ==> bs[i] == (bs + rs)[i];
    var begins, ends := [Begin(0)] + [Begin(1)] + [Begin(2)], [End(0)] + [End(1)] + [End(2)];
    BeginLeads(t, l);
    LogEachLeads(t, l, bs);
    EndLeads(t, l, bs);
    ReadEachLeads(t, l, bs, rs);
    LeadsOn(s0, l, begins, s1, LogEach(bs), s2);
    LeadsOn(s0, l, begins + LogEach(bs), s2, ends, s3);
    LeadsOn(s0, l, begins + LogEach(bs) + ends, s3, ReadEach(rs), AmongReaders(t, bs, rs));
    FirstTurn(t, l, bs, rs);
    AnsweredLast(s0, l, CommitAmongReaders(bs, rs), AmongReaders(t, bs, rs), Turn);
  }
}
