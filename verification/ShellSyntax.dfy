/**
 Command lines as people type them (user/sh.c:332-456).

 `Typed` is the written form of a line: words and redirections in any order, groups, pipes, '&' and ';'. A line of
 tokens is accepted exactly if it is the written form of something, and the tree is then what that means: words in
 order, redirections outside in, and pipes and lists that nest to the right in the order in which they are written.
 */
module ShellSyntax {
  import opened Shell

  datatype Part = Arg(w: Pos) | To(arrow: Token<Pos>, file: Pos)

  datatype Unit = Plain(parts: seq<Part>) | Group(line: Typed, parts: seq<Part>)

  datatype Piped = Last(unit: Unit) | Into(unit: Unit, rest: Piped)

  datatype Typed = End(pipe: Piped, backs: nat) | Then(pipe: Piped, backs: nat, next: Typed)

  // ----- The written form -----

  function Parts(ps: seq<Part>): (r: seq<Token<Pos>>) {
    if ps == [] then []
    else (match ps[0] case Arg(w) => [Word(w)] case To(a, file) => [a, Word(file)]) + Parts(ps[1..])
  }

  function Amps(k: nat): (r: seq<Token<Pos>>) { if k == 0 then [] else [Sym('&')] + Amps(k - 1) }

  function UnitTokens(u: Unit): (r: seq<Token<Pos>>) {
    match u
    case Plain(ps) => Parts(ps)
    case Group(l, ps) => [Sym('(')] + Tokens(l) + [Sym(')')] + Parts(ps)
  }

  function PipeTokens(p: Piped): (r: seq<Token<Pos>>) {
    match p
    case Last(u) => UnitTokens(u)
    case Into(u, q) => UnitTokens(u) + [Sym('|')] + PipeTokens(q)
  }

  function Tokens(l: Typed): (r: seq<Token<Pos>>) {
    match l
    case End(p, k) => PipeTokens(p) + Amps(k)
    case Then(p, k, m) => PipeTokens(p) + Amps(k) + [Sym(';')] + Tokens(m)
  }

  // ----- What it means -----

  function Argv(ps: seq<Part>): (r: seq<Pos>) {
    if ps == [] then [] else (if ps[0].Arg? then [ps[0].w] else []) + Argv(ps[1..])
  }

  // Each redirection is around what the ones before it left.
  function Wrapped(c: Cmd<Pos>, ps: seq<Part>): (r: Cmd<Pos>)
    decreases |ps|
  {
    if ps == [] then c
    else
      match ps[0]
      case Arg(_) => Wrapped(c, ps[1..])
      case To(a, file) =>
        var (mode, fd) := if a == Sym('<') then (0x000, 0) else if a == Sym('>') then (0x601, 1) else (0x201, 1);
        Wrapped(Redir(c, file, mode, fd), ps[1..])
  }

  function Backed(c: Cmd<Pos>, k: nat): (r: Cmd<Pos>)
    decreases k
  {
    if k == 0 then c else Backed(Back(c), k - 1)
  }

  function UnitTree(u: Unit): (r: Cmd<Pos>) {
    match u
    case Plain(ps) => Wrapped(Exec(Argv(ps)), ps)
    case Group(l, ps) => Wrapped(Tree(l), ps)
  }

  function PipeTree(p: Piped): (r: Cmd<Pos>) {
    match p
    case Last(u) => UnitTree(u)
    case Into(u, q) => Pipe(UnitTree(u), PipeTree(q))
  }

  function Tree(l: Typed): (r: Cmd<Pos>) {
    match l
    case End(p, k) => Backed(PipeTree(p), k)
    case Then(p, k, m) => List(Backed(PipeTree(p), k), Tree(m))
  }

  // ----- Which forms there are -----

  predicate PartsOk(ps: seq<Part>) {
    forall i :: 0 <= i < |ps| && ps[i].To? ==>
      ps[i].arrow == Sym('<') || ps[i].arrow == Sym('>') || ps[i].arrow == Append
  }

  // At most nine words a command, and no words after a group.
  predicate UnitOk(u: Unit) {
    match u
    case Plain(ps) => PartsOk(ps) && |Argv(ps)| <= 9
    case Group(l, ps) => TypedOk(l) && PartsOk(ps) && Argv(ps) == []
  }

  predicate PipedOk(p: Piped) {
    match p
    case Last(u) => UnitOk(u)
    case Into(u, q) => UnitOk(u) && PipedOk(q)
  }

  predicate TypedOk(l: Typed) {
    match l
    case End(p, _) => PipedOk(p)
    case Then(p, _, m) => PipedOk(p) && TypedOk(m)
  }

  // ----- Written forms are read as what they mean -----

  // parseexec without a parenthesis, from a command with argc words on.
  function Loop(c: Cmd<Pos>, argc: nat, ts: seq<Token<Pos>>): (r: Parse) {
    match Redirs(c, ts)
    case Panic(m) => Panic(m)
    case Ok(d, rest) => Args(d, argc, rest)
  }

  lemma LoopWord(c: Cmd<Pos>, argc: nat, w: Pos, ts: seq<Token<Pos>>)
    ensures Loop(c, argc, [Word(w)] + ts)
         == if argc + 1 >= 10 then Panic("too many args") else Loop(AddWord(c, w), argc + 1, ts)
  {
    var all := [Word(w)] + ts;
    assert Redirs(c, all) == Ok(c, all) && all[1..] == ts;
  }

  lemma LoopTo(c: Cmd<Pos>, argc: nat, a: Token<Pos>, file: Pos, ts: seq<Token<Pos>>)
    requires a == Sym('<') || a == Sym('>') || a == Append
    ensures Loop(c, argc, [a, Word(file)] + ts) == Loop(Redirect(c, a, file), argc, ts)
  {
    var all := [a, Word(file)] + ts;
    assert all[2..] == ts;
    assert Redirs(c, all) == Redirs(Redirect(c, a, file), ts);
  }

  // The word reaches its command through the redirections around it.
  lemma {:induction false} AddWordWrapped(c: Cmd<Pos>, ps: seq<Part>, w: Pos)
    ensures AddWord(Wrapped(c, ps), w) == Wrapped(AddWord(c, w), ps)
    decreases |ps|
  {
    if ps != [] {
      match ps[0]
      case Arg(_) => AddWordWrapped(c, ps[1..], w);
      case To(a, file) =>
        var (mode, fd) := if a == Sym('<') then (0x000, 0) else if a == Sym('>') then (0x601, 1) else (0x201, 1);
        AddWordWrapped(Redir(c, file, mode, fd), ps[1..], w);
    }
  }

  lemma {:induction false} WrappedJoin(c: Cmd<Pos>, a: seq<Part>, b: seq<Part>)
    ensures Wrapped(c, a + b) == Wrapped(Wrapped(c, a), b)
    decreases |a|
  {
    if a == [] {
      assert a + b == b;
    } else {
      assert (a + b)[1..] == a[1..] + b;
      match a[0]
      case Arg(_) => WrappedJoin(c, a[1..], b);
      case To(t, file) =>
        var (mode, fd) := if t == Sym('<') then (0x000, 0) else if t == Sym('>') then (0x601, 1) else (0x201, 1);
        WrappedJoin(Redir(c, file, mode, fd), a[1..], b);
    }
  }

  lemma {:induction false} ArgvMore(ps: seq<Part>, p: Part)
    ensures Argv(ps + [p]) == Argv(ps) + if p.Arg? then [p.w] else []
  {
    if ps != [] {
      ArgvMore(ps[1..], p);
      assert (ps + [p])[1..] == ps[1..] + [p];
    }
  }

  lemma {:induction false} ArgvPrefix(ps: seq<Part>, k: nat)
    requires k <= |ps|
    ensures |Argv(ps[..k])| <= |Argv(ps)|
    decreases |ps| - k
  {
    if k < |ps| {
      ArgvMore(ps[..k], ps[k]);
      assert ps[..k] + [ps[k]] == ps[..k + 1];
      ArgvPrefix(ps, k + 1);
    } else {
      assert ps[..k] == ps;
    }
  }

  // The command after the parts ps.
  function Built(ps: seq<Part>): (r: Cmd<Pos>) { Wrapped(Exec(Argv(ps)), ps) }

  lemma BuiltMore(ps: seq<Part>, p: Part)
    ensures Built(ps + [p]) == match p case Arg(w) => AddWord(Built(ps), w) case To(a, file) => Wrapped(Built(ps), [p])
  {
    ArgvMore(ps, p);
    WrappedJoin(Exec(Argv(ps + [p])), ps, [p]);
    if p.Arg? { AddWordWrapped(Exec(Argv(ps)), ps, p.w); } else { assert Argv(ps + [p]) == Argv(ps); }
  }

  // What may follow a simple command.
  predicate Stops(rest: seq<Token<Pos>>) { rest == [] || EndsArgs(rest) }

  lemma LoopStops(c: Cmd<Pos>, argc: nat, rest: seq<Token<Pos>>)
    requires Stops(rest)
    ensures Loop(c, argc, rest) == Ok(c, rest)
  {}

  lemma {:induction false} LoopReads(ps: seq<Part>, k: nat, rest: seq<Token<Pos>>)
    requires k <= |ps| && PartsOk(ps) && |Argv(ps)| <= 9 && Stops(rest)
    ensures Loop(Built(ps[..k]), |Argv(ps[..k])|, Parts(ps[k..]) + rest) == Ok(Built(ps), rest)
    decreases |ps| - k
  {
    hide Loop, Built, Argv, AddWord, Redirect;
    var ts := Parts(ps[k..]) + rest;
    if k == |ps| {
      assert ps[..k] == ps && ts == rest;
      LoopStops(Built(ps), |Argv(ps)|, rest);
    } else {
      var p := ps[k];
      assert ps[..k] + [p] == ps[..k + 1] && ps[k..][1..] == ps[k + 1..];
      BuiltMore(ps[..k], p);
      ArgvMore(ps[..k], p);
      ArgvPrefix(ps, k + 1);
      LoopReads(ps, k + 1, rest);
      var more := Parts(ps[k + 1..]) + rest;
      match p
      case Arg(w) =>
        assert ts == [Word(w)] + more;
        LoopWord(Built(ps[..k]), |Argv(ps[..k])|, w, more);
      case To(a, file) =>
        assert ts == [a, Word(file)] + more;
        LoopTo(Built(ps[..k]), |Argv(ps[..k])|, a, file, more);
        RedirectIs(Built(ps[..k]), a, file);
    }
  }

  lemma RedirectIs(c: Cmd<Pos>, a: Token<Pos>, file: Pos)
    requires a == Sym('<') || a == Sym('>') || a == Append
    ensures Redirect(c, a, file) == Wrapped(c, [To(a, file)])
  {
    assert [To(a, file)][1..] == [];
  }

  // Whatever is read as a simple command was written as one.
  lemma {:induction false} LoopWritten(qs: seq<Part>, ts: seq<Token<Pos>>) returns (ps: seq<Part>)
    requires PartsOk(qs) && |Argv(qs)| <= 9 && Loop(Built(qs), |Argv(qs)|, ts).Ok?
    ensures var r := Loop(Built(qs), |Argv(qs)|, ts);
            && PartsOk(qs + ps) && |Argv(qs + ps)| <= 9 && r.cmd == Built(qs + ps) && Stops(r.rest)
            && ts == Parts(ps) + r.rest
    decreases |ts|, 0
  {
    hide Loop, Built, Argv, AddWord, Redirect;
    var c, n := Built(qs), |Argv(qs)|;
    if Stops(ts) {
      LoopStops(c, n, ts);
      ps := [];
      assert qs + ps == qs;
    } else if ts[0].Word? {
      var p, more := Arg(ts[0].w), ts[1..];
      assert ts == [Word(ts[0].w)] + more;
      LoopWord(c, n, ts[0].w, more);
      BuiltMore(qs, p);
      ArgvMore(qs, p);
      ps := OneMorePart(qs, p, more);
    } else {
      LoopElse(c, n, ts);
      var p, more := To(ts[0], ts[1].w), ts[2..];
      assert ts == [ts[0], Word(ts[1].w)] + more;
      LoopTo(c, n, ts[0], ts[1].w, more);
      RedirectIs(c, ts[0], ts[1].w);
      BuiltMore(qs, p);
      ArgvMore(qs, p);
      ps := OneMorePart(qs, p, more);
    }
  }

  // Any other token that is read begins a redirection.
  lemma LoopElse(c: Cmd<Pos>, argc: nat, ts: seq<Token<Pos>>)
    requires !Stops(ts) && !ts[0].Word? && Loop(c, argc, ts).Ok?
    ensures StartsRedir(ts) && |ts| >= 2 && ts[1].Word?
  {}

  lemma {:induction false} OneMorePart(qs: seq<Part>, p: Part, more: seq<Token<Pos>>) returns (ps: seq<Part>)
    requires PartsOk(qs + [p]) && |Argv(qs + [p])| <= 9 && Loop(Built(qs + [p]), |Argv(qs + [p])|, more).Ok?
    ensures var r := Loop(Built(qs + [p]), |Argv(qs + [p])|, more);
            && PartsOk(qs + ps) && |Argv(qs + ps)| <= 9 && r.cmd == Built(qs + ps) && Stops(r.rest)
            && ps != [] && ps[0] == p && more == Parts(ps[1..]) + r.rest
    decreases |more|, 1
  {
    hide Loop, Built, Argv;
    var rs := LoopWritten(qs + [p], more);
    ps := [p] + rs;
    assert qs + ps == qs + [p] + rs && ps[1..] == rs;
  }

  // ----- Groups, pipes and lists -----

  lemma RedirsFirst(c: Cmd<Pos>, ts: seq<Token<Pos>>)
    requires Redirs(c, ts).Ok?
    ensures if !StartsRedir(ts) then Redirs(c, ts) == Ok(c, ts)
            else |ts| >= 2 && ts[1].Word? && Redirs(c, ts) == Redirs(Wrapped(c, [To(ts[0], ts[1].w)]), ts[2..])
  {
    if StartsRedir(ts) { RedirectIs(c, ts[0], ts[1].w); }
  }

  lemma NoParts(c: Cmd<Pos>, ts: seq<Token<Pos>>)
    ensures PartsOk([]) && Argv([]) == [] && Wrapped(c, []) == c && Parts([]) + ts == ts
  {}

  lemma ToFirst(c: Cmd<Pos>, a: Token<Pos>, file: Pos, ps: seq<Part>)
    requires PartsOk(ps) && (a == Sym('<') || a == Sym('>') || a == Append)
    ensures var qs := [To(a, file)] + ps;
            && PartsOk(qs) && Argv(qs) == Argv(ps) && Parts(qs) == [a, Word(file)] + Parts(ps)
            && Wrapped(c, qs) == Wrapped(Wrapped(c, [To(a, file)]), ps)
  {
    var qs := [To(a, file)] + ps;
    assert qs[1..] == ps && [To(a, file)][1..] == [];
  }

  lemma AllTo(ps: seq<Part>)
    requires PartsOk(ps) && Argv(ps) == [] && ps != []
    ensures ps[0].To? && PartsOk(ps[1..]) && Argv(ps[1..]) == []
    ensures ps[0].arrow == Sym('<') || ps[0].arrow == Sym('>') || ps[0].arrow == Append
  {}

  lemma RedirsNone(c: Cmd<Pos>, ts: seq<Token<Pos>>)
    requires !StartsRedir(ts)
    ensures Redirs(c, ts) == Ok(c, ts)
  {}

  lemma RedirsOne(c: Cmd<Pos>, a: Token<Pos>, file: Pos, ts: seq<Token<Pos>>)
    requires a == Sym('<') || a == Sym('>') || a == Append
    ensures Redirs(c, [a, Word(file)] + ts) == Redirs(Redirect(c, a, file), ts)
  {
    assert ([a, Word(file)] + ts)[2..] == ts;
  }

  lemma {:induction false} RedirsReads(c: Cmd<Pos>, ps: seq<Part>, rest: seq<Token<Pos>>)
    requires PartsOk(ps) && Argv(ps) == [] && !StartsRedir(rest)
    ensures Redirs(c, Parts(ps) + rest) == Ok(Wrapped(c, ps), rest)
    decreases |ps|
  {
    hide Redirs, Parts, Argv, Wrapped, Redirect, PartsOk, StartsRedir;
    if ps == [] {
      NoParts(c, rest);
      RedirsNone(c, rest);
    } else {
      AllTo(ps);
      var a, file, qs := ps[0].arrow, ps[0].file, ps[1..];
      RedirsReads(Redirect(c, a, file), qs, rest);
      ToFirst(c, a, file, qs);
      RedirectIs(c, a, file);
      assert ps == [To(a, file)] + qs;
      RedirsOne(c, a, file, Parts(qs) + rest);
      assert Parts(ps) + rest == [a, Word(file)] + (Parts(qs) + rest);
    }
  }

  lemma {:induction false} RedirsWritten(c: Cmd<Pos>, ts: seq<Token<Pos>>) returns (ps: seq<Part>)
    requires Redirs(c, ts).Ok?
    ensures var r := Redirs(c, ts);
            && PartsOk(ps) && Argv(ps) == [] && !StartsRedir(r.rest)
            && r.cmd == Wrapped(c, ps) && ts == Parts(ps) + r.rest
    decreases |ts|
  {
    hide Redirs, Wrapped, Parts, Argv, PartsOk;
    RedirsFirst(c, ts);
    NoParts(c, ts);
    if !StartsRedir(ts) { return []; }
    var qs := RedirsWritten(Wrapped(c, [To(ts[0], ts[1].w)]), ts[2..]);
    ToFirst(c, ts[0], ts[1].w, qs);
    ps := [To(ts[0], ts[1].w)] + qs;
    assert ts == [ts[0], Word(ts[1].w)] + ts[2..];
  }

  function One(ts: seq<Token<Pos>>): (r: Parse) { if Starts(ts, '(') then Block(ts) else Simple(ts) }

  lemma PlainReads(ps: seq<Part>, rest: seq<Token<Pos>>)
    requires PartsOk(ps) && |Argv(ps)| <= 9 && Stops(rest)
    ensures One(Parts(ps) + rest) == Ok(Built(ps), rest)
  {
    hide Loop, Redirs, Args;
    LoopReads(ps, 0, rest);
    assert ps[..0] == [] && ps[0..] == ps;
    var ts := Parts(ps) + rest;
    SimpleIsLoop(ts);
    assert !Starts(ts, '(');
  }

  lemma SimpleIsLoop(ts: seq<Token<Pos>>)
    ensures Simple(ts) == Loop(Built([]), 0, ts)
  {}

  lemma GroupReads(c: Cmd<Pos>, ts: seq<Token<Pos>>, ps: seq<Part>, rest: seq<Token<Pos>>)
    requires PartsOk(ps) && Argv(ps) == [] && Stops(rest)
    requires var more := [Sym(')')] + (Parts(ps) + rest); Line(ts + more) == Ok(c, more)
    ensures One([Sym('(')] + ts + [Sym(')')] + Parts(ps) + rest) == Ok(Wrapped(c, ps), rest)
  {
    hide Simple, Line, Wrapped, Redirs, Parts;
    var more, all := [Sym(')')] + (Parts(ps) + rest), [Sym('(')] + ts + [Sym(')')] + Parts(ps) + rest;
    assert all[1..] == ts + more && more[1..] == Parts(ps) + rest;
    RedirsReads(c, ps, rest);
  }

  lemma {:induction false} UnitReads(u: Unit, rest: seq<Token<Pos>>)
    requires UnitOk(u) && Stops(rest)
    ensures One(UnitTokens(u) + rest) == Ok(UnitTree(u), rest)
    decreases u
  {
    hide One, Line, Wrapped, Parts;
    match u
    case Plain(ps) => PlainReads(ps, rest);
    case Group(l, ps) =>
      TypedReads(l, [Sym(')')] + (Parts(ps) + rest));
      GroupReads(Tree(l), Tokens(l), ps, rest);
  }

  lemma {:induction false} PipeReads(p: Piped, rest: seq<Token<Pos>>)
    requires PipedOk(p) && Stops(rest) && !Starts(rest, '|')
    ensures Pipes(PipeTokens(p) + rest) == Ok(PipeTree(p), rest)
    decreases p
  {
    hide One, Simple, Block;
    match p
    case Last(u) =>
      UnitReads(u, rest);
      PipesIs(PipeTokens(p) + rest);
    case Into(u, q) =>
      var more := [Sym('|')] + (PipeTokens(q) + rest);
      UnitReads(u, more);
      PipeReads(q, rest);
      assert PipeTokens(p) + rest == UnitTokens(u) + more && more[1..] == PipeTokens(q) + rest;
      PipesIs(PipeTokens(p) + rest);
  }

  lemma PipesIs(ts: seq<Token<Pos>>)
    ensures Pipes(ts) == match One(ts)
                         case Panic(m) => Panic(m)
                         case Ok(c, r) =>
                           if !Starts(r, '|') then Ok(c, r)
                           else match Pipes(r[1..]) case Panic(m) => Panic(m) case Ok(d, q) => Ok(Pipe(c, d), q)
  {}

  lemma BacksFirst(c: Cmd<Pos>, ts: seq<Token<Pos>>, k: nat)
    requires k > 0
    ensures Backs(c, [Sym('&')] + ts) == Backs(Back(c), ts) && Backed(c, k) == Backed(Back(c), k - 1)
  {
    assert ([Sym('&')] + ts)[1..] == ts;
  }

  lemma {:induction false} BacksReads(c: Cmd<Pos>, k: nat, rest: seq<Token<Pos>>)
    requires !Starts(rest, '&')
    ensures Backs(c, Amps(k) + rest) == Ok(Backed(c, k), rest)
    decreases k
  {
    if k == 0 {
      assert Amps(k) + rest == rest;
    } else {
      var ts := Amps(k - 1) + rest;
      assert Amps(k) + rest == [Sym('&')] + ts;
      hide Backs, Backed;
      BacksFirst(c, ts, k);
      BacksReads(Back(c), k - 1, rest);
    }
  }

  lemma {:induction false} TypedReads(l: Typed, rest: seq<Token<Pos>>)
    requires TypedOk(l) && (rest == [] || Starts(rest, ')'))
    ensures Line(Tokens(l) + rest) == Ok(Tree(l), rest)
    decreases l
  {
    hide Pipes, Backs, PipedOk;
    match l
    case End(p, k) =>
      AmpsStop(k, rest);
      PipeReads(p, Amps(k) + rest);
      BacksReads(PipeTree(p), k, rest);
      assert Tokens(l) + rest == PipeTokens(p) + (Amps(k) + rest);
    case Then(p, k, m) =>
      var more := [Sym(';')] + (Tokens(m) + rest);
      AmpsStop(k, more);
      PipeReads(p, Amps(k) + more);
      BacksReads(PipeTree(p), k, more);
      TypedReads(m, rest);
      assert Tokens(l) + rest == PipeTokens(p) + (Amps(k) + more) && more[1..] == Tokens(m) + rest;
  }

  lemma AmpsStop(k: nat, rest: seq<Token<Pos>>)
    requires Stops(rest) && !Starts(rest, '|')
    ensures Stops(Amps(k) + rest) && !Starts(Amps(k) + rest, '|')
  {}

  // ----- Whatever is read was written -----

  lemma PlainWritten(ts: seq<Token<Pos>>) returns (ps: seq<Part>)
    requires !Starts(ts, '(') && One(ts).Ok?
    ensures PartsOk(ps) && |Argv(ps)| <= 9 && One(ts).cmd == Built(ps) && ts == Parts(ps) + One(ts).rest
  {
    hide Loop, Redirs, Args;
    SimpleIsLoop(ts);
    ps := LoopWritten([], ts);
    assert [] + ps == ps;
  }

  lemma BlockIs(ts: seq<Token<Pos>>)
    requires Starts(ts, '(') && One(ts).Ok?
    ensures var r := Line(ts[1..]); r.Ok? && Starts(r.rest, ')') && One(ts) == Redirs(r.cmd, r.rest[1..])
    ensures ts == [Sym('(')] + ts[1..] && Line(ts[1..]).rest == [Sym(')')] + Line(ts[1..]).rest[1..]
  {
    hide Line, Redirs, Simple;
  }

  lemma {:induction false} UnitWritten(ts: seq<Token<Pos>>) returns (u: Unit)
    requires One(ts).Ok?
    ensures UnitOk(u) && One(ts).cmd == UnitTree(u) && ts == UnitTokens(u) + One(ts).rest
    decreases |ts|, 0
  {
    hide One, Line, Redirs, Wrapped, Parts, Argv, PartsOk;
    if Starts(ts, '(') {
      BlockIs(ts);
      var r := Line(ts[1..]);
      var l := TypedWritten(ts[1..]);
      var ps := RedirsWritten(r.cmd, r.rest[1..]);
      u := Group(l, ps);
    } else {
      var ps := PlainWritten(ts);
      u := Plain(ps);
    }
  }

  lemma {:induction false} PipeWritten(ts: seq<Token<Pos>>) returns (p: Piped)
    requires Pipes(ts).Ok?
    ensures PipedOk(p) && Pipes(ts).cmd == PipeTree(p) && ts == PipeTokens(p) + Pipes(ts).rest
    decreases |ts|, 1
  {
    hide One, Simple, Block;
    PipesIs(ts);
    var u := UnitWritten(ts);
    var r := One(ts);
    if Starts(r.rest, '|') {
      var q := PipeWritten(r.rest[1..]);
      p := Into(u, q);
      assert r.rest == [Sym('|')] + r.rest[1..];
    } else {
      p := Last(u);
    }
  }

  lemma {:induction false} BacksWritten(c: Cmd<Pos>, ts: seq<Token<Pos>>) returns (k: nat)
    ensures Backs(c, ts).cmd == Backed(c, k) && ts == Amps(k) + Backs(c, ts).rest
    decreases |ts|
  {
    if !Starts(ts, '&') { return 0; }
    k := BacksWritten(Back(c), ts[1..]);
    k := k + 1;
    assert ts == [Sym('&')] + ts[1..];
  }

  lemma {:induction false} TypedWritten(ts: seq<Token<Pos>>) returns (l: Typed)
    requires Line(ts).Ok?
    ensures TypedOk(l) && Line(ts).cmd == Tree(l) && ts == Tokens(l) + Line(ts).rest
    decreases |ts|, 2
  {
    hide Pipes, Backs, PipedOk;
    var p := PipeWritten(ts);
    var r := Pipes(ts);
    var k := BacksWritten(r.cmd, r.rest);
    var b := Backs(r.cmd, r.rest);
    if Starts(b.rest, ';') {
      var m := TypedWritten(b.rest[1..]);
      l := Then(p, k, m);
      assert b.rest == [Sym(';')] + b.rest[1..];
    } else {
      l := End(p, k);
    }
  }

  // ----- The language of the shell -----

  // A line of tokens is accepted exactly if it is a written form, and its tree is then what any such form means.
  lemma AcceptedExactly(ts: seq<Token<Pos>>)
    ensures Line(ts).Ok? && Line(ts).rest == [] <==> exists l :: TypedOk(l) && Tokens(l) == ts
    ensures forall l :: TypedOk(l) && Tokens(l) == ts ==> Line(ts) == Ok(Tree(l), [])
  {
    hide Line, Tokens, Tree, TypedOk;
    forall l | TypedOk(l) && Tokens(l) == ts ensures Line(ts) == Ok(Tree(l), []) {
      TypedReads(l, []);
      assert Tokens(l) + [] == ts;
    }
    if Line(ts).Ok? && Line(ts).rest == [] {
      var l := TypedWritten(ts);
      assert Tokens(l) == ts;
    }
  }

  function AsWords(x: seq<Pos>): (r: seq<Token<Pos>>) { seq(|x|, i requires 0 <= i < |x| => Word(x[i])) }

  function AsArgs(x: seq<Pos>): (r: seq<Part>) { seq(|x|, i requires 0 <= i < |x| => Arg(x[i])) }

  lemma {:induction false} ArgsOnly(x: seq<Pos>)
    ensures PartsOk(AsArgs(x)) && Argv(AsArgs(x)) == x && Parts(AsArgs(x)) == AsWords(x)
    ensures forall c :: Wrapped(c, AsArgs(x)) == c
  {
    if x != [] {
      ArgsOnly(x[1..]);
      assert AsArgs(x)[1..] == AsArgs(x[1..]);
      assert AsWords(x) == [Word(x[0])] + AsWords(x[1..]);
    }
  }

  // A simple command of words.
  lemma WordsUnit(x: seq<Pos>)
    requires |x| <= 9
    ensures var u := Plain(AsArgs(x)); UnitOk(u) && UnitTree(u) == Exec(x) && UnitTokens(u) == AsWords(x)
  {
    ArgsOnly(x);
  }

  lemma TypedIs(l: Typed)
    requires TypedOk(l)
    ensures Line(Tokens(l)) == Ok(Tree(l), [])
  {
    hide Line, Tree, Tokens, TypedOk;
    TypedReads(l, []);
    assert Tokens(l) + [] == Tokens(l);
  }

  lemma LastIs(x: seq<Pos>)
    requires |x| <= 9
    ensures var p := Last(Plain(AsArgs(x))); PipedOk(p) && PipeTree(p) == Exec(x) && PipeTokens(p) == AsWords(x)
  {
    hide UnitOk, UnitTree, UnitTokens;
    WordsUnit(x);
  }

  lemma IntoIs(x: seq<Pos>, q: Piped)
    requires |x| <= 9 && PipedOk(q)
    ensures var p := Into(Plain(AsArgs(x)), q);
            && PipedOk(p) && PipeTree(p) == Pipe(Exec(x), PipeTree(q))
            && PipeTokens(p) == AsWords(x) + [Sym('|')] + PipeTokens(q)
  {
    hide UnitOk, UnitTree, UnitTokens;
    WordsUnit(x);
  }

  lemma EndIs(p: Piped)
    requires PipedOk(p)
    ensures var l := End(p, 0); TypedOk(l) && Tree(l) == PipeTree(p) && Tokens(l) == PipeTokens(p)
  {
    hide PipedOk, PipeTree, PipeTokens;
  }

  lemma ThenIs(p: Piped, m: Typed)
    requires PipedOk(p) && TypedOk(m)
    ensures var l := Then(p, 0, m);
            TypedOk(l) && Tree(l) == List(PipeTree(p), Tree(m)) && Tokens(l) == PipeTokens(p) + [Sym(';')] + Tokens(m)
    ensures var l := Then(p, 1, m);
            && TypedOk(l) && Tree(l) == List(Back(PipeTree(p)), Tree(m))
            && Tokens(l) == PipeTokens(p) + [Sym('&')] + [Sym(';')] + Tokens(m)
  {
    hide PipedOk, PipeTree, PipeTokens;
    assert Amps(1) == [Sym('&')];
    assert Backed(PipeTree(p), 1) == Back(PipeTree(p));
  }

  // Simple commands without parentheses: a pipe nests to the right.
  lemma PipeLine(x: seq<Pos>, y: seq<Pos>, z: seq<Pos>)
    requires |x| <= 9 && |y| <= 9 && |z| <= 9
    ensures Line(AsWords(x)) == Ok(Exec(x), [])
    ensures Line(AsWords(x) + [Sym('|')] + AsWords(y)) == Ok(Pipe(Exec(x), Exec(y)), [])
    ensures Line(AsWords(x) + [Sym('|')] + (AsWords(y) + [Sym('|')] + AsWords(z)))
         == Ok(Pipe(Exec(x), Pipe(Exec(y), Exec(z))), [])
  {
    hide Line, PipedOk, PipeTree, PipeTokens, TypedOk, Tree, Tokens;
    var a, b, c := Last(Plain(AsArgs(x))), Last(Plain(AsArgs(y))), Last(Plain(AsArgs(z)));
    LastIs(x);
    LastIs(y);
    LastIs(z);
    var p, q := Into(a.unit, b), Into(b.unit, c);
    IntoIs(x, b);
    IntoIs(y, c);
    IntoIs(x, q);
    EndIs(a);
    EndIs(p);
    EndIs(Into(a.unit, q));
    TypedIs(End(a, 0));
    TypedIs(End(p, 0));
    TypedIs(End(Into(a.unit, q), 0));
  }

  // So does a list, and '|' binds before '&' and '&' before ';'.
  lemma ListLine(x: seq<Pos>, y: seq<Pos>, z: seq<Pos>)
    requires |x| <= 9 && |y| <= 9 && |z| <= 9
    ensures Line(AsWords(x) + [Sym(';')] + (AsWords(y) + [Sym(';')] + AsWords(z)))
         == Ok(List(Exec(x), List(Exec(y), Exec(z))), [])
    ensures Line(AsWords(x) + [Sym('|')] + AsWords(y) + [Sym('&')] + [Sym(';')] + AsWords(z))
         == Ok(List(Back(Pipe(Exec(x), Exec(y))), Exec(z)), [])
    ensures Line(AsWords(x) + [Sym(';')] + (AsWords(y) + [Sym('|')] + AsWords(z)))
         == Ok(List(Exec(x), Pipe(Exec(y), Exec(z))), [])
  {
    hide Line, PipedOk, PipeTree, PipeTokens, TypedOk, Tree, Tokens;
    var a, b, c := Last(Plain(AsArgs(x))), Last(Plain(AsArgs(y))), Last(Plain(AsArgs(z)));
    LastIs(x);
    LastIs(y);
    LastIs(z);
    var p, q := Into(a.unit, b), Into(b.unit, c);
    IntoIs(x, b);
    IntoIs(y, c);
    EndIs(c);
    EndIs(q);
    ThenIs(b, End(c, 0));
    ThenIs(a, Then(b, 0, End(c, 0)));
    ThenIs(p, End(c, 0));
    ThenIs(a, End(q, 0));
    TypedIs(Then(a, 0, Then(b, 0, End(c, 0))));
    TypedIs(Then(p, 1, End(c, 0)));
    TypedIs(Then(a, 0, End(q, 0)));
  }

  lemma PartsFirst(p: Part, ps: seq<Part>)
    ensures Parts([p] + ps)
         == (if p.Arg? then [Word(p.w)] else [p.arrow, Word(p.file)]) + Parts(ps)
    ensures Argv([p] + ps) == if p.Arg? then [p.w] + Argv(ps) else Argv(ps)
  {
    assert ([p] + ps)[1..] == ps;
  }

  lemma {:induction false} PartsJoin(a: seq<Part>, b: seq<Part>)
    ensures Parts(a + b) == Parts(a) + Parts(b) && Argv(a + b) == Argv(a) + Argv(b)
  {
    if a == [] {
      assert a + b == b;
    } else {
      hide Parts, Argv;
      var p, c := a[0], a[1..];
      assert a == [p] + c && a + b == [p] + (c + b);
      PartsFirst(p, c);
      PartsFirst(p, c + b);
      PartsJoin(c, b);
    }
  }

  lemma ToIs(t: Token<Pos>, f: Pos)
    requires t == Sym('<') || t == Sym('>') || t == Append
    ensures var ps := [To(t, f)];
            && PartsOk(ps) && Argv(ps) == [] && Parts(ps) == [t, Word(f)]
            && forall c :: Wrapped(c, ps) == Redirect(c, t, f)
  {
    assert [To(t, f)][1..] == [];
  }

  // Redirections may stand anywhere among the words; the last one written is the outermost. '<' opens descriptor 0 for
  // reading; '>' and '>>' open descriptor 1 for writing and create the file, and '>' truncates it.
  lemma RedirectedLine(f: Pos, x: seq<Pos>, g: Pos, y: seq<Pos>)
    requires |x| + |y| <= 9
    ensures Line([Sym('<'), Word(f)] + AsWords(x) + [Append, Word(g)] + AsWords(y))
         == Ok(Redir(Redir(Exec(x + y), f, 0x000, 0), g, 0x201, 1), [])
    ensures Line([Sym('>'), Word(f)] + AsWords(x) + [Append, Word(g)] + AsWords(y))
         == Ok(Redir(Redir(Exec(x + y), f, 0x601, 1), g, 0x201, 1), [])
  {
    hide Line, Wrapped, Parts, Argv, PartsOk;
    RedirectedBy(Sym('<'), f, x, g, y);
    RedirectedBy(Sym('>'), f, x, g, y);
  }

  lemma RedirectedBy(t: Token<Pos>, f: Pos, x: seq<Pos>, g: Pos, y: seq<Pos>)
    requires |x| + |y| <= 9 && (t == Sym('<') || t == Sym('>'))
    ensures Line([t, Word(f)] + AsWords(x) + [Append, Word(g)] + AsWords(y))
         == Ok(Redirect(Redirect(Exec(x + y), t, f), Append, g), [])
  {
    hide Line, Wrapped, Parts, Argv;
    var a, b, c, d := [To(t, f)], AsArgs(x), [To(Append, g)], AsArgs(y);
    ToIs(t, f);
    ToIs(Append, g);
    ArgsOnly(x);
    ArgsOnly(y);
    var e := Exec(x + y);
    PartsJoin(a, b);
    PartsJoin(a + b, c);
    PartsJoin(a + b + c, d);
    WrappedJoin(e, a, b);
    WrappedJoin(e, a + b, c);
    WrappedJoin(e, a + b + c, d);
    var ps := a + b + c + d;
    assert Argv(ps) == x + y;
    assert PartsOk(ps) by { hide Redirect; }
    var p := Last(Plain(ps));
    EndIs(p);
    TypedIs(End(p, 0));
  }

  // ----- Words -----

  // The words of a tree from left to right.
  function Words(c: Cmd<Pos>): (r: seq<Pos>) {
    match c
    case Exec(argv) => argv
    case Redir(d, file, _, _) => Words(d) + [file]
    case Pipe(l, r) => Words(l) + Words(r)
    case List(l, r) => Words(l) + Words(r)
    case Back(d) => Words(d)
  }

  function WordTokens(ts: seq<Token<Pos>>): (r: seq<Pos>) {
    if ts == [] then [] else (if ts[0].Word? then [ts[0].w] else []) + WordTokens(ts[1..])
  }

  lemma WordTokensFirst(t: Token<Pos>, ts: seq<Token<Pos>>)
    ensures WordTokens([t] + ts) == if t.Word? then [t.w] + WordTokens(ts) else WordTokens(ts)
  {
    assert ([t] + ts)[1..] == ts;
  }

  lemma {:induction false} WordTokensJoin(a: seq<Token<Pos>>, b: seq<Token<Pos>>)
    ensures WordTokens(a + b) == WordTokens(a) + WordTokens(b)
  {
    if a == [] {
      assert a + b == b;
    } else {
      hide WordTokens;
      var t, c := a[0], a[1..];
      assert a == [t] + c && a + b == [t] + (c + b);
      WordTokensFirst(t, c);
      WordTokensFirst(t, c + b);
      WordTokensJoin(c, b);
    }
  }

  lemma {:induction false} WordsBacked(c: Cmd<Pos>, k: nat)
    ensures Words(Backed(c, k)) == Words(c) && WordTokens(Amps(k)) == []
    decreases k
  {
    if k > 0 { WordsBacked(Back(c), k - 1); }
  }

  // The redirections among parts, which are what is not a word of the command.
  function Files(ps: seq<Part>): (r: seq<Pos>) {
    if ps == [] then [] else (if ps[0].To? then [ps[0].file] else []) + Files(ps[1..])
  }

  lemma {:induction false} WordsWrapped(c: Cmd<Pos>, ps: seq<Part>)
    ensures Words(Wrapped(c, ps)) == Words(c) + Files(ps)
    decreases |ps|
  {
    if ps != [] {
      match ps[0]
      case Arg(_) => WordsWrapped(c, ps[1..]);
      case To(a, file) =>
        var (mode, fd) := if a == Sym('<') then (0x000, 0) else if a == Sym('>') then (0x601, 1) else (0x201, 1);
        WordsWrapped(Redir(c, file, mode, fd), ps[1..]);
        assert Words(c) + [file] + Files(ps[1..]) == Words(c) + ([file] + Files(ps[1..]));
    }
  }

  lemma PartWords(p: Part, ps: seq<Part>)
    requires PartsOk([p])
    ensures WordTokens(Parts([p] + ps)) == [if p.Arg? then p.w else p.file] + WordTokens(Parts(ps))
    ensures Argv([p] + ps) == if p.Arg? then [p.w] + Argv(ps) else Argv(ps)
    ensures Files([p] + ps) == if p.To? then [p.file] + Files(ps) else Files(ps)
  {
    var head := match p case Arg(w) => [Word(w)] case To(a, file) => [a, Word(file)];
    assert ([p] + ps)[1..] == ps && Parts([p] + ps) == head + Parts(ps);
    WordTokensJoin(head, Parts(ps));
    if p.To? {
      assert [p][0].To?;
      assert head[1..] == [Word(p.file)] && head[1..][1..] == [];
    }
  }

  predicate Permuted(a: seq<Pos>, b: seq<Pos>) { multiset(a) == multiset(b) }

  lemma PermutedJoin(a: seq<Pos>, b: seq<Pos>, c: seq<Pos>, d: seq<Pos>)
    requires Permuted(a, b) && Permuted(c, d)
    ensures Permuted(a + c, b + d)
  {}

  lemma PermutedInto(x: Pos, ws: seq<Pos>, a: seq<Pos>, b: seq<Pos>)
    requires Permuted(ws, a + b)
    ensures Permuted([x] + ws, ([x] + a) + b) && Permuted([x] + ws, a + ([x] + b))
  {}

  lemma NoWords()
    ensures Parts([]) == [] && WordTokens([]) == [] && Argv([]) == [] && Files([]) == []
    ensures Permuted(WordTokens(Parts([])), Argv([]) + Files([]))
  {}

  lemma {:induction false} WordsOfParts(ps: seq<Part>)
    requires PartsOk(ps)
    ensures Permuted(WordTokens(Parts(ps)), Argv(ps) + Files(ps))
    ensures Files(ps) == [] ==> WordTokens(Parts(ps)) == Argv(ps)
    ensures Argv(ps) == [] ==> WordTokens(Parts(ps)) == Files(ps)
  {
    hide WordTokens, Parts, Argv, Files, Permuted;
    NoWords();
    if ps != [] {
      var p, qs := ps[0], ps[1..];
      assert ps == [p] + qs;
      WordsOfParts(qs);
      PartWords(p, qs);
      PermutedInto(if p.Arg? then p.w else p.file, WordTokens(Parts(qs)), Argv(qs), Files(qs));
    }
  }

  // No redirection stands in a simple command.
  predicate PlainUnit(u: Unit) {
    match u
    case Plain(ps) => Files(ps) == []
    case Group(l, _) => Plainly(l)
  }

  predicate PlainPipe(p: Piped) {
    match p
    case Last(u) => PlainUnit(u)
    case Into(u, q) => PlainUnit(u) && PlainPipe(q)
  }

  predicate Plainly(l: Typed) {
    match l
    case End(p, _) => PlainPipe(p)
    case Then(p, _, m) => PlainPipe(p) && Plainly(m)
  }

  lemma GroupTokens(l: Typed, ps: seq<Part>)
    ensures WordTokens(UnitTokens(Group(l, ps))) == WordTokens(Tokens(l)) + WordTokens(Parts(ps))
  {
    hide Tokens, Parts;
    var a, b, c := [Sym('(')], Tokens(l), [Sym(')')];
    WordTokensJoin(a + b + c, Parts(ps));
    WordTokensJoin(a + b, c);
    WordTokensJoin(a, b);
  }

  lemma {:induction false} UnitWords(u: Unit)
    requires UnitOk(u)
    ensures Permuted(WordTokens(UnitTokens(u)), Words(UnitTree(u)))
    ensures PlainUnit(u) ==> WordTokens(UnitTokens(u)) == Words(UnitTree(u))
    decreases u
  {
    hide WordTokens, Parts, Argv, Files, Wrapped, Permuted, TypedOk, Tree, Tokens, Plainly;
    WordsOfParts(u.parts);
    match u
    case Plain(ps) => WordsWrapped(Exec(Argv(ps)), ps);
    case Group(l, ps) =>
      TypedWords(l);
      WordsWrapped(Tree(l), ps);
      GroupTokens(l, ps);
      SamePermuted(Files(ps));
      PermutedJoin(WordTokens(Tokens(l)), Words(Tree(l)), Files(ps), Files(ps));
  }

  lemma SamePermuted(a: seq<Pos>)
    ensures Permuted(a, a)
  {}

  lemma LastTokens(p: Piped)
    ensures p.Last? ==> PipeTokens(p) == UnitTokens(p.unit)
  {}

  lemma IntoTokens(u: Unit, q: Piped)
    ensures WordTokens(PipeTokens(Into(u, q))) == WordTokens(UnitTokens(u)) + WordTokens(PipeTokens(q))
  {
    hide UnitTokens;
    WordTokensJoin(UnitTokens(u) + [Sym('|')], PipeTokens(q));
    WordTokensJoin(UnitTokens(u), [Sym('|')]);
  }

  lemma {:induction false} PipeWords(p: Piped)
    requires PipedOk(p)
    ensures Permuted(WordTokens(PipeTokens(p)), Words(PipeTree(p)))
    ensures PlainPipe(p) ==> WordTokens(PipeTokens(p)) == Words(PipeTree(p))
    decreases p
  {
    hide UnitOk, UnitTree, UnitTokens, PlainUnit, WordTokens, Permuted, PipeTokens;
    UnitWords(p.unit);
    LastTokens(p);
    if p.Into? {
      PipeWords(p.rest);
      IntoTokens(p.unit, p.rest);
      PermutedJoin(WordTokens(UnitTokens(p.unit)), Words(UnitTree(p.unit)),
                   WordTokens(PipeTokens(p.rest)), Words(PipeTree(p.rest)));
    }
  }

  lemma AmpWords(a: seq<Token<Pos>>, k: nat, b: seq<Token<Pos>>)
    ensures WordTokens(a + Amps(k)) == WordTokens(a)
    ensures WordTokens(a + Amps(k) + [Sym(';')] + b) == WordTokens(a) + WordTokens(b)
  {
    hide Amps;
    WordsBacked(Exec([]), k);
    WordTokensJoin(a, Amps(k));
    WordTokensJoin(a + Amps(k), [Sym(';')]);
    WordTokensJoin(a + Amps(k) + [Sym(';')], b);
  }

  lemma TypedTokens(l: Typed)
    ensures WordTokens(Tokens(l))
         == if l.End? then WordTokens(PipeTokens(l.pipe))
            else WordTokens(PipeTokens(l.pipe)) + WordTokens(Tokens(l.next))
  {
    hide PipeTokens, WordTokens, Amps;
    AmpWords(PipeTokens(l.pipe), l.backs, if l.End? then [] else Tokens(l.next));
  }

  lemma {:induction false} TypedWords(l: Typed)
    requires TypedOk(l)
    ensures Permuted(WordTokens(Tokens(l)), Words(Tree(l)))
    ensures Plainly(l) ==> WordTokens(Tokens(l)) == Words(Tree(l))
    decreases l
  {
    hide PipedOk, PipeTree, PipeTokens, PlainPipe, WordTokens, Permuted, Backed, Tokens;
    PipeWords(l.pipe);
    WordsBacked(PipeTree(l.pipe), l.backs);
    TypedTokens(l);
    if l.Then? {
      TypedWords(l.next);
      PermutedJoin(WordTokens(PipeTokens(l.pipe)), Words(PipeTree(l.pipe)),
                   WordTokens(Tokens(l.next)), Words(Tree(l.next)));
    }
  }

  predicate NoArrows(ts: seq<Token<Pos>>) {
    forall i :: 0 <= i < |ts| ==> ts[i] != Sym('<') && ts[i] != Sym('>') && ts[i] != Append
  }

  lemma NoArrowsJoin(a: seq<Token<Pos>>, b: seq<Token<Pos>>)
    requires NoArrows(a + b)
    ensures NoArrows(a) && NoArrows(b)
  {
    forall i | 0 <= i < |a| ensures a[i] != Sym('<') && a[i] != Sym('>') && a[i] != Append {
      assert (a + b)[i] == a[i];
    }
    forall i | 0 <= i < |b| ensures b[i] != Sym('<') && b[i] != Sym('>') && b[i] != Append {
      assert (a + b)[|a| + i] == b[i];
    }
  }

  lemma ToHasArrow(ps: seq<Part>)
    requires PartsOk(ps) && ps != [] && ps[0].To?
    ensures !NoArrows(Parts(ps))
  {
    assert Parts(ps)[0] == ps[0].arrow;
  }

  lemma {:induction false} NoFiles(ps: seq<Part>)
    requires PartsOk(ps) && NoArrows(Parts(ps))
    ensures Files(ps) == []
  {
    if ps != [] {
      if ps[0].To? { ToHasArrow(ps); }
      NoArrowsJoin([Word(ps[0].w)], Parts(ps[1..]));
      NoFiles(ps[1..]);
    }
  }

  lemma {:induction false} NoArrowsUnit(u: Unit)
    requires UnitOk(u) && NoArrows(UnitTokens(u))
    ensures PlainUnit(u)
    decreases u
  {
    match u
    case Plain(ps) => NoFiles(ps);
    case Group(l, ps) =>
      var a, b, c := [Sym('(')], Tokens(l), [Sym(')')];
      NoArrowsJoin(a + b + c, Parts(ps));
      NoArrowsJoin(a + b, c);
      NoArrowsJoin(a, b);
      NoArrowsTyped(l);
  }

  lemma {:induction false} NoArrowsPipe(p: Piped)
    requires PipedOk(p) && NoArrows(PipeTokens(p))
    ensures PlainPipe(p)
    decreases p
  {
    if p.Into? {
      NoArrowsJoin(UnitTokens(p.unit) + [Sym('|')], PipeTokens(p.rest));
      NoArrowsJoin(UnitTokens(p.unit), [Sym('|')]);
      NoArrowsPipe(p.rest);
    }
    NoArrowsUnit(p.unit);
  }

  lemma {:induction false} NoArrowsTyped(l: Typed)
    requires TypedOk(l) && NoArrows(Tokens(l))
    ensures Plainly(l)
    decreases l
  {
    if l.Then? {
      NoArrowsJoin(PipeTokens(l.pipe) + Amps(l.backs) + [Sym(';')], Tokens(l.next));
      NoArrowsJoin(PipeTokens(l.pipe) + Amps(l.backs), [Sym(';')]);
      NoArrowsTyped(l.next);
    }
    NoArrowsJoin(PipeTokens(l.pipe), Amps(l.backs));
    NoArrowsPipe(l.pipe);
  }

  // The tree of an accepted line has every word of the line once and no other; without redirections it has them from
  // left to right as they are written.
  lemma AcceptedWords(ts: seq<Token<Pos>>)
    requires Line(ts).Ok? && Line(ts).rest == []
    ensures multiset(WordTokens(ts)) == multiset(Words(Line(ts).cmd))
    ensures NoArrows(ts) ==> WordTokens(ts) == Words(Line(ts).cmd)
  {
    hide Line, Tokens, Tree, TypedOk, Plainly, WordTokens, Words;
    var l := TypedWritten(ts);
    assert Tokens(l) + [] == Tokens(l);
    TypedWords(l);
    if NoArrows(ts) { NoArrowsTyped(l); }
  }

  // ----- From characters to tokens -----

  // Characters without the spaces.
  function Squeezed(s: string): (r: string) {
    if s == "" then ""
    else
      (if s[0] == ' ' || s[0] == '\t' || s[0] == '\r' || s[0] == '\n' || s[0] == 11 as char then "" else [s[0]])
      + Squeezed(s[1..])
  }

  function Spelling(s: string, ts: seq<Token<Pos>>): (r: string) {
    if ts == [] then ""
    else SpelledAs(s, ts[0]) + Spelling(s, ts[1..])
  }

  function SpelledAs(s: string, t: Token<Pos>): (r: string) {
    match t case Sym(c) => [c] case Append => ">>" case Word((a, b)) => if a <= b <= |s| then s[a..b] else ""
  }

  lemma {:induction false} SqueezedSkip(s: string, p: nat)
    requires p <= |s|
    ensures Squeezed(s[p..]) == Squeezed(s[Skip(s, p)..])
    decreases |s| - p
  {
    if p < |s| && IsSpace(s[p]) {
      SqueezedSkip(s, p + 1);
      assert s[p..][1..] == s[p + 1..];
    }
  }

  lemma {:induction false} SqueezedUpTo(s: string, p: nat, e: nat)
    requires p <= e <= |s| && forall i :: p <= i < e ==> !IsSpace(s[i])
    ensures Squeezed(s[p..]) == s[p..e] + Squeezed(s[e..])
    decreases e - p
  {
    if p < e {
      SqueezedUpTo(s, p + 1, e);
      assert s[p..][1..] == s[p + 1..] && s[p..e] == [s[p]] + s[p + 1..e];
    }
  }

  lemma TokenSpelled(s: string, q: nat)
    requires q < |s| && !IsSpace(s[q])
    ensures SpelledAs(s, TokenAt(s, q)) == s[q..TokenEnd(s, q)]
    ensures forall i :: q <= i < TokenEnd(s, q) ==> !IsSpace(s[i])
  {
    if s[q] == '>' && q + 1 < |s| && s[q + 1] == '>' {
      assert s[q..q + 2] == ">>";
    } else if IsSymbol(s[q]) {
      assert s[q..q + 1] == [s[q]];
    }
  }

  // The tokens of a line spell all of it but the spaces, a word is as long as it can be and has none of the symbols,
  // and two '>' next to each other are one token.
  lemma {:induction false} TokensSpellLine(s: string, p: nat)
    requires p <= |s|
    ensures Spelling(s, Lex(s, p)) == Squeezed(s[p..])
    decreases |s| - p
  {
    SqueezedSkip(s, p);
    var q := Skip(s, p);
    LexAt(s, p);
    if q < |s| {
      hide Lex, TokenAt, TokenEnd, Squeezed;
      var e := TokenEnd(s, q);
      TokenSpelled(s, q);
      SqueezedUpTo(s, q, e);
      TokensSpellLine(s, e);
      var ts := [TokenAt(s, q)] + Lex(s, e);
      assert ts[1..] == Lex(s, e);
    }
  }

  lemma FirstToken(s: string, p: nat)
    requires p < |s| && !IsSpace(s[p])
    ensures s[p] == '>' ==>
              Lex(s, p) == if p + 1 < |s| && s[p + 1] == '>' then [Append] + Lex(s, p + 2)
                           else [Sym('>')] + Lex(s, p + 1)
    ensures s[p] in "<|&;()" ==> Lex(s, p) == [Sym(s[p])] + Lex(s, p + 1)
    ensures s[p] !in "<|>&;()" ==> Lex(s, p) != [] && Lex(s, p)[0].Word? && Lex(s, p)[0].w.0 == p
  {
    hide Lex;
    LexAt(s, p);
    assert Skip(s, p) == p;
  }

  lemma {:induction false} WordsAreMaximal(s: string, p: nat, i: nat, k: nat)
    requires p <= |s| && i < |Lex(s, p)| && Lex(s, p)[i].Word?
    ensures var w := Lex(s, p)[i].w;
            && w.0 < w.1 <= |s|
            && (w.0 <= k < w.1 ==> s[k] !in "<|>&;()" && s[k] !in " \t\r\n" && s[k] != 11 as char)
            && (w.1 < |s| ==> s[w.1] in "<|>&;()" || s[w.1] in " \t\r\n" || s[w.1] == 11 as char)
  {
    LexWords(s, p);
    assert MaximalWord(s, Lex(s, p)[i].w);
  }
}
