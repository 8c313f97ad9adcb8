/**
 The command parser of the shell (user/sh.c:263-494). Methods work on the characters, as the source does;
 functions give the grammar on tokens that they are proved to follow.
 */
module Shell {

  const MAXARGS: nat := 10
  const O_RDONLY: nat := 0x000
  const O_WRONLY: nat := 0x001
  const O_CREATE: nat := 0x200
  const O_TRUNC: nat := 0x400

  // The start of a word in the buffer, and its end.
  type Pos = (nat, nat)

  // A C string, without its NUL.
  type CString = s: string | '\0' !in s

  datatype Token<W> = Sym(c: char) | Append | Word(w: W)

  datatype Cmd<W> =
    | Exec(argv: seq<W>)
    | Redir(cmd: Cmd<W>, file: W, mode: nat, fd: nat)
    | Pipe(left: Cmd<W>, right: Cmd<W>)
    | List(left: Cmd<W>, right: Cmd<W>)
    | Back(cmd: Cmd<W>)

  datatype Parse = Ok(cmd: Cmd<Pos>, rest: seq<Token<Pos>>) | Panic(msg: string)

  // ----- Tokens -----

  predicate IsSpace(c: char) { c == ' ' || c == '\t' || c == '\r' || c == '\n' || c == 11 as char }

  predicate IsSymbol(c: char) { c == '<' || c == '|' || c == '>' || c == '&' || c == ';' || c == '(' || c == ')' }

  predicate IsPlain(c: char) { !IsSpace(c) && !IsSymbol(c) && c != '\0' }

  function Skip(s: string, p: nat): (r: nat)
    requires p <= |s|
    ensures p <= r <= |s| && (r < |s| ==> !IsSpace(s[r])) && forall i :: p <= i < r ==> IsSpace(s[i])
    decreases |s| - p
  {
    if p < |s| && IsSpace(s[p]) then Skip(s, p + 1) else p
  }

  function WordEnd(s: string, p: nat): (r: nat)
    requires p <= |s|
    ensures p <= r <= |s| && (r < |s| ==> IsSpace(s[r]) || IsSymbol(s[r]))
    ensures forall i :: p <= i < r ==> !IsSpace(s[i]) && !IsSymbol(s[i])
    ensures p < |s| && !IsSpace(s[p]) && !IsSymbol(s[p]) ==> p < r
    decreases |s| - p
  {
    if p < |s| && !IsSpace(s[p]) && !IsSymbol(s[p]) then WordEnd(s, p + 1) else p
  }

  function TokenEnd(s: string, q: nat): (r: nat)
    requires q < |s| && !IsSpace(s[q])
    ensures q < r <= |s|
  {
    if s[q] == '>' then (if q + 1 < |s| && s[q + 1] == '>' then q + 2 else q + 1)
    else if IsSymbol(s[q]) then q + 1
    else WordEnd(s, q)
  }

  function TokenAt(s: string, q: nat): (r: Token<Pos>)
    requires q < |s| && !IsSpace(s[q])
  {
    if s[q] == '>' && q + 1 < |s| && s[q + 1] == '>' then Append
    else if IsSymbol(s[q]) then Sym(s[q])
    else Word((q, WordEnd(s, q)))
  }

  // The tokens of s from p on.
  function Lex(s: string, p: nat): (r: seq<Token<Pos>>)
    requires p <= |s|
    decreases |s| - p
  {
    var q := Skip(s, p);
    if q == |s| then [] else [TokenAt(s, q)] + Lex(s, TokenEnd(s, q))
  }

  lemma LexSkip(s: string, p: nat)
    requires p <= |s|
    ensures Lex(s, Skip(s, p)) == Lex(s, p)
  {}

  // ----- The grammar -----

  predicate Starts(ts: seq<Token<Pos>>, c: char) { ts != [] && ts[0] == Sym(c) }

  predicate StartsRedir(ts: seq<Token<Pos>>) { ts != [] && (ts[0] == Sym('<') || ts[0] == Sym('>') || ts[0] == Append) }

  predicate EndsArgs(ts: seq<Token<Pos>>) { Starts(ts, '|') || Starts(ts, ')') || Starts(ts, '&') || Starts(ts, ';') }

  function Redirect<W>(cmd: Cmd<W>, t: Token<W>, file: W): (r: Cmd<W>) {
    if t == Sym('<') then Redir(cmd, file, O_RDONLY, 0)
    else if t == Append then Redir(cmd, file, O_WRONLY + O_CREATE, 1)
    else Redir(cmd, file, O_WRONLY + O_CREATE + O_TRUNC, 1)
  }

  // parseexec stores a word in its execcmd, which redirections may already have wrapped.
  function AddWord(cmd: Cmd<Pos>, w: Pos): (r: Cmd<Pos>) {
    match cmd
    case Exec(argv) => Exec(argv + [w])
    case Redir(c, file, mode, fd) => Redir(AddWord(c, w), file, mode, fd)
    case _ => cmd
  }

  function Redirs(cmd: Cmd<Pos>, ts: seq<Token<Pos>>): (r: Parse)
    ensures r.Ok? ==> |r.rest| <= |ts|
    decreases |ts|
  {
    if !StartsRedir(ts) then Ok(cmd, ts)
    else if |ts| < 2 || !ts[1].Word? then Panic("missing file for redirection")
    else Redirs(Redirect(cmd, ts[0], ts[1].w), ts[2..])
  }

  function Args(cmd: Cmd<Pos>, argc: nat, ts: seq<Token<Pos>>): (r: Parse)
    ensures r.Ok? ==> |r.rest| <= |ts|
    decreases |ts|
  {
    if ts == [] || EndsArgs(ts) then Ok(cmd, ts)
    else if !ts[0].Word? then Panic("syntax")
    else if argc + 1 >= MAXARGS then Panic("too many args")
    else
      match Redirs(AddWord(cmd, ts[0].w), ts[1..])
      case Panic(m) => Panic(m)
      case Ok(c, r) => Args(c, argc + 1, r)
  }

  function Simple(ts: seq<Token<Pos>>): (r: Parse)
    ensures r.Ok? ==> |r.rest| <= |ts|
  {
    match Redirs(Exec([]), ts)
    case Panic(m) => Panic(m)
    case Ok(c, r) => Args(c, 0, r)
  }

  function Block(ts: seq<Token<Pos>>): (r: Parse)
    requires Starts(ts, '(')
    ensures r.Ok? ==> |r.rest| <= |ts|
    decreases |ts|, 0
  {
    match Line(ts[1..])
    case Panic(m) => Panic(m)
    case Ok(c, r) => if !Starts(r, ')') then Panic("syntax - missing )") else Redirs(c, r[1..])
  }

  function Pipes(ts: seq<Token<Pos>>): (r: Parse)
    ensures r.Ok? ==> |r.rest| <= |ts|
    decreases |ts|, 1
  {
    match if Starts(ts, '(') then Block(ts) else Simple(ts)
    case Panic(m) => Panic(m)
    case Ok(c, r) =>
      if !Starts(r, '|') then Ok(c, r)
      else
        match Pipes(r[1..])
        case Panic(m) => Panic(m)
        case Ok(d, q) => Ok(Pipe(c, d), q)
  }

  function Backs(cmd: Cmd<Pos>, ts: seq<Token<Pos>>): (r: Parse)
    ensures r.Ok? && |r.rest| <= |ts|
    decreases |ts|
  {
    if Starts(ts, '&') then Backs(Back(cmd), ts[1..]) else Ok(cmd, ts)
  }

  function Line(ts: seq<Token<Pos>>): (r: Parse)
    ensures r.Ok? ==> |r.rest| <= |ts|
    decreases |ts|, 2
  {
    match Pipes(ts)
    case Panic(m) => Panic(m)
    case Ok(c, r) =>
      var b := Backs(c, r);
      if !Starts(b.rest, ';') then b
      else
        match Line(b.rest[1..])
        case Panic(m) => Panic(m)
        case Ok(d, q) => Ok(List(b.cmd, d), q)
  }

  // ----- The scanner on characters -----

  // The methods give back the advanced cursor where the source stores it through ps.
  method SkipSpace(s: CString, p: nat) returns (r: nat)
    requires p <= |s|
    ensures r == Skip(s, p)
  {
    r := p;
    while r < |s| && IsSpace(s[r])
      invariant p <= r <= |s| && Skip(s, r) == Skip(s, p)
    {
      r := r + 1;
    }
  }

  function At(s: string, p: nat): (c: char)
    requires p <= |s|
  {
    if p == |s| then '\0' else s[p]
  }

  // The first character of a token; words are told apart from symbols only.
  predicate FirstIn(ts: seq<Token<Pos>>, toks: string) {
    ts != [] && match ts[0] case Sym(c) => c in toks case Append => '>' in toks case Word(_) => false
  }

  method Peek(s: CString, p: nat, toks: string) returns (r: nat, b: bool)
    requires p <= |s| && forall c :: c in toks ==> IsSymbol(c)
    ensures p <= r <= |s| && Lex(s, r) == Lex(s, p) && (b <==> FirstIn(Lex(s, p), toks)) && r == Skip(s, p)
  {
    r := SkipSpace(s, p);
    LexSkip(s, p);
    b := At(s, r) != '\0' && At(s, r) in toks;
  }

  // What gettoken returns for a token.
  predicate Codes(ret: char, t: Token<Pos>) {
    match t
    case Sym(c) => ret == c && IsSymbol(c)
    case Append => ret == '+'
    case Word(_) => ret == 'a'
  }

  method GetToken(s: CString, p: nat) returns (ret: char, q: nat, eq: nat, r: nat)
    requires p <= |s|
    ensures p <= q <= eq <= r <= |s|
    ensures Lex(s, p) == [] <==> ret == '\0'
    ensures Lex(s, p) == [] ==> Lex(s, r) == []
    ensures Lex(s, p) != [] ==> p < r && Lex(s, r) == Lex(s, p)[1..] && Codes(ret, Lex(s, p)[0])
    ensures Lex(s, p) != [] && Lex(s, p)[0].Word? ==> Lex(s, p)[0].w == (q, eq)
  {
    hide Lex, Skip, TokenAt, TokenEnd, Codes;
    q := SkipSpace(s, p);
    LexAt(s, p);
    LexSkip(s, p);
    ret, eq := ScanToken(s, q);
    LexSkip(s, eq);
    r := SkipSpace(s, eq);
    if q < |s| { assert Lex(s, p)[1..] == Lex(s, eq); }
  }

  lemma LexAt(s: string, p: nat)
    requires p <= |s|
    ensures var q := Skip(s, p);
            if q == |s| then Lex(s, p) == [] else Lex(s, p) == [TokenAt(s, q)] + Lex(s, TokenEnd(s, q))
  {}

  // The switch of gettoken, at the first character of a token or at the end.
  method ScanToken(s: CString, q: nat) returns (ret: char, eq: nat)
    requires q <= |s| && (q < |s| ==> !IsSpace(s[q]))
    ensures q == |s| ==> ret == '\0' && eq == q
    ensures q < |s| ==> ret != '\0' && eq == TokenEnd(s, q) && Codes(ret, TokenAt(s, q))
    ensures q < |s| && TokenAt(s, q).Word? ==> TokenAt(s, q).w == (q, eq)
  {
    eq, ret := q, At(s, q);
    if ret == '\0' {
    } else if ret == '|' || ret == '(' || ret == ')' || ret == ';' || ret == '&' || ret == '<' {
      eq := eq + 1;
    } else if ret == '>' {
      eq := eq + 1;
      if At(s, eq) == '>' {
        ret := '+';
        eq := eq + 1;
      }
    } else {
      ret := 'a';
      while eq < |s| && !IsSpace(s[eq]) && !IsSymbol(s[eq])
        invariant q <= eq <= |s| && WordEnd(s, eq) == WordEnd(s, q)
      {
        eq := eq + 1;
      }
    }
  }

  // ----- The parser on characters -----

  // A parser's outcome: the command and the cursor, or the message of panic(), which does not return.
  datatype Outcome = Parsed(cmd: Cmd<Pos>, at: nat) | Panicked(msg: string)

  predicate Agrees(s: string, o: Outcome, r: Parse) {
    match o
    case Panicked(m) => r == Panic(m)
    case Parsed(c, p) => p <= |s| && r == Ok(c, Lex(s, p))
  }

  lemma FirstMeans(ts: seq<Token<Pos>>)
    ensures FirstIn(ts, "<>") <==> StartsRedir(ts)
    ensures FirstIn(ts, "|)&;") <==> EndsArgs(ts)
    ensures FirstIn(ts, "(") <==> Starts(ts, '(')
    ensures FirstIn(ts, ")") <==> Starts(ts, ')')
    ensures FirstIn(ts, "|") <==> Starts(ts, '|')
    ensures FirstIn(ts, "&") <==> Starts(ts, '&')
    ensures FirstIn(ts, ";") <==> Starts(ts, ';')
  {}

  lemma RedirsStep(cmd: Cmd<Pos>, ts: seq<Token<Pos>>, tok: char)
    requires StartsRedir(ts) && |ts| >= 2 && ts[1].Word? && Codes(tok, ts[0])
    ensures var mode := if tok == '<' then O_RDONLY else if tok == '>' then O_WRONLY + O_CREATE + O_TRUNC
            else O_WRONLY + O_CREATE;
            Redirs(cmd, ts) == Redirs(Redir(cmd, ts[1].w, mode, if tok == '<' then 0 else 1), ts[2..])
  {}

  method ParseRedirs(cmd: Cmd<Pos>, s: CString, p0: nat) returns (o: Outcome)
    requires p0 <= |s|
    ensures Agrees(s, o, Redirs(cmd, Lex(s, p0))) && (o.Parsed? ==> p0 <= o.at)
  {
    hide Lex, Skip, FirstIn;
    var c, p := cmd, p0;
    var b;
    p, b := Peek(s, p, "<>");
    FirstMeans(Lex(s, p));
    while b
      invariant p0 <= p <= |s| && b == StartsRedir(Lex(s, p))
      invariant Redirs(c, Lex(s, p)) == Redirs(cmd, Lex(s, p0))
      decreases |s| - p
    {
      ghost var ts := Lex(s, p);
      var tok, _, _, p1 := GetToken(s, p);
      var word, q, eq, p2 := GetToken(s, p1);
      if word != 'a' { return Panicked("missing file for redirection"); }
      RedirsStep(c, ts, tok);
      match tok {
        case '<' => c := Redir(c, (q, eq), O_RDONLY, 0);
        case '>' => c := Redir(c, (q, eq), O_WRONLY + O_CREATE + O_TRUNC, 1);
        case _ => c := Redir(c, (q, eq), O_WRONLY + O_CREATE, 1);
      }
      assert Lex(s, p2) == ts[2..];
      p, b := Peek(s, p2, "<>");
      FirstMeans(Lex(s, p));
    }
    return Parsed(c, p);
  }

  // parseexec, when no parenthesis opens.
  method ParseSimple(s: CString, p0: nat) returns (o: Outcome)
    requires p0 <= |s|
    ensures Agrees(s, o, Simple(Lex(s, p0))) && (o.Parsed? ==> p0 <= o.at)
  {
    hide Lex, Skip, FirstIn, Redirs, AddWord;
    o := ParseRedirs(Exec([]), s, p0);
    if o.Panicked? { return; }
    var ret, p, argc := o.cmd, o.at, 0;
    var b;
    p, b := Peek(s, p, "|)&;");
    FirstMeans(Lex(s, p));
    while !b
      invariant p0 <= p <= |s| && b == EndsArgs(Lex(s, p)) && argc < MAXARGS
      invariant Args(ret, argc, Lex(s, p)) == Simple(Lex(s, p0))
      decreases |s| - p
    {
      ghost var ts := Lex(s, p);
      var tok, q, eq, p1 := GetToken(s, p);
      if tok == '\0' {
        p := p1;
        break;
      }
      if tok != 'a' { return Panicked("syntax"); }
      ret := AddWord(ret, (q, eq));
      argc := argc + 1;
      if argc >= MAXARGS { return Panicked("too many args"); }
      o := ParseRedirs(ret, s, p1);
      if o.Panicked? { return; }
      ret := o.cmd;
      p, b := Peek(s, o.at, "|)&;");
      FirstMeans(Lex(s, p));
    }
    return Parsed(ret, p);
  }

  method ParseExec(s: CString, p0: nat) returns (o: Outcome)
    requires p0 <= |s|
    ensures Agrees(s, o, if Starts(Lex(s, p0), '(') then Block(Lex(s, p0)) else Simple(Lex(s, p0)))
                   && (o.Parsed? ==> p0 <= o.at)
    decreases |s| - p0, 1
  {
    hide Lex, Skip, FirstIn, Block, Simple;
    var p, b := Peek(s, p0, "(");
    FirstMeans(Lex(s, p));
    if b { o := ParseBlock(s, p); } else { o := ParseSimple(s, p); }
  }

  method ParseBlock(s: CString, p0: nat) returns (o: Outcome)
    requires p0 <= |s| && Starts(Lex(s, p0), '(')
    ensures Agrees(s, o, Block(Lex(s, p0))) && (o.Parsed? ==> p0 <= o.at)
    decreases |s| - p0, 0
  {
    hide Lex, Skip, FirstIn, Line, Redirs;
    var p, b := Peek(s, p0, "(");
    FirstMeans(Lex(s, p));
    assert b;
    var _, _, _, p1 := GetToken(s, p);
    o := ParseLine(s, p1);
    if o.Panicked? { return; }
    var c := o.cmd;
    p, b := Peek(s, o.at, ")");
    FirstMeans(Lex(s, p));
    if !b { return Panicked("syntax - missing )"); }
    var _, _, _, p2 := GetToken(s, p);
    o := ParseRedirs(c, s, p2);
  }

  method ParsePipe(s: CString, p0: nat) returns (o: Outcome)
    requires p0 <= |s|
    ensures Agrees(s, o, Pipes(Lex(s, p0))) && (o.Parsed? ==> p0 <= o.at)
    decreases |s| - p0, 2
  {
    hide Lex, Skip, FirstIn, Block, Simple;
    o := ParseExec(s, p0);
    if o.Panicked? { return; }
    var c := o.cmd;
    var p, b := Peek(s, o.at, "|");
    FirstMeans(Lex(s, p));
    if !b { return Parsed(c, p); }
    var _, _, _, p1 := GetToken(s, p);
    o := ParsePipe(s, p1);
    if o.Parsed? { o := Parsed(Pipe(c, o.cmd), o.at); }
  }

  method ParseLine(s: CString, p0: nat) returns (o: Outcome)
    requires p0 <= |s|
    ensures Agrees(s, o, Line(Lex(s, p0))) && (o.Parsed? ==> p0 <= o.at)
    decreases |s| - p0, 3
  {
    hide Lex, Skip, FirstIn, Pipes;
    o := ParsePipe(s, p0);
    if o.Panicked? { return; }
    var c, p := o.cmd, o.at;
    ghost var backs := Backs(c, Lex(s, p));
    var b;
    p, b := Peek(s, p, "&");
    FirstMeans(Lex(s, p));
    while b
      invariant p0 <= p <= |s| && b == Starts(Lex(s, p), '&') && Backs(c, Lex(s, p)) == backs
      decreases |s| - p
    {
      var _, _, _, p1 := GetToken(s, p);
      c := Back(c);
      p, b := Peek(s, p1, "&");
      FirstMeans(Lex(s, p));
    }
    p, b := Peek(s, p, ";");
    FirstMeans(Lex(s, p));
    if !b { return Parsed(c, p); }
    var _, _, _, p1 := GetToken(s, p);
    o := ParseLine(s, p1);
    if o.Parsed? { o := Parsed(List(c, o.cmd), o.at); }
  }

  // ----- What a parsed tree is made of -----

  // A word that could not be longer on either side of its end.
  predicate MaximalWord(s: string, w: Pos) {
    && w.0 < w.1 <= |s|
    && (forall i :: w.0 <= i < w.1 ==> !IsSpace(s[i]) && !IsSymbol(s[i]))
    && (w.1 < |s| ==> IsSpace(s[w.1]) || IsSymbol(s[w.1]))
  }

  predicate WordsMaximal(s: string, ts: seq<Token<Pos>>) {
    forall i :: 0 <= i < |ts| && ts[i].Word? ==> MaximalWord(s, ts[i].w)
  }

  // The open modes of <, > and >>, with the descriptor they replace.
  predicate Opens(mode: nat, fd: nat) {
    (mode == O_RDONLY && fd == 0) || ((mode == O_WRONLY + O_CREATE || mode == O_WRONLY + O_CREATE + O_TRUNC) && fd == 1)
  }

  predicate WellMade(s: string, c: Cmd<Pos>) {
    match c
    case Exec(argv) => |argv| < MAXARGS && forall i :: 0 <= i < |argv| ==> MaximalWord(s, argv[i])
    case Redir(d, file, mode, fd) => WellMade(s, d) && MaximalWord(s, file) && Opens(mode, fd)
    case Pipe(l, r) => WellMade(s, l) && WellMade(s, r)
    case List(l, r) => WellMade(s, l) && WellMade(s, r)
    case Back(d) => WellMade(s, d)
  }

  // Redirections around an execcmd of argc words.
  predicate Spine(c: Cmd<Pos>, argc: nat) {
    match c
    case Exec(argv) => |argv| == argc
    case Redir(d, _, _, _) => Spine(d, argc)
    case _ => false
  }

  lemma {:induction false} LexWords(s: string, p: nat)
    requires p <= |s|
    ensures WordsMaximal(s, Lex(s, p))
    decreases |s| - p
  {
    var q := Skip(s, p);
    if q < |s| {
      LexWords(s, TokenEnd(s, q));
      var ts := Lex(s, p);
      forall i | 0 <= i < |ts| && ts[i].Word? ensures MaximalWord(s, ts[i].w) {
        if i > 0 { assert ts[i] == Lex(s, TokenEnd(s, q))[i - 1]; }
      }
    }
  }

  lemma {:induction false} RedirsMade(s: string, cmd: Cmd<Pos>, ts: seq<Token<Pos>>)
    requires WellMade(s, cmd) && WordsMaximal(s, ts)
    ensures var r := Redirs(cmd, ts); r.Ok? ==> WellMade(s, r.cmd) && WordsMaximal(s, r.rest)
    ensures var r := Redirs(cmd, ts); r.Ok? ==> forall n :: Spine(cmd, n) ==> Spine(r.cmd, n)
    decreases |ts|
  {
    if StartsRedir(ts) && |ts| >= 2 && ts[1].Word? {
      RedirsMade(s, Redirect(cmd, ts[0], ts[1].w), ts[2..]);
    }
  }

  lemma {:induction false} AddWordMade(s: string, cmd: Cmd<Pos>, argc: nat, w: Pos)
    requires Spine(cmd, argc) && WellMade(s, cmd) && MaximalWord(s, w) && argc + 1 < MAXARGS
    ensures Spine(AddWord(cmd, w), argc + 1) && WellMade(s, AddWord(cmd, w))
  {
    if cmd.Redir? { AddWordMade(s, cmd.cmd, argc, w); }
  }

  lemma {:induction false} ArgsMade(s: string, cmd: Cmd<Pos>, argc: nat, ts: seq<Token<Pos>>)
    requires Spine(cmd, argc) && WellMade(s, cmd) && WordsMaximal(s, ts)
    ensures var r := Args(cmd, argc, ts); r.Ok? ==> WellMade(s, r.cmd) && WordsMaximal(s, r.rest)
    decreases |ts|
  {
    if ts != [] && !EndsArgs(ts) && ts[0].Word? && argc + 1 < MAXARGS {
      AddWordMade(s, cmd, argc, ts[0].w);
      var c := AddWord(cmd, ts[0].w);
      RedirsMade(s, c, ts[1..]);
      var r := Redirs(c, ts[1..]);
      if r.Ok? { ArgsMade(s, r.cmd, argc + 1, r.rest); }
    }
  }

  lemma {:induction false} PipesMade(s: string, ts: seq<Token<Pos>>)
    requires WordsMaximal(s, ts)
    ensures var r := Pipes(ts); r.Ok? ==> WellMade(s, r.cmd) && WordsMaximal(s, r.rest)
    decreases |ts|, 0
  {
    hide Redirs, Args;
    var e := if Starts(ts, '(') then Block(ts) else Simple(ts);
    if Starts(ts, '(') {
      LineMade(s, ts[1..]);
      var l := Line(ts[1..]);
      if l.Ok? && Starts(l.rest, ')') { RedirsMade(s, l.cmd, l.rest[1..]); }
    } else {
      RedirsMade(s, Exec([]), ts);
      var r := Redirs(Exec([]), ts);
      if r.Ok? { ArgsMade(s, r.cmd, 0, r.rest); }
    }
    assert e.Ok? ==> WellMade(s, e.cmd) && WordsMaximal(s, e.rest);
    if e.Ok? && Starts(e.rest, '|') { PipesMade(s, e.rest[1..]); }
  }

  lemma {:induction false} BacksMade(s: string, c: Cmd<Pos>, ts: seq<Token<Pos>>)
    requires WellMade(s, c) && WordsMaximal(s, ts)
    ensures WellMade(s, Backs(c, ts).cmd) && WordsMaximal(s, Backs(c, ts).rest)
    decreases |ts|
  {
    if Starts(ts, '&') { BacksMade(s, Back(c), ts[1..]); }
  }

  lemma {:induction false} LineMade(s: string, ts: seq<Token<Pos>>)
    requires WordsMaximal(s, ts)
    ensures var r := Line(ts); r.Ok? ==> WellMade(s, r.cmd) && WordsMaximal(s, r.rest)
    decreases |ts|, 1
  {
    hide Backs;
    PipesMade(s, ts);
    var r := Pipes(ts);
    if r.Ok? {
      BacksMade(s, r.cmd, r.rest);
      var b := Backs(r.cmd, r.rest);
      if Starts(b.rest, ';') { LineMade(s, b.rest[1..]); }
    }
  }

  // ----- Printing and reading back -----

  // A printing with every subcommand in parentheses.
  function Printed(c: Cmd<string>): (r: seq<Token<string>>)
    decreases c, 0
  {
    match c
    case Exec(argv) => seq(|argv|, i requires 0 <= i < |argv| => Word(argv[i]))
    case Redir(d, file, mode, _) => Parens(d) + [Arrow(mode), Word(file)]
    case Pipe(l, r) => Parens(l) + [Sym('|')] + Parens(r)
    case List(l, r) => Parens(l) + [Sym(';')] + Parens(r)
    case Back(d) => Parens(d) + [Sym('&')]
  }

  function Parens(c: Cmd<string>): (r: seq<Token<string>>)
    decreases c, 1
  {
    [Sym('(')] + Printed(c) + [Sym(')')]
  }

  function Arrow(mode: nat): (t: Token<string>) {
    if mode == O_RDONLY then Sym('<') else if mode == O_WRONLY + O_CREATE then Append else Sym('>')
  }

  function Glyph(t: Token<string>): (r: string) {
    match t case Sym(c) => [c] case Append => ">>" case Word(w) => w
  }

  function Render(ts: seq<Token<string>>): (r: string) {
    if ts == [] then "" else Glyph(ts[0]) + " " + Render(ts[1..])
  }

  predicate IsWord(w: string) { w != "" && forall i :: 0 <= i < |w| ==> IsPlain(w[i]) }

  predicate Printable(t: Token<string>) {
    match t case Sym(c) => IsSymbol(c) case Append => true case Word(w) => IsWord(w)
  }

  // A tree the shell can run: at most nine words a command, every string a word.
  predicate Writable(c: Cmd<string>) {
    match c
    case Exec(argv) => |argv| < MAXARGS && forall i :: 0 <= i < |argv| ==> IsWord(argv[i])
    case Redir(d, file, mode, fd) => Writable(d) && IsWord(file) && Opens(mode, fd)
    case Pipe(l, r) => Writable(l) && Writable(r)
    case List(l, r) => Writable(l) && Writable(r)
    case Back(d) => Writable(d)
  }

  function Text(s: string, w: Pos): (r: string) {
    if w.0 <= w.1 <= |s| then s[w.0..w.1] else ""
  }

  function SpellToken(s: string, t: Token<Pos>): (r: Token<string>) {
    match t case Sym(c) => Sym(c) case Append => Append case Word(w) => Word(Text(s, w))
  }

  predicate Spells(s: string, pts: seq<Token<Pos>>, ts: seq<Token<string>>) {
    |pts| == |ts| && forall i :: 0 <= i < |ts| ==> SpellToken(s, pts[i]) == ts[i]
  }

  function Spelled(s: string, c: Cmd<Pos>): (r: Cmd<string>) {
    match c
    case Exec(argv) => Exec(seq(|argv|, i requires 0 <= i < |argv| => Text(s, argv[i])))
    case Redir(d, file, mode, fd) => Redir(Spelled(s, d), Text(s, file), mode, fd)
    case Pipe(l, r) => Pipe(Spelled(s, l), Spelled(s, r))
    case List(l, r) => List(Spelled(s, l), Spelled(s, r))
    case Back(d) => Back(Spelled(s, d))
  }

  lemma {:induction false} PrintedPrintable(c: Cmd<string>)
    requires Writable(c)
    ensures forall i :: 0 <= i < |Printed(c)| ==> Printable(Printed(c)[i])
    ensures forall i :: 0 <= i < |Parens(c)| ==> Printable(Parens(c)[i])
    decreases c
  {
    match c
    case Exec(_) =>
    case Redir(d, _, _, _) => PrintedPrintable(d);
    case Pipe(l, r) => PrintedPrintable(l); PrintedPrintable(r);
    case List(l, r) => PrintedPrintable(l); PrintedPrintable(r);
    case Back(d) => PrintedPrintable(d);
  }

  lemma {:induction false} WordEndIs(s: string, p: nat, e: nat)
    requires p <= e < |s| && (IsSpace(s[e]) || IsSymbol(s[e])) && forall i :: p <= i < e ==>
               !IsSpace(s[i]) && !IsSymbol(s[i])
    ensures WordEnd(s, p) == e
    decreases e - p
  {}

  // The scanner reads a rendering as its tokens.
  lemma {:induction false} LexRender(s: string, p: nat, ts: seq<Token<string>>)
    requires p <= |s| && s[p..] == Render(ts) && forall i :: 0 <= i < |ts| ==> Printable(ts[i])
    ensures Spells(s, Lex(s, p), ts)
    decreases |ts|
  {
    hide Lex, SpellToken, Spells, Render, Printable;
    if ts == [] {
      LexNothing(s, p, ts);
    } else {
      var e := p + |Glyph(ts[0])|;
      var t := LexFirst(s, p, ts);
      LexSpace(s, e);
      LexRender(s, e + 1, ts[1..]);
      SpellsCons(s, t, Lex(s, e), ts);
    }
  }

  lemma LexNothing(s: string, p: nat, ts: seq<Token<string>>)
    requires p <= |s| && ts == [] && s[p..] == Render(ts)
    ensures Spells(s, Lex(s, p), ts)
  {}

  lemma SpellsCons(s: string, t: Token<Pos>, pts: seq<Token<Pos>>, ts: seq<Token<string>>)
    requires ts != [] && SpellToken(s, t) == ts[0] && Spells(s, pts, ts[1..])
    ensures Spells(s, [t] + pts, ts)
  {}

  lemma LexSpace(s: string, p: nat)
    requires p < |s| && s[p] == ' '
    ensures Lex(s, p) == Lex(s, p + 1)
  {}

  lemma LexFirst(s: string, p: nat, ts: seq<Token<string>>) returns (t: Token<Pos>)
    requires p <= |s| && ts != [] && s[p..] == Render(ts) && Printable(ts[0])
    ensures var e := p + |Glyph(ts[0])|;
            && e < |s| && s[e] == ' ' && s[e + 1..] == Render(ts[1..])
            && Lex(s, p) == [t] + Lex(s, e) && SpellToken(s, t) == ts[0]
  {
    hide Lex, SpellToken, Printable;
    var g := Glyph(ts[0]);
    var e := p + |g|;
    assert s[p..][..|g|] == g && s[p..][|g|] == ' ';
    assert s[p..e] == g && s[e] == ' ' && s[e + 1..] == s[p..][e + 1 - p..];
    t := LexGlyph(s, p, ts[0]);
  }

  lemma LexGlyph(s: string, p: nat, t: Token<string>) returns (pt: Token<Pos>)
    requires var e := p + |Glyph(t)|; Printable(t) && e < |s| && s[e] == ' ' && s[p..e] == Glyph(t)
    ensures Lex(s, p) == [pt] + Lex(s, p + |Glyph(t)|) && SpellToken(s, pt) == t
  {
    var g := Glyph(t);
    var e := p + |g|;
    forall i | p <= i < e ensures s[i] == g[i - p] { assert s[p..e][i - p] == s[i]; }
    assert s[p] == g[0];
    if t.Word? { WordEndIs(s, p, e); }
    if t.Append? { assert s[p + 1] == g[1]; }
    assert Skip(s, p) == p && TokenEnd(s, p) == e;
    pt := TokenAt(s, p);
  }

  // A stretch of the tokens spells the same stretch of the printing.
  lemma SpellsPart(s: string, pts: seq<Token<Pos>>, ts: seq<Token<string>>, a: nat, part: seq<Token<string>>)
    requires |ts| <= |pts| && Spells(s, pts[..|ts|], ts) && a + |part| <= |ts| && ts[a..a + |part|] == part
    ensures Spells(s, pts[a..a + |part|], part)
  {}

  lemma SymAt(s: string, pts: seq<Token<Pos>>, ts: seq<Token<string>>, k: nat)
    requires |ts| <= |pts| && Spells(s, pts[..|ts|], ts) && k < |ts| && ts[k].Sym?
    ensures pts[k] == Sym(ts[k].c)
  {}

  lemma ArgsStep(ws: seq<Pos>, pts: seq<Token<Pos>>)
    requires |ws| + 1 < MAXARGS && pts != [] && pts[0].Word? && !StartsRedir(pts[1..])
    ensures Args(Exec(ws), |ws|, pts) == Args(Exec(ws + [pts[0].w]), |ws| + 1, pts[1..])
  {}

  lemma {:induction false} ArgsRead(s: string, ws: seq<Pos>, pts: seq<Token<Pos>>, argv: seq<string>)
    requires |ws| + |argv| < MAXARGS && |argv| <= |pts|
    requires forall i :: 0 <= i < |argv| ==> SpellToken(s, pts[i]) == Word(argv[i])
    requires |pts| == |argv| || pts[|argv|] == Sym(')')
    ensures var r := Args(Exec(ws), |ws|, pts);
            && r.Ok? && r.rest == pts[|argv|..] && r.cmd.Exec? && |r.cmd.argv| == |ws| + |argv|
            && r.cmd.argv[..|ws|] == ws
            && forall i :: 0 <= i < |argv| ==> Text(s, r.cmd.argv[|ws| + i]) == argv[i]
    decreases |argv|
  {
    hide Args, Redirs, Text;
    if argv == [] {
      ArgsStop(ws, pts);
    } else {
      assert SpellToken(s, pts[0]) == Word(argv[0]);
      var w := pts[0].w;
      forall i | 0 <= i < |argv[1..]| ensures SpellToken(s, pts[1..][i]) == Word(argv[1..][i]) {
        assert SpellToken(s, pts[i + 1]) == Word(argv[i + 1]);
      }
      assert |argv| > 1 ==> SpellToken(s, pts[1]) == Word(argv[1]);
      ArgsStep(ws, pts);
      hide SpellToken;
      ArgsRead(s, ws + [w], pts[1..], argv[1..]);
      var got, k := Args(Exec(ws), |ws|, pts).cmd.argv, |ws|;
      assert got[..k] == got[..k + 1][..k] && got[..k + 1][k] == got[k] == w && Text(s, w) == argv[0];
      forall i | 0 <= i < |argv| ensures Text(s, got[k + i]) == argv[i] {
        if i > 0 { assert argv[i] == argv[1..][i - 1] && Text(s, got[|ws + [w]| + (i - 1)]) == argv[1..][i - 1]; }
      }
    }
  }

  lemma ArgsStop(ws: seq<Pos>, pts: seq<Token<Pos>>)
    requires pts == [] || pts[0] == Sym(')')
    ensures Args(Exec(ws), |ws|, pts) == Ok(Exec(ws), pts)
  {}

  // After a printed command comes the end, or the parenthesis that closes it.
  predicate Ends(pts: seq<Token<Pos>>, n: nat) { |pts| == n || (n < |pts| && pts[n] == Sym(')')) }

  predicate ReadsAs(s: string, r: Parse, c: Cmd<string>, rest: seq<Token<Pos>>) {
    r.Ok? && Spelled(s, r.cmd) == c && r.rest == rest
  }

  // pts begins with a printing of c, and nothing that could belong to it follows.
  predicate Shows(s: string, pts: seq<Token<Pos>>, c: Cmd<string>) {
    Writable(c) && |Printed(c)| <= |pts| && Spells(s, pts[..|Printed(c)|], Printed(c)) && Ends(pts, |Printed(c)|)
  }

  lemma {:induction false} LineReads(s: string, pts: seq<Token<Pos>>, c: Cmd<string>)
    requires Shows(s, pts, c)
    ensures ReadsAs(s, Line(pts), c, pts[|Printed(c)|..])
    decreases c, 1
  {
    hide Line, ReadsAs;
    match c
    case Exec(argv) =>
      forall i | 0 <= i < |argv| ensures SpellToken(s, pts[i]) == Word(argv[i]) { assert pts[..|argv|][i] == pts[i]; }
      SimpleReads(s, pts, argv);
    case Redir(_, _, _, _) => RedirLine(s, pts, c);
    case Pipe(_, _) => PairLine(s, pts, c);
    case List(_, _) => PairLine(s, pts, c);
    case Back(_) => BackLine(s, pts, c);
  }

  lemma {:induction false} PairLine(s: string, pts: seq<Token<Pos>>, c: Cmd<string>)
    requires (c.Pipe? || c.List?) && Shows(s, pts, c)
    ensures ReadsAs(s, Line(pts), c, pts[|Printed(c)|..])
    decreases c, 0, 1
  {
    hide Line, ReadsAs, Parens, Spells, Heads;
    PairReads(s, pts, c, if c.Pipe? then '|' else ';');
    if c.Pipe? {
      PipeReads(s, pts, |Printed(c)|, c.left, c.right);
    } else {
      ListReads(s, pts, |Printed(c)|, c.left, c.right);
    }
  }

  lemma {:induction false} RedirLine(s: string, pts: seq<Token<Pos>>, c: Cmd<string>)
    requires c.Redir? && Shows(s, pts, c)
    ensures ReadsAs(s, Line(pts), c, pts[|Printed(c)|..])
    decreases c, 0
  {
    hide Line, ReadsAs, Parens;
    var ts, k := Printed(c), |Parens(c.cmd)|;
    SpellsPart(s, pts, ts, 0, Parens(c.cmd));
    BlockReads(s, pts, c.cmd);
    assert pts[..k + 2][k] == pts[k] && pts[..k + 2][k + 1] == pts[k + 1];
    RedirReads(s, pts, c.cmd, c.file, c.mode, c.fd);
  }

  lemma {:induction false} BackLine(s: string, pts: seq<Token<Pos>>, c: Cmd<string>)
    requires c.Back? && Shows(s, pts, c)
    ensures ReadsAs(s, Line(pts), c, pts[|Printed(c)|..])
    decreases c, 0
  {
    hide Line, ReadsAs, Parens;
    var ts, k := Printed(c), |Parens(c.cmd)|;
    SpellsPart(s, pts, ts, 0, Parens(c.cmd));
    BlockReads(s, pts, c.cmd);
    assert pts[..k + 1][k] == pts[k];
    BackReads(s, pts, c.cmd);
  }

  // The token at the operator, and both operands, of a pipe or list.
  lemma {:induction false} PairReads(s: string, pts: seq<Token<Pos>>, c: Cmd<string>, op: char)
    requires (c.Pipe? || c.List?) && Writable(c)
    requires var n := |Parens(c.left)| + 1 + |Parens(c.right)|;
             n <= |pts| && Spells(s, pts[..n], Parens(c.left) + [Sym(op)] + Parens(c.right)) && Ends(pts, n)
    ensures pts[|Parens(c.left)|] == Sym(op) && Heads(s, pts, c.left)
    ensures var a := |Parens(c.left)| + 1;
            && ReadsAs(s, Pipes(pts[a..]), c.right, pts[a + |Parens(c.right)|..])
            && ReadsAs(s, Line(pts[a..]), c.right, pts[a + |Parens(c.right)|..])
    decreases c, 0, 0
  {
    var l, r := c.left, c.right;
    hide Line, Pipes, Heads, ReadsAs, Parens, Spells;
    var ts, k := Parens(l) + [Sym(op)] + Parens(r), |Parens(l)|;
    SpellsPart(s, pts, ts, 0, Parens(l));
    SpellsPart(s, pts, ts, k + 1, Parens(r));
    SymAt(s, pts, ts, k);
    BlockReads(s, pts, l);
    PairRight(s, pts, k + 1, r);
  }

  // pts begins with a block that reads as c, up to the redirections after it.
  ghost predicate Heads(s: string, pts: seq<Token<Pos>>, c: Cmd<string>) {
    && Starts(pts, '(') && |Parens(c)| <= |pts|
    && exists d :: Spelled(s, d) == c && Block(pts) == Redirs(d, pts[|Parens(c)|..])
  }

  // The right operand of a pipe or list, up to the end.
  lemma {:induction false} PairRight(s: string, pts: seq<Token<Pos>>, a: nat, c: Cmd<string>)
    requires Writable(c) && a + |Parens(c)| <= |pts| && Spells(s, pts[a..a + |Parens(c)|], Parens(c))
             && Ends(pts, a + |Parens(c)|)
    ensures ReadsAs(s, Pipes(pts[a..]), c, pts[a + |Parens(c)|..])
            && ReadsAs(s, Line(pts[a..]), c, pts[a + |Parens(c)|..])
    decreases c, 3
  {
    var q, n := pts[a..], |Parens(c)|;
    assert q[..n] == pts[a..a + n] && q[n..] == pts[a + n..];
    BlockReads(s, q, c);
    assert a + n < |pts| ==> q[n] == Sym(')');
  }

  // Parentheses around a printed command; the redirections after them are still to be read.
  lemma {:induction false} BlockReads(s: string, pts: seq<Token<Pos>>, c: Cmd<string>)
    requires Writable(c) && |Parens(c)| <= |pts| && Spells(s, pts[..|Parens(c)|], Parens(c))
    ensures Heads(s, pts, c)
    decreases c, 2
  {
    var ts, n := Parens(c), |Printed(c)|;
    assert SpellToken(s, pts[..n + 2][0]) == ts[0] && SpellToken(s, pts[..n + 2][n + 1]) == ts[n + 1];
    SpellsPart(s, pts, ts, 1, Printed(c));
    var q := pts[1..];
    assert q[..n] == pts[1..n + 1] && q[n] == pts[n + 1];
    LineReads(s, q, c);
    var r := Line(q);
    assert r.rest[1..] == pts[n + 2..];
    assert Spelled(s, r.cmd) == c && Block(pts) == Redirs(r.cmd, pts[n + 2..]);
  }

  lemma SimpleIsArgs(pts: seq<Token<Pos>>)
    requires !StartsRedir(pts)
    ensures Simple(pts) == Args(Exec([]), 0, pts)
  {}

  lemma LineIsSimple(pts: seq<Token<Pos>>)
    requires !Starts(pts, '(') && Simple(pts).Ok? && Ends(Simple(pts).rest, 0)
    ensures Line(pts) == Simple(pts)
  {}

  lemma ExecSpelled(s: string, c: Cmd<Pos>, argv: seq<string>)
    requires c.Exec? && |c.argv| == |argv| && forall i :: 0 <= i < |argv| ==> Text(s, c.argv[i]) == argv[i]
    ensures Spelled(s, c) == Exec(argv)
  {}

  lemma SimpleReads(s: string, pts: seq<Token<Pos>>, argv: seq<string>)
    requires |argv| < MAXARGS && |argv| <= |pts| && Ends(pts, |argv|)
    requires forall i :: 0 <= i < |argv| ==> SpellToken(s, pts[i]) == Word(argv[i])
    ensures ReadsAs(s, Line(pts), Exec(argv), pts[|argv|..])
  {
    hide Args, Simple, Line, Spelled, Text;
    assert argv != [] ==> SpellToken(s, pts[0]) == Word(argv[0]);
    SimpleIsArgs(pts);
    var none := 0;
    ArgsRead(s, [], pts, argv);
    var c := Simple(pts).cmd;
    forall i | 0 <= i < |argv| ensures Text(s, c.argv[i]) == argv[i] { assert Text(s, c.argv[none + i]) == argv[i]; }
    ExecSpelled(s, c, argv);
    LineIsSimple(pts);
  }

  lemma RedirReads(s: string, pts: seq<Token<Pos>>, d: Cmd<string>, file: string, mode: nat, fd: nat)
    requires Heads(s, pts, d) && Opens(mode, fd) && |Parens(d)| + 2 <= |pts| && Ends(pts, |Parens(d)| + 2)
    requires SpellToken(s, pts[|Parens(d)|]) == Arrow(mode) && SpellToken(s, pts[|Parens(d)| + 1]) == Word(file)
    ensures ReadsAs(s, Line(pts), Redir(d, file, mode, fd), pts[|Parens(d)| + 2..])
  {
    hide Block, Simple, Parens;
    var e :| Spelled(s, e) == d && Block(pts) == Redirs(e, pts[|Parens(d)|..]);
    var q := pts[|Parens(d)|..];
    assert q[2..] == pts[|Parens(d)| + 2..];
    assert Redirs(e, q) == Ok(Redirect(e, q[0], q[1].w), q[2..]);
  }

  lemma PipeReads(s: string, pts: seq<Token<Pos>>, n: nat, l: Cmd<string>, r: Cmd<string>)
    requires Heads(s, pts, l) && |Parens(l)| < |pts| && pts[|Parens(l)|] == Sym('|') && n <= |pts| && Ends(pts, n)
    requires ReadsAs(s, Pipes(pts[|Parens(l)| + 1..]), r, pts[n..])
    ensures ReadsAs(s, Line(pts), Pipe(l, r), pts[n..])
  {}

  lemma ListReads(s: string, pts: seq<Token<Pos>>, n: nat, l: Cmd<string>, r: Cmd<string>)
    requires Heads(s, pts, l) && |Parens(l)| < |pts| && pts[|Parens(l)|] == Sym(';') && n <= |pts|
    requires ReadsAs(s, Line(pts[|Parens(l)| + 1..]), r, pts[n..])
    ensures ReadsAs(s, Line(pts), List(l, r), pts[n..])
  {}

  lemma BackReads(s: string, pts: seq<Token<Pos>>, d: Cmd<string>)
    requires Heads(s, pts, d) && |Parens(d)| < |pts| && pts[|Parens(d)|] == Sym('&') && Ends(pts, |Parens(d)| + 1)
    ensures ReadsAs(s, Line(pts), Back(d), pts[|Parens(d)| + 1..])
  {
    hide Block, Simple, Parens;
    var k := |Parens(d)|;
    var e :| Spelled(s, e) == d && Block(pts) == Redirs(e, pts[k..]);
    assert Redirs(e, pts[k..]) == Ok(e, pts[k..]) && pts[k..][1..] == pts[k + 1..];
    assert Pipes(pts) == Ok(e, pts[k..]);
    assert Backs(e, pts[k..]) == Ok(Back(e), pts[k + 1..]);
  }

  // Any tree of runnable commands, printed in full parentheses and parsed, comes back.
  lemma RoundTrip(c: Cmd<string>)
    requires Writable(c)
    ensures var s := Render(Printed(c)); ReadsAs(s, Line(Lex(s, 0)), c, [])
  {
    hide Line, Lex, Printed, Render, ReadsAs;
    var s := Render(Printed(c));
    PrintedPrintable(c);
    assert s[0..] == s;
    LexRender(s, 0, Printed(c));
    var pts := Lex(s, 0);
    assert pts[..|Printed(c)|] == pts && pts[|Printed(c)|..] == [];
    LineReads(s, pts, c);
  }

  lemma {:induction false} MadeWritable(s: string, c: Cmd<Pos>)
    requires WellMade(s, c) && '\0' !in s
    ensures Writable(Spelled(s, c))
  {
    match c
    case Exec(argv) =>
    case Redir(d, _, _, _) => MadeWritable(s, d);
    case Pipe(l, r) => MadeWritable(s, l); MadeWritable(s, r);
    case List(l, r) => MadeWritable(s, l); MadeWritable(s, r);
    case Back(d) => MadeWritable(s, d);
  }

  // Whatever line the shell accepts, the printing of its tree is accepted with the same tree.
  lemma AcceptedPrints(s: CString)
    requires Line(Lex(s, 0)).Ok? && Line(Lex(s, 0)).rest == []
    ensures var c := Spelled(s, Line(Lex(s, 0)).cmd);
            var t := Render(Printed(c));
            ReadsAs(t, Line(Lex(t, 0)), c, [])
  {
    hide Line, Lex, Spelled;
    LexWords(s, 0);
    LineMade(s, Lex(s, 0));
    MadeWritable(s, Line(Lex(s, 0)).cmd);
    RoundTrip(Spelled(s, Line(Lex(s, 0)).cmd));
  }

  // ----- nulterminate -----

  predicate EndAmong(ws: seq<Pos>, k: int) { exists i :: 0 <= i < |ws| && ws[i].1 == k }

  // Some word of the tree ends at k.
  predicate EndsAt(c: Cmd<Pos>, k: int) {
    match c
    case Exec(argv) => EndAmong(argv, k)
    case Redir(d, file, _, _) => EndsAt(d, k) || file.1 == k
    case Pipe(l, r) => EndsAt(l, k) || EndsAt(r, k)
    case List(l, r) => EndsAt(l, k) || EndsAt(r, k)
    case Back(d) => EndsAt(d, k)
  }

  ghost predicate EndsBelow(c: Cmd<Pos>, n: nat) { forall k :: EndsAt(c, k) ==> k < n }

  method NulTerminate(buf: array<char>, c: Cmd<Pos>)
    requires EndsBelow(c, buf.Length)
    modifies buf
    ensures forall k :: 0 <= k < buf.Length ==> buf[k] == if EndsAt(c, k) then '\0' else old(buf[k])
    decreases c
  {
    match c
    case Exec(argv) => CutWords(buf, argv);
    case Redir(d, file, _, _) =>
      assert forall k :: EndsAt(d, k) ==> EndsAt(c, k);
      assert EndsAt(c, file.1);
      NulTerminate(buf, d);
      buf[file.1] := '\0';
    case Pipe(l, r) =>
      assert forall k :: EndsAt(l, k) || EndsAt(r, k) ==> EndsAt(c, k);
      NulTerminate(buf, l);
      NulTerminate(buf, r);
    case List(l, r) =>
      assert forall k :: EndsAt(l, k) || EndsAt(r, k) ==> EndsAt(c, k);
      NulTerminate(buf, l);
      NulTerminate(buf, r);
    case Back(d) =>
      assert forall k :: EndsAt(d, k) ==> EndsAt(c, k);
      NulTerminate(buf, d);
  }

  method CutWords(buf: array<char>, argv: seq<Pos>)
    requires EndsBelow(Exec(argv), buf.Length)
    modifies buf
    ensures forall k :: 0 <= k < buf.Length ==> buf[k] == if EndAmong(argv, k) then '\0' else old(buf[k])
  {
    var i := 0;
    while i < |argv|
      invariant 0 <= i <= |argv|
      invariant forall k :: 0 <= k < buf.Length ==> buf[k] == if EndAmong(argv[..i], k) then '\0' else old(buf[k])
    {
      assert EndsAt(Exec(argv), argv[i].1);
      buf[argv[i].1] := '\0';
      forall k ensures EndAmong(argv[..i + 1], k) <==> EndAmong(argv[..i], k) || k == argv[i].1 {
        EndAmongNext(argv, i, k);
      }
      i := i + 1;
    }
    assert argv[..i] == argv;
  }

  lemma EndAmongNext(ws: seq<Pos>, i: nat, k: int)
    requires i < |ws|
    ensures EndAmong(ws[..i + 1], k) <==> EndAmong(ws[..i], k) || k == ws[i].1
  {}

  // The C string that starts at p.
  function StringAt(mem: seq<char>, p: nat): (r: string)
    decreases |mem| - p
  {
    if p >= |mem| || mem[p] == '\0' then "" else [mem[p]] + StringAt(mem, p + 1)
  }

  // The tree as runcmd sees it: C strings in memory.
  function InMemory(mem: seq<char>, c: Cmd<Pos>): (r: Cmd<string>) {
    match c
    case Exec(argv) => Exec(seq(|argv|, i requires 0 <= i < |argv| => StringAt(mem, argv[i].0)))
    case Redir(d, file, mode, fd) => Redir(InMemory(mem, d), StringAt(mem, file.0), mode, fd)
    case Pipe(l, r) => Pipe(InMemory(mem, l), InMemory(mem, r))
    case List(l, r) => List(InMemory(mem, l), InMemory(mem, r))
    case Back(d) => Back(InMemory(mem, d))
  }

  ghost predicate CutAtEnds(s: string, mem: seq<char>, all: Cmd<Pos>) {
    |mem| > |s| && mem[|s|] == '\0' && forall k :: 0 <= k < |s| ==> mem[k] == if EndsAt(all, k) then '\0' else s[k]
  }

  lemma {:induction false} StringIs(mem: seq<char>, p: nat, e: nat)
    requires p <= e < |mem| && mem[e] == '\0' && forall i :: p <= i < e ==> mem[i] != '\0'
    ensures StringAt(mem, p) == mem[p..e]
    decreases e - p
  {
    if p < e { StringIs(mem, p + 1, e); }
  }

  // The end of a maximal word is outside every maximal word.
  lemma {:induction false} EndsOutside(s: string, c: Cmd<Pos>, k: int)
    requires WellMade(s, c) && EndsAt(c, k)
    ensures 0 <= k <= |s| && (k < |s| ==> IsSpace(s[k]) || IsSymbol(s[k]))
  {
    match c
    case Exec(argv) =>
    case Redir(d, file, _, _) => if EndsAt(d, k) { EndsOutside(s, d, k); }
    case Pipe(l, r) => if EndsAt(l, k) { EndsOutside(s, l, k); } else { EndsOutside(s, r, k); }
    case List(l, r) => if EndsAt(l, k) { EndsOutside(s, l, k); } else { EndsOutside(s, r, k); }
    case Back(d) => EndsOutside(s, d, k);
  }

  lemma WordSurvives(s: CString, mem: seq<char>, all: Cmd<Pos>, w: Pos)
    requires WellMade(s, all) && CutAtEnds(s, mem, all) && MaximalWord(s, w) && EndsAt(all, w.1)
    ensures StringAt(mem, w.0) == Text(s, w)
  {
    forall i | w.0 <= i < w.1 ensures mem[i] == s[i] != '\0' {
      if EndsAt(all, i) { EndsOutside(s, all, i); }
    }
    StringIs(mem, w.0, w.1);
    assert mem[w.0..w.1] == s[w.0..w.1];
  }

  lemma {:induction false} TreeSurvives(s: CString, mem: seq<char>, all: Cmd<Pos>, c: Cmd<Pos>)
    requires WellMade(s, all) && CutAtEnds(s, mem, all)
    requires WellMade(s, c) && forall k :: EndsAt(c, k) ==> EndsAt(all, k)
    ensures InMemory(mem, c) == Spelled(s, c)
    decreases c
  {
    match c
    case Exec(argv) =>
      forall i | 0 <= i < |argv| ensures StringAt(mem, argv[i].0) == Text(s, argv[i]) {
        assert EndsAt(c, argv[i].1);
        WordSurvives(s, mem, all, argv[i]);
      }
      assert InMemory(mem, c).argv == Spelled(s, c).argv;
    case Redir(d, file, _, _) =>
      assert forall k :: EndsAt(d, k) ==> EndsAt(c, k);
      assert EndsAt(c, file.1);
      WordSurvives(s, mem, all, file);
      TreeSurvives(s, mem, all, d);
    case Pipe(l, r) =>
      assert forall k :: EndsAt(l, k) || EndsAt(r, k) ==> EndsAt(c, k);
      TreeSurvives(s, mem, all, l);
      TreeSurvives(s, mem, all, r);
    case List(l, r) =>
      assert forall k :: EndsAt(l, k) || EndsAt(r, k) ==> EndsAt(c, k);
      TreeSurvives(s, mem, all, l);
      TreeSurvives(s, mem, all, r);
    case Back(d) =>
      assert forall k :: EndsAt(d, k) ==> EndsAt(c, k);
      TreeSurvives(s, mem, all, d);
  }

  method StrLen(buf: array<char>) returns (n: nat)
    requires '\0' in buf[..]
    ensures n < buf.Length && buf[n] == '\0' && '\0' !in buf[..n]
  {
    n := 0;
    while buf[n] != '\0'
      invariant n < buf.Length && '\0' !in buf[..n] && '\0' in buf[n..]
      decreases buf.Length - n
    {
      assert '\0' in buf[n + 1..];
      n := n + 1;
    }
  }

  // The line in buf up to its NUL is accepted exactly when the grammar reads all of it. The tree is then the
  // grammar's, and its strings in memory are the words of the line as it was.
  method ParseCmd(buf: array<char>) returns (o: Outcome)
    requires '\0' in buf[..]
    modifies buf
    ensures exists n :: Accepted(old(buf[..]), n, buf[..], o)
  {
    var n := StrLen(buf);
    var s: CString := buf[..n];
    o := ParseLine(s, 0);
    if o.Panicked? {
      assert Accepted(old(buf[..]), n, buf[..], o);
      return;
    }
    var c := o.cmd;
    var p, _ := Peek(s, o.at, "");
    EndOrNot(s, o.at);
    if p != n {
      o := Panicked("syntax");
      assert Accepted(old(buf[..]), n, buf[..], o);
      return;
    }
    LexWords(s, 0);
    LineMade(s, Lex(s, 0));
    MadeBelow(s, c, buf.Length);
    NulTerminate(buf, c);
    assert CutAtEnds(s, buf[..], c);
    TreeSurvives(s, buf[..], c, c);
    assert Accepted(old(buf[..]), n, buf[..], o);
  }

  ghost predicate Accepted(before: seq<char>, n: nat, after: seq<char>, o: Outcome) {
    && n < |before| && before[n] == '\0' && '\0' !in before[..n]
    && var s := before[..n];
       var r := Line(Lex(s, 0));
       match o
       case Panicked(m) => after == before && (r == Panic(m) || (r.Ok? && r.rest != [] && m == "syntax"))
       case Parsed(c, _) => r == Ok(c, []) && InMemory(after, c) == Spelled(s, c)
  }

  lemma EndOrNot(s: string, p: nat)
    requires p <= |s|
    ensures Lex(s, p) == [] <==> Skip(s, p) == |s|
  {}

  lemma MadeBelow(s: string, c: Cmd<Pos>, n: nat)
    requires WellMade(s, c) && |s| < n
    ensures EndsBelow(c, n)
  {}
}
