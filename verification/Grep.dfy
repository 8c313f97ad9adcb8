/**
 grep (user/grep.c): the regular-expression matcher of Kernighan and Pike against a declarative language,
 and the line buffer against the lines of the whole input. A C string is the sequence of its characters
 before the terminating NUL.
 */
module Grep {

  // ----- The language of a pattern -----

  datatype Atom = Any | Lit(c: char)

  datatype Item = One(a: Atom) | Star(a: Atom)

  // A pattern without its ^: a sequence of items, and whether it ends in an anchoring $.
  datatype Pattern = Pattern(items: seq<Item>, toEnd: bool)

  function ToAtom(c: char): (r: Atom) { if c == '.' then Any else Lit(c) }

  // How a pattern reads: x* first, then a final $, then single characters.
  function Reading(re: string): (r: Pattern) {
    if re == "" then Pattern([], false)
    else if |re| >= 2 && re[1] == '*' then
      var rest := Reading(re[2..]);
      Pattern([Star(ToAtom(re[0]))] + rest.items, rest.toEnd)
    else if re == "$" then Pattern([], true)
    else
      var rest := Reading(re[1..]);
      Pattern([One(ToAtom(re[0]))] + rest.items, rest.toEnd)
  }

  predicate Admits(a: Atom, c: char) { a.Any? || a.c == c }

  predicate AllAdmitted(a: Atom, w: string) { forall i :: 0 <= i < |w| ==> Admits(a, w[i]) }

  predicate Matches(item: Item, w: string) {
    match item
    case One(a) => |w| == 1 && Admits(a, w[0])
    case Star(a) => AllAdmitted(a, w)
  }

  function Join(parts: seq<string>): (r: string) {
    if parts == [] then "" else parts[0] + Join(parts[1..])
  }

  ghost predicate Splits(items: seq<Item>, parts: seq<string>, w: string) {
    |parts| == |items| && Join(parts) == w && forall i :: 0 <= i < |items| ==> Matches(items[i], parts[i])
  }

  // w is a concatenation of strings that match the items one by one.
  ghost predicate InLanguage(items: seq<Item>, w: string) {
    exists parts :: Splits(items, parts, w)
  }

  ghost predicate PrefixAt(p: Pattern, text: string, k: nat) {
    k <= |text| && InLanguage(p.items, text[..k]) && (p.toEnd ==> k == |text|)
  }

  // Some prefix of text is in the language, the whole of text under a final $.
  ghost predicate MatchesHere(p: Pattern, text: string) {
    exists k: nat :: PrefixAt(p, text, k)
  }

  // Some substring of text is in the language: a prefix under ^, a suffix under a final $.
  ghost predicate MatchesSomewhere(re: string, text: string) {
    if re != "" && re[0] == '^' then MatchesHere(Reading(re[1..]), text)
    else exists i :: 0 <= i <= |text| && MatchesHere(Reading(re), text[i..])
  }

  // ----- One item at a time -----

  lemma FirstItem(item: Item, items: seq<Item>, w: string)
    ensures InLanguage([item] + items, w) <==>
              exists j :: 0 <= j <= |w| && Matches(item, w[..j]) && InLanguage(items, w[j..])
  {
    var all := [item] + items;
    if InLanguage(all, w) {
      var parts :| Splits(all, parts, w);
      var j := |parts[0]|;
      assert w[..j] == parts[0] && w[j..] == Join(parts[1..]);
      assert Matches(all[0], parts[0]);
      assert Splits(items, parts[1..], w[j..]) by {
        forall i | 0 <= i < |items| ensures Matches(items[i], parts[1..][i]) {
          assert Matches(all[i + 1], parts[i + 1]);
        }
      }
    }
    if j :| 0 <= j <= |w| && Matches(item, w[..j]) && InLanguage(items, w[j..]) {
      var rest :| Splits(items, rest, w[j..]);
      var parts := [w[..j]] + rest;
      assert parts[1..] == rest && w == w[..j] + w[j..];
      assert Splits(all, parts, w);
    }
  }

  lemma HereEmpty(text: string, toEnd: bool)
    ensures MatchesHere(Pattern([], toEnd), text) <==> (toEnd ==> text == "")
  {
    if MatchesHere(Pattern([], toEnd), text) {
      var k: nat :| PrefixAt(Pattern([], toEnd), text, k);
      var parts :| Splits([], parts, text[..k]);
      assert parts == [];
    }
    if toEnd ==> text == "" {
      assert text[..0] == "" && Splits([], [], text[..0]);
      assert PrefixAt(Pattern([], toEnd), text, 0);
    }
  }

  // An item in front: some prefix matches the item and the pattern goes on from there.
  lemma HereFirst(item: Item, p: Pattern, text: string)
    ensures MatchesHere(Pattern([item] + p.items, p.toEnd), text)
            <==> exists j :: 0 <= j <= |text| && Matches(item, text[..j]) && MatchesHere(p, text[j..])
  {
    var q := Pattern([item] + p.items, p.toEnd);
    if MatchesHere(q, text) {
      var k: nat :| PrefixAt(q, text, k);
      FirstItem(item, p.items, text[..k]);
      var j :| 0 <= j <= k && Matches(item, text[..k][..j]) && InLanguage(p.items, text[..k][j..]);
      assert text[..k][..j] == text[..j] && text[..k][j..] == text[j..][..k - j];
      assert PrefixAt(p, text[j..], k - j);
    }
    if j :| 0 <= j <= |text| && Matches(item, text[..j]) && MatchesHere(p, text[j..]) {
      var k: nat :| PrefixAt(p, text[j..], k);
      var w := text[..j + k];
      assert w[..j] == text[..j] && w[j..] == text[j..][..k];
      FirstItem(item, p.items, w);
      assert PrefixAt(q, text, j + k);
    }
  }

  lemma HereOne(a: Atom, p: Pattern, text: string)
    ensures MatchesHere(Pattern([One(a)] + p.items, p.toEnd), text) <==>
              text != "" && Admits(a, text[0]) && MatchesHere(p, text[1..])
  {
    HereFirst(One(a), p, text);
    if text != "" && Admits(a, text[0]) && MatchesHere(p, text[1..]) {
      assert Matches(One(a), text[..1]);
    }
  }

  // ----- The matcher -----

  method MatchHere(re: string, text: string) returns (r: bool)
    ensures r <==> MatchesHere(Reading(re), text)
    decreases |re|, 0
  {
    hide MatchesHere, Matches, Admits;
    if |re| == 0 {
      HereEmpty(text, false);
      return true;
    }
    if |re| >= 2 && re[1] == '*' {
      HereFirst(Star(ToAtom(re[0])), Reading(re[2..]), text);
      r := MatchStar(re[0], re[2..], text);
      return;
    }
    if re[0] == '$' && |re| == 1 {
      HereEmpty(text, true);
      return |text| == 0;
    }
    HereOne(ToAtom(re[0]), Reading(re[1..]), text);
    if |text| != 0 && (re[0] == '.' || re[0] == text[0]) {
      assert Admits(ToAtom(re[0]), text[0]) by { ToAtomAdmits(re[0], text[0]); }
      r := MatchHere(re[1..], text[1..]);
      return;
    }
    assert text != "" ==> !Admits(ToAtom(re[0]), text[0]) by { if text != "" { ToAtomAdmits(re[0], text[0]); } }
    return false;
  }

  lemma ToAtomAdmits(c: char, d: char)
    ensures Admits(ToAtom(c), d) <==> c == '.' || c == d
  {}

  method MatchStar(c: char, re: string, text: string) returns (r: bool)
    ensures r <==>
              exists j :: 0 <= j <= |text| && Matches(Star(ToAtom(c)), text[..j]) && MatchesHere(Reading(re), text[j..])
    decreases |re|, 1
  {
    hide MatchesHere;
    var t := 0;
    while true
      invariant 0 <= t <= |text| && AllAdmitted(ToAtom(c), text[..t])
      invariant forall j :: 0 <= j < t ==> !MatchesHere(Reading(re), text[j..])
      decreases |text| - t
    {
      r := MatchHere(re, text[t..]);
      if r { return; }
      if !(t < |text| && (text[t] == c || c == '.')) { break; }
      t := t + 1;
    }
    forall j | t < j <= |text| ensures !Matches(Star(ToAtom(c)), text[..j]) {
      assert text[..j][t] == text[t];
    }
  }

  method Match(re: string, text: string) returns (r: bool)
    ensures r <==> MatchesSomewhere(re, text)
  {
    hide MatchesHere;
    if |re| > 0 && re[0] == '^' {
      r := MatchHere(re[1..], text);
      return;
    }
    var t := 0;
    while true
      invariant 0 <= t <= |text|
      invariant forall j :: 0 <= j < t ==> !MatchesHere(Reading(re), text[j..])
      decreases |text| - t
    {
      r := MatchHere(re, text[t..]);
      if r { return; }
      if t == |text| { return; }
      t := t + 1;
    }
  }

  // ----- Patterns as they are written -----

  function CharOf(a: Atom): (c: char) { if a.Any? then '.' else a.c }

  function Written(p: Pattern): (r: string)
    decreases |p.items|
  {
    if p.items == [] then (if p.toEnd then "$" else "")
    else
      var rest := Written(p.(items := p.items[1..]));
      match p.items[0]
      case One(a) => [CharOf(a)] + rest
      case Star(a) => [CharOf(a), '*'] + rest
  }

  // A dot is not a literal, a star does not follow a single character, and an unanchored pattern does not end in '$'.
  predicate Expressible(p: Pattern) {
    && (forall i :: 0 <= i < |p.items| ==> p.items[i].a != Lit('.'))
    && (forall i :: 0 <= i < |p.items| - 1 && p.items[i].One? ==> p.items[i + 1].a != Lit('*'))
    && (!p.toEnd && p.items != [] ==> p.items[|p.items| - 1] != One(Lit('$')))
  }

  function Tail(p: Pattern): (r: Pattern)
    requires p.items != []
  {
    p.(items := p.items[1..])
  }

  lemma TailExpressible(p: Pattern)
    requires Expressible(p) && p.items != []
    ensures Expressible(Tail(p)) && p.items == [p.items[0]] + Tail(p).items && p.items[0].a != Lit('.')
    ensures Tail(p).items != [] && p.items[0].One? ==> Tail(p).items[0].a != Lit('*')
  {
    var t := Tail(p).items;
    forall i | 0 <= i < |t| - 1 && t[i].One? ensures t[i + 1].a != Lit('*') {
      assert t[i] == p.items[i + 1] && t[i + 1] == p.items[i + 2];
    }
  }

  // Reading what was written gives the pattern back.
  lemma {:induction false} ReadingOfWritten(p: Pattern)
    requires Expressible(p)
    ensures Reading(Written(p)) == p
    decreases |p.items|
  {
    if p.items == [] {
    } else {
      TailExpressible(p);
      ReadingOfWritten(Tail(p));
      var a, w := p.items[0].a, Written(Tail(p));
      WrittenStarts(Tail(p));
      if p.items[0].One? {
        var re := [CharOf(a)] + w;
        assert re[1..] == w && Written(p) == re;
        assert re == "$" ==> w == "";
      } else {
        var re := [CharOf(a), '*'] + w;
        assert re[2..] == w && Written(p) == re;
      }
    }
  }

  lemma WrittenStarts(p: Pattern)
    ensures p.items == [] ==> Written(p) == (if p.toEnd then "$" else "")
    ensures p.items != [] ==> Written(p) != "" && Written(p)[0] == CharOf(p.items[0].a)
  {}

  // Every string is the writing of what it reads as, and reads as an expressible pattern.
  lemma {:induction false} WrittenOfReading(re: string)
    ensures Written(Reading(re)) == re && Expressible(Reading(re))
    decreases |re|
  {
    if re == "" || re == "$" {
    } else if |re| >= 2 && re[1] == '*' {
      hide Written, Expressible;
      WrittenOfReading(re[2..]);
      HeadWritten(Star(ToAtom(re[0])), Reading(re[2..]));
      assert re == [re[0], '*'] + re[2..];
    } else {
      hide Written, Expressible;
      WrittenOfReading(re[1..]);
      WrittenStarts(Reading(re[1..]));
      HeadWritten(One(ToAtom(re[0])), Reading(re[1..]));
      assert re == [re[0]] + re[1..];
    }
  }

  lemma HeadWritten(item: Item, p: Pattern)
    requires Expressible(p) && item.a != Lit('.')
    requires item.One? && p.items != [] ==> p.items[0].a != Lit('*')
    requires item.One? && p.items == [] && !p.toEnd ==> item.a != Lit('$')
    ensures var q := Pattern([item] + p.items, p.toEnd);
            Expressible(q) && Written(q) == (if item.One? then [CharOf(item.a)] else [CharOf(item.a), '*']) + Written(p)
  {
    var q := Pattern([item] + p.items, p.toEnd);
    assert q.items[1..] == p.items;
    forall i | 0 <= i < |q.items| - 1 && q.items[i].One? ensures q.items[i + 1].a != Lit('*') {
      if i > 0 { assert q.items[i] == p.items[i - 1] && q.items[i + 1] == p.items[i]; }
    }
  }

  // ----- Patterns of plain characters -----

  predicate Plain(w: string) { forall i :: 0 <= i < |w| ==> w[i] !in ".*$^" }

  lemma ReadingPlain(w: string, re: string)
    requires Plain(w) && w != "" && (w[1..] + re == "" || (w[1..] + re)[0] != '*')
    ensures var rest := Reading(w[1..] + re);
            Reading(w + re) == Pattern([One(Lit(w[0]))] + rest.items, rest.toEnd)
  {
    assert (w + re)[1..] == w[1..] + re;
  }

  lemma {:induction false} PlainHere(w: string, text: string, end: bool)
    requires Plain(w)
    ensures MatchesHere(Reading(w + if end then "$" else ""), text) <==> if end then text == w else w <= text
    decreases |w|
  {
    hide MatchesHere;
    var re := if end then "$" else "";
    if w == "" {
      assert w + re == re;
      HereEmpty(text, end);
    } else {
      assert Plain(w[1..]);
      assert |w| > 1 ==> (w[1..] + re)[0] == w[1];
      ReadingPlain(w, re);
      HereOne(Lit(w[0]), Reading(w[1..] + re), text);
      assert w == [w[0]] + w[1..];
      if text != "" {
        PlainHere(w[1..], text[1..], end);
        assert text == [text[0]] + text[1..];
      }
    }
  }

  // Plain characters match where they stand in the line: anywhere, at its front under '^', at its end under '$'.
  lemma PlainSomewhere(w: string, text: string)
    requires Plain(w)
    ensures MatchesSomewhere(w, text) <==> exists i :: 0 <= i <= |text| && w <= text[i..]
    ensures MatchesSomewhere("^" + w, text) <==> w <= text
    ensures MatchesSomewhere(w + "$", text) <==> exists i :: 0 <= i <= |text| && text[i..] == w
    ensures MatchesSomewhere("^" + w + "$", text) <==> text == w
  {
    hide MatchesHere, Reading;
    forall i | 0 <= i <= |text|
      ensures MatchesHere(Reading(w), text[i..]) <==> w <= text[i..]
      ensures MatchesHere(Reading(w + "$"), text[i..]) <==> text[i..] == w
    {
      PlainHere(w, text[i..], false);
      PlainHere(w, text[i..], true);
      assert w + "" == w;
    }
    assert text[0..] == text;
    assert ("^" + w)[1..] == w && ("^" + w + "$")[1..] == w + "$";
    assert w != "" ==> w[0] !in ".*$^" && (w + "$")[0] == w[0];
  }

  // '.' stands for any one character, and c* for any number of c, or of any characters if c is '.'.
  lemma DotHere(re: string, text: string)
    requires re == "" || re[0] != '*'
    ensures MatchesHere(Reading("." + re), text) <==> text != "" && MatchesHere(Reading(re), text[1..])
  {
    hide MatchesHere;
    var all, rest := "." + re, Reading(re);
    assert all[1..] == re && all[0] == '.' && (re != "" ==> all[1] == re[0]);
    assert Reading(all) == Pattern([One(Any)] + rest.items, rest.toEnd);
    HereOne(Any, rest, text);
  }

  lemma StarHere(c: char, re: string, text: string)
    ensures MatchesHere(Reading([c, '*'] + re), text) <==>
              exists j :: 0 <= j <= |text| && (c == '.' || forall i :: 0 <= i < j ==> text[i] == c)
                          && MatchesHere(Reading(re), text[j..])
  {
    hide MatchesHere;
    assert ([c, '*'] + re)[2..] == re;
    HereFirst(Star(ToAtom(c)), Reading(re), text);
    forall j | 0 <= j <= |text|
      ensures Matches(Star(ToAtom(c)), text[..j]) <==> (c == '.' || forall i :: 0 <= i < j ==> text[i] == c)
    {
      if c != '.' && AllAdmitted(Lit(c), text[..j]) {
        forall i | 0 <= i < j ensures text[i] == c { assert Admits(Lit(c), text[..j][i]); }
      }
    }
  }

  // ----- Lines -----

  const BUF_SIZE: nat := 1024

  predicate Stop(c: char) { c == '\n' || c == '\0' }

  // Where strchr(s, '\n') looks no further.
  function FirstStop(s: string): (r: nat)
    ensures r <= |s| && (r < |s| ==> Stop(s[r])) && forall i :: 0 <= i < r ==> !Stop(s[i])
  {
    if s == "" || Stop(s[0]) then 0 else 1 + FirstStop(s[1..])
  }

  predicate Complete(s: string) {
    FirstStop(s) < |s| && s[FirstStop(s)] == '\n'
  }

  // The matching lines of the input, up to the first that is unfinished, holds a NUL or does not fit the buffer.
  ghost function MatchingLines(re: string, data: string): (r: string)
    decreases |data|
  {
    var k := FirstStop(data);
    if !Complete(data) || k >= BUF_SIZE - 1 then ""
    else (if MatchesSomewhere(re, data[..k]) then data[..k + 1] else "") + MatchingLines(re, data[k + 1..])
  }

  function FirstNewline(s: string): (r: nat)
    ensures r <= |s| && (r < |s| ==> s[r] == '\n') && forall i :: 0 <= i < r ==> s[i] != '\n'
  {
    if s == "" || s[0] == '\n' then 0 else 1 + FirstNewline(s[1..])
  }

  // What a reader expects of grep: every line that ends in a newline and matches, whatever its length and its bytes.
  ghost function AllMatching(re: string, data: string): (r: string)
    decreases |data|
  {
    var k := FirstNewline(data);
    if k == |data| then ""
    else (if MatchesSomewhere(re, data[..k]) then data[..k + 1] else "") + AllMatching(re, data[k + 1..])
  }

  // The input from the first line on that is unfinished, holds a NUL or does not fit the buffer.
  function Unread(data: string): (r: string)
    decreases |data|
  {
    var k := FirstStop(data);
    if !Complete(data) || k >= BUF_SIZE - 1 then data else Unread(data[k + 1..])
  }

  // What grep prints is the front of what is expected; what is missing is exactly what Unread would give.
  lemma {:induction false} PrintedThenMissing(re: string, data: string)
    ensures AllMatching(re, data) == MatchingLines(re, data) + AllMatching(re, Unread(data))
    decreases |data|
  {
    var k := FirstStop(data);
    if Complete(data) && k < BUF_SIZE - 1 {
      assert FirstNewline(data) == k;
      hide MatchesSomewhere, FirstStop, FirstNewline;
      PrintedThenMissing(re, data[k + 1..]);
    }
  }

  // grep prints every matching line if and only if no line matches from the first one on that it cannot hold.
  lemma PrintsAllExactlyWhen(re: string, data: string)
    ensures MatchingLines(re, data) == AllMatching(re, data) <==> AllMatching(re, Unread(data)) == ""
    ensures MatchingLines(re, data) <= AllMatching(re, data)
  {
    PrintedThenMissing(re, data);
  }

  // A line is read if it ends in a newline before any NUL and has fewer than 1023 bytes, and it is then printed or not
  // whatever comes after it.
  lemma LineIsRead(re: string, line: string, rest: string)
    requires '\n' !in line && '\0' !in line
    ensures |line| < 1023 ==>
              MatchingLines(re, line + "\n" + rest)
              == (if MatchesSomewhere(re, line) then line + "\n" else "") + MatchingLines(re, rest)
    ensures |line| >= 1023 ==> MatchingLines(re, line + "\n" + rest) == ""
  {
    var data := line + "\n" + rest;
    FirstStopIs(data, |line|);
    hide MatchesSomewhere, FirstStop;
    assert data[..|line|] == line && data[..|line| + 1] == line + "\n" && data[|line| + 1..] == rest;
  }

  lemma {:induction false} FirstStopIs(s: string, k: nat)
    requires k <= |s| && (k < |s| ==> Stop(s[k])) && forall i :: 0 <= i < k ==> !Stop(s[i])
    ensures FirstStop(s) == k
  {}

  // What follows the first stop does not move it.
  lemma FirstStopAppend(s: string, rest: string)
    ensures FirstStop(s) < |s| ==> FirstStop(s + rest) == FirstStop(s) && (Complete(s + rest) <==> Complete(s))
    ensures FirstStop(s) == |s| ==> FirstStop(s + rest) >= |s|
  {
    var k, all := FirstStop(s), s + rest;
    if k < |s| { FirstStopIs(all, k); }
    assert FirstStop(all) < |s| ==> Stop(s[FirstStop(all)]);
  }

  // A complete line at the front of what is buffered is dealt with by itself.
  lemma NextLine(re: string, s: string, rest: string)
    requires Complete(s) && |s| < BUF_SIZE
    ensures var k := FirstStop(s);
            MatchingLines(re, s + rest)
            == (if MatchesSomewhere(re, s[..k]) then s[..k] + "\n" else "") + MatchingLines(re, s[k + 1..] + rest)
  {
    var k := FirstStop(s);
    FirstStopAppend(s, rest);
    hide MatchesSomewhere, FirstStop;
    var d := s + rest;
    assert d[..k] == s[..k] && d[..k + 1] == s[..k] + "\n" && d[k + 1..] == s[k + 1..] + rest;
  }

  // Nothing more comes of a buffer without a complete line that is full, or at the end of the input.
  lemma NoLine(re: string, s: string, rest: string)
    requires !Complete(s) && (|s| == BUF_SIZE - 1 || rest == "")
    ensures MatchingLines(re, s + rest) == ""
  {
    FirstStopAppend(s, rest);
    if rest == "" { assert s + rest == s; }
  }

  // strchr(buf + p, '\n') in the string that starts at p; m stands for the null pointer.
  method FindNewline(buf: array<char>, p: nat, m: nat) returns (q: nat)
    requires p <= m < buf.Length
    ensures p <= q <= m && (q < m <==> Complete(buf[p..m])) && (q < m ==> q - p == FirstStop(buf[p..m]))
  {
    q := p;
    while q < m && buf[q] != '\n' && buf[q] != '\0'
      invariant p <= q <= m && forall i :: p <= i < q ==> !Stop(buf[i])
    {
      q := q + 1;
    }
    FirstStopIs(buf[p..m], q - p);
    if q < m && buf[q] == '\0' { q := m; }
  }

  // The lines that are complete in buf[..m]; rest is the input not read yet.
  method ScanBuffer(re: string, buf: array<char>, m: nat, ghost rest: string) returns (out: string, p: nat)
    requires m < buf.Length == BUF_SIZE
    modifies buf
    ensures p <= m && !Complete(buf[p..m])
    ensures MatchingLines(re, old(buf[..m]) + rest) == out + MatchingLines(re, buf[p..m] + rest)
  {
    hide MatchingLines, MatchesSomewhere, FirstStop, Complete;
    out, p := "", 0;
    ghost var all := MatchingLines(re, buf[..m] + rest);
    assert buf[0..m] == buf[..m];
    var q := FindNewline(buf, p, m);
    while q < m
      invariant p <= q <= m
      invariant (q < m <==> Complete(buf[p..m])) && (q < m ==> q - p == FirstStop(buf[p..m]))
      invariant all == out + MatchingLines(re, buf[p..m] + rest)
      decreases m - p
    {
      NextLine(re, buf[p..m], rest);
      ghost var line, left := buf[p..q], buf[q + 1..m];
      assert buf[p..m][..q - p] == line && buf[p..m][q - p + 1..] == left;
      buf[q] := '\0';
      var b := Match(re, buf[p..q]);
      assert buf[p..q] == line;
      if b {
        buf[q] := '\n';
        assert buf[p..q + 1] == line + "\n";
        out := out + buf[p..q + 1];
      }
      p := q + 1;
      assert buf[p..m] == left;
      q := FindNewline(buf, p, m);
    }
  }

  // memmove(buf, p, m - p) towards the front.
  method MoveDown(buf: array<char>, p: nat, m: nat)
    requires p <= m < buf.Length
    modifies buf
    ensures buf[..m - p] == old(buf[p..m])
  {
    var i := 0;
    while i < m - p
      invariant 0 <= i <= m - p && buf[..i] == old(buf[p..p + i])
      invariant forall t :: p + i <= t < buf.Length ==> buf[t] == old(buf[t])
    {
      buf[i] := buf[p + i];
      i := i + 1;
    }
  }

  // The body of the loop: s has arrived, rest is still to come.
  method TakeIn(re: string, buf: array<char>, m: nat, s: string, ghost rest: string) returns (lines: string, left: nat)
    requires m + |s| < buf.Length == BUF_SIZE
    modifies buf
    ensures left < BUF_SIZE && !Complete(buf[..left])
    ensures MatchingLines(re, old(buf[..m]) + (s + rest)) == lines + MatchingLines(re, buf[..left] + rest)
  {
    hide MatchingLines, Complete;
    Fill(buf, m, s);
    ghost var now := buf[..m + |s|];
    assert now + rest == old(buf[..m]) + (s + rest);
    buf[m + |s|] := '\0';
    assert buf[..m + |s|] == now;
    var p;
    lines, p := ScanBuffer(re, buf, m + |s|, rest);
    left := m + |s| - p;
    MoveDown(buf, p, m + |s|);
  }

  // The input arrives in pieces: call number t of read gives at most pace(t) + 1 bytes, and at least one
  // unless the input is exhausted or no room was offered.
  method Grep(re: string, buf: array<char>, data: string, pace: nat -> nat) returns (out: string)
    requires buf.Length == BUF_SIZE
    modifies buf
    ensures out == MatchingLines(re, data)
  {
    hide MatchingLines, Complete;
    out := "";
    var m, at, calls := 0, 0, 0;
    assert buf[..0] + data[0..] == data;
    assert !Complete(buf[..0]) by { NothingComplete(); }
    while true
      invariant 0 <= m < BUF_SIZE && 0 <= at <= |data|
      invariant !Complete(buf[..m])
      invariant MatchingLines(re, data) == out + MatchingLines(re, buf[..m] + data[at..])
      decreases |data| - at
    {
      var n := Min(pace(calls) + 1, Min(BUF_SIZE - m - 1, |data| - at));
      calls := calls + 1;
      if n == 0 {
        NoLine(re, buf[..m], data[at..]);
        return;
      }
      var lines;
      assert data[at..] == data[at..at + n] + data[at + n..];
      lines, m := TakeIn(re, buf, m, data[at..at + n], data[at + n..]);
      out, at := out + lines, at + n;
    }
  }

  lemma NothingComplete()
    ensures !Complete("")
  {}

  function Min(a: nat, b: nat): (r: nat) { if a < b then a else b }

  // The bytes that read() puts at buf + m.
  method Fill(buf: array<char>, m: nat, s: string)
    requires m + |s| < buf.Length
    modifies buf
    ensures buf[..m + |s|] == old(buf[..m]) + s
  {
    var i := 0;
    while i < |s|
      invariant 0 <= i <= |s| && buf[..m + i] == old(buf[..m]) + s[..i]
    {
      buf[m + i] := s[i];
      i := i + 1;
    }
  }
}
