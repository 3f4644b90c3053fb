// A lexer to compare the scanner of the MATERIALIZED VIEW statements with
// (include/dbsp_parser_extension.hpp): the lexical rules of SQL as
// PostgreSQL's documentation gives them in section 4.1.
module DdlReference {
  import opened Rows
  import opened DdlScanner
  import opened DdlParser
  import opened DdlPrinter
  import opened DdlRoundTrip
  import opened DdlCall

  // ---- the reference ----

  // Bytes beyond ASCII count as letters.
  predicate NameStart(c: char) {
    Alpha(c) || c == '_' || c as int >= 128
  }

  predicate NameChar(c: char) {
    NameStart(c) || Digit(c) || c == '$'
  }

  // A name runs on over dollar signs.
  function NameLen(s: string): (n: nat)
    ensures n <= |s|
    ensures forall i :: 0 <= i < n ==> NameChar(s[i])
    ensures n < |s| ==> !NameChar(s[n])
  {
    if s != "" && NameChar(s[0]) then 1 + NameLen(s[1..]) else 0
  }

  // From behind E' to behind the closing quote: a backslash takes the next
  // character along.
  function EscapedLen(s: string): (n: nat)
    ensures n <= |s|
  {
    if s == "" then 0
    else if s[0] == '\\' then if |s| > 1 then 2 + EscapedLen(s[2..]) else 1
    else if s[0] == '\'' then if |s| > 1 && s[1] == '\'' then 2 + EscapedLen(s[2..]) else 1
    else 1 + EscapedLen(s[1..])
  }

  // From behind an opening comment mark: comments nest.
  function NestedLen(s: string, depth: nat): (n: nat)
    ensures n <= |s|
  {
    if s == "" || depth == 0 then 0
    else if "/*" <= s then 2 + NestedLen(s[2..], depth + 1)
    else if "*/" <= s then 2 + NestedLen(s[2..], depth - 1)
    else 1 + NestedLen(s[1..], depth)
  }

  // A line ends at a newline, a carriage return, or both.
  function LineLen(s: string): (n: nat)
    ensures n <= |s|
  {
    if s == "" then 0
    else if s[0] == '\n' then 1
    else if s[0] == '\r' then if "\r\n" <= s then 2 else 1
    else 1 + LineLen(s[1..])
  }

  predicate TagChar(c: char) {
    NameStart(c) || Digit(c)
  }

  function TagRun(s: string): (n: nat)
    ensures n <= |s|
    ensures forall i :: 0 <= i < n ==> TagChar(s[i])
    ensures n < |s| ==> !TagChar(s[n])
  {
    if s != "" && TagChar(s[0]) then 1 + TagRun(s[1..]) else 0
  }

  function RefTag(s: string): (t: string)
    ensures t <= s && (t == "" || |t| >= 2)
  {
    if s == "" || s[0] != '$' then ""
    else
      var n := TagRun(s[1..]);
      if 1 + n >= |s| || s[1 + n] != '$' then ""
      else if n > 0 && Digit(s[1]) then ""
      else s[..n + 2]
  }

  predicate OpensEscaped(s: string) {
    |s| > 1 && (s[0] == 'E' || s[0] == 'e') && s[1] == '\''
  }

  function RefUnit(s: string): (n: nat)
    ensures n <= |s| && (s != "" ==> n > 0)
  {
    if s == "" then 0
    else if RefTag(s) != "" then Past(s, |RefTag(s)|, RefTag(s))
    else if OpensEscaped(s) then 2 + EscapedLen(s[2..])
    else if NameStart(s[0]) then NameLen(s)
    else if s[0] == '\'' || s[0] == '"' then 1 + QuoteLen(s[1..], s[0])
    else if "--" <= s then 2 + LineLen(s[2..])
    else if "/*" <= s then 2 + NestedLen(s[2..], 1)
    else 1
  }

  function RefEnd(s: string): nat {
    Chain(s, RefUnit)
  }

  // ---- units the scanner reads alike ----

  // A dollar tag of ASCII letters; an escape string without a backslash; a
  // name with no dollar tag inside; a line comment without a lone carriage
  // return; a comment with no other one inside.
  predicate Ordinary(s: string)
    requires s != ""
  {
    if RefTag(s) != "" then DollarTag(s) == RefTag(s)
    else if OpensEscaped(s) then NoBackslash(s[2..2 + EscapedLen(s[2..])])
    else if NameStart(s[0]) then forall i :: 0 <= i < NameLen(s) ==> DollarTag(s[i..]) == ""
    else if s[0] == '\'' || s[0] == '"' then true
    else if "--" <= s then NoLoneReturn(s[2..2 + LineLen(s[2..])])
    else if "/*" <= s then NoneInside(s[2..])
    else true
  }

  predicate NoBackslash(s: string) {
    forall i :: 0 <= i < |s| ==> s[i] != '\\'
  }

  // The line read is ended by its newline, if at all.
  predicate NoLoneReturn(line: string) {
    line == "" || line[|line| - 1] != '\r'
  }

  // No comment opens before the first one closes.
  predicate NoneInside(s: string) {
    if s == "" || "*/" <= s then true
    else !("/*" <= s) && NoneInside(s[1..])
  }

  // Every unit up to the reference's end.
  predicate AllOrdinary(s: string) {
    s == "" || s[0] == ';' || (Ordinary(s) && AllOrdinary(s[RefUnit(s)..]))
  }

  lemma {:induction false} RunsAgree(s: string)
    requires WordRun(s) < |s| && s[WordRun(s)] == '$'
    ensures TagRun(s) == WordRun(s)
  {
    if WordChar(s[0]) {
      RunsAgree(s[1..]);
    }
  }

  // The scanner's tags are tags.
  lemma TagsAgree(s: string)
    requires DollarTag(s) != ""
    ensures RefTag(s) == DollarTag(s)
  {
    RunsAgree(s[1..]);
  }

  lemma {:induction false} NoEscapes(s: string)
    requires NoBackslash(s[..EscapedLen(s)])
    ensures QuoteLen(s, '\'') == EscapedLen(s)
  {
    if s != "" {
      var n := EscapedLen(s);
      assert s[..n][0] == s[0];
      if s[0] == '\'' {
        if |s| > 1 && s[1] == '\'' {
          assert s[2..][..n - 2] == s[..n][2..];
          NoEscapes(s[2..]);
        }
      } else {
        assert s[1..][..n - 1] == s[..n][1..];
        NoEscapes(s[1..]);
      }
    }
  }

  lemma PastStep(s: string, t: string)
    requires s != "" && t != "" && s[0] != t[0]
    ensures Past(s, 0, t) == 1 + Past(s[1..], 0, t)
  {
    assert s[0..] == s && s[1..][0..] == s[1..];
    assert !(t <= s);
  }

  lemma PastHere(s: string, t: string)
    requires t != "" && t <= s
    ensures Past(s, 0, t) == |t|
  {
    assert s[0..] == s;
  }

  lemma {:induction false} NewlineFound(s: string)
    requires NoLoneReturn(s[..LineLen(s)])
    ensures Past(s, 0, "\n") == LineLen(s)
  {
    if s != "" {
      var n := LineLen(s);
      if s[0] == '\n' {
        PastHere(s, "\n");
      } else if s[0] == '\r' {
        assert s[..n][n - 1] == s[n - 1];
        assert s[1] == "\r\n"[1];
        PastStep(s, "\n");
        PastHere(s[1..], "\n");
      } else {
        assert s[..n] == [s[0]] + s[1..][..n - 1];
        assert n > 1 ==> s[..n][n - 1] == s[1..][..n - 1][n - 2];
        NewlineFound(s[1..]);
        PastStep(s, "\n");
      }
    }
  }

  lemma {:induction false} CloseFound(s: string)
    requires NoneInside(s)
    ensures Past(s, 0, "*/") == NestedLen(s, 1)
  {
    if s != "" {
      if "*/" <= s {
        assert s[0] == "*/"[0];
        PastHere(s, "*/");
      } else {
        CloseFound(s[1..]);
        assert s[0..] == s && s[1..][0..] == s[1..];
        assert !("/*" <= s);
        assert NestedLen(s, 1) == 1 + NestedLen(s[1..], 1);
      }
    }
  }

  lemma NotPrefix(s: string, t: string)
    requires t != "" && (s == "" || s[0] != t[0])
    ensures !(t <= s)
  {
    if 0 < |s| && |t| <= |s| {
      assert s[..|t|][0] == s[0];
    }
  }

  lemma LetterUnit(s: string)
    requires s != "" && NameChar(s[0]) && DollarTag(s) == ""
    ensures EndLen(s) == 1 + EndLen(s[1..])
  {
    NotPrefix(s, "--");
    NotPrefix(s, "/*");
    ChainUnfold(s, LexLen, 1, s[1..]);
  }

  lemma {:induction false} NameWalk(s: string, n: nat)
    requires n <= |s| && forall i :: 0 <= i < n ==> NameChar(s[i]) && DollarTag(s[i..]) == ""
    ensures EndLen(s) == n + EndLen(s[n..])
  {
    if n > 0 {
      assert s[0..] == s;
      LetterUnit(s);
      var rest := s[1..];
      forall i | 0 <= i < n - 1 ensures NameChar(rest[i]) && DollarTag(rest[i..]) == "" {
        assert rest[i] == s[i + 1] && rest[i..] == s[i + 1..];
      }
      NameWalk(rest, n - 1);
      assert rest[n - 1..] == s[n..];
    }
  }

  lemma PassComment(s: string)
    requires s != "" && Ordinary(s) && RefTag(s) == "" && ("--" <= s || "/*" <= s)
    ensures LexLen(s) == RefUnit(s)
  {
    if DollarTag(s) != "" {
      TagsAgree(s);
    }
    if "--" <= s {
      NewlineFound(s[2..]);
      LinePast(s);
    } else {
      CloseFound(s[2..]);
      assert s[2..][0..] == s[2..];
    }
  }

  lemma LinePast(s: string)
    requires "--" <= s
    ensures Past(s, 0, "\n") == 2 + Past(s[2..], 0, "\n")
  {
    assert s[0] == "--"[0] && s[1] == "--"[1] && s[1..][1..] == s[2..];
    PastStep(s, "\n");
    PastStep(s[1..], "\n");
  }

  lemma PassEscaped(s: string)
    requires OpensEscaped(s) && Ordinary(s)
    ensures EndLen(s) == RefUnit(s) + EndLen(s[RefUnit(s)..])
  {
    var n := EscapedLen(s[2..]);
    assert s[2..][..n] == s[2..2 + n];
    NoEscapes(s[2..]);
    assert CommentLen(s) == 0 && LexLen(s) == 1;
    assert s[1..][1..] == s[2..] && s[1..][1 + n..] == s[2 + n..];
    assert DollarTag(s[1..]) == "" && LexLen(s[1..]) == 1 + n;
    ChainUnfold(s, LexLen, 1, s[1..]);
    ChainUnfold(s[1..], LexLen, 1 + n, s[2 + n..]);
  }

  // The scan passes where an ordinary unit of the reference ends.
  lemma PassOrdinary(s: string)
    requires s != "" && s[0] != ';' && Ordinary(s)
    ensures EndLen(s) == RefUnit(s) + EndLen(s[RefUnit(s)..])
  {
    if DollarTag(s) != "" {
      TagsAgree(s);
    }
    if RefTag(s) != "" {
      ChainUnfold(s, LexLen, RefUnit(s), s[RefUnit(s)..]);
    } else if OpensEscaped(s) {
      PassEscaped(s);
    } else if NameStart(s[0]) {
      NameWalk(s, NameLen(s));
    } else {
      if "--" <= s || "/*" <= s {
        PassComment(s);
      }
      ChainUnfold(s, LexLen, RefUnit(s), s[RefUnit(s)..]);
    }
  }

  // Where every unit is ordinary the scanner finds the end of the statement.
  lemma {:induction false} OrdinarySameEnd(s: string)
    requires AllOrdinary(s)
    ensures EndLen(s) == RefEnd(s)
  {
    if s != "" && s[0] != ';' {
      PassOrdinary(s);
      OrdinarySameEnd(s[RefUnit(s)..]);
    }
  }

  // ---- what stands behind a terminator changes nothing before it ----

  lemma {:induction false} EscapedStays(s: string, y: string)
    ensures EscapedLen(s) < |s| || EscapedLen(s + y) < |s| ==> EscapedLen(s + y) == EscapedLen(s)
  {
    if |s| > 1 {
      assert (s + y)[1..] == s[1..] + y && (s + y)[2..] == s[2..] + y;
      EscapedStays(s[1..], y);
      EscapedStays(s[2..], y);
    }
  }

  lemma {:induction false} NameStays(s: string, y: string)
    ensures NameLen(s) < |s| || NameLen(s + y) < |s| ==> NameLen(s + y) == NameLen(s)
  {
    if s != "" {
      assert (s + y)[1..] == s[1..] + y;
      NameStays(s[1..], y);
    }
  }

  lemma {:induction false} LineStays(s: string, y: string)
    ensures LineLen(s) < |s| || LineLen(s + y) < |s| ==> LineLen(s + y) == LineLen(s)
  {
    if |s| > 1 {
      assert (s + y)[1..] == s[1..] + y;
      assert (s + y)[..2] == s[..2];
      assert "\r\n" <= s + y <==> "\r\n" <= s;
      LineStays(s[1..], y);
    }
  }

  lemma {:induction false} NestedStays(s: string, depth: nat, y: string)
    ensures NestedLen(s, depth) < |s| || NestedLen(s + y, depth) < |s| ==> NestedLen(s + y, depth) == NestedLen(s, depth)
  {
    if |s| > 1 && depth > 0 {
      assert (s + y)[1..] == s[1..] + y && (s + y)[2..] == s[2..] + y && (s + y)[..2] == s[..2];
      assert "/*" <= s + y <==> "/*" <= s;
      assert "*/" <= s + y <==> "*/" <= s;
      NestedStays(s[2..], depth + 1, y);
      NestedStays(s[2..], depth - 1, y);
      NestedStays(s[1..], depth, y);
    }
  }

  lemma {:induction false} TagRunStays(s: string, y: string)
    requires s != "" && !TagChar(s[|s| - 1])
    ensures TagRun(s + y) == TagRun(s) < |s|
  {
    if TagChar(s[0]) {
      assert (s + y)[1..] == s[1..] + y;
      TagRunStays(s[1..], y);
    }
  }

  lemma RefTagStays(s: string, y: string)
    requires Closing(s)
    ensures RefTag(s + y) == RefTag(s)
  {
    if s[0] == '$' {
      assert (s + y)[1..] == s[1..] + y;
      TagRunStays(s[1..], y);
      var n := TagRun(s[1..]);
      assert (s + y)[1 + n] == s[1 + n];
      assert n + 2 <= |s| ==> (s + y)[..n + 2] == s[..n + 2];
    }
  }

  lemma PastFixed(s: string, n: nat, t: string, y: string)
    requires n <= |s| && t != ""
    ensures Past(s, n, t) < |s| || Past(s + y, n, t) < |s| ==> Past(s + y, n, t) == Past(s, n, t)
  {
    if Past(s, n, t) < |s| {
      PastStays(s, n, t, y);
    }
    if Past(s + y, n, t) < |s| {
      PastShrinks(s, n, t, y);
    }
  }

  lemma QuoteFixed(s: string, quote: char, y: string)
    ensures QuoteLen(s, quote) < |s| || QuoteLen(s + y, quote) < |s| ==> QuoteLen(s + y, quote) == QuoteLen(s, quote)
  {
    if QuoteLen(s, quote) < |s| {
      QuoteStays(s, quote, y);
    }
    if QuoteLen(s + y, quote) < |s| {
      QuoteShrinks(s, quote, y);
    }
  }

  lemma HeadStays(s: string, y: string)
    requires |s| > 1
    ensures (s + y)[0] == s[0] && (s + y)[1..] == s[1..] + y && (s + y)[2..] == s[2..] + y
    ensures OpensEscaped(s + y) == OpensEscaped(s)
    ensures ("--" <= s + y) == ("--" <= s) && ("/*" <= s + y) == ("/*" <= s)
  {
    assert (s + y)[..2] == s[..2];
  }

  lemma NoTagFixed(s: string, y: string)
    requires Closing(s) && s[0] != ';' && RefTag(s) == "" == RefTag(s + y)
    ensures RefUnit(s) < |s| || RefUnit(s + y) < |s| ==> RefUnit(s + y) == RefUnit(s)
  {
    HeadStays(s, y);
    if OpensEscaped(s) {
      EscapedStays(s[2..], y);
    } else if NameStart(s[0]) {
      NameStays(s, y);
    } else if s[0] == '\'' || s[0] == '"' {
      QuoteFixed(s[1..], s[0], y);
    } else if "--" <= s {
      LineStays(s[2..], y);
    } else if "/*" <= s {
      NestedStays(s[2..], 1, y);
    }
  }

  lemma UnitFixed(s: string, y: string)
    requires Closing(s) && s[0] != ';'
    ensures RefUnit(s) < |s| || RefUnit(s + y) < |s| ==> RefUnit(s + y) == RefUnit(s)
  {
    RefTagStays(s, y);
    if RefTag(s) != "" {
      PastFixed(s, |RefTag(s)|, RefTag(s), y);
    } else {
      NoTagFixed(s, y);
    }
  }

  lemma RefUnitStable()
    ensures Stable(RefUnit)
  {
    forall s: string, y: string {:trigger RefUnit(s + y)} | Closing(s) && s[0] != ';'
      ensures RefUnit(s) < |s| || RefUnit(s + y) < |s| ==> RefUnit(s + y) == RefUnit(s)
    {
      UnitFixed(s, y);
    }
  }

  // ---- whatever second statement follows ----

  // For a statement text b that the reference sees end at its terminator:
  // the scanner stops there whatever follows exactly if it stops there when
  // nothing follows.
  lemma WhateverFollowsIff(b: string)
    requires RefEnd(b + ";") == |b|
    ensures (forall t: string {:trigger b + ";" + t} :: EndLen(b + ";" + t) == RefEnd(b + ";" + t)) <==> EndLen(b + ";") == |b|
  {
    LexLenStable();
    RefUnitStable();
    forall t: string {:trigger b + ";" + t}
      ensures RefEnd(b + ";" + t) == |b| && (EndLen(b + ";" + t) == |b| <==> EndLen(b + ";") == |b|)
    {
      TerminatorIff(RefUnit, b + ";", t);
      TerminatorIff(LexLen, b + ";", t);
    }
    assert b + ";" + "" == b + ";";
  }

  lemma StopStays(head: string, rest: string, more: string)
    requires Closing(head) && EndLen(head + rest) == |head| - 1
    ensures EndLen(head + more) == |head| - 1
  {
    LexLenStable();
    TerminatorIff(LexLen, head, rest);
    TerminatorIff(LexLen, head, more);
  }

  lemma SplitBehind(s: string, e: nat, t: string)
    requires e < |s|
    ensures s == s[..e + 1] + s[e + 1..] && s + t == s[..e + 1] + (s[e + 1..] + t)
  {
  }

  // A terminator the scanner finds before the end stays where it is.
  lemma FoundStays(b: string, t: string)
    requires EndLen(b + ";") <= |b|
    ensures EndLen(b + ";" + t) == EndLen(b + ";")
  {
    var s := b + ";";
    var e := EndLen(s);
    StopsAtTerminator(s);
    SplitBehind(s, e, t);
    StopStays(s[..e + 1], s[e + 1..], s[e + 1..] + t);
  }

  // ---- a quotation still open stays open over a letter ----

  lemma {:induction false} NotFound(s: string, t: string, c: char)
    requires t != "" && Find(s, t).None? && t[|t| - 1] != c
    ensures Find(s + [c], t).None?
  {
    assert t <= s + [c] ==> t <= s || t == s + [c];
    if s != "" {
      assert (s + [c])[1..] == s[1..] + [c];
      NotFound(s[1..], t, c);
    } else {
      assert (s + [c])[1..] == "";
    }
  }

  lemma {:induction false} QuoteOpen(s: string, quote: char, c: char)
    requires QuoteLen(s, quote) == |s| && c != quote && (s == "" || s[|s| - 1] != quote)
    ensures QuoteLen(s + [c], quote) == |s| + 1
  {
    if s == "" {
      assert (s + [c])[1..] == "";
    } else if s[0] == quote {
      assert (s + [c])[2..] == s[2..] + [c];
      QuoteOpen(s[2..], quote, c);
    } else {
      assert (s + [c])[1..] == s[1..] + [c];
      QuoteOpen(s[1..], quote, c);
    }
  }

  // The unit that takes the last terminator takes the letter behind it.
  lemma UnitOpen(s: string)
    requires Closing(s) && s[0] != ';' && LexLen(s) == |s|
    ensures LexLen(s + "x") == |s| + 1
  {
    TagStays(s, "x");
    var tag := DollarTag(s);
    assert (s + "x")[1..] == s[1..] + "x" && (s + "x")[..2] == s[..2];
    assert "--" <= s + "x" <==> "--" <= s;
    assert "/*" <= s + "x" <==> "/*" <= s;
    if tag != "" {
      OpenPast(s, |tag|, tag);
    } else if s[0] == '\'' || s[0] == '"' {
      QuoteOpen(s[1..], s[0], 'x');
    } else if "--" <= s {
      OpenPast(s, 0, "\n");
    } else if "/*" <= s {
      OpenPast(s, 2, "*/");
    }
  }

  lemma FoundSpells(s: string, n: nat, t: string)
    requires n <= |s| && t != "" && Find(s[n..], t).Some? && Past(s, n, t) == |s|
    ensures s[|s| - 1] == t[|t| - 1]
  {
    var i := Find(s[n..], t).value;
    assert s[n..][i..i + |t|][|t| - 1] == s[|s| - 1];
  }

  lemma OpenPast(s: string, n: nat, t: string)
    requires Closing(s) && n <= |s| && t != "" && t[|t| - 1] != ';' && t[|t| - 1] != 'x' && Past(s, n, t) == |s|
    ensures Past(s + "x", n, t) == |s| + 1
  {
    assert (s + "x")[n..] == s[n..] + "x";
    if Find(s[n..], t).Some? {
      FoundSpells(s, n, t);
    } else {
      NotFound(s[n..], t, 'x');
    }
  }

  lemma LastUnitOpen(s: string)
    requires Closing(s) && s[0] != ';' && LexLen(s) == |s|
    ensures EndLen(s + "x") == |s| + 1
  {
    UnitOpen(s);
    ChainUnfold(s + "x", LexLen, |s| + 1, (s + "x")[|s| + 1..]);
  }

  lemma UnitBefore(s: string, n: nat)
    requires Closing(s) && s[0] != ';' && n == LexLen(s) < |s|
    ensures Closing(s[n..]) && EndLen(s) == n + EndLen(s[n..]) && EndLen(s + "x") == n + EndLen(s[n..] + "x")
  {
    UnitStays(s, "x");
    assert (s + "x")[n..] == s[n..] + "x";
    ChainUnfold(s, LexLen, n, s[n..]);
    ChainUnfold(s + "x", LexLen, n, s[n..] + "x");
  }

  lemma {:induction false} ScanOpen(s: string)
    requires Closing(s) && EndLen(s) == |s|
    ensures EndLen(s + "x") == |s| + 1
    decreases |s|
  {
    if s[0] != ';' {
      var n := LexLen(s);
      if n == |s| {
        LastUnitOpen(s);
      } else {
        UnitBefore(s, n);
        ScanOpen(s[n..]);
      }
    }
  }

  // ---- when a second statement is folded into the body ----

  ghost predicate FoldsIn(name: string, b: string, t: string, lay: Layout) {
    var body := b + ";" + t;
    && t != "" && Trimmed(body)
    && Parsed(Printed(Create(name, body, false), lay)) == Rewritten(Create(name, body, false))
  }

  lemma FoldIs(name: string, b: string, t: string, lay: Layout)
    requires Registrable(name) && LayoutOk(lay) && lay.before != "" && lay.after == "" && !lay.semicolon
    ensures FoldsIn(name, b, t, lay) <==> t != "" && Trimmed(b + ";" + t) && EndLen(b + ";" + t) == |b + ";" + t|
  {
    var body := b + ";" + t;
    assert body + lay.after == body;
    if Trimmed(body) {
      CreateRoundTripIff(name, body, false, lay);
    }
  }

  // Some text behind `b;` is taken into the body exactly if the scan of `b;`
  // runs over its terminator: something the scanner opened in b is still
  // open at its end.
  lemma FoldedIff(name: string, b: string, lay: Layout)
    requires Trimmed(b) && Registrable(name) && LayoutOk(lay) && lay.before != "" && lay.after == "" && !lay.semicolon
    ensures (exists t :: FoldsIn(name, b, t, lay)) <==> EndLen(b + ";") > |b|
  {
    if EndLen(b + ";") > |b| {
      ScanOpen(b + ";");
      FoldIs(name, b, "x", lay);
      assert FoldsIn(name, b, "x", lay);
    } else {
      forall t ensures !FoldsIn(name, b, t, lay) {
        FoldIs(name, b, t, lay);
        FoundStays(b, t);
      }
    }
  }

  // Behind ordinary units nothing is ever folded.
  lemma OrdinaryNeverFolds(name: string, b: string, lay: Layout)
    requires Trimmed(b) && Registrable(name) && LayoutOk(lay) && lay.before != "" && lay.after == "" && !lay.semicolon
    requires AllOrdinary(b + ";") && RefEnd(b + ";") == |b|
    ensures forall t :: !FoldsIn(name, b, t, lay)
  {
    OrdinarySameEnd(b + ";");
    FoldedIff(name, b, lay);
  }

  // ---- a name with dollar tags ----

  predicate IsName(u: string) {
    u != "" && NameStart(u[0]) && forall i :: 0 <= i < |u| ==> NameChar(u[i])
  }

  // Every dollar tag of the name, from the left, comes again in the name.
  predicate TagsClosed(u: string) {
    if u == "" then true
    else
      var tag := DollarTag(u);
      if tag == "" then TagsClosed(u[1..])
      else
        match Find(u[|tag|..], tag)
        case None => false
        case Some(i) => TagsClosed(u[|tag| + i + |tag|..])
  }

  lemma {:induction false} NotBehind(s: string, t: string, c: char)
    requires t != "" && t[|t| - 1] != c
    ensures Find(s + [c], t) == Find(s, t)
  {
    if Find(s, t).None? {
      NotFound(s, t, c);
    } else {
      FindStays(s, t, [c]);
    }
  }

  // A unit within u, or one over the terminator behind it.
  lemma UnitWithin(u: string, n: nat)
    requires u != "" && u[0] != ';' && LexLen(u + ";") == n && 0 < n <= |u|
    ensures EndLen(u + ";") == n + EndLen(u[n..] + ";")
  {
    assert (u + ";")[n..] == u[n..] + ";";
    ChainUnfold(u + ";", LexLen, n, u[n..] + ";");
  }

  lemma UnitOver(u: string)
    requires u != "" && u[0] != ';' && LexLen(u + ";") == |u| + 1
    ensures EndLen(u + ";") == |u| + 1
  {
    ChainUnfold(u + ";", LexLen, |u| + 1, (u + ";")[|u| + 1..]);
  }

  lemma TagUnit(u: string, tag: string)
    requires u != "" && NameChar(u[0]) && tag == DollarTag(u) != ""
    ensures LexLen(u + ";") == match Find(u[|tag|..], tag) case None => |u| + 1 case Some(at) => |tag| + at + |tag|
  {
    TagBehindName(u);
    NotBehind(u[|tag|..], tag, ';');
    assert (u + ";")[|tag|..] == u[|tag|..] + ";";
  }

  lemma NameLetter(u: string)
    requires u != "" && NameChar(u[0]) && DollarTag(u) == ""
    ensures EndLen(u + ";") == 1 + EndLen(u[1..] + ";")
  {
    TagBehindName(u);
    assert (u + ";")[1..] == u[1..] + ";";
    ChainUnfold(u + ";", LexLen, 1, u[1..] + ";");
  }

  lemma OpenTag(u: string, tag: string)
    requires u != "" && NameChar(u[0]) && tag == DollarTag(u) != "" && Find(u[|tag|..], tag).None?
    ensures EndLen(u + ";") == |u| + 1
  {
    TagUnit(u, tag);
    UnitOver(u);
  }

  lemma ClosedTag(u: string, tag: string, n: nat)
    requires u != "" && NameChar(u[0]) && tag == DollarTag(u) != ""
    requires var at := Find(u[|tag|..], tag); at.Some? && n == |tag| + at.value + |tag|
    ensures n <= |u| && EndLen(u + ";") == n + EndLen(u[n..] + ";")
  {
    TagUnit(u, tag);
    UnitWithin(u, n);
  }

  // A name is passed exactly if its tags are closed in it; otherwise its
  // last open tag takes the terminator.
  lemma {:induction false} NameIff(u: string)
    requires forall i :: 0 <= i < |u| ==> NameChar(u[i])
    ensures EndLen(u + ";") == if TagsClosed(u) then |u| else |u| + 1
    decreases |u|
  {
    if u == "" {
      assert u + ";" == ";";
    } else {
      var tag := DollarTag(u);
      if tag != "" && Find(u[|tag|..], tag).None? {
        OpenTag(u, tag);
      } else {
        TagsStep(u);
        ScanStep(u);
        NameIff(u[NameStep(u)..]);
      }
    }
  }

  // To behind the first character, or the first closed tag.
  function NameStep(u: string): (n: nat)
    requires u != "" && (DollarTag(u) == "" || Find(u[|DollarTag(u)|..], DollarTag(u)).Some?)
    ensures 0 < n <= |u|
  {
    var tag := DollarTag(u);
    if tag == "" then 1 else |tag| + Find(u[|tag|..], tag).value + |tag|
  }

  lemma TagsStep(u: string)
    requires u != "" && (DollarTag(u) == "" || Find(u[|DollarTag(u)|..], DollarTag(u)).Some?)
    ensures TagsClosed(u) == TagsClosed(u[NameStep(u)..])
  {
  }

  lemma ScanStep(u: string)
    requires u != "" && NameChar(u[0]) && (DollarTag(u) == "" || Find(u[|DollarTag(u)|..], DollarTag(u)).Some?)
    ensures EndLen(u + ";") == NameStep(u) + EndLen(u[NameStep(u)..] + ";")
  {
    if DollarTag(u) == "" {
      NameLetter(u);
    } else {
      ClosedTag(u, DollarTag(u), NameStep(u));
    }
  }

  lemma TagBehindName(u: string)
    requires u != "" && NameChar(u[0])
    ensures DollarTag(u + ";") == DollarTag(u)
    ensures DollarTag(u) == "" ==> LexLen(u + ";") == 1
    ensures DollarTag(u) != "" ==> DollarTag(u)[|DollarTag(u)| - 1] == '$'
  {
    NotPrefix(u + ";", "--");
    NotPrefix(u + ";", "/*");
    assert (u + ";")[1..] == u[1..] + ";";
    RunBehind(u[1..]);
    if u[0] == '$' && 1 + WordRun(u[1..]) < |u| {
      var n := WordRun(u[1..]);
      assert (u + ";")[1 + n] == u[1 + n] && (u + ";")[..n + 2] == u[..n + 2];
    }
  }

  lemma {:induction false} RunBehind(s: string)
    ensures WordRun(s + ";") == WordRun(s)
  {
    if s != "" {
      assert (s + ";")[1..] == s[1..] + ";";
      RunBehind(s[1..]);
    }
  }

  // ---- an escape string ----

  // An odd number of quotes.
  predicate OddQuotes(s: string) {
    s != "" && (s[0] == '\'') != OddQuotes(s[1..])
  }

  predicate PlainOrQuote(s: string) {
    forall i :: 0 <= i < |s| ==> Plain(s[i]) || s[i] == '\''
  }

  // Inside a quotation, over text of plain characters and quotes.
  lemma {:induction false} QuoteParity(s: string)
    requires PlainOrQuote(s)
    ensures var n := QuoteLen(s + ";", '\'');
            if n <= |s| then n > 0 && OddQuotes(s) != OddQuotes(s[n..]) else n == |s| + 1 && !OddQuotes(s)
    decreases |s|
  {
    if s == "" {
      assert (s + ";")[1..] == "";
    } else if |s| > 1 && s[0] == '\'' && s[1] == '\'' {
      ParityStep(s, 2);
    } else if s[0] != '\'' {
      ParityStep(s, 1);
    } else {
      assert (s + ";")[1] != '\'';
    }
  }

  lemma {:induction false} ParityStep(s: string, k: nat)
    requires PlainOrQuote(s) && 1 <= k <= 2 && k <= |s|
    requires if k == 1 then s[0] != '\'' else s[0] == '\'' && s[1] == '\''
    ensures var n := QuoteLen(s + ";", '\'');
            if n <= |s| then n > 0 && OddQuotes(s) != OddQuotes(s[n..]) else n == |s| + 1 && !OddQuotes(s)
    decreases |s|, 0
  {
    assert (s + ";")[k..] == s[k..] + ";" && s[1..][k - 1..] == s[k..];
    QuoteParity(s[k..]);
    var n := QuoteLen(s[k..] + ";", '\'');
    assert n <= |s[k..]| ==> s[k..][n..] == s[k + n..];
  }

  lemma QuoteTakes(s: string)
    requires s != "" && s[0] == '\'' && PlainOrQuote(s)
    ensures var n := LexLen(s + ";");
            if n <= |s| then n > 1 && OddQuotes(s) == OddQuotes(s[n..]) else n == |s| + 1 && OddQuotes(s)
  {
    var rest := s[1..];
    QuoteParity(rest);
    var n := QuoteLen(rest + ";", '\'');
    QuoteUnit(s);
    assert n <= |rest| ==> rest[n..] == s[1 + n..];
  }

  lemma QuoteUnit(s: string)
    requires s != "" && s[0] == '\''
    ensures LexLen(s + ";") == 1 + QuoteLen(s[1..] + ";", '\'')
  {
    assert (s + ";")[1..] == s[1..] + ";";
    assert DollarTag(s + ";") == "";
  }

  // Text of plain characters and quotes is passed exactly if the quotes are
  // even in number, whatever a backslash before one of them means.
  lemma {:induction false} QuotesIff(s: string)
    requires PlainOrQuote(s)
    ensures EndLen(s + ";") == if OddQuotes(s) then |s| + 1 else |s|
    decreases |s|
  {
    if s == "" {
      assert s + ";" == ";";
    } else if Plain(s[0]) {
      assert (s + ";")[1..] == s[1..] + ";";
      PlainUnit(s + ";");
      ChainUnfold(s + ";", LexLen, 1, s[1..] + ";");
      QuotesIff(s[1..]);
    } else {
      QuoteTakes(s);
      var n := LexLen(s + ";");
      if n <= |s| {
        UnitWithin(s, n);
        QuotesIff(s[n..]);
      } else {
        UnitOver(s);
      }
    }
  }

  // ---- the two kinds in a statement, with a second one behind ----

  lemma RefName(w: string, rest: string)
    requires IsName(w) && (rest == "" || !NameChar(rest[0])) && !OpensEscaped(w + rest)
    ensures RefEnd(w + rest) == |w| + RefEnd(rest)
  {
    NameEnds(w, rest);
    assert RefTag(w + rest) == "";
    assert (w + rest)[|w|..] == rest;
    ChainUnfold(w + rest, RefUnit, |w|, rest);
  }

  lemma {:induction false} NameEnds(w: string, rest: string)
    requires (forall i :: 0 <= i < |w| ==> NameChar(w[i])) && (rest == "" || !NameChar(rest[0]))
    ensures NameLen(w + rest) == |w|
  {
    if w == "" {
      assert w + rest == rest;
    } else {
      assert (w + rest)[1..] == w[1..] + rest;
      NameEnds(w[1..], rest);
    }
  }

  lemma RefSpace(rest: string)
    ensures RefEnd(" " + rest) == 1 + RefEnd(rest)
  {
    assert (" " + rest)[1..] == rest && RefTag(" " + rest) == "";
    ChainUnfold(" " + rest, RefUnit, 1, rest);
  }

  lemma {:induction false} TagNowhere(s: string, tag: string)
    requires tag != "" && forall i :: 0 <= i < |s| ==> s[i] != tag[0]
    ensures Find(s, tag).None?
  {
    if s != "" {
      NotPrefix(s, tag);
      TagNowhere(s[1..], tag);
    }
  }

  lemma TagHere(tag: string, rest: string)
    requires DollarTag(tag) == tag != ""
    ensures DollarTag(tag + rest) == tag
  {
    assert (tag + rest)[1..] == tag[1..] + rest;
    WordRunStays(tag[1..], rest);
    assert (tag + rest)[..|tag|] == tag;
  }

  // The scan of a text whose plain head is followed by an open tag.
  lemma TagTakesAll(head: string, tag: string, rest: string)
    requires AllPlain(head) && DollarTag(tag) == tag != "" && Find(rest, tag).None?
    ensures EndLen(head + (tag + rest)) == |head + (tag + rest)|
  {
    var s := tag + rest;
    TagHere(tag, rest);
    assert s[|tag|..] == rest;
    ChainUnfold(s, LexLen, |s|, s[|s|..]);
    PlainPrefix(head, s);
  }

  // A keyword, a space and a further text, for the reference.
  lemma RefKeyword(k: string, text: string)
    requires IsName(k)
    ensures RefEnd(k + (" " + text)) == |k| + 1 + RefEnd(text)
  {
    RefSpace(text);
    RefName(k, " " + text);
  }

  lemma KeywordPlain(k: string, w: string)
    requires AllPlain(k) && AllPlain(w)
    ensures AllPlain(k + (" " + w))
  {
  }

  lemma Regroup(k: string, w: string, tag: string, rest: string)
    ensures k + (" " + (w + (tag + rest))) == k + (" " + ((w + tag) + rest))
    ensures k + (" " + (w + (tag + rest))) == (k + (" " + w)) + (tag + rest)
  {
  }

  // A name w$a$ behind a keyword: its tag opens a quotation for the scanner.
  // Whatever follows without that tag, a second statement t included, is
  // taken along, although the reference finds the terminator.
  lemma TagInNameSwallows(k: string, w: string, tag: string, mid: string, t: string)
    requires IsName(k) && AllPlain(k) && AllPlain(w) && IsName(w + tag) && DollarTag(tag) == tag != ""
    requires mid != "" && !NameChar(mid[0]) && mid[0] != '\'' && RefEnd(mid + (";" + t)) == |mid|
    requires Find(mid + (";" + t), tag).None?
    ensures var s := k + (" " + (w + (tag + (mid + (";" + t)))));
            RefEnd(s) == |s| - |t| - 1 && EndLen(s) == |s|
  {
    var rest := mid + (";" + t);
    Regroup(k, w, tag, rest);
    RefName(w + tag, rest);
    RefKeyword(k, (w + tag) + rest);
    KeywordPlain(k, w);
    TagTakesAll(k + (" " + w), tag, rest);
  }

  const ESCAPED := "E'\\''"

  lemma EscapedUnit(rest: string)
    requires rest == "" || rest[0] != '\''
    ensures RefEnd(ESCAPED + rest) == 5 + RefEnd(rest)
  {
    var s := ESCAPED + rest;
    assert s[2..] == "\\''" + rest;
    assert s[2..][2..] == "'" + rest;
    assert EscapedLen(s[2..][2..]) == 1;
    assert RefTag(s) == "" && RefUnit(s) == 5;
    assert s[5..] == rest;
    ChainUnfold(s, RefUnit, 5, rest);
  }

  lemma {:induction false} NoQuote(s: string)
    requires forall i :: 0 <= i < |s| ==> s[i] != '\''
    ensures QuoteLen(s, '\'') == |s|
  {
    if s != "" {
      NoQuote(s[1..]);
    }
  }

  lemma OpenQuote(rest: string)
    requires forall i :: 0 <= i < |rest| ==> rest[i] != '\''
    ensures EndLen(ESCAPED + rest) == 5 + |rest|
  {
    var s := ESCAPED + rest;
    assert s[1..] == "'\\''" + rest;
    var q := s[1..];
    assert q[1..] == "\\''" + rest;
    assert q[1..][1..] == "''" + rest;
    assert q[1..][1..][2..] == rest;
    NoQuote(rest);
    assert QuoteLen(q[1..], '\'') == 1 + QuoteLen(q[1..][1..], '\'');
    assert DollarTag(q) == "" && LexLen(q) == |q|;
    ChainUnfold(q, LexLen, |q|, q[|q|..]);
    PlainUnit(s);
    ChainUnfold(s, LexLen, 1, q);
  }

  // E'\'' behind a keyword: a string of one quote, but the scanner takes its
  // last two quotes for a doubled one and is in a quotation behind it.
  lemma EscapedQuoteSwallows(k: string, mid: string, t: string)
    requires IsName(k) && AllPlain(k) && mid != "" && RefEnd(mid + (";" + t)) == |mid|
    requires forall i :: 0 <= i < |mid + (";" + t)| ==> (mid + (";" + t))[i] != '\''
    ensures var s := k + (" " + (ESCAPED + (mid + (";" + t))));
            RefEnd(s) == |s| - |t| - 1 && EndLen(s) == |s|
  {
    var rest := mid + (";" + t);
    Regroup(k, "", ESCAPED, rest);
    assert "" + (ESCAPED + rest) == ESCAPED + rest;
    EscapedUnit(rest);
    RefKeyword(k, ESCAPED + rest);
    OpenQuote(rest);
    KeywordPlain(k, "");
    PlainPrefix(k + (" " + ""), ESCAPED + rest);
  }

  // ---- two statements, and one view whose body holds them both ----

  const SELECT := "SELECT"
  const FROM_T := " FROM t"
  const SECOND := " DROP TABLE u"
  const AS_A := " AS a"

  // Name behind name.
  lemma RefClause(a: string, b: string, rest: string)
    requires IsName(a) && IsName(b) && (rest == "" || (!NameChar(rest[0]) && rest[0] != '\''))
    ensures RefEnd(" " + (a + (" " + (b + rest)))) == 2 + |a| + |b| + RefEnd(rest)
  {
    RefName(b, rest);
    RefKeyword(a, b + rest);
    RefSpace(a + (" " + (b + rest)));
  }

  lemma RefFromT(t: string)
    ensures RefEnd(FROM_T + (";" + t)) == 7
  {
    RefClause("FROM", "t", ";" + t);
    assert FROM_T + (";" + t) == " " + ("FROM" + (" " + ("t" + (";" + t))));
    assert RefEnd(";" + t) == 0;
  }

  lemma RefAsA(t: string)
    ensures RefEnd(AS_A + FROM_T + (";" + t)) == 12
  {
    RefFromT(t);
    RefClause("AS", "a", FROM_T + (";" + t));
    assert AS_A + FROM_T + (";" + t) == " " + ("AS" + (" " + ("a" + (FROM_T + (";" + t)))));
  }

  const X := "x"
  const TAG_A := "$a$"

  // SELECT x$a$ FROM t; DROP TABLE u
  function TaggedStatements(): string {
    SELECT + (" " + (X + (TAG_A + (FROM_T + (";" + SECOND)))))
  }

  // SELECT E'\'' AS a FROM t; DROP TABLE u
  function EscapedStatements(): string {
    SELECT + (" " + (ESCAPED + (AS_A + FROM_T + (";" + SECOND))))
  }

  lemma SelectIsName()
    ensures IsName(SELECT) && AllPlain(SELECT)
  {
  }

  lemma TaggedScan()
    ensures RefEnd(TaggedStatements()) == 18 && EndLen(TaggedStatements()) == |TaggedStatements()|
  {
    SelectIsName();
    RefFromT(SECOND);
    TagNowhere(FROM_T + (";" + SECOND), TAG_A);
    TagOfA();
    TagInNameSwallows(SELECT, X, TAG_A, FROM_T, SECOND);
  }

  lemma TagOfA()
    ensures DollarTag(TAG_A) == TAG_A && IsName(X + TAG_A) && AllPlain(X)
  {
    assert TAG_A[1..] == "a$" && "a$"[1..] == "$";
    assert WordRun("$") == 0 && WordRun("a$") == 1;
  }

  lemma EscapedScan()
    ensures RefEnd(EscapedStatements()) == 24 && EndLen(EscapedStatements()) == |EscapedStatements()|
  {
    SelectIsName();
    RefAsA(SECOND);
    EscapedQuoteSwallows(SELECT, AS_A + FROM_T, SECOND);
  }

  lemma TagFoldsSecond(name: string, lay: Layout)
    requires Registrable(name) && LayoutOk(lay) && lay.before != "" && lay.after == "" && !lay.semicolon
    ensures var both := TaggedStatements();
            RefEnd(both) == 18 && Parsed(Printed(Create(name, both, false), lay)) == Rewritten(Create(name, both, false))
  {
    var both := TaggedStatements();
    TaggedScan();
    BothTrimmed();
    WholeFolds(name, both, lay);
  }

  lemma EscapeFoldsSecond(name: string, lay: Layout)
    requires Registrable(name) && LayoutOk(lay) && lay.before != "" && lay.after == "" && !lay.semicolon
    ensures var both := EscapedStatements();
            RefEnd(both) == 24 && Parsed(Printed(Create(name, both, false), lay)) == Rewritten(Create(name, both, false))
  {
    var both := EscapedStatements();
    EscapedScan();
    BothTrimmed();
    WholeFolds(name, both, lay);
  }

  lemma BothTrimmed()
    ensures Trimmed(TaggedStatements()) && Trimmed(EscapedStatements())
  {
  }

  lemma WholeFolds(name: string, body: string, lay: Layout)
    requires Registrable(name) && LayoutOk(lay) && lay.before != "" && lay.after == "" && !lay.semicolon
    requires Trimmed(body) && EndLen(body) == |body|
    ensures Parsed(Printed(Create(name, body, false), lay)) == Rewritten(Create(name, body, false))
  {
    assert body + lay.after == body;
    CreateRoundTripIff(name, body, false, lay);
  }

  // An open tag in a name does no harm where no terminator follows.
  lemma TagWithoutTerminator(w: string, tag: string)
    requires IsName(w + tag) && AllPlain(w) && DollarTag(tag) == tag != ""
    ensures !AllOrdinary(w + tag) && EndLen(w + tag) == |w + tag| == RefEnd(w + tag)
  {
    var u := w + tag;
    assert u + "" == u && w + (tag + "") == u;
    TagTakesAll(w, tag, "");
    NameEnds(u, "");
    RefName(u, "");
    assert u[|w|..] == tag;
    assert RefTag(u) == "" && !OpensEscaped(u);
    assert !Ordinary(u);
  }
}
