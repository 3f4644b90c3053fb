// The scanner and parser of the MATERIALIZED VIEW statements
// (include/dbsp_parser_extension.hpp). The specification reads a statement
// as what is left of it; the methods advance a position.
module DdlScanner {
  import opened Rows

  // ---- character classes of the "C" locale ----

  predicate Space(c: char) {
    c == ' ' || 9 <= c as int <= 13
  }

  predicate Digit(c: char) {
    '0' <= c <= '9'
  }

  predicate Alpha(c: char) {
    'a' <= c <= 'z' || 'A' <= c <= 'Z'
  }

  predicate WordChar(c: char) {
    Alpha(c) || Digit(c) || c == '_'
  }

  function Up(c: char): char {
    if 'a' <= c <= 'z' then (c as int - 32) as char else c
  }

  // The classes by character code, and the case of letters.
  lemma ClassesAre(c: char)
    ensures var code := c as int;
            && (Space(c) <==> code in {9, 10, 11, 12, 13, 32})
            && (WordChar(c) <==> 48 <= code <= 57 || 65 <= code <= 90 || code == 95 || 97 <= code <= 122)
            && Up(c) as int == if 97 <= code <= 122 then code - 32 else code
  {
  }

  // ---- searching ----

  // string::find: the first occurrence of t.
  function Find(s: string, t: string): (r: Option<nat>)
    requires t != ""
    ensures r.Some? ==> r.value + |t| <= |s| && s[r.value..r.value + |t|] == t
  {
    if t <= s then Some(0)
    else if s == "" then None
    else
      match Find(s[1..], t)
      case None => None
      case Some(i) => Some(i + 1)
  }

  // The length up to and including the first t from n on, or all of s.
  function Past(s: string, n: nat, t: string): (r: nat)
    requires n <= |s| && t != ""
    ensures r <= |s| && (r == |s| || r >= n + |t|)
  {
    match Find(s[n..], t)
    case None => |s|
    case Some(i) => n + i + |t|
  }

  lemma Suffix(s: string, m: nat, n: nat)
    requires m + n <= |s|
    ensures s[m..][n..] == s[m + n..]
  {
  }

  // ---- white space and comments ----

  // The comment at the front, 0 when there is none. One that is never closed
  // takes everything.
  function CommentLen(s: string): (n: nat)
    ensures n <= |s|
    ensures n > 0 <==> "--" <= s || "/*" <= s
  {
    if "--" <= s then Past(s, 0, "\n") else if "/*" <= s then Past(s, 2, "*/") else 0
  }

  function SkipLen(s: string): (n: nat)
    ensures n <= |s|
  {
    if s == "" then 0
    else if Space(s[0]) then 1 + SkipLen(s[1..])
    else if CommentLen(s) == 0 then 0
    else CommentLen(s) + SkipLen(s[CommentLen(s)..])
  }

  function Skip(s: string): string {
    s[SkipLen(s)..]
  }

  method SkipComment(q: string, pos: nat) returns (p: nat)
    requires pos <= |q|
    ensures p == pos + CommentLen(q[pos..])
  {
    var s := q[pos..];
    p := pos;
    if "--" <= s {
      var nl := Find(s, "\n");
      p := if nl.None? then |q| else pos + nl.value + 1;
    } else if "/*" <= s {
      var end := Find(s[2..], "*/");
      p := if end.None? then |q| else pos + 2 + end.value + 2;
    }
  }

  // One step of skipping: a white space character or a comment.
  lemma SkipStep(q: string, p: nat, next: nat)
    requires p < |q| && next == p + if Space(q[p]) then 1 else CommentLen(q[p..])
    ensures next <= |q| && p + SkipLen(q[p..]) == if next == p then p else next + SkipLen(q[next..])
  {
    Suffix(q, p, next - p);
  }

  method SkipWsComments(q: string, pos: nat) returns (p: nat)
    requires pos <= |q|
    ensures p == pos + SkipLen(q[pos..])
  {
    p := pos;
    ghost var end := pos + SkipLen(q[pos..]);
    while p < |q|
      invariant pos <= p <= |q| && p + SkipLen(q[p..]) == end
      decreases |q| - p
    {
      var next := p + 1;
      if !Space(q[p]) {
        next := SkipComment(q, p);
      }
      SkipStep(q, p, next);
      if next == p {
        return;
      }
      p := next;
    }
  }

  // ---- words ----

  // kw, in any case, and then no further word character.
  predicate KeywordAt(s: string, kw: string) {
    && |kw| <= |s| && (forall i :: 0 <= i < |kw| ==> Up(s[i]) == kw[i])
    && (|kw| == |s| || !WordChar(s[|kw|]))
  }

  method KeywordHere(q: string, pos: nat, kw: string) returns (b: bool)
    requires pos <= |q|
    ensures b <==> KeywordAt(q[pos..], kw)
  {
    if pos + |kw| > |q| {
      return false;
    }
    for i := 0 to |kw|
      invariant forall j :: 0 <= j < i ==> Up(q[pos..][j]) == kw[j]
    {
      assert q[pos..][i] == q[pos + i];
      if Up(q[pos + i]) != kw[i] {
        return false;
      }
    }
    b := pos + |kw| == |q| || !WordChar(q[pos + |kw|]);
  }

  // ---- quoted text ----

  // From behind an opening quote to behind the closing one; a doubled quote
  // stands for itself.
  function QuoteLen(s: string, quote: char): (n: nat)
    ensures n <= |s|
  {
    if s == "" then 0
    else if s[0] == quote then if |s| > 1 && s[1] == quote then 2 + QuoteLen(s[2..], quote) else 1
    else 1 + QuoteLen(s[1..], quote)
  }

  method SkipQuoted(q: string, pos: nat, quote: char) returns (p: nat)
    requires pos <= |q|
    ensures p == pos + QuoteLen(q[pos..], quote)
  {
    p := pos;
    while p < |q|
      invariant pos <= p <= |q|
      invariant pos + QuoteLen(q[pos..], quote) == p + QuoteLen(q[p..], quote)
    {
      if q[p] == quote {
        if p + 1 < |q| && q[p + 1] == quote {
          Suffix(q, p, 2);
          p := p + 2;
          continue;
        }
        p := p + 1;
        return;
      }
      Suffix(q, p, 1);
      p := p + 1;
    }
  }

  // ---- identifiers ----

  function NameRun(s: string): (n: nat)
    ensures n <= |s|
  {
    if s != "" && (WordChar(s[0]) || s[0] == '$') then 1 + NameRun(s[1..]) else 0
  }

  function PartLen(s: string): (n: nat)
    ensures n <= |s|
  {
    if s != "" && s[0] == '"' then 1 + QuoteLen(s[1..], '"') else NameRun(s)
  }

  // Dot-separated parts, each as long as `part` says.
  function Dotted(s: string, part: string -> nat): (r: Option<nat>)
    ensures r.Some? ==> 0 < r.value <= |s|
  {
    var n := part(s);
    if n == 0 || n > |s| then None
    else if n < |s| && s[n] == '.' then Behind(n + 1, Dotted(s[n + 1..], part))
    else Some(n)
  }

  function Behind(n: nat, rest: Option<nat>): Option<nat> {
    match rest
    case None => None
    case Some(m) => Some(n + m)
  }

  function IdentLen(s: string): (r: Option<nat>)
    ensures r.Some? ==> 0 < r.value <= |s|
  {
    Dotted(s, PartLen)
  }

  method SkipRun(q: string, pos: nat) returns (p: nat)
    requires pos <= |q|
    ensures p == pos + NameRun(q[pos..])
  {
    p := pos;
    while p < |q| && (WordChar(q[p]) || q[p] == '$')
      invariant pos <= p <= |q|
      invariant pos + NameRun(q[pos..]) == p + NameRun(q[p..])
    {
      Suffix(q, p, 1);
      p := p + 1;
    }
  }

  method SkipPart(q: string, pos: nat) returns (p: nat)
    requires pos <= |q|
    ensures p == pos + PartLen(q[pos..])
  {
    if pos < |q| && q[pos] == '"' {
      Suffix(q, pos, 1);
      p := SkipQuoted(q, pos + 1, '"');
    } else {
      p := SkipRun(q, pos);
    }
  }

  lemma DottedStep(q: string, p: nat, next: nat, part: string -> nat)
    requires p <= next <= |q| && next == p + part(q[p..])
    ensures next == p ==> Dotted(q[p..], part).None?
    ensures next > p && next < |q| && q[next] == '.' ==> Dotted(q[p..], part) == Behind(next + 1 - p, Dotted(q[next + 1..], part))
    ensures next > p && !(next < |q| && q[next] == '.') ==> Dotted(q[p..], part) == Some(next - p)
  {
    if next < |q| {
      Suffix(q, p, next - p + 1);
    }
  }

  // What is made of the text from each position on.
  ghost predicate Tabulated(q: string, table: seq<Option<nat>>) {
    |table| == |q| + 1 && forall i {:trigger q[i..]} :: 0 <= i <= |q| ==> table[i] == Dotted(q[i..], PartLen)
  }

  // One part and whether a dot follows it.
  method TakePart(q: string, pos: nat, ghost table: seq<Option<nat>>) returns (p: nat, more: bool)
    requires pos <= |q| && Tabulated(q, table)
    ensures pos <= p <= |q| && (more ==> pos < p < |q|)
    ensures p == pos ==> table[pos].None?
    ensures p > pos && !more ==> table[pos] == Some(p - pos)
    ensures more ==> table[pos] == Behind(p + 1 - pos, table[p + 1])
  {
    p := SkipPart(q, pos);
    DottedStep(q, pos, p, PartLen);
    more := p > pos && p < |q| && q[p] == '.';
  }

  // Behind the identifier, or `pos` when there is none.
  method SkipIdentifier(q: string, pos: nat) returns (p: nat)
    requires pos <= |q|
    ensures p == match IdentLen(q[pos..]) case None => pos case Some(n) => pos + n
  {
    ghost var table := seq(|q| + 1, i requires 0 <= i <= |q| => Dotted(q[i..], PartLen));
    p := SkipDotted(q, pos, table);
    assert table[pos] == IdentLen(q[pos..]);
  }

  method SkipDotted(q: string, pos: nat, ghost table: seq<Option<nat>>) returns (p: nat)
    requires pos <= |q| && Tabulated(q, table)
    ensures p == match table[pos] case None => pos case Some(n) => pos + n
  {
    p := pos;
    while true
      invariant pos <= p <= |q| && table[pos] == Behind(p - pos, table[p])
      decreases |q| - p
    {
      var part, more := TakePart(q, p, table);
      if part == p {
        return pos;
      }
      if !more {
        return part;
      }
      p := part + 1;
    }
  }

  // ---- dollar quotes ----

  function WordRun(s: string): (n: nat)
    ensures n <= |s|
    ensures forall i :: 0 <= i < n ==> WordChar(s[i])
    ensures n < |s| ==> !WordChar(s[n])
  {
    if s != "" && WordChar(s[0]) then 1 + WordRun(s[1..]) else 0
  }

  // $$ or $tag$ at the front, "" when there is none.
  function DollarTag(s: string): (t: string)
    ensures t <= s && (t == "" || |t| >= 2)
  {
    if s == "" || s[0] != '$' then ""
    else
      var n := WordRun(s[1..]);
      if 1 + n >= |s| || s[1 + n] != '$' then ""
      else if n > 0 && Digit(s[1]) then ""
      else s[..n + 2]
  }

  method SkipWordRun(q: string, pos: nat) returns (p: nat)
    requires pos <= |q|
    ensures p == pos + WordRun(q[pos..])
  {
    p := pos;
    ghost var end := pos + WordRun(q[pos..]);
    while p < |q| && WordChar(q[p])
      invariant pos <= p <= |q| && p + WordRun(q[p..]) == end
    {
      Suffix(q, p, 1);
      p := p + 1;
    }
  }

  method DollarTagAt(q: string, pos: nat) returns (t: string)
    requires pos <= |q|
    ensures t == DollarTag(q[pos..])
  {
    if pos >= |q| || q[pos] != '$' {
      return "";
    }
    Suffix(q, pos, 1);
    var i := SkipWordRun(q, pos + 1);
    if i >= |q| || q[i] != '$' {
      return "";
    }
    if i > pos + 1 && Digit(q[pos + 1]) {
      return "";
    }
    t := q[pos..i + 1];
  }

  // ---- the end of a statement ----

  // One lexical unit: a dollar-quoted, quoted or commented text, or one
  // character. A unit that is never closed takes everything.
  function LexLen(s: string): (n: nat)
    ensures n <= |s| && (s != "" ==> n > 0)
  {
    var tag := DollarTag(s);
    if s == "" then 0
    else if tag != "" then Past(s, |tag|, tag)
    else if s[0] == '\'' || s[0] == '"' then 1 + QuoteLen(s[1..], s[0])
    else if CommentLen(s) > 0 then CommentLen(s)
    else 1
  }

  // The distance to the first terminator between units as long as `unit` says.
  function Chain(s: string, unit: string -> nat): (n: nat)
    ensures n <= |s|
  {
    if s == "" || s[0] == ';' then 0
    else
      var n := unit(s);
      if n == 0 || n > |s| then 0 else n + Chain(s[n..], unit)
  }

  function EndLen(s: string): nat {
    Chain(s, LexLen)
  }

  method SkipLex(q: string, pos: nat) returns (p: nat)
    requires pos < |q|
    ensures p == pos + LexLen(q[pos..])
  {
    var tag := DollarTagAt(q, pos);
    if tag != "" {
      var close := Find(q[pos..][|tag|..], tag);
      p := if close.None? then |q| else pos + |tag| + close.value + |tag|;
    } else if q[pos] == '\'' || q[pos] == '"' {
      Suffix(q, pos, 1);
      p := SkipQuoted(q, pos + 1, q[pos]);
    } else {
      p := SkipComment(q, pos);
      if p == pos {
        p := pos + 1;
      }
    }
  }

  lemma ChainStep(q: string, p: nat, next: nat, unit: string -> nat)
    requires p < next <= |q| && q[p] != ';' && next == p + unit(q[p..])
    ensures p + Chain(q[p..], unit) == next + Chain(q[next..], unit)
  {
    Suffix(q, p, next - p);
  }

  method FindStatementEnd(q: string, pos: nat) returns (p: nat)
    requires pos <= |q|
    ensures p == pos + EndLen(q[pos..])
  {
    p := pos;
    ghost var end := pos + Chain(q[pos..], LexLen);
    while p < |q|
      invariant pos <= p <= |q| && p + Chain(q[p..], LexLen) == end
      decreases |q| - p
    {
      if q[p] == ';' {
        return;
      }
      var next := SkipLex(q, p);
      ChainStep(q, p, next, LexLen);
      p := next;
    }
  }

  // ---- trimming ----

  function TrimLeft(s: string): (t: string)
    ensures |t| <= |s|
    ensures t != "" ==> !Space(t[0])
  {
    if s != "" && Space(s[0]) then TrimLeft(s[1..]) else s
  }

  function TrimRight(s: string): (t: string)
    ensures t <= s
    ensures t != "" ==> !Space(t[|t| - 1])
  {
    if s != "" && Space(s[|s| - 1]) then TrimRight(s[..|s| - 1]) else s
  }

  function Trim(s: string): string {
    TrimRight(TrimLeft(s))
  }
}

// The one grammar of the extension's statements.
module DdlParser {
  import opened Rows
  import opened DdlScanner

  datatype Ddl =
    | Create(name: string, body: string, orReplace: bool)
    | Drop(name: string, cascade: bool, ifExists: bool)
    | Refresh(name: string)

  // Not one of ours, one of ours that could not be parsed, or its meaning.
  datatype Match = NotOurs | Declined | Rewritten(ddl: Ddl)

  // ---- names ----

  // What stands between the quotes, with doubled quotes as one.
  function Undouble(s: string): Option<string> {
    if s == "" then Some("")
    else if s[0] == '"' then
      if |s| > 1 && s[1] == '"' then
        match Undouble(s[2..])
        case None => None
        case Some(t) => Some("\"" + t)
      else None
    else
      match Undouble(s[1..])
      case None => None
      case Some(t) => Some([s[0]] + t)
  }

  // Names a view can be registered under.
  predicate Registrable(name: string) {
    && name != "" && (Alpha(name[0]) || name[0] == '_')
    && forall i :: 0 <= i < |name| ==> WordChar(name[i])
  }

  function Unquoted(raw: string): Option<string>
    requires raw != ""
  {
    if raw[0] != '"' then Some(raw)
    else if |raw| < 2 || raw[|raw| - 1] != '"' then None
    else Undouble(raw[1..|raw| - 1])
  }

  function Normalized(raw: string, lookupOnly: bool): Option<string> {
    if raw == "" then None
    else if Unquoted(raw).None? then None
    else if !lookupOnly && !Registrable(Unquoted(raw).value) then None
    else Unquoted(raw)
  }

  function Prefixed(done: string, rest: Option<string>): Option<string> {
    match rest
    case None => None
    case Some(t) => Some(done + t)
  }

  lemma PrefixedTwice(a: string, b: string, rest: Option<string>)
    ensures Prefixed(a, Prefixed(b, rest)) == Prefixed(a + b, rest)
  {
    match rest {
      case None =>
      case Some(t) => assert a + (b + t) == a + b + t;
    }
  }

  // The next character, or doubled quote, between the quotes.
  function UnitLen(inner: string, j: nat): nat
    requires j < |inner|
  {
    if inner[j] == '"' && j + 1 < |inner| && inner[j + 1] == '"' then 2 else 1
  }

  lemma UndoubleStep(inner: string, j: nat, done: string)
    requires j < |inner| && Undouble(inner) == Prefixed(done, Undouble(inner[j..]))
    ensures if inner[j] == '"' && UnitLen(inner, j) == 1 then Undouble(inner).None?
            else j + UnitLen(inner, j) <= |inner|
                 && Undouble(inner) == Prefixed(done + [inner[j]], Undouble(inner[j + UnitLen(inner, j)..]))
  {
    var s, n := inner[j..], UnitLen(inner, j);
    if !(inner[j] == '"' && n == 1) {
      Suffix(inner, j, n);
      assert Undouble(s) == Prefixed([s[0]], Undouble(s[n..]));
      PrefixedTwice(done, [s[0]], Undouble(s[n..]));
    }
  }

  // The loop over what stands between the quotes.
  method Unquote(raw: string) returns (name: Option<string>)
    requires |raw| >= 2 && raw[0] == '"' && raw[|raw| - 1] == '"'
    ensures name == Undouble(raw[1..|raw| - 1])
  {
    ghost var inner := raw[1..|raw| - 1];
    ghost var whole := Undouble(inner);
    var out := "";
    var i := 1;
    assert inner[0..] == inner;
    assert Prefixed("", whole) == whole by {
      if whole.Some? {
        assert "" + whole.value == whole.value;
      }
    }
    while i + 1 < |raw|
      invariant 1 <= i <= |raw| - 1 && whole == Prefixed(out, Undouble(inner[i - 1..]))
    {
      assert inner[i - 1] == raw[i] && (i + 2 < |raw| ==> inner[i] == raw[i + 1]);
      UndoubleStep(inner, i - 1, out);
      if raw[i] == '"' && i + 2 < |raw| && raw[i + 1] == '"' {
        out := out + "\"";
        i := i + 2;
      } else if raw[i] == '"' {
        return None;
      } else {
        out := out + [raw[i]];
        i := i + 1;
      }
    }
    assert inner[i - 1..] == "" && out + "" == out;
    name := Some(out);
  }

  method NormalizeViewName(raw: string, lookupOnly: bool) returns (name: Option<string>)
    ensures name == Normalized(raw, lookupOnly)
  {
    if raw == "" {
      return None;
    }
    var out := raw;
    if raw[0] == '"' {
      if |raw| < 2 || raw[|raw| - 1] != '"' {
        return None;
      }
      var inner := Unquote(raw);
      if inner.None? {
        return None;
      }
      out := inner.value;
    }
    if lookupOnly {
      return Some(out);
    }
    if '.' in out {
      var k :| 0 <= k < |out| && out[k] == '.';
      return None;
    }
    if out == "" || !(Alpha(out[0]) || out[0] == '_') {
      return None;
    }
    for i := 0 to |out|
      invariant forall j :: 0 <= j < i ==> WordChar(out[j])
    {
      if !WordChar(out[i]) {
        return None;
      }
    }
    name := Some(out);
  }

  // ---- the grammar ----

  // A keyword and the padding behind it.
  function Word(s: string, kw: string): Option<string> {
    if KeywordAt(s, kw) then Some(Skip(s[|kw|..])) else None
  }

  function Words(s: string, kws: seq<string>): Option<string> {
    if kws == [] then Some(s)
    else
      match Word(s, kws[0])
      case None => None
      case Some(rest) => Words(rest, kws[1..])
  }

  // A name and the padding behind it.
  function Name(s: string, lookupOnly: bool): Option<(string, string)> {
    match IdentLen(s)
    case None => None
    case Some(n) =>
      match Normalized(s[..n], lookupOnly)
      case None => None
      case Some(name) => Some((name, Skip(s[n..])))
  }

  // The one statement that is left, trimmed; nothing may follow it.
  function Body(s: string): Option<string> {
    Cut(s, EndLen(s))
  }

  function Cut(s: string, end: nat): Option<string>
    requires end <= |s|
  {
    if end < |s| && Skip(s[end + 1..]) != "" then None
    else if Trim(s[..end]) == "" then None
    else Some(Trim(s[..end]))
  }

  predicate AtEnd(s: string) {
    s == "" || (s[0] == ';' && Skip(s[1..]) == "")
  }

  function AsBody(s: string): Option<string> {
    if KeywordAt(s, "AS") then Body(s[2..]) else None
  }

  // Behind CREATE [OR REPLACE] MATERIALIZED VIEW.
  function CreateTail(s: string, orReplace: bool): Match {
    var s1 := if KeywordAt(s, "IF") then Words(s, ["IF", "NOT", "EXISTS"]) else Some(s);
    if s1.None? then Declined
    else
      match Name(s1.value, false)
      case None => Declined
      case Some((name, rest)) =>
        match AsBody(rest)
        case None => Declined
        case Some(body) => Rewritten(Create(name, body, orReplace))
  }

  // Behind the optional CASCADE or RESTRICT.
  function Behavior(s: string): string {
    if KeywordAt(s, "CASCADE") then Word(s, "CASCADE").value
    else if KeywordAt(s, "RESTRICT") then Word(s, "RESTRICT").value
    else s
  }

  // Behind DROP MATERIALIZED VIEW.
  function DropTail(s: string): Match {
    var s1 := if KeywordAt(s, "IF") then Words(s, ["IF", "EXISTS"]) else Some(s);
    if s1.None? then Declined
    else
      match Name(s1.value, true)
      case None => Declined
      case Some((name, rest)) =>
        if AtEnd(Behavior(rest)) then Rewritten(Drop(name, KeywordAt(rest, "CASCADE"), KeywordAt(s, "IF"))) else Declined
  }

  function RefreshTail(s: string): Match {
    match Name(s, true)
    case None => Declined
    case Some((name, rest)) => if AtEnd(rest) then Rewritten(Refresh(name)) else Declined
  }

  function ParseCreate(s: string): Match {
    if KeywordAt(s, "OR") then
      match Words(s, ["OR", "REPLACE", "MATERIALIZED", "VIEW"])
      case None => NotOurs
      case Some(rest) => CreateTail(rest, true)
    else
      match Words(s, ["MATERIALIZED", "VIEW"])
      case None => NotOurs
      case Some(rest) => CreateTail(rest, false)
  }

  function ParseDrop(s: string): Match {
    match Words(s, ["MATERIALIZED", "VIEW"])
    case None => NotOurs
    case Some(rest) => DropTail(rest)
  }

  function ParseRefresh(s: string): Match {
    match Words(s, ["MATERIALIZED", "VIEW"])
    case None => NotOurs
    case Some(rest) => RefreshTail(rest)
  }

  function Parsed(query: string): Match {
    var s := Skip(query);
    if KeywordAt(s, "CREATE") then ParseCreate(Word(s, "CREATE").value)
    else if KeywordAt(s, "DROP") then ParseDrop(Word(s, "DROP").value)
    else if KeywordAt(s, "REFRESH") then ParseRefresh(Word(s, "REFRESH").value)
    else NotOurs
  }

  // ---- the parser ----

  // Past a keyword and its padding; the position stays when it is not there.
  method TakeWord(q: string, pos: nat, kw: string) returns (ok: bool, p: nat)
    requires pos <= |q|
    ensures p <= |q| && (ok <==> KeywordAt(q[pos..], kw))
    ensures if ok then Word(q[pos..], kw) == Some(q[p..]) else p == pos
  {
    ok := KeywordHere(q, pos, kw);
    p := pos;
    if ok {
      Suffix(q, pos, |kw|);
      p := SkipWsComments(q, pos + |kw|);
      Suffix(q, pos + |kw|, p - (pos + |kw|));
    }
  }

  method TakeWords(q: string, pos: nat, kws: seq<string>) returns (ok: bool, p: nat)
    requires pos <= |q|
    ensures p <= |q|
    ensures Words(q[pos..], kws) == if ok then Some(q[p..]) else None
  {
    p := pos;
    for i := 0 to |kws|
      invariant p <= |q|
      invariant Words(q[pos..], kws) == Words(q[p..], kws[i..])
    {
      assert kws[i..][0] == kws[i] && kws[i..][1..] == kws[i + 1..];
      ok, p := TakeWord(q, p, kws[i]);
      if !ok {
        return;
      }
    }
    ok := true;
  }

  lemma Slice(q: string, i: nat, j: nat)
    requires i <= j <= |q|
    ensures q[i..][..j - i] == q[i..j] && q[i..][j - i..] == q[j..]
  {
  }

  method SkipPadding(q: string, pos: nat) returns (p: nat)
    requires pos <= |q|
    ensures pos <= p <= |q| && q[p..] == Skip(q[pos..])
  {
    p := SkipWsComments(q, pos);
    Suffix(q, pos, p - pos);
  }

  method TakeName(q: string, pos: nat, lookupOnly: bool) returns (name: Option<string>, p: nat)
    requires pos <= |q|
    ensures p <= |q|
    ensures Name(q[pos..], lookupOnly) == if name.Some? then Some((name.value, q[p..])) else None
  {
    var end := SkipIdentifier(q, pos);
    if end == pos {
      return None, pos;
    }
    Slice(q, pos, end);
    p := SkipPadding(q, end);
    name := NormalizeViewName(q[pos..end], lookupOnly);
  }

  lemma BodyIs(s: string, n: nat, head: string, tail: string, more: bool, b: string)
    requires n == EndLen(s) && n <= |s| && head == s[..n] && (n < |s| ==> tail == s[n + 1..])
    requires (more <==> n < |s| && Skip(tail) != "") && b == Trim(head)
    ensures Body(s) == if more || b == "" then None else Some(b)
  {
  }

  method MoreFollows(q: string, end: nat) returns (more: bool)
    requires end <= |q|
    ensures more <==> end < |q| && Skip(q[end + 1..]) != ""
  {
    more := false;
    if end < |q| {
      var p := SkipPadding(q, end + 1);
      more := p < |q|;
    }
  }

  method SingleStatement(q: string, start: nat) returns (body: Option<string>)
    requires start <= |q|
    ensures body == Body(q[start..])
  {
    var end := FindStatementEnd(q, start);
    var more := MoreFollows(q, end);
    var b := Trim(q[start..end]);
    ghost var tail := if end < |q| then q[end + 1..] else "";
    Slice(q, start, end);
    if end < |q| {
      Suffix(q, start, end - start + 1);
    }
    BodyIs(q[start..], end - start, q[start..end], tail, more, b);
    body := if more || b == "" then None else Some(b);
  }

  method TakeBody(q: string, pos: nat) returns (body: Option<string>)
    requires pos <= |q|
    ensures body == AsBody(q[pos..])
  {
    var found := KeywordHere(q, pos, "AS");
    if !found {
      return None;
    }
    Suffix(q, pos, 2);
    body := SingleStatement(q, pos + 2);
  }

  method TakeEnd(q: string, pos: nat) returns (ok: bool)
    requires pos <= |q|
    ensures ok <==> AtEnd(q[pos..])
  {
    var p := pos;
    if p < |q| && q[p] == ';' {
      Suffix(q, pos, 1);
      p := SkipWsComments(q, p + 1);
    }
    ok := p == |q|;
  }

  method ParseCreateTail(q: string, pos: nat, orReplace: bool) returns (m: Match)
    requires pos <= |q|
    ensures m == CreateTail(q[pos..], orReplace)
  {
    var p := pos;
    var guard := KeywordHere(q, pos, "IF");
    if guard {
      var ok;
      ok, p := TakeWords(q, pos, ["IF", "NOT", "EXISTS"]);
      if !ok {
        return Declined;
      }
    }
    var name, p' := TakeName(q, p, false);
    if name.None? {
      return Declined;
    }
    var body := TakeBody(q, p');
    m := if body.None? then Declined else Rewritten(Create(name.value, body.value, orReplace));
  }

  method TakeBehavior(q: string, pos: nat) returns (cascade: bool, p: nat)
    requires pos <= |q|
    ensures p <= |q| && q[p..] == Behavior(q[pos..]) && (cascade <==> KeywordAt(q[pos..], "CASCADE"))
  {
    cascade, p := TakeWord(q, pos, "CASCADE");
    if !cascade {
      var restrict;
      restrict, p := TakeWord(q, pos, "RESTRICT");
    }
  }

  method ParseDropTail(q: string, pos: nat) returns (m: Match)
    requires pos <= |q|
    ensures m == DropTail(q[pos..])
  {
    var p := pos;
    var ifExists := KeywordHere(q, pos, "IF");
    if ifExists {
      var ok;
      ok, p := TakeWords(q, pos, ["IF", "EXISTS"]);
      if !ok {
        return Declined;
      }
    }
    var name;
    name, p := TakeName(q, p, true);
    if name.None? {
      return Declined;
    }
    var cascade;
    cascade, p := TakeBehavior(q, p);
    var done := TakeEnd(q, p);
    m := if done then Rewritten(Drop(name.value, cascade, ifExists)) else Declined;
  }

  method ParseMvDdl(query: string) returns (m: Match)
    ensures m == Parsed(query)
  {
    var start := SkipWsComments(query, 0);
    assert query[0..] == query;
    var ours, pos := TakeWord(query, start, "CREATE");
    if ours {
      var orReplace := KeywordHere(query, pos, "OR");
      var ok;
      ok, pos := TakeWords(query, pos, if orReplace then ["OR", "REPLACE", "MATERIALIZED", "VIEW"] else ["MATERIALIZED", "VIEW"]);
      if !ok {
        return NotOurs;
      }
      m := ParseCreateTail(query, pos, orReplace);
      return;
    }
    ours, pos := TakeWord(query, start, "DROP");
    if ours {
      var ok;
      ok, pos := TakeWords(query, pos, ["MATERIALIZED", "VIEW"]);
      if !ok {
        return NotOurs;
      }
      m := ParseDropTail(query, pos);
      return;
    }
    ours, pos := TakeWord(query, start, "REFRESH");
    if !ours {
      return NotOurs;
    }
    var ok;
    ok, pos := TakeWords(query, pos, ["MATERIALIZED", "VIEW"]);
    if !ok {
      return NotOurs;
    }
    var name, p := TakeName(query, pos, true);
    if name.None? {
      return Declined;
    }
    var done := TakeEnd(query, p);
    m := if done then Rewritten(Refresh(name.value)) else Declined;
  }
}

// Printed statements, with any padding and spelling, are read back.
module DdlPrinter {
  import opened Rows
  import opened DdlScanner
  import opened DdlParser

  // ---- padding ----

  // White space and closed comments.
  datatype PadItem = Blank(c: char) | Line(text: string) | Block(text: string)
  type Pad = seq<PadItem>

  predicate ItemOk(x: PadItem) {
    match x
    case Blank(c) => Space(c)
    case Line(text) => Find(text, "\n").None?
    case Block(text) => Find(text + "*", "*/").None?
  }

  function ItemText(x: PadItem): string {
    match x
    case Blank(c) => [c]
    case Line(text) => "--" + text + "\n"
    case Block(text) => "/*" + text + "*/"
  }

  predicate PadOk(p: Pad) {
    forall i :: 0 <= i < |p| ==> ItemOk(p[i])
  }

  function PadText(p: Pad): string {
    if p == [] then "" else ItemText(p[0]) + PadText(p[1..])
  }

  // Skipping stops here.
  predicate Stops(s: string) {
    s == "" || (!Space(s[0]) && !("--" <= s) && !("/*" <= s))
  }

  // The first occurrence is the one that was put there.
  lemma {:induction false} FindFirst(x: string, t: string, y: string)
    requires t != "" && Find(x + t[..|t| - 1], t).None?
    ensures Find(x + t + y, t) == Some(|x|)
    decreases |x|
  {
    var s, u := x + t + y, x + t[..|t| - 1];
    if x == "" {
      assert s[..|t|] == t;
    } else {
      assert s[..|t|] == u[..|t|];
      assert s[1..] == x[1..] + t + y && u[1..] == x[1..] + t[..|t| - 1];
      FindFirst(x[1..], t, y);
    }
  }

  lemma SkipItem(x: PadItem, rest: string)
    requires ItemOk(x)
    ensures SkipLen(ItemText(x) + rest) == |ItemText(x)| + SkipLen(rest)
  {
    var s := ItemText(x) + rest;
    match x {
      case Blank(c) => assert s[1..] == rest;
      case Line(text) => LineSkipped(text, rest);
      case Block(text) => BlockSkipped(text, rest);
    }
  }

  lemma LineSkipped(text: string, rest: string)
    requires Find(text, "\n").None?
    ensures CommentLen("--" + text + "\n" + rest) == |text| + 3
    ensures SkipLen("--" + text + "\n" + rest) == |text| + 3 + SkipLen(rest)
  {
    var s := "--" + text + "\n" + rest;
    assert "--" <= s && s[|text| + 3..] == rest && s[0..] == s;
    assert "--" + text + "\n"[..0] == "--" + text;
    NoNewline(text);
    FindFirst("--" + text, "\n", rest);
  }

  lemma NoNewline(text: string)
    requires Find(text, "\n").None?
    ensures Find("--" + text, "\n").None?
  {
    assert ("--" + text)[1..] == "-" + text && ("-" + text)[1..] == text;
    assert Find("-" + text, "\n").None?;
  }

  lemma BlockSkipped(text: string, rest: string)
    requires Find(text + "*", "*/").None?
    ensures CommentLen("/*" + text + "*/" + rest) == |text| + 4
    ensures SkipLen("/*" + text + "*/" + rest) == |text| + 4 + SkipLen(rest)
  {
    var s := "/*" + text + "*/" + rest;
    assert s[0] == '/' && s[..2] == "/*";
    assert "/*" <= s && !("--" <= s) && s[|text| + 4..] == rest;
    assert s[2..] == text + "*/" + rest && "*/"[..1] == "*";
    FindFirst(text, "*/", rest);
  }

  lemma {:induction false} SkipPad(p: Pad, rest: string)
    requires PadOk(p) && Stops(rest)
    ensures SkipLen(PadText(p) + rest) == |PadText(p)| && Skip(PadText(p) + rest) == rest
  {
    if p == [] {
      assert PadText(p) + rest == rest;
      assert CommentLen(rest) == 0;
    } else {
      SkipPad(p[1..], rest);
      SkipItem(p[0], PadText(p[1..]) + rest);
      assert PadText(p) + rest == ItemText(p[0]) + (PadText(p[1..]) + rest);
    }
  }

  // ---- words ----

  predicate UpperCase(kw: string) {
    kw != "" && forall i :: 0 <= i < |kw| ==> 'A' <= kw[i] <= 'Z'
  }

  // kw with some of its letters small.
  predicate Spells(text: string, kw: string) {
    |text| == |kw| && forall i :: 0 <= i < |kw| ==> text[i] == kw[i] || SmallLetter(text[i], kw[i])
  }

  predicate SmallLetter(c: char, capital: char) {
    'A' <= capital <= 'Z' && c as int - 'a' as int == capital as int - 'A' as int
  }

  lemma SpelledUp(text: string, kw: string)
    requires Spells(text, kw) && UpperCase(kw)
    ensures |text| == |kw| && forall i :: 0 <= i < |kw| ==> Up(text[i]) == kw[i]
  {
  }

  predicate WordEnds(s: string) {
    s == "" || !WordChar(s[0])
  }

  // Padding that keeps two words apart.
  lemma PadSeparates(p: Pad, rest: string)
    requires PadOk(p) && (p != [] || WordEnds(rest))
    ensures WordEnds(PadText(p) + rest)
  {
    if p == [] {
      assert PadText(p) + rest == rest;
    } else {
      assert (PadText(p) + rest)[0] == ItemText(p[0])[0];
    }
  }

  lemma WordBack(text: string, kw: string, p: Pad, rest: string)
    requires Spells(text, kw) && UpperCase(kw) && PadOk(p) && (p != [] || WordEnds(rest)) && Stops(rest)
    ensures KeywordAt(text + (PadText(p) + rest), kw)
    ensures Word(text + (PadText(p) + rest), kw) == Some(rest)
  {
    SpelledUp(text, kw);
    PadSeparates(p, rest);
    SkipPad(p, rest);
    assert (text + (PadText(p) + rest))[|kw|..] == PadText(p) + rest;
  }

  // A different first letter is enough to tell words apart.
  lemma OtherWord(s: string, kw: string)
    requires kw != "" && (s == "" || Up(s[0]) != kw[0])
    ensures !KeywordAt(s, kw)
  {
  }

  // ---- quoted names ----

  function Doubled(s: string, quote: char): (d: string)
    ensures |d| >= |s|
  {
    if s == "" then ""
    else if s[0] == quote then [quote, quote] + Doubled(s[1..], quote)
    else [s[0]] + Doubled(s[1..], quote)
  }

  function Quoted(s: string, quote: char): string {
    [quote] + Doubled(s, quote) + [quote]
  }

  lemma {:induction false} DoubledEnds(s: string, quote: char, rest: string)
    requires rest == "" || rest[0] != quote
    ensures QuoteLen(Doubled(s, quote) + ([quote] + rest), quote) == |Doubled(s, quote)| + 1
  {
    var d := Doubled(s, quote);
    if s == "" {
      assert d + ([quote] + rest) == [quote] + rest;
    } else {
      DoubledEnds(s[1..], quote, rest);
      var tail := Doubled(s[1..], quote) + ([quote] + rest);
      if s[0] == quote {
        assert d + ([quote] + rest) == [quote, quote] + tail;
      } else {
        assert d + ([quote] + rest) == [s[0]] + tail;
      }
    }
  }

  lemma {:induction false} UndoubleDoubled(s: string)
    ensures Undouble(Doubled(s, '"')) == Some(s)
  {
    if s != "" {
      UndoubleDoubled(s[1..]);
      var d := Doubled(s, '"');
      assert s == [s[0]] + s[1..];
      if s[0] == '"' {
        assert d[2..] == Doubled(s[1..], '"');
      } else {
        assert d[1..] == Doubled(s[1..], '"');
      }
    }
  }

  lemma QuotedShape(s: string, quote: char, rest: string)
    ensures var q := Quoted(s, quote);
            && |q| == |Doubled(s, quote)| + 2 && q[0] == quote && q[|q| - 1] == quote
            && q[1..|q| - 1] == Doubled(s, quote)
            && (q + rest)[0] == quote && (q + rest)[1..] == Doubled(s, quote) + ([quote] + rest)
            && (q + rest)[..|q|] == q && (q + rest)[|q|..] == rest
  {
  }

  lemma IdentQuoted(name: string, rest: string)
    requires rest == "" || (rest[0] != '"' && rest[0] != '.')
    ensures IdentLen(Quoted(name, '"') + rest) == Some(|Quoted(name, '"')|)
  {
    QuotedShape(name, '"', rest);
    DoubledEnds(name, '"', rest);
  }

  lemma NormalizedQuoted(name: string, lookupOnly: bool)
    ensures Normalized(Quoted(name, '"'), lookupOnly) == if lookupOnly || Registrable(name) then Some(name) else None
  {
    QuotedShape(name, '"', "");
    UndoubleDoubled(name);
  }

  // ---- names without quotes ----

  predicate NameChars(s: string) {
    forall i :: 0 <= i < |s| ==> WordChar(s[i]) || s[i] == '$'
  }

  // A name that may stand without quotes. `if` would be read as a guard.
  predicate Bare(name: string) {
    name != "" && NameChars(name) && !KeywordAt(name, "IF")
  }

  // Text that does not go on with the name before it.
  predicate NameEnds(s: string) {
    s == "" || !(WordChar(s[0]) || s[0] == '$' || s[0] == '.' || s[0] == '"')
  }

  lemma {:induction false} NameRunIs(name: string, rest: string)
    requires NameChars(name) && NameEnds(rest)
    ensures NameRun(name + rest) == |name|
  {
    if name == "" {
      assert name + rest == rest;
    } else {
      assert (name + rest)[1..] == name[1..] + rest;
      NameRunIs(name[1..], rest);
    }
  }

  lemma IdentBare(name: string, rest: string)
    requires Bare(name) && NameEnds(rest)
    ensures IdentLen(name + rest) == Some(|name|)
  {
    NameRunIs(name, rest);
    assert (name + rest)[0] == name[0];
    assert rest != "" ==> (name + rest)[|name|] == rest[0];
  }

  lemma NameIs(name: string, behind: string, rest: string, lookupOnly: bool)
    requires name != "" && name[0] != '"' && IdentLen(name + behind) == Some(|name|) && Skip(behind) == rest
    ensures Name(name + behind, lookupOnly) == if lookupOnly || Registrable(name) then Some((name, rest)) else None
  {
    assert (name + behind)[..|name|] == name && (name + behind)[|name|..] == behind;
  }

  // It is taken as it is written.
  lemma BareBack(name: string, lookupOnly: bool, p: Pad, rest: string)
    requires Bare(name) && PadOk(p) && Stops(rest) && NameEnds(PadText(p) + rest)
    ensures Name(name + (PadText(p) + rest), lookupOnly)
         == if lookupOnly || Registrable(name) then Some((name, rest)) else None
  {
    IdentBare(name, PadText(p) + rest);
    SkipPad(p, rest);
    NameIs(name, PadText(p) + rest, rest, lookupOnly);
  }

  lemma PadEndsName(p: Pad, rest: string)
    requires PadOk(p) && (rest == "" || (rest[0] != '"' && rest[0] != '.' && rest[0] != '$')) && (p != [] || WordEnds(rest))
    ensures NameEnds(PadText(p) + rest)
  {
    if p == [] {
      assert PadText(p) + rest == rest;
    } else {
      assert (PadText(p) + rest)[0] == ItemText(p[0])[0];
    }
  }

  lemma NameBack(name: string, lookupOnly: bool, p: Pad, rest: string)
    requires PadOk(p) && Stops(rest) && (rest == "" || (rest[0] != '"' && rest[0] != '.'))
    ensures Name(Quoted(name, '"') + (PadText(p) + rest), lookupOnly)
         == if lookupOnly || Registrable(name) then Some((name, rest)) else None
  {
    PadHead(p, rest);
    IdentQuoted(name, PadText(p) + rest);
    NormalizedQuoted(name, lookupOnly);
    QuotedShape(name, '"', PadText(p) + rest);
    SkipPad(p, rest);
  }

  lemma PadHead(p: Pad, rest: string)
    requires PadOk(p) && (rest == "" || (rest[0] != '"' && rest[0] != '.'))
    ensures var s := PadText(p) + rest; s == "" || (s[0] != '"' && s[0] != '.')
  {
    if p == [] {
      assert PadText(p) + rest == rest;
    } else {
      assert (PadText(p) + rest)[0] == ItemText(p[0])[0];
    }
  }

  // ---- the body ----

  predicate AllSpace(s: string) {
    forall i :: 0 <= i < |s| ==> Space(s[i])
  }

  // Neither starts nor ends with white space.
  predicate Trimmed(s: string) {
    s != "" && !Space(s[0]) && !Space(s[|s| - 1])
  }

  lemma {:induction false} TrimLeftBack(ws: string, s: string)
    requires AllSpace(ws) && (s == "" || !Space(s[0]))
    ensures TrimLeft(ws + s) == s
  {
    if ws == "" {
      assert ws + s == s;
    } else {
      assert (ws + s)[1..] == ws[1..] + s;
      TrimLeftBack(ws[1..], s);
    }
  }

  lemma {:induction false} TrimRightBack(s: string, ws: string)
    requires AllSpace(ws) && (s == "" || !Space(s[|s| - 1]))
    ensures TrimRight(s + ws) == s
  {
    if ws == "" {
      assert s + ws == s;
    } else {
      assert (s + ws)[..|s + ws| - 1] == s + ws[..|ws| - 1];
      TrimRightBack(s, ws[..|ws| - 1]);
    }
  }

  lemma TrimBack(before: string, body: string, after: string)
    requires AllSpace(before) && AllSpace(after) && Trimmed(body)
    ensures Trim(before + body + after) == body
  {
    assert before + body + after == before + (body + after);
    TrimLeftBack(before, body + after);
    TrimRightBack(body, after);
  }

  lemma {:induction false} TrimLeftLen(ws: string, s: string)
    requires AllSpace(ws)
    ensures |TrimLeft(ws + s)| <= |s|
  {
    if ws == "" {
      assert ws + s == s;
    } else {
      assert (ws + s)[1..] == ws[1..] + s;
      TrimLeftLen(ws[1..], s);
    }
  }

  lemma {:induction false} TrimRightKeeps(s: string, n: nat)
    requires n < |s| && !Space(s[n])
    ensures |TrimRight(s)| > n
  {
    if Space(s[|s| - 1]) {
      TrimRightKeeps(s[..|s| - 1], n);
    }
  }

  // A unit that ends inside s stays as it is when text follows s, provided s
  // ends with a character that cannot continue a dollar tag.
  lemma {:induction false} FindStays(s: string, t: string, y: string)
    requires t != "" && Find(s, t).Some?
    ensures Find(s + y, t) == Find(s, t)
  {
    if t <= s {
      assert t <= s + y;
    } else {
      assert (s + y)[1..] == s[1..] + y;
      FindStays(s[1..], t, y);
      assert |t| <= |s| && (s + y)[..|t|] == s[..|t|];
    }
  }

  lemma PastStays(s: string, n: nat, t: string, y: string)
    requires n <= |s| && t != "" && Past(s, n, t) < |s|
    ensures Past(s + y, n, t) == Past(s, n, t)
  {
    assert (s + y)[n..] == s[n..] + y;
    FindStays(s[n..], t, y);
  }

  lemma {:induction false} QuoteStays(s: string, quote: char, y: string)
    requires QuoteLen(s, quote) < |s|
    ensures QuoteLen(s + y, quote) == QuoteLen(s, quote)
  {
    if s[0] == quote {
      if |s| > 1 && s[1] == quote {
        assert (s + y)[2..] == s[2..] + y;
        QuoteStays(s[2..], quote, y);
      }
    } else {
      assert (s + y)[1..] == s[1..] + y;
      QuoteStays(s[1..], quote, y);
    }
  }

  lemma {:induction false} WordRunStays(s: string, y: string)
    requires s != "" && !WordChar(s[|s| - 1])
    ensures WordRun(s + y) == WordRun(s) < |s|
  {
    if WordChar(s[0]) {
      assert (s + y)[1..] == s[1..] + y;
      WordRunStays(s[1..], y);
    }
  }

  lemma TagStays(s: string, y: string)
    requires s != "" && s[|s| - 1] == ';'
    ensures DollarTag(s + y) == DollarTag(s)
  {
    if s[0] == '$' {
      assert (s + y)[1..] == s[1..] + y;
      WordRunStays(s[1..], y);
      var n := WordRun(s[1..]);
      if 1 + n < |s| {
        assert (s + y)[1 + n] == s[1 + n];
        assert n + 2 <= |s| ==> (s + y)[..n + 2] == s[..n + 2];
      }
    }
  }

  lemma CommentStays(s: string, y: string)
    requires |s| > 1 && CommentLen(s) < |s|
    ensures CommentLen(s + y) == CommentLen(s)
  {
    assert (s + y)[..2] == s[..2];
    assert "--" <= s + y <==> "--" <= s;
    assert "/*" <= s + y <==> "/*" <= s;
    if "--" <= s {
      PastStays(s, 0, "\n", y);
    } else if "/*" <= s {
      PastStays(s, 2, "*/", y);
    }
  }

  lemma UnitStays(s: string, y: string)
    requires s != "" && s[|s| - 1] == ';' && LexLen(s) < |s|
    ensures LexLen(s + y) == LexLen(s)
  {
    TagStays(s, y);
    var tag := DollarTag(s);
    if tag != "" {
      PastStays(s, |tag|, tag, y);
    } else if s[0] == '\'' || s[0] == '"' {
      assert (s + y)[1..] == s[1..] + y;
      QuoteStays(s[1..], s[0], y);
    } else {
      CommentStays(s, y);
    }
  }

  lemma ChainUnfold(s: string, unit: string -> nat, n: nat, rest: string)
    requires s != "" && s[0] != ';' && n == unit(s) && 0 < n <= |s| && rest == s[n..]
    ensures Chain(s, unit) == n + Chain(rest, unit)
  {
  }

  predicate Closing(s: string) {
    s != "" && s[|s| - 1] == ';'
  }

  // Units inside a text that ends in a terminator do not depend on what
  // follows it, whichever of the two texts they are measured in.
  ghost predicate Stable(unit: string -> nat) {
    && (forall s {:trigger unit(s)} :: unit(s) <= |s| && (s != "" ==> unit(s) > 0))
    && forall s, y {:trigger unit(s + y)} :: Closing(s) && s[0] != ';' ==>
         (unit(s) < |s| || unit(s + y) < |s| ==> unit(s + y) == unit(s))
  }

  // A terminator found at the end of s is found whatever follows it, and one
  // found there in the longer text is found in s.
  lemma {:induction false} TerminatorIff(unit: string -> nat, s: string, y: string)
    requires Stable(unit) && Closing(s)
    ensures Chain(s + y, unit) == |s| - 1 <==> Chain(s, unit) == |s| - 1
    decreases |s|
  {
    if s[0] != ';' {
      var n, m := unit(s), unit(s + y);
      ChainUnfold(s, unit, n, s[n..]);
      ChainUnfold(s + y, unit, m, (s + y)[m..]);
      if n == m && n < |s| {
        assert (s + y)[n..] == s[n..] + y;
        TerminatorIff(unit, s[n..], y);
      }
    }
  }

  // ---- white space at the end of a text starts nothing ----

  lemma {:induction false} SpacesEnd(ws: string)
    requires AllSpace(ws)
    ensures Chain(ws, LexLen) == |ws|
  {
    if ws != "" {
      SpaceUnit(ws);
      SpacesEnd(ws[1..]);
    }
  }

  lemma SpaceUnit(s: string)
    requires s != "" && Space(s[0])
    ensures LexLen(s) == 1
  {
    assert DollarTag(s) == "";
  }

  lemma {:induction false} LeadingSpaces(ws: string, s: string)
    requires AllSpace(ws)
    ensures Chain(ws + s, LexLen) == |ws| + Chain(s, LexLen)
  {
    if ws == "" {
      assert ws + s == s;
    } else {
      SpaceUnit(ws + s);
      assert (ws + s)[1..] == ws[1..] + s;
      LeadingSpaces(ws[1..], s);
    }
  }

  // ---- and what is found in the longer text is found in the shorter one ----

  lemma {:induction false} FindShrinks(s: string, t: string, y: string)
    requires t != "" && Find(s + y, t).Some? && Find(s + y, t).value + |t| <= |s|
    ensures Find(s, t) == Find(s + y, t)
  {
    assert (s + y)[..|t|] == s[..|t|];
    if !(t <= s + y) {
      assert (s + y)[1..] == s[1..] + y;
      FindShrinks(s[1..], t, y);
    }
  }

  lemma PastShrinks(s: string, n: nat, t: string, y: string)
    requires n <= |s| && t != "" && Past(s + y, n, t) < |s|
    ensures Past(s, n, t) == Past(s + y, n, t)
  {
    assert (s + y)[n..] == s[n..] + y;
    FindShrinks(s[n..], t, y);
  }

  lemma {:induction false} QuoteShrinks(s: string, quote: char, y: string)
    requires QuoteLen(s + y, quote) < |s|
    ensures QuoteLen(s, quote) == QuoteLen(s + y, quote)
  {
    if s[0] == quote {
      if |s| > 1 && s[1] == quote {
        assert (s + y)[2..] == s[2..] + y;
        QuoteShrinks(s[2..], quote, y);
      }
    } else {
      assert (s + y)[1..] == s[1..] + y;
      QuoteShrinks(s[1..], quote, y);
    }
  }

  lemma CommentShrinks(s: string, y: string)
    requires |s| > 1 && CommentLen(s + y) < |s|
    ensures CommentLen(s) == CommentLen(s + y)
  {
    assert (s + y)[..2] == s[..2];
    assert "--" <= s + y <==> "--" <= s;
    assert "/*" <= s + y <==> "/*" <= s;
    if "--" <= s {
      PastShrinks(s, 0, "\n", y);
    } else if "/*" <= s {
      PastShrinks(s, 2, "*/", y);
    }
  }

  lemma UnitShrinks(s: string, y: string)
    requires s != "" && s[|s| - 1] == ';' && s[0] != ';' && LexLen(s + y) < |s|
    ensures LexLen(s) == LexLen(s + y)
  {
    TagStays(s, y);
    var tag := DollarTag(s);
    if tag != "" {
      PastShrinks(s, |tag|, tag, y);
    } else if s[0] == '\'' || s[0] == '"' {
      assert (s + y)[1..] == s[1..] + y;
      QuoteShrinks(s[1..], s[0], y);
    } else {
      CommentShrinks(s, y);
    }
  }

  lemma LexLenStable()
    ensures Stable(LexLen)
  {
    forall s: string, y: string {:trigger LexLen(s + y)} | Closing(s) && s[0] != ';'
      ensures LexLen(s) < |s| || LexLen(s + y) < |s| ==> LexLen(s + y) == LexLen(s)
    {
      if LexLen(s) < |s| {
        UnitStays(s, y);
      }
      if LexLen(s + y) < |s| {
        UnitShrinks(s, y);
      }
    }
  }

  // The scan stops early at terminators only.
  lemma {:induction false} StopsAtTerminator(s: string)
    requires Chain(s, LexLen) < |s|
    ensures s[Chain(s, LexLen)] == ';'
    decreases |s|
  {
    if s[0] != ';' {
      var n := LexLen(s);
      StopsAtTerminator(s[n..]);
      assert s[n..][Chain(s[n..], LexLen)] == s[n + Chain(s[n..], LexLen)];
    }
  }

  // ---- when a printed body is read back ----

  // The scan of the text ends at its end, or at the terminator behind it.
  predicate Closed(text: string, semicolon: bool) {
    EndLen(if semicolon then text + ";" else text) == |text|
  }

  function Tail(semicolon: bool, p: Pad): string {
    if semicolon then ";" + PadText(p) else ""
  }

  lemma TerminatorReached(text: string, more: string)
    ensures Chain(text + ";" + more, LexLen) == |text| <==> Chain(text + ";", LexLen) == |text|
  {
    LexLenStable();
    TerminatorIff(LexLen, text + ";", more);
  }

  lemma ClosedReached(text: string, semicolon: bool, p: Pad, rest: string)
    requires rest == text + Tail(semicolon, p)
    ensures Chain(rest, LexLen) == |text| <==> Closed(text, semicolon)
  {
    if semicolon {
      assert rest == text + ";" + PadText(p);
      TerminatorReached(text, PadText(p));
    } else {
      assert rest == text;
    }
  }

  lemma CutIs(s: string, e: nat, u: string, body: string)
    requires e <= |s| && s[..e] == u && Trim(u) == body && body != ""
    requires e < |s| ==> Skip(s[e + 1..]) == ""
    ensures Cut(s, e) == Some(body)
  {
  }

  // Reaching the end of the text gives the body.
  lemma ReachedBody(before: string, body: string, after: string, semicolon: bool, p: Pad, s: string, e: nat)
    requires AllSpace(before) && AllSpace(after) && Trimmed(body) && PadOk(p)
    requires s == before + (body + after + Tail(semicolon, p)) && e == |before| + |body + after|
    ensures e <= |s| && Cut(s, e) == Some(body)
  {
    TrimBack(before, body, after);
    assert s[..e] == before + body + after;
    if semicolon {
      assert s == (before + body + after) + ";" + PadText(p);
      OnlyPadFollows(before + body + after, p, s);
    }
    CutIs(s, e, before + body + after, body);
  }

  lemma OnlyPadFollows(x: string, p: Pad, s: string)
    requires PadOk(p) && s == x + ";" + PadText(p)
    ensures Skip(s[|x| + 1..]) == ""
  {
    assert s[|x| + 1..] == PadText(p) + "";
    SkipPad(p, "");
  }

  // Stopping within the body loses some of it.
  lemma ShortCut(before: string, body: string, x: string, c: nat, s: string, e: nat)
    requires AllSpace(before) && body <= x && c < |body| && s == before + x && e == |before| + c
    ensures e <= |s| && Cut(s, e) != Some(body)
  {
    assert s[..e] == before + x[..c];
    TrimLeftLen(before, x[..c]);
  }

  // Stopping behind the terminator takes it along.
  lemma LongCut(before: string, body: string, n: nat, x: string, c: nat, s: string, e: nat)
    requires AllSpace(before) && Trimmed(body) && body <= x && |body| <= n < c <= |x| && x[n] == ';'
    requires s == before + x && e == |before| + c
    ensures e <= |s| && Cut(s, e) != Some(body)
  {
    var u := x[..c];
    assert s[..e] == before + u && u[n] == ';' && u[0] == body[0];
    TrimLeftBack(before, u);
    TrimRightKeeps(u, n);
  }

  lemma EarlyStop(text: string, rest: string, body: string, after: string, c: nat)
    requires text == body + after && AllSpace(after) && text <= rest && c == Chain(rest, LexLen) < |text|
    ensures c < |body|
  {
    StopsAtTerminator(rest);
    assert rest[c] == text[c];
  }

  // Cutting at c gives the body exactly if c is the end of the text.
  lemma CutDecides(before: string, body: string, after: string, semicolon: bool, p: Pad, x: string, s: string, c: nat, e: nat)
    requires AllSpace(before) && AllSpace(after) && Trimmed(body) && PadOk(p) && x == body + after + Tail(semicolon, p)
    requires s == before + x && e == |before| + c && c <= |x| && (c < |body + after| ==> c < |body|)
    ensures e <= |s| && (Cut(s, e) == Some(body) <==> c == |body + after|)
  {
    if c == |body + after| {
      ReachedBody(before, body, after, semicolon, p, s, e);
    } else if c < |body + after| {
      ShortCut(before, body, x, c, s, e);
    } else {
      LongCut(before, body, |body + after|, x, c, s, e);
    }
  }

  lemma ScanOf(before: string, rest: string, text: string, body: string, after: string)
    requires AllSpace(before) && AllSpace(after) && text == body + after && text <= rest
    ensures var c := Chain(rest, LexLen);
            EndLen(before + rest) == |before| + c && c <= |rest| && (c < |text| ==> c < |body|)
  {
    LeadingSpaces(before, rest);
    if Chain(rest, LexLen) < |text| {
      EarlyStop(text, rest, body, after, Chain(rest, LexLen));
    }
  }

  lemma BodyIff(before: string, body: string, after: string, semicolon: bool, p: Pad, s: string)
    requires AllSpace(before) && AllSpace(after) && Trimmed(body) && PadOk(p)
    requires s == before + (body + after + Tail(semicolon, p))
    ensures Body(s) == Some(body) <==> Closed(body + after, semicolon)
  {
    var rest := body + after + Tail(semicolon, p);
    ScanOf(before, rest, body + after, body, after);
    ClosedReached(body + after, semicolon, p, rest);
    CutDecides(before, body, after, semicolon, p, rest, s, Chain(rest, LexLen), EndLen(s));
  }
}

// Whole statements.
module DdlRoundTrip {
  import opened Rows
  import opened DdlScanner
  import opened DdlParser
  import opened DdlPrinter

  // How a statement is laid out: the letter case of its keywords, the padding
  // in each gap, the optional words, whether the name stands without quotes
  // where it can, the white space around the body, and whether a terminator
  // closes it.
  datatype Layout = Layout(spell: string -> string, gap: nat -> Pad, ifNotExists: bool, restrict: bool, bare: bool,
                           before: string, after: string, semicolon: bool)

  ghost predicate LayoutOk(lay: Layout) {
    && (forall kw {:trigger lay.spell(kw)} :: UpperCase(kw) ==> Spells(lay.spell(kw), kw))
    && (forall i {:trigger lay.gap(i)} :: PadOk(lay.gap(i)))
    && (forall i {:trigger lay.gap(i)} :: 1 <= i <= 7 ==> lay.gap(i) != [])
    && AllSpace(lay.before) && AllSpace(lay.after)
  }

  function Put(lay: Layout, kw: string, i: nat, rest: string): string {
    lay.spell(kw) + (PadText(lay.gap(i)) + rest)
  }

  // Words in a row, with the gaps from i on.
  function PutAll(lay: Layout, kws: seq<string>, i: nat, rest: string): string {
    if kws == [] then rest else Put(lay, kws[0], i, PutAll(lay, kws[1..], i + 1, rest))
  }

  // Quotes may be left out when the name may stand bare and is kept apart from
  // the words around it.
  predicate Unquotes(lay: Layout, name: string, rest: string) {
    lay.bare && Bare(name) && lay.gap(8) != [] && (lay.gap(9) != [] || WordEnds(rest))
  }

  function NamePart(lay: Layout, name: string, rest: string): string {
    (if Unquotes(lay, name, rest) then name else Quoted(name, '"')) + (PadText(lay.gap(9)) + rest)
  }

  function BodyPart(lay: Layout, body: string): string {
    lay.spell("AS") + (lay.before + (body + lay.after + Tail(lay.semicolon, lay.gap(11))))
  }

  function BehaviorPart(lay: Layout, cascade: bool): string {
    var t := Tail(lay.semicolon, lay.gap(11));
    if cascade then Put(lay, "CASCADE", 10, t) else if lay.restrict then Put(lay, "RESTRICT", 10, t) else t
  }

  // What follows VIEW.
  function CreatePart(lay: Layout, name: string, body: string): string {
    Guarded(lay, lay.ifNotExists, ["IF", "NOT", "EXISTS"], 6, NamePart(lay, name, BodyPart(lay, body)))
  }

  function Guarded(lay: Layout, guard: bool, kws: seq<string>, i: nat, q: string): string {
    if guard then PutAll(lay, kws, i, q) else q
  }

  function DropPart(lay: Layout, name: string, cascade: bool, ifExists: bool): string {
    Guarded(lay, ifExists, ["IF", "EXISTS"], 7, NamePart(lay, name, BehaviorPart(lay, cascade)))
  }

  function RefreshPart(lay: Layout, name: string): string {
    NamePart(lay, name, Tail(lay.semicolon, lay.gap(11)))
  }

  function Printed(d: Ddl, lay: Layout): string {
    PadText(lay.gap(0)) +
    match d
    case Create(name, body, orReplace) =>
      var part := CreatePart(lay, name, body);
      Put(lay, "CREATE", 1, CreateRest(lay, orReplace, part))
    case Drop(name, cascade, ifExists) =>
      Put(lay, "DROP", 1, PutAll(lay, ["MATERIALIZED", "VIEW"], 4, DropPart(lay, name, cascade, ifExists)))
    case Refresh(name) =>
      Put(lay, "REFRESH", 1, PutAll(lay, ["MATERIALIZED", "VIEW"], 4, RefreshPart(lay, name)))
  }

  // ---- words of a layout ----

  // No character of its own kind goes on with a name that padding separates.
  predicate NamesEnd(s: string) {
    s == "" || (s[0] != '"' && s[0] != '.' && s[0] != '$')
  }

  predicate Opens(s: string, c: char) {
    s != "" && Up(s[0]) == c && Stops(s) && NamesEnd(s)
  }

  lemma Letter(c: char, u: char)
    requires Up(c) == u && 'A' <= u <= 'Z'
    ensures Alpha(c) && !Space(c)
  {
  }

  lemma PutHead(lay: Layout, kw: string, i: nat, rest: string)
    requires LayoutOk(lay) && UpperCase(kw)
    ensures Opens(Put(lay, kw, i, rest), kw[0])
  {
    SpelledUp(lay.spell(kw), kw);
    assert Put(lay, kw, i, rest)[0] == lay.spell(kw)[0];
    Letter(lay.spell(kw)[0], kw[0]);
  }

  lemma PutBack(lay: Layout, kw: string, i: nat, rest: string)
    requires LayoutOk(lay) && UpperCase(kw) && Stops(rest) && (lay.gap(i) != [] || WordEnds(rest))
    ensures KeywordAt(Put(lay, kw, i, rest), kw) && Word(Put(lay, kw, i, rest), kw) == Some(rest)
  {
    assert Spells(lay.spell(kw), kw) && PadOk(lay.gap(i));
    WordBack(lay.spell(kw), kw, lay.gap(i), rest);
  }

  predicate AllUpper(kws: seq<string>) {
    forall j :: 0 <= j < |kws| ==> UpperCase(kws[j])
  }

  // s reads as the words, and then what is left.
  predicate Reads(s: string, kws: seq<string>, rest: string)
    requires AllUpper(kws) && kws != []
  {
    Opens(s, kws[0][0]) && Words(s, kws) == Some(rest)
  }

  lemma {:induction false} WordsBack(lay: Layout, kws: seq<string>, i: nat, last: nat, rest: string, s: string)
    requires LayoutOk(lay) && AllUpper(kws) && kws != [] && Stops(rest) && s == PutAll(lay, kws, i, rest)
    requires 1 <= i && i + |kws| == last + 1 <= 9 && (lay.gap(last) != [] || WordEnds(rest))
    ensures Reads(s, kws, rest)
    decreases |kws|
  {
    if |kws| == 1 {
      LastWord(lay, kws, i, rest, s);
    } else {
      var tail := kws[1..];
      TailUpper(kws, tail);
      var more := PutAll(lay, tail, i + 1, rest);
      WordsBack(lay, tail, i + 1, last, rest, more);
      OneMoreWord(lay, kws, i, tail, more, rest, s);
    }
  }

  lemma FirstIsThere(s: string, kws: seq<string>)
    requires kws != [] && Words(s, kws).Some?
    ensures KeywordAt(s, kws[0])
  {
  }

  lemma TailUpper(kws: seq<string>, tail: seq<string>)
    requires AllUpper(kws) && |kws| > 1 && tail == kws[1..]
    ensures AllUpper(tail) && |tail| == |kws| - 1
  {
  }

  lemma LastWord(lay: Layout, kws: seq<string>, i: nat, rest: string, s: string)
    requires LayoutOk(lay) && AllUpper(kws) && |kws| == 1 && Stops(rest) && s == PutAll(lay, kws, i, rest)
    requires lay.gap(i) != [] || WordEnds(rest)
    ensures Reads(s, kws, rest)
  {
    NoMoreWords(lay, kws[1..], i + 1, rest);
    WordsCons(lay, kws, i, rest, rest, s);
  }

  lemma OneMoreWord(lay: Layout, kws: seq<string>, i: nat, tail: seq<string>, more: string, rest: string, s: string)
    requires LayoutOk(lay) && AllUpper(kws) && |kws| > 1 && 1 <= i <= 7 && tail == kws[1..] && AllUpper(tail)
    requires s == PutAll(lay, kws, i, rest) && more == PutAll(lay, tail, i + 1, rest) && Reads(more, tail, rest)
    ensures Reads(s, kws, rest)
  {
    WordsCons(lay, kws, i, more, rest, s);
  }

  lemma NoMoreWords(lay: Layout, kws: seq<string>, i: nat, rest: string)
    requires kws == []
    ensures PutAll(lay, kws, i, rest) == rest && Words(rest, kws) == Some(rest)
  {
  }

  lemma WordsCons(lay: Layout, kws: seq<string>, i: nat, more: string, rest: string, s: string)
    requires LayoutOk(lay) && kws != [] && UpperCase(kws[0]) && s == Put(lay, kws[0], i, more)
    requires Stops(more) && (lay.gap(i) != [] || WordEnds(more)) && Words(more, kws[1..]) == Some(rest)
    ensures Opens(s, kws[0][0]) && KeywordAt(s, kws[0]) && Words(s, kws) == Some(rest)
  {
    PutHead(lay, kws[0], i, more);
    PutBack(lay, kws[0], i, more);
    WordsNext(s, kws, more);
  }

  lemma WordsNext(s: string, kws: seq<string>, more: string)
    requires kws != [] && Word(s, kws[0]) == Some(more)
    ensures Words(s, kws) == Words(more, kws[1..])
  {
  }

  // ---- the parts ----

  lemma TailHead(lay: Layout, t: string)
    requires LayoutOk(lay) && t == Tail(lay.semicolon, lay.gap(11))
    ensures Stops(t) && WordEnds(t) && (t == "" || t[0] == ';')
  {
  }

  lemma TailEnds(lay: Layout, t: string)
    requires LayoutOk(lay) && t == Tail(lay.semicolon, lay.gap(11))
    ensures AtEnd(t)
  {
    if lay.semicolon {
      assert t[1..] == PadText(lay.gap(11)) + "";
      SkipPad(lay.gap(11), "");
    }
  }

  lemma GuardedBack(lay: Layout, guard: bool, kws: seq<string>, i: nat, q: string, s: string)
    requires LayoutOk(lay) && AllUpper(kws) && kws != [] && kws[0] == "IF" && 1 <= i && i + |kws| == 9
    requires Stops(q) && (lay.gap(8) != [] || WordEnds(q)) && !KeywordAt(q, "IF")
    requires s == Guarded(lay, guard, kws, i, q)
    ensures Stops(s) && (KeywordAt(s, "IF") <==> guard)
    ensures if guard then Words(s, kws) == Some(q) else s == q
  {
    if guard {
      WordsBack(lay, kws, i, 8, q, s);
      FirstIsThere(s, kws);
    }
  }

  lemma NameHead(lay: Layout, name: string, rest: string)
    requires LayoutOk(lay) && NamesEnd(rest)
    ensures var s := NamePart(lay, name, rest); Stops(s) && (lay.gap(8) != [] || WordEnds(s)) && !KeywordAt(s, "IF")
  {
    var s := NamePart(lay, name, rest);
    if Unquotes(lay, name, rest) {
      assert PadOk(lay.gap(9));
      PadEndsName(lay.gap(9), rest);
      BareHead(name, PadText(lay.gap(9)) + rest);
    } else {
      assert s[0] == '"';
      OtherWord(s, "IF");
    }
  }

  lemma BareHead(name: string, rest: string)
    requires Bare(name) && NameEnds(rest)
    ensures Stops(name + rest) && !KeywordAt(name + rest, "IF")
  {
    var s := name + rest;
    assert s[0] == name[0];
    assert |name| > 1 ==> s[1] == name[1];
    assert |name| > 2 ==> s[2] == name[2];
    assert |name| == 1 && rest != "" ==> s[1] == rest[0];
  }

  lemma NamePartBack(lay: Layout, name: string, rest: string, lookupOnly: bool)
    requires LayoutOk(lay) && Stops(rest) && NamesEnd(rest)
    ensures Name(NamePart(lay, name, rest), lookupOnly) == if lookupOnly || Registrable(name) then Some((name, rest)) else None
  {
    assert PadOk(lay.gap(9));
    if Unquotes(lay, name, rest) {
      PadEndsName(lay.gap(9), rest);
      BareBack(name, lookupOnly, lay.gap(9), rest);
    } else {
      NameBack(name, lookupOnly, lay.gap(9), rest);
    }
  }

  lemma FirstWord(lay: Layout, kw: string, rest: string, s: string, q: string)
    requires LayoutOk(lay) && UpperCase(kw) && Stops(rest) && s == Put(lay, kw, 1, rest) && q == PadText(lay.gap(0)) + s
    ensures Skip(q) == s && KeywordAt(s, kw) && Word(s, kw) == Some(rest) && Opens(s, kw[0])
  {
    assert PadOk(lay.gap(0));
    PutHead(lay, kw, 1, rest);
    PutBack(lay, kw, 1, rest);
    SkipPad(lay.gap(0), s);
  }

  // ---- REFRESH and DROP: any name ----

  lemma RefreshTailBack(name: string, lay: Layout)
    requires LayoutOk(lay)
    ensures Stops(RefreshPart(lay, name)) && RefreshTail(RefreshPart(lay, name)) == Rewritten(Refresh(name))
  {
    var t := Tail(lay.semicolon, lay.gap(11));
    TailHead(lay, t);
    TailEnds(lay, t);
    NameHead(lay, name, t);
    NamePartBack(lay, name, t, true);
  }

  lemma ViewWords(lay: Layout, part: string)
    requires LayoutOk(lay) && Stops(part)
    ensures var s := PutAll(lay, ["MATERIALIZED", "VIEW"], 4, part);
            Opens(s, 'M') && Words(s, ["MATERIALIZED", "VIEW"]) == Some(part)
  {
    WordsBack(lay, ["MATERIALIZED", "VIEW"], 4, 5, part, PutAll(lay, ["MATERIALIZED", "VIEW"], 4, part));
  }

  lemma RefreshRestBack(name: string, lay: Layout, rest: string)
    requires LayoutOk(lay) && rest == PutAll(lay, ["MATERIALIZED", "VIEW"], 4, RefreshPart(lay, name))
    ensures Stops(rest) && ParseRefresh(rest) == Rewritten(Refresh(name))
  {
    RefreshTailBack(name, lay);
    ViewWords(lay, RefreshPart(lay, name));
  }

  lemma RefreshFrom(q: string, s: string, rest: string)
    requires Skip(q) == s && KeywordAt(s, "REFRESH") && Word(s, "REFRESH") == Some(rest) && Opens(s, 'R')
    ensures Parsed(q) == ParseRefresh(rest)
  {
    OtherWord(s, "CREATE");
    OtherWord(s, "DROP");
  }

  lemma RefreshWhole(lay: Layout, rest: string, s: string, q: string)
    requires LayoutOk(lay) && Stops(rest) && s == Put(lay, "REFRESH", 1, rest) && q == PadText(lay.gap(0)) + s
    ensures Parsed(q) == ParseRefresh(rest)
  {
    FirstWord(lay, "REFRESH", rest, s, q);
    RefreshFrom(q, s, rest);
  }

  lemma RefreshRoundTrip(name: string, lay: Layout)
    requires LayoutOk(lay)
    ensures Parsed(Printed(Refresh(name), lay)) == Rewritten(Refresh(name))
  {
    var rest := PutAll(lay, ["MATERIALIZED", "VIEW"], 4, RefreshPart(lay, name));
    RefreshRestBack(name, lay, rest);
    RefreshWhole(lay, rest, Put(lay, "REFRESH", 1, rest), Printed(Refresh(name), lay));
  }

  lemma BehaviorBack(lay: Layout, cascade: bool)
    requires LayoutOk(lay)
    ensures var s := BehaviorPart(lay, cascade);
            var t := Tail(lay.semicolon, lay.gap(11));
            && Stops(s) && NamesEnd(s)
            && (KeywordAt(s, "CASCADE") <==> cascade) && Behavior(s) == t
  {
    var t := Tail(lay.semicolon, lay.gap(11));
    TailHead(lay, t);
    if cascade {
      PutHead(lay, "CASCADE", 10, t);
      PutBack(lay, "CASCADE", 10, t);
    } else if lay.restrict {
      PutHead(lay, "RESTRICT", 10, t);
      PutBack(lay, "RESTRICT", 10, t);
      OtherWord(Put(lay, "RESTRICT", 10, t), "CASCADE");
    } else {
      OtherWord(t, "CASCADE");
      OtherWord(t, "RESTRICT");
    }
  }

  // The optional guard and then the name.
  lemma DropGuard(lay: Layout, name: string, cascade: bool, ifExists: bool)
    requires LayoutOk(lay)
    ensures var q := NamePart(lay, name, BehaviorPart(lay, cascade));
            var s := DropPart(lay, name, cascade, ifExists);
            && Stops(s) && (KeywordAt(s, "IF") <==> ifExists)
            && (if ifExists then Words(s, ["IF", "EXISTS"]) == Some(q) else s == q)
  {
    var q := NamePart(lay, name, BehaviorPart(lay, cascade));
    NameHead(lay, name, BehaviorPart(lay, cascade));
    GuardedBack(lay, ifExists, ["IF", "EXISTS"], 7, q, DropPart(lay, name, cascade, ifExists));
  }

  lemma DropTailFrom(s: string, guarded: bool, q: string, name: string, rest: string, cascade: bool)
    requires KeywordAt(s, "IF") <==> guarded
    requires if guarded then Words(s, ["IF", "EXISTS"]) == Some(q) else s == q
    requires Name(q, true) == Some((name, rest)) && AtEnd(Behavior(rest))
    requires KeywordAt(rest, "CASCADE") <==> cascade
    ensures DropTail(s) == Rewritten(Drop(name, cascade, guarded))
  {
  }

  lemma DropTailBack(lay: Layout, name: string, cascade: bool, ifExists: bool)
    requires LayoutOk(lay)
    ensures var s := DropPart(lay, name, cascade, ifExists);
            Stops(s) && DropTail(s) == Rewritten(Drop(name, cascade, ifExists))
  {
    var b, t := BehaviorPart(lay, cascade), Tail(lay.semicolon, lay.gap(11));
    BehaviorBack(lay, cascade);
    TailEnds(lay, t);
    DropGuard(lay, name, cascade, ifExists);
    NamePartBack(lay, name, b, true);
    DropTailFrom(DropPart(lay, name, cascade, ifExists), ifExists, NamePart(lay, name, b), name, b, cascade);
  }

  lemma DropRestBack(name: string, cascade: bool, ifExists: bool, lay: Layout, rest: string)
    requires LayoutOk(lay) && rest == PutAll(lay, ["MATERIALIZED", "VIEW"], 4, DropPart(lay, name, cascade, ifExists))
    ensures Stops(rest) && ParseDrop(rest) == Rewritten(Drop(name, cascade, ifExists))
  {
    DropTailBack(lay, name, cascade, ifExists);
    ViewWords(lay, DropPart(lay, name, cascade, ifExists));
  }

  lemma DropFrom(q: string, s: string, rest: string)
    requires Skip(q) == s && KeywordAt(s, "DROP") && Word(s, "DROP") == Some(rest) && Opens(s, 'D')
    ensures Parsed(q) == ParseDrop(rest)
  {
    OtherWord(s, "CREATE");
  }

  lemma DropWhole(lay: Layout, rest: string, s: string, q: string)
    requires LayoutOk(lay) && Stops(rest) && s == Put(lay, "DROP", 1, rest) && q == PadText(lay.gap(0)) + s
    ensures Parsed(q) == ParseDrop(rest)
  {
    FirstWord(lay, "DROP", rest, s, q);
    DropFrom(q, s, rest);
  }

  lemma DropRoundTrip(name: string, cascade: bool, ifExists: bool, lay: Layout)
    requires LayoutOk(lay)
    ensures Parsed(Printed(Drop(name, cascade, ifExists), lay)) == Rewritten(Drop(name, cascade, ifExists))
  {
    var q := Printed(Drop(name, cascade, ifExists), lay);
    var rest := PutAll(lay, ["MATERIALIZED", "VIEW"], 4, DropPart(lay, name, cascade, ifExists));
    DropRestBack(name, cascade, ifExists, lay, rest);
    DropWhole(lay, rest, Put(lay, "DROP", 1, rest), q);
  }

  // ---- CREATE ----

  lemma BodyPartBack(lay: Layout, body: string)
    requires LayoutOk(lay) && Trimmed(body) && (lay.before != "" || WordEnds(body))
    ensures var s := BodyPart(lay, body);
            Opens(s, 'A') && (AsBody(s) == Some(body) <==> Closed(body + lay.after, lay.semicolon))
  {
    var x := lay.before + (body + lay.after + Tail(lay.semicolon, lay.gap(11)));
    var s := BodyPart(lay, body);
    SpelledUp(lay.spell("AS"), "AS");
    assert s[0] == lay.spell("AS")[0] && s[2..] == x;
    Letter(s[0], 'A');
    assert WordEnds(x) by {
      assert x[0] == if lay.before != "" then lay.before[0] else body[0];
    }
    assert PadOk(lay.gap(11));
    BodyIff(lay.before, body, lay.after, lay.semicolon, lay.gap(11), x);
  }

  lemma CreateGuard(lay: Layout, name: string, body: string)
    requires LayoutOk(lay)
    ensures var q := NamePart(lay, name, BodyPart(lay, body));
            var s := CreatePart(lay, name, body);
            && Stops(s) && (KeywordAt(s, "IF") <==> lay.ifNotExists)
            && (if lay.ifNotExists then Words(s, ["IF", "NOT", "EXISTS"]) == Some(q) else s == q)
  {
    var q := NamePart(lay, name, BodyPart(lay, body));
    NameHead(lay, name, BodyPart(lay, body));
    GuardedBack(lay, lay.ifNotExists, ["IF", "NOT", "EXISTS"], 6, q, CreatePart(lay, name, body));
  }

  lemma CreateTailFrom(s: string, guarded: bool, q: string, name: string, b: string, body: string, orReplace: bool)
    requires KeywordAt(s, "IF") <==> guarded
    requires if guarded then Words(s, ["IF", "NOT", "EXISTS"]) == Some(q) else s == q
    requires Name(q, false) == if Registrable(name) then Some((name, b)) else None
    ensures CreateTail(s, orReplace) == Rewritten(Create(name, body, orReplace)) <==> Registrable(name) && AsBody(b) == Some(body)
  {
  }

  lemma CreateTailBack(lay: Layout, name: string, body: string, orReplace: bool)
    requires LayoutOk(lay) && Trimmed(body) && (lay.before != "" || WordEnds(body))
    ensures var s := CreatePart(lay, name, body);
            && Stops(s)
            && (CreateTail(s, orReplace) == Rewritten(Create(name, body, orReplace))
                <==> Registrable(name) && Closed(body + lay.after, lay.semicolon))
  {
    var b := BodyPart(lay, body);
    BodyPartBack(lay, body);
    CreateGuard(lay, name, body);
    NamePartBack(lay, name, b, false);
    CreateTailFrom(CreatePart(lay, name, body), lay.ifNotExists, NamePart(lay, name, b), name, b, body, orReplace);
  }

  function CreateWords(orReplace: bool): seq<string> {
    if orReplace then ["OR", "REPLACE", "MATERIALIZED", "VIEW"] else ["MATERIALIZED", "VIEW"]
  }

  lemma CreateRestFrom(rest: string, orReplace: bool, part: string)
    requires Opens(rest, if orReplace then 'O' else 'M') && (orReplace ==> KeywordAt(rest, "OR"))
    requires Words(rest, CreateWords(orReplace)) == Some(part)
    ensures ParseCreate(rest) == CreateTail(part, orReplace)
  {
    if !orReplace {
      OtherWord(rest, "OR");
    }
  }

  function CreateRest(lay: Layout, orReplace: bool, part: string): string {
    PutAll(lay, CreateWords(orReplace), if orReplace then 2 else 4, part)
  }

  lemma CreateRestWords(lay: Layout, orReplace: bool, part: string)
    requires LayoutOk(lay) && Stops(part)
    ensures var rest := CreateRest(lay, orReplace, part);
            && Opens(rest, if orReplace then 'O' else 'M') && (orReplace ==> KeywordAt(rest, "OR"))
            && Words(rest, CreateWords(orReplace)) == Some(part)
  {
    WordsBack(lay, CreateWords(orReplace), if orReplace then 2 else 4, 5, part, CreateRest(lay, orReplace, part));
    FirstIsThere(CreateRest(lay, orReplace, part), CreateWords(orReplace));
  }

  lemma CreateRestBack(name: string, body: string, orReplace: bool, lay: Layout, part: string, rest: string)
    requires LayoutOk(lay) && Trimmed(body) && (lay.before != "" || WordEnds(body))
    requires part == CreatePart(lay, name, body) && rest == CreateRest(lay, orReplace, part)
    ensures Stops(rest)
    ensures ParseCreate(rest) == Rewritten(Create(name, body, orReplace))
            <==> Registrable(name) && Closed(body + lay.after, lay.semicolon)
  {
    CreateTailBack(lay, name, body, orReplace);
    CreateRestWords(lay, orReplace, part);
    CreateRestFrom(rest, orReplace, part);
  }

  lemma CreateFrom(q: string, s: string, rest: string)
    requires Skip(q) == s && KeywordAt(s, "CREATE") && Word(s, "CREATE") == Some(rest)
    ensures Parsed(q) == ParseCreate(rest)
  {
  }

  lemma CreateWhole(lay: Layout, rest: string, s: string, q: string)
    requires LayoutOk(lay) && Stops(rest) && s == Put(lay, "CREATE", 1, rest) && q == PadText(lay.gap(0)) + s
    ensures Parsed(q) == ParseCreate(rest)
  {
    FirstWord(lay, "CREATE", rest, s, q);
    CreateFrom(q, s, rest);
  }

  // Under any layout, exactly the statements with a registrable name and a
  // body whose scan reaches its end are read back.
  lemma CreateRoundTripIff(name: string, body: string, orReplace: bool, lay: Layout)
    requires LayoutOk(lay) && Trimmed(body) && (lay.before != "" || WordEnds(body))
    ensures Parsed(Printed(Create(name, body, orReplace), lay)) == Rewritten(Create(name, body, orReplace))
            <==> Registrable(name) && Closed(body + lay.after, lay.semicolon)
  {
    var part := CreatePart(lay, name, body);
    var rest := CreateRest(lay, orReplace, part);
    var q := Printed(Create(name, body, orReplace), lay);
    CreateRestBack(name, body, orReplace, lay, part, rest);
    CreateWhole(lay, rest, Put(lay, "CREATE", 1, rest), q);
  }
}

// The call a statement is rewritten to, and what the scanner makes of it.
module DdlCall {
  import opened Rows
  import opened DdlScanner
  import opened DdlParser
  import opened DdlPrinter
  import opened DdlRoundTrip

  method SqlLiteral(s: string) returns (lit: string)
    ensures lit == Quoted(s, '\'')
  {
    lit := "'";
    assert Doubled(s[..0], '\'') == "";
    for i := 0 to |s|
      invariant lit == "'" + Doubled(s[..i], '\'')
    {
      DoubledPush(s[..i], s[i], '\'');
      assert s[..i + 1] == s[..i] + [s[i]];
      lit := lit + [s[i]];
      if s[i] == '\'' {
        lit := lit + [s[i]];
      }
    }
    assert s[..|s|] == s;
    lit := lit + "'";
  }

  lemma {:induction false} DoubledPush(s: string, c: char, quote: char)
    ensures Doubled(s + [c], quote) == Doubled(s, quote) + if c == quote then [c, c] else [c]
  {
    if s == "" {
      assert s + [c] == [c] && [c][1..] == "";
    } else {
      assert (s + [c])[1..] == s[1..] + [c];
      DoubledPush(s[1..], c, quote);
    }
  }

  function Verb(d: Ddl): string {
    match d
    case Create(_, _, _) => "create"
    case Drop(_, _, _) => "drop"
    case Refresh(_) => "refresh"
  }

  function Flag(b: bool): string {
    if b then "true" else "false"
  }

  function Arguments(d: Ddl): string {
    match d
    case Create(name, body, orReplace) =>
      Quoted(name, '\'') + (", " + (Quoted(body, '\'') + (", " + (Flag(orReplace) + ")"))))
    case Drop(name, cascade, ifExists) =>
      Quoted(name, '\'') + (", " + (Flag(cascade) + (", " + (Flag(ifExists) + ")"))))
    case Refresh(name) => Quoted(name, '\'') + ")"
  }

  const FROM_DBSP := "SELECT * FROM dbsp_"
  const VIEW_CALL := "_materialized_view("

  function Call(d: Ddl): string {
    FROM_DBSP + (Verb(d) + (VIEW_CALL + Arguments(d)))
  }

  // ---- one statement ----

  // Characters no unit other than themselves starts with.
  predicate Plain(c: char) {
    c != ';' && c != '$' && c != '\'' && c != '"' && c != '-' && c != '/'
  }

  predicate AllPlain(s: string) {
    forall i :: 0 <= i < |s| ==> Plain(s[i])
  }

  lemma PlainUnit(s: string)
    requires s != "" && Plain(s[0])
    ensures LexLen(s) == 1
  {
    assert DollarTag(s) == "" && CommentLen(s) == 0;
  }

  lemma {:induction false} PlainPrefix(x: string, s: string)
    requires AllPlain(x)
    ensures Chain(x + s, LexLen) == |x| + Chain(s, LexLen)
  {
    if x == "" {
      assert x + s == s;
    } else {
      PlainUnit(x + s);
      assert (x + s)[1..] == x[1..] + s;
      ChainUnfold(x + s, LexLen, 1, x[1..] + s);
      PlainPrefix(x[1..], s);
    }
  }

  lemma LiteralUnit(v: string, rest: string, s: string)
    requires s == Quoted(v, '\'') + rest && (rest == "" || rest[0] != '\'')
    ensures Chain(s, LexLen) == |Quoted(v, '\'')| + Chain(rest, LexLen)
  {
    QuotedShape(v, '\'', rest);
    DoubledEnds(v, '\'', rest);
    assert DollarTag(s) == "";
    ChainUnfold(s, LexLen, |Quoted(v, '\'')|, rest);
  }

  lemma PlainEnd(x: string)
    requires AllPlain(x)
    ensures Chain(x, LexLen) == |x|
  {
    PlainPrefix(x, "");
    assert x + "" == x;
  }

  lemma FlagPlain(b: bool)
    ensures AllPlain(Flag(b)) && AllPlain(Flag(b) + ")") && AllPlain(", ") && AllPlain(")")
  {
  }

  lemma CallWordsPlain(d: Ddl)
    ensures AllPlain(FROM_DBSP) && AllPlain(Verb(d)) && AllPlain(VIEW_CALL)
  {
    assert FROM_DBSP == "SELECT * " + "FROM dbsp_" && VIEW_CALL == "_material" + "ized_view(";
    assert AllPlain("SELECT * ") && AllPlain("FROM dbsp_");
    assert AllPlain("_material") && AllPlain("ized_view(");
  }

  lemma FlagsEnd(a: bool, b: bool, s: string)
    requires s == ", " + (Flag(a) + (", " + (Flag(b) + ")")))
    ensures Chain(s, LexLen) == |s|
  {
    FlagPlain(a);
    FlagPlain(b);
    PlainEnd(Flag(b) + ")");
    PlainPrefix(", ", Flag(b) + ")");
    PlainPrefix(Flag(a), ", " + (Flag(b) + ")"));
    PlainPrefix(", ", Flag(a) + (", " + (Flag(b) + ")")));
  }

  lemma FlagEnd(b: bool, s: string)
    requires s == ", " + (Flag(b) + ")")
    ensures Chain(s, LexLen) == |s|
  {
    FlagPlain(b);
    PlainEnd(Flag(b) + ")");
    PlainPrefix(", ", Flag(b) + ")");
  }

  lemma ArgumentsEnd(d: Ddl)
    ensures Chain(Arguments(d), LexLen) == |Arguments(d)|
  {
    match d {
      case Create(name, body, orReplace) =>
        var flag := ", " + (Flag(orReplace) + ")");
        FlagEnd(orReplace, flag);
        LiteralUnit(body, flag, Quoted(body, '\'') + flag);
        FlagPlain(orReplace);
        PlainPrefix(", ", Quoted(body, '\'') + flag);
        LiteralUnit(name, ", " + (Quoted(body, '\'') + flag), Arguments(d));
      case Drop(name, cascade, ifExists) =>
        var flags := ", " + (Flag(cascade) + (", " + (Flag(ifExists) + ")")));
        FlagsEnd(cascade, ifExists, flags);
        LiteralUnit(name, flags, Arguments(d));
      case Refresh(name) =>
        FlagPlain(true);
        PlainEnd(")");
        LiteralUnit(name, ")", Arguments(d));
    }
  }

  // Whatever the name and the body hold, the call has no terminator at top
  // level.
  lemma CallIsOneStatement(d: Ddl)
    ensures EndLen(Call(d)) == |Call(d)|
  {
    CallWordsPlain(d);
    ArgumentsEnd(d);
    PlainPrefix(VIEW_CALL, Arguments(d));
    PlainPrefix(Verb(d), VIEW_CALL + Arguments(d));
    PlainPrefix(FROM_DBSP, Verb(d) + (VIEW_CALL + Arguments(d)));
  }

  // ---- the call says which statement it came from ----

  lemma {:induction false} DoubledInjective(a: string, b: string, quote: char)
    requires Doubled(a, quote) == Doubled(b, quote)
    ensures a == b
  {
    if a != "" && b != "" {
      var da, db := Doubled(a, quote), Doubled(b, quote);
      assert da[0] == a[0] && db[0] == b[0];
      if a[0] == quote {
        assert da[2..] == Doubled(a[1..], quote) && db[2..] == Doubled(b[1..], quote);
      } else {
        assert da[1..] == Doubled(a[1..], quote) && db[1..] == Doubled(b[1..], quote);
      }
      DoubledInjective(a[1..], b[1..], quote);
      assert a == [a[0]] + a[1..] && b == [b[0]] + b[1..];
    }
  }

  lemma LiteralInjective(a: string, b: string, restA: string, restB: string, s: string)
    requires s == Quoted(a, '\'') + restA == Quoted(b, '\'') + restB
    requires (restA == "" || restA[0] != '\'') && (restB == "" || restB[0] != '\'')
    ensures a == b && restA == restB
  {
    QuotedShape(a, '\'', restA);
    QuotedShape(b, '\'', restB);
    DoubledEnds(a, '\'', restA);
    DoubledEnds(b, '\'', restB);
    var n := |Quoted(a, '\'')|;
    assert s[..n] == Quoted(a, '\'') && s[..n] == Quoted(b, '\'');
    DoubledInjective(a, b, '\'');
  }

  lemma Strip(x: string, s: string, t: string)
    requires x + s == x + t
    ensures s == t
  {
    assert (x + s)[|x|..] == s && (x + t)[|x|..] == t;
  }

  lemma VerbsDiffer(a: Ddl, b: Ddl)
    requires Call(a) == Call(b)
    ensures a.Create? == b.Create? && a.Drop? == b.Drop? && Arguments(a) == Arguments(b)
  {
    var x, y := VIEW_CALL + Arguments(a), VIEW_CALL + Arguments(b);
    Strip(FROM_DBSP, Verb(a) + x, Verb(b) + y);
    assert (Verb(a) + x)[0] == Verb(a)[0] && (Verb(b) + y)[0] == Verb(b)[0];
    Strip(Verb(a), x, y);
    Strip(VIEW_CALL, Arguments(a), Arguments(b));
  }

  lemma FlagsInjective(a: bool, b: bool, x: string, y: string)
    requires Flag(a) + x == Flag(b) + y
    ensures a == b && x == y
  {
    assert (Flag(a) + x)[0] == Flag(a)[0] && (Flag(b) + y)[0] == Flag(b)[0];
    Strip(Flag(a), x, y);
  }

  lemma CallInjective(a: Ddl, b: Ddl)
    requires Call(a) == Call(b)
    ensures a == b
  {
    VerbsDiffer(a, b);
    if a.Create? {
      var fa, fb := Flag(a.orReplace) + ")", Flag(b.orReplace) + ")";
      var ra, rb := Quoted(a.body, '\'') + (", " + fa), Quoted(b.body, '\'') + (", " + fb);
      LiteralInjective(a.name, b.name, ", " + ra, ", " + rb, Arguments(a));
      Strip(", ", ra, rb);
      LiteralInjective(a.body, b.body, ", " + fa, ", " + fb, ra);
      Strip(", ", fa, fb);
      FlagsInjective(a.orReplace, b.orReplace, ")", ")");
    } else if a.Drop? {
      var ea, eb := Flag(a.ifExists) + ")", Flag(b.ifExists) + ")";
      var ra, rb := Flag(a.cascade) + (", " + ea), Flag(b.cascade) + (", " + eb);
      LiteralInjective(a.name, b.name, ", " + ra, ", " + rb, Arguments(a));
      Strip(", ", ra, rb);
      FlagsInjective(a.cascade, b.cascade, ", " + ea, ", " + eb);
      Strip(", ", ea, eb);
      FlagsInjective(a.ifExists, b.ifExists, ")", ")");
    } else {
      LiteralInjective(a.name, b.name, ")", ")", Arguments(a));
    }
  }

  // ---- what the call says, read back as SQL ----

  datatype Argument = Text(text: string) | Truth(flag: bool)

  const VIEW := "_materialized_view"

  // The function a statement stands for and its arguments in the order in
  // which the function takes them.
  function Invocation(d: Ddl): (string, seq<Argument>) {
    match d
    case Create(name, body, orReplace) => ("dbsp_create" + VIEW, [Text(name), Text(body), Truth(orReplace)])
    case Drop(name, cascade, ifExists) => ("dbsp_drop" + VIEW, [Text(name), Truth(cascade), Truth(ifExists)])
    case Refresh(name) => ("dbsp_refresh" + VIEW, [Text(name)])
  }

  // A string literal from behind its opening quote, and what follows it.
  function ReadText(s: string): Option<(string, string)> {
    if s == "" then None
    else if s[0] != '\'' then Preceded([s[0]], ReadText(s[1..]))
    else if |s| > 1 && s[1] == '\'' then Preceded("'", ReadText(s[2..]))
    else Some(("", s[1..]))
  }

  function Preceded(x: string, r: Option<(string, string)>): Option<(string, string)> {
    match r
    case None => None
    case Some((t, rest)) => Some((x + t, rest))
  }

  function ReadArgument(s: string): Option<(Argument, string)> {
    if s != "" && s[0] == '\'' then
      match ReadText(s[1..])
      case None => None
      case Some((t, rest)) => Some((Text(t), rest))
    else if "true" <= s then Some((Truth(true), s[4..]))
    else if "false" <= s then Some((Truth(false), s[5..]))
    else None
  }

  // Arguments between commas up to the closing parenthesis, which is the end.
  function ReadArguments(s: string): Option<seq<Argument>>
    decreases |s|
  {
    match ReadArgument(s)
    case None => None
    case Some((a, rest)) =>
      if rest == ")" then Some([a])
      else if |rest| < |s| && |rest| > 1 && rest[0] == ',' && rest[1] == ' ' then
        match ReadArguments(rest[2..])
        case None => None
        case Some(more) => Some([a] + more)
      else None
  }

  const FROM := "SELECT * FROM "

  function ReadCall(s: string): Option<(string, seq<Argument>)> {
    if !(FROM <= s) then None
    else
      var call := s[|FROM|..];
      var n := WordRun(call);
      if n >= |call| || call[n] != '(' then None
      else
        match ReadArguments(call[n + 1..])
        case None => None
        case Some(args) => Some((call[..n], args))
  }

  lemma {:induction false} LiteralReads(v: string, rest: string)
    requires rest == "" || rest[0] != '\''
    ensures ReadText(Doubled(v, '\'') + (['\''] + rest)) == Some((v, rest))
  {
    var s := Doubled(v, '\'') + (['\''] + rest);
    if v == "" {
      assert s == ['\''] + rest && s[1..] == rest;
    } else {
      LiteralReads(v[1..], rest);
      var tail := Doubled(v[1..], '\'') + (['\''] + rest);
      assert v == [v[0]] + v[1..];
      if v[0] == '\'' {
        assert s == ['\'', '\''] + tail && s[2..] == tail;
      } else {
        assert s == [v[0]] + tail && s[1..] == tail;
      }
    }
  }

  // How an argument is written.
  function Written(a: Argument): string {
    match a
    case Text(v) => Quoted(v, '\'')
    case Truth(b) => Flag(b)
  }

  lemma ArgumentReads(a: Argument, rest: string)
    requires rest == "" || rest[0] != '\''
    ensures ReadArgument(Written(a) + rest) == Some((a, rest)) && |Written(a)| > 0
  {
    var s := Written(a) + rest;
    match a {
      case Text(v) =>
        QuotedShape(v, '\'', rest);
        LiteralReads(v, rest);
      case Truth(b) =>
        assert s[..|Flag(b)|] == Flag(b) && s[|Flag(b)|..] == rest && s[0] == Flag(b)[0];
    }
  }

  lemma LastArgument(a: Argument, s: string)
    requires s == Written(a) + ")"
    ensures ReadArguments(s) == Some([a])
  {
    ArgumentReads(a, ")");
  }

  lemma MoreArguments(a: Argument, more: seq<Argument>, rest: string, s: string, all: seq<Argument>)
    requires s == Written(a) + (", " + rest) && ReadArguments(rest) == Some(more) && all == [a] + more
    ensures ReadArguments(s) == Some(all)
  {
    ArgumentReads(a, ", " + rest);
    assert (", " + rest)[2..] == rest;
  }

  lemma ThreeArguments(a: Argument, b: Argument, c: Argument, s: string)
    requires s == Written(a) + (", " + (Written(b) + (", " + (Written(c) + ")"))))
    ensures ReadArguments(s) == Some([a, b, c])
  {
    var last := Written(c) + ")";
    var two := Written(b) + (", " + last);
    LastArgument(c, last);
    MoreArguments(b, [c], last, two, [b, c]);
    MoreArguments(a, [b, c], two, s, [a, b, c]);
  }

  lemma ArgumentsRead(d: Ddl)
    ensures ReadArguments(Arguments(d)) == Some(Invocation(d).1)
  {
    match d {
      case Create(name, body, orReplace) => ThreeArguments(Text(name), Text(body), Truth(orReplace), Arguments(d));
      case Drop(name, cascade, ifExists) => ThreeArguments(Text(name), Truth(cascade), Truth(ifExists), Arguments(d));
      case Refresh(name) => LastArgument(Text(name), Arguments(d));
    }
  }

  lemma {:induction false} WordRunIs(w: string, rest: string)
    requires AllWord(w) && (rest == "" || !WordChar(rest[0]))
    ensures WordRun(w + rest) == |w|
  {
    if w == "" {
      assert w + rest == rest;
    } else {
      assert (w + rest)[1..] == w[1..] + rest;
      WordRunIs(w[1..], rest);
    }
  }

  const DBSP := "dbsp_"

  predicate AllWord(s: string) {
    forall i :: 0 <= i < |s| ==> WordChar(s[i])
  }

  lemma FunctionWord(d: Ddl, verb: string)
    requires verb == Verb(d)
    ensures Invocation(d).0 == DBSP + (verb + VIEW)
  {
    assert Invocation(d).0 == DBSP + verb + VIEW;
  }

  lemma WordsOfCall(d: Ddl, verb: string)
    requires verb == Verb(d)
    ensures AllWord(DBSP) && AllWord(VIEW) && AllWord(verb)
  {
    assert VIEW == "_material" + "ized_view" && AllWord("_material") && AllWord("ized_view");
  }

  lemma FunctionIsWord(verb: string)
    requires AllWord(DBSP) && AllWord(VIEW) && AllWord(verb)
    ensures AllWord(DBSP + (verb + VIEW))
  {
  }

  lemma CallShape(verb: string, rest: string)
    ensures FROM_DBSP + (verb + (VIEW_CALL + rest)) == FROM + (DBSP + (verb + VIEW) + ("(" + rest))
  {
    assert FROM_DBSP == FROM + DBSP && VIEW_CALL == VIEW + "(";
  }

  // Read as SQL, the call names the statement's function and passes it the
  // name, the body and the flags, each in its place.
  lemma CallReadsBack(d: Ddl)
    ensures ReadCall(Call(d)) == Some(Invocation(d))
  {
    var word, args := Invocation(d).0, "(" + Arguments(d);
    FunctionWord(d, Verb(d));
    WordsOfCall(d, Verb(d));
    FunctionIsWord(Verb(d));
    CallShape(Verb(d), Arguments(d));
    ArgumentsRead(d);
    WordRunIs(word, args);
    CallFrom(word, Arguments(d), Invocation(d).1, Call(d));
  }

  lemma CallFrom(word: string, text: string, args: seq<Argument>, s: string)
    requires s == FROM + (word + ("(" + text)) && WordRun(word + ("(" + text)) == |word|
    requires ReadArguments(text) == Some(args)
    ensures ReadCall(s) == Some((word, args))
  {
    var call := word + ("(" + text);
    assert s[|FROM|..] == call && s[..|FROM|] == FROM;
    assert call[|word|] == '(' && call[|word| + 1..] == text && call[..|word|] == word;
  }
}
