/**
 * The regular expressions of module 'parse' (dist/surplus.js:1360-1377),
 * written out as functions on strings. Each states what the expression
 * matches under JavaScript's leftmost, greedy-with-backtracking search.
 */
module ParseRegex {
  import opened Wrappers

  /** JavaScript's `\s`: the white space and line terminator code points. */
  predicate IsSpace(c: char)
  {
    var n := c as int;
    (9 <= n <= 13) || n == 32 || n == 0xA0 || n == 0x1680 || (0x2000 <= n <= 0x200A)
    || n == 0x2028 || n == 0x2029 || n == 0x202F || n == 0x205F || n == 0x3000 || n == 0xFEFF
  }

  /** `[a-zA-Z_$]` */
  predicate IsIdentStart(c: char)
  {
    ('a' <= c <= 'z') || ('A' <= c <= 'Z') || c == '_' || c == '$'
  }

  /** `[a-zA-Z_$0-9]` */
  predicate IsIdentChar(c: char)
  {
    IsIdentStart(c) || ('0' <= c <= '9')
  }

  /** `[+\-!~]` */
  predicate IsPrefixOp(c: char)
  {
    c == '+' || c == '-' || c == '!' || c == '~'
  }

  /** `[^\s:=]` */
  predicate IsParamChar(c: char)
  {
    !IsSpace(c) && c != ':' && c != '='
  }

  /** The length of the longest run of characters satisfying p that starts at k. */
  function RunLen(t: string, k: nat, p: char -> bool): (n: nat)
    ensures k + n <= |t| || n == 0
    ensures forall j :: k <= j < k + n ==> p(t[j])
    ensures k + n < |t| ==> !p(t[k + n])
    decreases |t| - k
  {
    if k < |t| && p(t[k]) then 1 + RunLen(t, k + 1, p) else 0
  }

  /** `/^\s*$/`: every character is white space. */
  predicate AllWs(s: string)
  {
    forall k :: 0 <= k < |s| ==> IsSpace(s[k])
  }

  lemma AllWsAppend(a: string, b: string)
    requires AllWs(a) && AllWs(b)
    ensures AllWs(a + b)
  {
    forall k | 0 <= k < |a + b|
      ensures IsSpace((a + b)[k])
    {
      if k < |a| {
        assert (a + b)[k] == a[k];
      } else {
        assert (a + b)[k] == b[k - |a|];
      }
    }
  }

  // ---------------------------------------------------------------------------
  // The anchored expressions SPLIT takes a prefix with
  // ---------------------------------------------------------------------------

  /** The expressions the parser passes to SPLIT. */
  datatype Pattern = CodePrefix | CodeInterim | CodeSuffix | DirectiveName | LeadingWs

  /** `embeddedCodePrefix` = `^[+\-!~]*[a-zA-Z_$][a-zA-Z_$0-9]*`: the match length, 0 for none. */
  function PrefixLen(t: string): (n: nat)
    ensures n <= |t|
  {
    var ops := RunLen(t, 0, IsPrefixOp);
    if ops < |t| && IsIdentStart(t[ops]) then ops + 1 + RunLen(t, ops + 1, IsIdentChar) else 0
  }

  /** `embeddedCodeInterim` = `^(?:\.[a-zA-Z_$][a-zA-Z_$0-9]*)+`: where the chain of `.name` parts from k ends. */
  function InterimEnd(t: string, k: nat): (e: nat)
    requires k <= |t|
    ensures k <= e <= |t|
    decreases |t| - k
  {
    if k + 1 < |t| && t[k] == '.' && IsIdentStart(t[k + 1]) then InterimEnd(t, k + 2 + RunLen(t, k + 2, IsIdentChar))
    else k
  }

  /** `directiveName` = `^[a-zA-Z_$][a-zA-Z_$0-9]*(:[^\s:=]*)*`: where the `:param` parts from k end. */
  function ParamsEnd(t: string, k: nat): (e: nat)
    requires k <= |t|
    ensures k <= e <= |t|
    decreases |t| - k
  {
    if k < |t| && t[k] == ':' then ParamsEnd(t, k + 1 + RunLen(t, k + 1, IsParamChar)) else k
  }

  function DirectiveNameLen(t: string): (n: nat)
    ensures n <= |t|
    ensures n > 0 ==> IsIdentStart(t[0])
  {
    if 0 < |t| && IsIdentStart(t[0]) then ParamsEnd(t, 1 + RunLen(t, 1, IsIdentChar)) else 0
  }

  /** `^(?:\+\+|--)`: a suffix operator at the start. */
  function SuffixLen(t: string): (n: nat)
    ensures n <= |t|
  {
    if |t| >= 2 && (t[..2] == "++" || t[..2] == "--") then 2 else 0
  }

  /** The length of the prefix SPLIT takes for pattern p; 0 when the expression does not match or matches "". */
  function MatchLen(p: Pattern, t: string): (n: nat)
    ensures n <= |t|
  {
    match p
    case CodePrefix => PrefixLen(t)
    case CodeInterim => InterimEnd(t, 0)
    case CodeSuffix => SuffixLen(t)
    case DirectiveName => DirectiveNameLen(t)
    case LeadingWs => RunLen(t, 0, IsSpace)
  }

  /** At the end of input TOK is `null`, which the expressions read as the text "null": a name. */
  lemma NullMatches()
    ensures MatchLen(CodePrefix, "null") > 0 && MatchLen(DirectiveName, "null") > 0
  {
    assert RunLen("null", 0, IsPrefixOp) == 0;
  }

  /**
   * `embeddedCodeSuffix` as written, `/^\+\+|--/`: the anchor binds to the
   * first alternative only, so `--` matches anywhere. The result is the index
   * of the two-character match.
   */
  function SuffixAsWritten(t: string): (r: Option<nat>)
    ensures r.Some? ==> r.value + 2 <= |t| && (t[r.value..r.value + 2] == "--" || (r.value == 0 && t[..2] == "++"))
  {
    if |t| >= 2 && t[..2] == "++" then Some(0) else FirstDashes(t, 0)
  }

  function FirstDashes(t: string, k: nat): (r: Option<nat>)
    ensures r.Some? ==> k <= r.value && r.value + 2 <= |t| && t[r.value..r.value + 2] == "--"
    decreases |t| - k
  {
    if k + 2 > |t| then None
    else if t[k..k + 2] == "--" then Some(k)
    else FirstDashes(t, k + 1)
  }

  /**
   * As written, SPLIT reports the two matched characters but removes the
   * first two characters of the token: on `" a--b"` code receives `--`
   * while `" a"` is what is taken from the input.
   */
  lemma SuffixAsWrittenTakesWrongText()
    ensures SuffixAsWritten(" a--b") == Some(2)
    ensures " a--b"[..2] != "--"
  {
    assert " a--b"[..2] == " a";
    assert " a--b"[0..2] != "--";
    assert " a--b"[1..3] != "--";
    assert " a--b"[2..4] == "--";
    assert FirstDashes(" a--b", 2) == Some(2);
    assert FirstDashes(" a--b", 1) == Some(2);
  }

  /** With the anchor around both alternatives, what SPLIT takes is exactly the matched operator. */
  lemma SuffixTakesMatchedText(t: string)
    ensures SuffixLen(t) > 0 ==> t[..SuffixLen(t)] == "++" || t[..SuffixLen(t)] == "--"
    ensures SuffixLen(t) == 0 ==> SuffixAsWritten(t) != Some(0)
  {
    if SuffixAsWritten(t) == Some(0) {
      assert t[0..2] == t[..2];
    }
  }

  // ---------------------------------------------------------------------------
  // The other expressions
  // ---------------------------------------------------------------------------

  /** The number of backslashes s ends with. */
  function TrailingBackslashes(s: string): (n: nat)
    ensures n <= |s|
    decreases |s|
  {
    if |s| > 0 && s[|s| - 1] == '\\' then 1 + TrailingBackslashes(s[..|s| - 1]) else 0
  }

  /**
   * `stringEscapedEnd` = `[^\\](\\\\)*\\$`: s ends with an odd run of
   * backslashes with some other character before it, so the next quote is
   * escaped.
   */
  predicate EscapedEnd(s: string)
  {
    TrailingBackslashes(s) % 2 == 1 && TrailingBackslashes(s) < |s|
  }

  /** `\s*=>?\s*$`: spaces, `=`, an optional `>`, then only spaces. */
  predicate AssignTail(v: string)
  {
    var a := RunLen(v, 0, IsSpace);
    a < |v| && v[a] == '=' &&
    (if a + 1 < |v| && v[a + 1] == '>' then AllWs(v[a + 2..]) else AllWs(v[a + 1..]))
  }

  /** The greedy `(\S+)` before the tail: the longest n <= m for which the rest is an assignment tail. */
  function NameLen(u: string, m: nat): (n: nat)
    requires m <= |u|
    ensures n <= m
    ensures n > 0 ==> AssignTail(u[n..])
    decreases m
  {
    if m == 0 then 0 else if AssignTail(u[m..]) then m else NameLen(u, m - 1)
  }

  /** A match of `propertyLeftSide`: it starts at `start` and `name` is its group 1. */
  datatype LeftSide = LeftSide(start: nat, name: string)

  /** `propertyLeftSide` = `\s(\S+)\s*=>?\s*$`, searched from index k on. */
  function LeftSideFrom(s: string, k: nat): (r: Option<LeftSide>)
    requires k <= |s|
    ensures r.Some? ==> k <= r.value.start < |s| && IsSpace(s[r.value.start]) && |r.value.name| > 0
    decreases |s| - k
  {
    if k == |s| then None
    else
      var u := s[k + 1..];
      var n := NameLen(u, RunLen(u, 0, c => !IsSpace(c)));
      if IsSpace(s[k]) && n > 0 then Some(LeftSide(k, u[..n])) else LeftSideFrom(s, k + 1)
  }

  function PropertyLeftSide(s: string): (r: Option<LeftSide>)
    ensures r.Some? ==> r.value.start < |s| && IsSpace(s[r.value.start]) && |r.value.name| > 0
  {
    LeftSideFrom(s, 0)
  }

  /** The number of white-space characters s[..e] ends with. */
  function TrailingWs(s: string, e: nat): (n: nat)
    requires e <= |s|
    ensures n <= e
    ensures forall j :: e - n <= j < e ==> IsSpace(s[j])
    decreases e
  {
    if e > 0 && IsSpace(s[e - 1]) then 1 + TrailingWs(s, e - 1) else 0
  }

  /** How long the `/>` or `>` that closes a start tag is, 0 when s ends with neither. */
  function TagEnd(s: string): (n: nat)
    ensures n <= |s| && n <= 2
  {
    if |s| >= 2 && s[|s| - 2..] == "/>" then 2 else if |s| >= 1 && s[|s| - 1] == '>' then 1 else 0
  }

  /** `beginTag.replace(tagTrailingWs, "")` with `tagTrailingWs` = `\s+(?=\/?>$)`: drop the spaces before the closing `>` or `/>`. */
  function TrimTagWs(s: string): (r: string)
    ensures TagEnd(s) <= |r| <= |s|
    ensures r[|r| - TagEnd(s)..] == s[|s| - TagEnd(s)..]
    ensures |s| > 0 ==> |r| > 0 && (r[0] == s[0] || IsSpace(s[0]))
  {
    var t := TagEnd(s);
    var w := TrailingWs(s, |s| - t);
    if t == 0 || w == 0 then s else s[..|s| - t - w] + s[|s| - t..]
  }

  /** The largest index j in [lo, hi) holding a newline. */
  function LastNewline(s: string, lo: nat, hi: nat): (r: Option<nat>)
    requires hi <= |s|
    ensures r.Some? ==> lo <= r.value < hi && s[r.value] == '\n'
    decreases hi
  {
    if hi <= lo then None else if s[hi - 1] == '\n' then Some(hi - 1) else LastNewline(s, lo, hi - 1)
  }

  /**
   * `s.replace(emptyLines, "")` with `emptyLines` = `/\n\s+(?=\n)/g`, from
   * index p on: a newline followed by white space up to a later newline in
   * the same run is removed, and the search goes on at that newline.
   */
  function DropEmptyLinesFrom(s: string, p: nat): (r: string)
    requires p <= |s|
    ensures |r| <= |s| - p
    decreases |s| - p
  {
    if p == |s| then ""
    else
      var e := p + 1 + RunLen(s, p + 1, IsSpace);
      var j := if s[p] == '\n' && e <= |s| then LastNewline(s, p + 2, e) else None;
      if j.Some? then DropEmptyLinesFrom(s, j.value) else [s[p]] + DropEmptyLinesFrom(s, p + 1)
  }

  function DropEmptyLines(s: string): (r: string)
    ensures |r| <= |s|
    ensures |s| > 0 && s[0] != '\n' ==> |r| > 0 && r[0] == s[0]
  {
    DropEmptyLinesFrom(s, 0)
  }

  /** Text without newlines is left alone by the empty-line removal. */
  lemma {:induction false} DropEmptyLinesNoNewline(s: string, p: nat)
    requires p <= |s| && forall k :: p <= k < |s| ==> s[k] != '\n'
    ensures DropEmptyLinesFrom(s, p) == s[p..]
    decreases |s| - p
  {
    if p < |s| {
      DropEmptyLinesNoNewline(s, p + 1);
      assert s[p..] == [s[p]] + s[p + 1..];
    }
  }

  // ---------------------------------------------------------------------------
  // name.split(":")
  // ---------------------------------------------------------------------------

  /** The index of the first ':' in s, |s| when there is none. */
  function ColonAt(s: string): (k: nat)
    ensures k <= |s| && (k < |s| ==> s[k] == ':') && forall j :: 0 <= j < k ==> s[j] != ':'
    decreases |s|
  {
    if |s| == 0 || s[0] == ':' then 0 else 1 + ColonAt(s[1..])
  }

  /** `s.split(":")` */
  function SplitColons(s: string): (parts: seq<string>)
    ensures |parts| > 0
    ensures |s| > 0 && s[0] != ':' ==> |parts[0]| > 0
    decreases |s|
  {
    var k := ColonAt(s);
    if k == |s| then [s] else [s[..k]] + SplitColons(s[k + 1..])
  }

  /** `parts.join(":")` */
  function JoinColons(parts: seq<string>): (s: string)
    decreases |parts|
  {
    if |parts| == 0 then "" else if |parts| == 1 then parts[0] else parts[0] + ":" + JoinColons(parts[1..])
  }

  /** Splitting on ':' loses nothing: joining the parts back gives the name. */
  lemma {:induction false} SplitColonsJoin(s: string)
    ensures JoinColons(SplitColons(s)) == s
    decreases |s|
  {
    var k := ColonAt(s);
    if k < |s| {
      var rest := s[k + 1..];
      SplitColonsJoin(rest);
      JoinColonsCons(s[..k], SplitColons(rest));
      assert s == s[..k] + [s[k]] + rest;
    }
  }

  lemma JoinColonsCons(p: string, tail: seq<string>)
    requires |tail| > 0
    ensures JoinColons([p] + tail) == p + ":" + JoinColons(tail)
  {
    assert ([p] + tail)[1..] == tail;
  }

  /** No part of the split holds a ':'. */
  lemma {:induction false} SplitColonsParts(s: string)
    ensures forall p :: p in SplitColons(s) ==> ':' !in p
    decreases |s|
  {
    var k := ColonAt(s);
    if k < |s| {
      SplitColonsParts(s[k + 1..]);
      assert ':' !in s[..k];
    } else {
      assert ':' !in s;
    }
  }

  // ---------------------------------------------------------------------------
  // The `parens` lookup table
  // ---------------------------------------------------------------------------

  /** The names every plain JavaScript object inherits from `Object.prototype`. */
  predicate Inherited(tok: string)
  {
    tok in {"constructor", "hasOwnProperty", "isPrototypeOf", "propertyIsEnumerable", "toLocaleString",
            "toString", "valueOf", "__proto__", "__defineGetter__", "__defineSetter__",
            "__lookupGetter__", "__lookupSetter__"}
  }

  /** What `PARENS()` yields: the closing bracket, an inherited member (truthy, equal to no token), or `undefined`. */
  datatype Closer = Bracket(close: string) | Member | NoCloser

  /** `parens[TOK]` as written: a plain-object lookup that also finds the inherited members. */
  function ParensAsWritten(tok: string): (r: Closer)
    ensures r.NoCloser? <==> tok !in {"(", "[", "{"} && !Inherited(tok)
  {
    if tok == "(" then Bracket(")") else if tok == "[" then Bracket("]") else if tok == "{" then Bracket("}")
    else if Inherited(tok) then Member else NoCloser
  }

  /**
   * As written, a token such as `constructor` counts as an opening bracket,
   * and its closer equals no token, so embedded code followed by it runs to
   * the end of the input and fails as unterminated parentheses.
   */
  lemma ParensAsWrittenOpensOnMember()
    ensures ParensAsWritten("constructor") == Member
    ensures !ParensAsWritten("constructor").NoCloser?
  {
  }

  /** The evidently intended lookup: only the three opening brackets have a closer. */
  function Parens(tok: string): (r: Option<string>)
    ensures r.Some? <==> tok in {"(", "[", "{"}
    ensures r.Some? ==> |r.value| == 1 && r.value != tok
  {
    if tok == "(" then Some(")") else if tok == "[" then Some("]") else if tok == "{" then Some("}") else None
  }

  /** The intended lookup agrees with the table on the brackets and rejects every inherited name. */
  lemma ParensAgree(tok: string)
    ensures Parens(tok).Some? ==> ParensAsWritten(tok) == Bracket(Parens(tok).value)
    ensures Inherited(tok) ==> Parens(tok).None?
  {
  }
}
