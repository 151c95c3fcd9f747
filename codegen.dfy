/**
 * The string helpers of the preprocessor's code generator: `codeStr`, which
 * turns html text into a single-quoted JavaScript string literal, and
 * `genCallback`, which wraps generated code in a one-parameter function.
 */
module CodeGen {
  import opened Wrappers

  // ---------------------------------------------------------------------------
  // codeStr
  // ---------------------------------------------------------------------------

  /** `s.replace(/c/g, rep)`: every occurrence of the character `c` replaced by `rep`. */
  function ReplaceAll(s: string, c: char, rep: string): (r: string)
    ensures c !in rep ==> c !in r
    decreases |s|
  {
    if |s| == 0 then ""
    else (if s[0] == c then rep else [s[0]]) + ReplaceAll(s[1..], c, rep)
  }

  /**
   * `codeStr(str)`: backslashes doubled, then single quotes escaped, then
   * every newline preceded by a backslash, all between single quotes.
   */
  function CodeStr(s: string): (r: string)
    ensures |r| >= 2 && r[0] == '\'' && r[|r| - 1] == '\''
  {
    "'" + ReplaceAll(ReplaceAll(ReplaceAll(s, '\\', "\\\\"), '\'', "\\'"), '\n', "\\\n") + "'"
  }

  /** The escape of one character: what the three replacements together make of it. */
  function EscapeChar(c: char): string
  {
    if c == '\\' then "\\\\" else if c == '\'' then "\\'" else if c == '\n' then "\\\n" else [c]
  }

  /** Every character escaped on its own. */
  function Escape(s: string): (r: string)
    decreases |s|
  {
    if |s| == 0 then "" else EscapeChar(s[0]) + Escape(s[1..])
  }

  lemma {:induction false} ReplaceAllAppend(a: string, b: string, c: char, rep: string)
    ensures ReplaceAll(a + b, c, rep) == ReplaceAll(a, c, rep) + ReplaceAll(b, c, rep)
    decreases |a|
  {
    if |a| > 0 {
      assert (a + b)[0] == a[0] && (a + b)[1..] == a[1..] + b;
      ReplaceAllAppend(a[1..], b, c, rep);
    } else {
      assert a + b == b;
    }
  }

  /**
   * The three global replacements in a row escape each character on its
   * own: no replacement rescans what an earlier one inserted.
   */
  lemma {:induction false} ReplacementsAreEscape(s: string)
    ensures ReplaceAll(ReplaceAll(ReplaceAll(s, '\\', "\\\\"), '\'', "\\'"), '\n', "\\\n") == Escape(s)
    decreases |s|
  {
    if |s| > 0 {
      var c, rest := s[0], s[1..];
      var a := ReplaceAll(s, '\\', "\\\\");
      var a1 := if c == '\\' then "\\\\" else [c];
      assert a == a1 + ReplaceAll(rest, '\\', "\\\\");
      ReplaceAllAppend(a1, ReplaceAll(rest, '\\', "\\\\"), '\'', "\\'");
      var b1 := ReplaceAll(a1, '\'', "\\'");
      assert b1 == (if c == '\\' then "\\\\" else if c == '\'' then "\\'" else [c]) by {
        if c == '\\' {
          assert a1[1..][1..] == "";
        }
      }
      ReplaceAllAppend(b1, ReplaceAll(ReplaceAll(rest, '\\', "\\\\"), '\'', "\\'"), '\n', "\\\n");
      assert ReplaceAll(b1, '\n', "\\\n") == EscapeChar(c) by {
        if c == '\\' || c == '\'' {
          assert b1[1..][1..] == "";
        }
      }
      ReplacementsAreEscape(rest);
    }
  }

  /**
   * The value of the body of a single-quoted JavaScript string literal,
   * for the escapes `codeStr` writes: `\\` is a backslash, `\'` a quote,
   * `\r` a carriage return and a backslash before a line feed a line
   * continuation, which stands for nothing. A bare quote, line feed or
   * carriage return ends the literal or is a syntax error, and other escapes
   * are outside this model: all of those give None.
   */
  function Unquote(body: string): (r: Option<string>)
    ensures r.Some? ==> |r.value| <= |body|
    decreases |body|
  {
    if |body| == 0 then Some("")
    else if body[0] == '\'' || body[0] == '\n' || body[0] == '\r' then None
    else if body[0] != '\\' then
      (match Unquote(body[1..]) case Some(v) => Some([body[0]] + v) case None => None)
    else if |body| == 1 then None
    else if body[1] == '\\' || body[1] == '\'' then
      (match Unquote(body[2..]) case Some(v) => Some([body[1]] + v) case None => None)
    else if body[1] == 'r' then
      (match Unquote(body[2..]) case Some(v) => Some(['\r'] + v) case None => None)
    else if body[1] == '\n' then Unquote(body[2..])
    else None
  }

  /** The value of a whole single-quoted literal. */
  function LiteralValue(t: string): (r: Option<string>)
    ensures r.Some? ==> |r.value| <= |t| - 2
  {
    if |t| >= 2 && t[0] == '\'' && t[|t| - 1] == '\'' then Unquote(t[1..|t| - 1]) else None
  }

  /** `s` without its line breaks. */
  function DropNewlines(s: string): (r: string)
    ensures '\n' !in r && |r| <= |s|
    decreases |s|
  {
    if |s| == 0 then "" else (if s[0] == '\n' then "" else [s[0]]) + DropNewlines(s[1..])
  }

  lemma {:induction false} UnquoteEscape(s: string)
    requires '\r' !in s
    ensures Unquote(Escape(s)) == Some(DropNewlines(s))
    decreases |s|
  {
    if |s| > 0 {
      var e := Escape(s);
      var tail := Escape(s[1..]);
      assert e == EscapeChar(s[0]) + tail;
      assert s[0] in s && forall k :: 0 <= k < |s[1..]| ==> s[1..][k] in s;
      UnquoteEscape(s[1..]);
      if s[0] == '\n' {
        assert e[0] == '\\' && e[1] == s[0] && e[2..] == tail;
        assert Unquote(e) == Unquote(tail);
        assert DropNewlines(s) == "" + DropNewlines(s[1..]) == DropNewlines(s[1..]);
      } else if s[0] == '\\' || s[0] == '\'' {
        assert e[0] == '\\' && e[1] == s[0] && e[2..] == tail;
        assert Unquote(e) == Some([s[0]] + DropNewlines(s[1..]));
      } else {
        assert e[0] == s[0] && e[1..] == tail;
        assert Unquote(e) == Some([s[0]] + DropNewlines(s[1..]));
      }
    }
  }

  /**
   * `codeStr` always yields a well-formed literal, and the literal stands
   * for the html text less its line breaks: each newline became a line
   * continuation, which keeps the generated code's line count without
   * putting the break into the string.
   */
  lemma CodeStrValue(s: string)
    requires '\r' !in s
    ensures LiteralValue(CodeStr(s)) == Some(DropNewlines(s))
  {
    ReplacementsAreEscape(s);
    UnquoteEscape(s);
    var r := CodeStr(s);
    assert r[1..|r| - 1] == Escape(s);
  }

  /**
   * `codeStr` as written leaves a carriage return bare inside the literal,
   * where JavaScript reads it as a line terminator: text with a Windows line
   * break gives no string at all.
   */
  lemma CodeStrCarriageReturn()
    ensures LiteralValue(CodeStr("a\r\nb")) == None
  {
    var s := "a\r\nb";
    ReplacementsAreEscape(s);
    var e, tail := Escape(s), Escape(s[1..]);
    assert e == "a" + tail;
    assert tail == "\r" + Escape(s[2..]) by {
      assert s[1..][0] == '\r' && s[1..][1..] == s[2..];
    }
    assert e[1..][0] == '\r';
    assert Unquote(e[1..]) == None;
    var r := CodeStr(s);
    assert r[1..|r| - 1] == e;
  }

  /** `codeStr` with carriage returns escaped as well, as `\r`, before line feeds are continued. */
  function CodeStrFixed(s: string): (r: string)
    ensures |r| >= 2 && r[0] == '\'' && r[|r| - 1] == '\''
  {
    "'" + FixedReplacements(s) + "'"
  }

  /** The four global replacements of `CodeStrFixed`. */
  function FixedReplacements(s: string): string
  {
    ReplaceAll(ReplaceAll(ReplaceAll(ReplaceAll(s, '\\', "\\\\"), '\'', "\\'"), '\r', "\\r"), '\n', "\\\n")
  }

  /** The escape of one character under `CodeStrFixed`. */
  function EscapeCharFixed(c: char): string
  {
    if c == '\r' then "\\r" else EscapeChar(c)
  }

  /** Every character escaped on its own under `CodeStrFixed`. */
  function EscapeFixed(s: string): (r: string)
    decreases |s|
  {
    if |s| == 0 then "" else EscapeCharFixed(s[0]) + EscapeFixed(s[1..])
  }

  lemma FixedReplacementsAppend(a: string, b: string)
    ensures FixedReplacements(a + b) == FixedReplacements(a) + FixedReplacements(b)
  {
    ReplaceAllAppend(a, b, '\\', "\\\\");
    var a1, b1 := ReplaceAll(a, '\\', "\\\\"), ReplaceAll(b, '\\', "\\\\");
    ReplaceAllAppend(a1, b1, '\'', "\\'");
    var a2, b2 := ReplaceAll(a1, '\'', "\\'"), ReplaceAll(b1, '\'', "\\'");
    ReplaceAllAppend(a2, b2, '\r', "\\r");
    var a3, b3 := ReplaceAll(a2, '\r', "\\r"), ReplaceAll(b2, '\r', "\\r");
    ReplaceAllAppend(a3, b3, '\n', "\\\n");
  }

  /** A replacement on a text of one or two characters. */
  lemma ReplaceAllShort(t: string, x: char, rep: string)
    requires 1 <= |t| <= 2
    ensures ReplaceAll(t, x, rep) ==
      (if t[0] == x then rep else [t[0]]) + (if |t| == 2 then (if t[1] == x then rep else [t[1]]) else "")
  {
    if |t| == 2 {
      assert t[1..][0] == t[1] && t[1..][1..] == "";
    }
  }

  /** On one character the four replacements make its escape: none rescans what an earlier one inserted. */
  lemma FixedReplacementsChar(c: char)
    ensures FixedReplacements([c]) == EscapeCharFixed(c)
  {
    var a1 := ReplaceAll([c], '\\', "\\\\");
    ReplaceAllShort([c], '\\', "\\\\");
    var a2 := ReplaceAll(a1, '\'', "\\'");
    ReplaceAllShort(a1, '\'', "\\'");
    var a3 := ReplaceAll(a2, '\r', "\\r");
    ReplaceAllShort(a2, '\r', "\\r");
    ReplaceAllShort(a3, '\n', "\\\n");
  }

  lemma {:induction false} FixedReplacementsAreEscape(s: string)
    ensures FixedReplacements(s) == EscapeFixed(s)
    decreases |s|
  {
    if |s| > 0 {
      assert s == [s[0]] + s[1..];
      FixedReplacementsAppend([s[0]], s[1..]);
      FixedReplacementsChar(s[0]);
      FixedReplacementsAreEscape(s[1..]);
    }
  }

  lemma {:induction false} UnquoteEscapeFixed(s: string)
    ensures Unquote(EscapeFixed(s)) == Some(DropNewlines(s))
    decreases |s|
  {
    if |s| > 0 {
      var e := EscapeFixed(s);
      var tail := EscapeFixed(s[1..]);
      assert e == EscapeCharFixed(s[0]) + tail;
      UnquoteEscapeFixed(s[1..]);
      if s[0] == '\n' {
        assert e[0] == '\\' && e[1] == s[0] && e[2..] == tail;
        assert Unquote(e) == Unquote(tail);
        assert DropNewlines(s) == "" + DropNewlines(s[1..]) == DropNewlines(s[1..]);
      } else if s[0] == '\\' || s[0] == '\'' {
        assert e[0] == '\\' && e[1] == s[0] && e[2..] == tail;
        assert Unquote(e) == Some([s[0]] + DropNewlines(s[1..]));
      } else if s[0] == '\r' {
        assert e[0] == '\\' && e[1] == 'r' && e[2..] == tail;
        assert Unquote(e) == Some([s[0]] + DropNewlines(s[1..]));
      } else {
        assert e[0] == s[0] && e[1..] == tail;
        assert Unquote(e) == Some([s[0]] + DropNewlines(s[1..]));
      }
    }
  }

  /** With carriage returns escaped, every text gives a well-formed literal standing for the text less its line feeds. */
  lemma CodeStrFixedValue(s: string)
    ensures LiteralValue(CodeStrFixed(s)) == Some(DropNewlines(s))
  {
    FixedReplacementsAreEscape(s);
    UnquoteEscapeFixed(s);
    var r := CodeStrFixed(s);
    assert r[1..|r| - 1] == EscapeFixed(s);
  }

  /** Text without line feeds comes back whole. */
  lemma CodeStrRoundTrip(s: string)
    requires '\n' !in s
    ensures LiteralValue(CodeStrFixed(s)) == Some(s)
  {
    CodeStrFixedValue(s);
    DropNewlinesNone(s);
  }

  lemma {:induction false} DropNewlinesNone(s: string)
    requires '\n' !in s
    ensures DropNewlines(s) == s
    decreases |s|
  {
    if |s| > 0 {
      assert s[0] in s;
      assert forall k :: 0 <= k < |s[1..]| ==> s[1..][k] == s[k + 1];
      forall k | 0 <= k < |s[1..]|
        ensures s[1..][k] != '\n'
      {
        assert s[k + 1] in s;
      }
      DropNewlinesNone(s[1..]);
      assert s == [s[0]] + s[1..];
    }
  }

  // ---------------------------------------------------------------------------
  // genCallback
  // ---------------------------------------------------------------------------

  /** The callback's parameter: an `on...` property passes the event name, any other `__`. */
  function CallbackParam(name: string): (p: string)
    ensures |name| >= 2 && name[..2] == "on" ==> name == "on" + p
    ensures !(|name| >= 2 && name[..2] == "on") ==> p == "__"
  {
    if |name| >= 2 && name[..2] == "on" then name[2..] else "__"
  }

  /** `genCallback(name, code)` */
  function GenCallback(name: string, code: string): (r: string)
    ensures |r| >= 14 && r[..10] == "function (" && r[|r| - 2..] == " }"
  {
    "function (" + CallbackParam(name) + ") { " + code + " }"
  }

  /** The first index of `c` in `s`, or `|s|`. */
  function IndexOf(s: string, c: char): (k: nat)
    ensures k <= |s| && (k < |s| ==> s[k] == c) && forall j :: 0 <= j < k ==> s[j] != c
    decreases |s|
  {
    if |s| == 0 then 0 else if s[0] == c then 0 else 1 + IndexOf(s[1..], c)
  }

  /** In `p + [c] + t`, with no `c` in `p`, the first `c` is right after `p`. */
  lemma {:induction false} IndexOfFirst(p: string, c: char, t: string)
    requires c !in p && |t| > 0 && t[0] == c
    ensures IndexOf(p + t, c) == |p|
    decreases |p|
  {
    if |p| > 0 {
      assert (p + t)[1..] == p[1..] + t;
      assert p[0] in p;
      IndexOfFirst(p[1..], c, t);
    } else {
      assert p + t == t;
    }
  }

  /**
   * Reads a generated callback back: the parameter up to the first `)`,
   * and the body between `) { ` and the closing ` }`.
   */
  function ParseCallback(s: string): (r: Option<(string, string)>)
    ensures r.Some? ==> ')' !in r.value.0 && |r.value.0| + |r.value.1| + 16 == |s|
  {
    var head := "function (";
    if |s| < |head| || s[..|head|] != head then None
    else
      var rest := s[|head|..];
      var k := IndexOf(rest, ')');
      if |rest| - k < 6 || rest[k..k + 4] != ") { " || rest[|rest| - 2..] != " }" then None
      else Some((rest[..k], rest[k + 4..|rest| - 2]))
  }

  /**
   * The callback can be read back into its parameter and the code it wraps,
   * as long as the parameter holds no `)`.
   */
  lemma GenCallbackParses(name: string, code: string)
    requires ')' !in CallbackParam(name)
    ensures ParseCallback(GenCallback(name, code)) == Some((CallbackParam(name), code))
  {
    var p := CallbackParam(name);
    assert GenCallback(name, code) == "function (" + (p + (") { " + code + " }"));
    CallbackTextParses(p, code);
  }

  /** The text of a callback with parameter `p` and body `code` reads back into the two. */
  lemma CallbackTextParses(p: string, code: string)
    requires ')' !in p
    ensures ParseCallback("function (" + (p + (") { " + code + " }"))) == Some((p, code))
  {
    var head, open, close := "function (", ") { ", " }";
    var t := open + code + close;
    var rest := p + t;
    Halves(head, rest);
    Halves(p, t);
    Halves(open, code + close);
    Halves(open + code, close);
    IndexOfFirst(p, ')', t);
    assert rest[|p|..|p| + 4] == t[..4] == open;
    assert rest[|rest| - 2..] == t[|t| - 2..] == close;
    assert rest[|p| + 4..|rest| - 2] == t[4..|t| - 2] == code;
  }

  /** The two halves of a concatenation. */
  lemma Halves(a: string, b: string)
    ensures (a + b)[..|a|] == a && (a + b)[|a|..] == b
  {
  }

}
