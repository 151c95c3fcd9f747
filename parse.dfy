/**
 * The recursive-descent parser of module 'parse' (dist/surplus.js): it walks
 * the token list the tokenizer produced and builds the AST of a source file
 * in which JSX-like html literals are embedded in JavaScript code.
 *
 * The cursor state (`i`, `EOF`, `TOK`, `LINE`, `COL`, `POS`) is the state of
 * a `Parser` object; every production is a method that advances it. Errors
 * the productions throw are `Err` results that every caller passes on.
 */
module Parse {
  import opened Wrappers
  import opened ParseRegex

  // ---------------------------------------------------------------------------
  // The AST built by the parser (module 'AST')
  // ---------------------------------------------------------------------------

  /** `{ line, col, pos }`; the copy `balancedParens` makes has no `pos`. */
  datatype Loc = Loc(line: nat, col: nat, pos: Option<nat>)

  /**
   * What the parser throws: an `Error` made by `ERR`, with the location it
   * reports, or the TypeError of calling `substring` on the `null` token.
   */
  datatype ParseError = Error(msg: string, at: Option<Loc>) | NullToken

  datatype Segment = CodeText(text: string, loc: Loc) | Literal(html: HtmlLiteral)

  datatype CodeTopLevel = CodeTopLevel(segments: seq<Segment>)

  datatype EmbeddedCode = EmbeddedCode(segments: seq<Segment>)

  datatype HtmlLiteral = HtmlLiteral(nodes: seq<Node>)

  datatype Node =
    | HtmlElement(beginTag: string, properties: seq<Property>, directives: seq<Directive>,
                  content: seq<Node>, endTag: string)
    | HtmlText(text: string)
    | HtmlComment(text: string)
    | HtmlInsert(code: EmbeddedCode)

  datatype Property = Property(name: string, code: EmbeddedCode, callback: bool)

  datatype Directive =
    | Directive(name: string, code: EmbeddedCode)
    | AttrStyleDirective(name: string, params: seq<string>, code: EmbeddedCode, callback: bool)

  /** What `MARK()` saves, together with `POS` (see `Parser.Rollback`). */
  datatype Mark = Mark(tok: string, i: nat, eof: bool, line: nat, col: nat, pos: nat)

  /** A start tag being scanned: its text so far and the properties and directives taken out of it. */
  datatype StartTag = StartTag(text: string, properties: seq<Property>, directives: seq<Directive>)

  /**
   * Code being scanned: the segments finished so far, the pending text and
   * the location it will be reported at. `balancedParens` receives and
   * updates all three.
   */
  datatype Code = Code(segments: seq<Segment>, text: string, loc: Loc)

  /** s ends with t. */
  predicate EndsWith(s: string, t: string)
  {
    |t| <= |s| && s[|s| - |t|..] == t
  }

  /** b starts with a. */
  predicate Extends<T(==)>(b: seq<T>, a: seq<T>)
  {
    |a| <= |b| && b[..|a|] == a
  }

  /** Every segment is code text: the input held no html literal. */
  predicate AllCode(segments: seq<Segment>)
  {
    forall k :: 0 <= k < |segments| ==> segments[k].CodeText?
  }

  /** The text of a token list, `TOKS.join('')`. */
  function Joined(ts: seq<string>): (s: string)
    decreases |ts|
  {
    if |ts| == 0 then "" else Joined(ts[..|ts| - 1]) + ts[|ts| - 1]
  }

  lemma JoinedSnoc(ts: seq<string>, a: nat, b: nat)
    requires a <= b < |ts|
    ensures Joined(ts[a..b + 1]) == Joined(ts[a..b]) + ts[b]
  {
    assert ts[a..b + 1][..b - a] == ts[a..b];
  }

  /** No code text is empty and no two code texts are adjacent: html literals separate them. */
  predicate WellSegmented(segments: seq<Segment>)
  {
    (forall k :: 0 <= k < |segments| && segments[k].CodeText? ==> segments[k].text != "") &&
    (forall k :: 0 <= k < |segments| - 1 && segments[k].CodeText? ==> segments[k + 1].Literal?)
  }

  /** Whitespace text nodes of an html literal only sit in front of a non-text node. */
  predicate WsTextsBetween(nodes: seq<Node>)
  {
    forall k :: 0 <= k < |nodes| && nodes[k].HtmlText? ==>
      AllWs(nodes[k].text) && k + 1 < |nodes| && !nodes[k + 1].HtmlText?
  }

  /** As WsTextsBetween, except that the last node may still be a whitespace text. */
  predicate WsTextsSoFar(nodes: seq<Node>)
  {
    forall k :: 0 <= k < |nodes| && nodes[k].HtmlText? ==>
      AllWs(nodes[k].text) && (k + 1 < |nodes| ==> !nodes[k + 1].HtmlText?)
  }

  /** None of the tokens from index a up to index b equals t. */
  predicate NoneEqual(ts: seq<string>, a: nat, b: nat, t: string)
    requires b <= |ts|
  {
    forall k :: a <= k < b ==> ts[k] != t
  }

  /**
   * No token after the opening quote (the rest of token q) and before index
   * b closes the string: each equals the quote only where a backslash escapes it.
   */
  predicate Unclosed(ts: seq<string>, q: nat, b: nat, quote: string)
    requires q < |ts| && b <= |ts|
  {
    forall k :: q < k < b ==> ts[k] != quote || EscapedEnd(quote + Joined(ts[q + 1..k]))
  }

  lemma UnclosedStep(ts: seq<string>, q: nat, b: nat, quote: string)
    requires q < b < |ts| && Unclosed(ts, q, b, quote)
    requires ts[b] != quote || EscapedEnd(quote + Joined(ts[q + 1..b]))
    ensures Unclosed(ts, q, b + 1, quote)
  {
  }

  /**
   * Code b grew from code c while consumed0 became consumed1: as long as
   * no html literal split the text, the text grew by exactly what was consumed.
   */
  ghost predicate TextSince(c: Code, b: Code, consumed0: string, consumed1: string)
  {
    b.segments == c.segments ==> Extends(b.text, c.text) && consumed1 == consumed0 + b.text[|c.text|..]
  }

  /** Code b grew from code c by text and by segments that end with an html literal. */
  predicate Grew(c: Code, b: Code)
  {
    Extends(b.segments, c.segments) && (|b.segments| > |c.segments| ==> b.segments[|b.segments| - 1].Literal?)
  }

  /** A token `balancedParens` adds to its text as it is: no string, comment, literal or nested round bracket starts there. */
  predicate PlainCode(t: string)
  {
    t != "\"" && t != "'" && t != "//" && t != "/*" && t != "<" && t != "<!--" && t != "("
  }

  /** A token the attribute loop of `htmlElement` adds to the tag text as it is. */
  predicate PlainAttr(t: string)
  {
    t != ">" && t != "/>" && t != "@" && t != "="
  }

  /**
   * Start tag a grew from start tag t while consumed0 became consumed1: as
   * long as no property or directive was taken out, the tag text grew by
   * exactly what was consumed.
   */
  ghost predicate TagSince(t: StartTag, a: StartTag, consumed0: string, consumed1: string)
  {
    a.properties == t.properties && a.directives == t.directives ==>
      Extends(a.text, t.text) && consumed1 == consumed0 + a.text[|t.text|..]
  }

  /** An end tag: `</`, then up to and including `>`. */
  predicate EndTagShape(t: string)
  {
    |t| >= 3 && t[..2] == "</" && t[|t| - 1] == '>'
  }

  /**
   * The state of `codeTopLevel` between rounds: code texts are separated by
   * literals, the last finished segment is a literal, and until the first
   * literal the pending text is everything consumed since the start.
   */
  ghost predicate TopLevelSoFar(c: Code, consumed: string, c0: string, loc0: Loc)
  {
    WellSegmented(c.segments) && (|c.segments| > 0 ==> c.segments[|c.segments| - 1].Literal?) &&
    (c.segments == [] ==> consumed == c0 + c.text && c.loc == loc0)
  }

  lemma WsTextsPush(nodes: seq<Node>, n: Node)
    requires WsTextsSoFar(nodes) && (n.HtmlText? ==> AllWs(n.text))
    requires |nodes| > 0 && nodes[|nodes| - 1].HtmlText? ==> !n.HtmlText?
    ensures WsTextsSoFar(nodes + [n])
  {
  }

  lemma ExtendsTrans<T>(c: seq<T>, b: seq<T>, a: seq<T>)
    requires Extends(c, b) && Extends(b, a)
    ensures Extends(c, a)
  {
    assert c[..|a|] == c[..|b|][..|a|];
  }

  lemma ExtendsAppend<T>(a: seq<T>, b: seq<T>)
    ensures Extends(a + b, a)
  {
    assert (a + b)[..|a|] == a;
  }

  lemma TextSinceTrans(c: Code, b: Code, b': Code, c0: string, c1: string, c2: string)
    requires Extends(b.segments, c.segments) && Extends(b'.segments, b.segments)
    requires TextSince(c, b, c0, c1) && TextSince(b, b', c1, c2)
    ensures TextSince(c, b', c0, c2)
  {
    if b'.segments == c.segments {
      assert b.segments == c.segments;
      assert b'.text[|c.text|..] == b.text[|c.text|..] + b'.text[|b.text|..] by {
        assert b'.text[..|b.text|] == b.text;
        assert b'.text == b.text + b'.text[|b.text|..];
      }
      ExtendsTrans(b'.text, b.text, c.text);
    }
  }

  lemma GrewTrans(c: Code, b: Code, b': Code)
    requires Grew(c, b) && Grew(b, b')
    ensures Grew(c, b')
  {
    ExtendsTrans(b'.segments, b.segments, c.segments);
  }

  lemma TagSinceTrans(t: StartTag, a: StartTag, a': StartTag, c0: string, c1: string, c2: string)
    requires Extends(a.properties, t.properties) && Extends(a'.properties, a.properties)
    requires Extends(a.directives, t.directives) && Extends(a'.directives, a.directives)
    requires TagSince(t, a, c0, c1) && TagSince(a, a', c1, c2)
    ensures TagSince(t, a', c0, c2)
  {
    if a'.properties == t.properties && a'.directives == t.directives {
      assert a.properties == t.properties && a.directives == t.directives;
      var b, b' := Code([], a.text, Loc(0, 0, None)), Code([], a'.text, Loc(0, 0, None));
      TextSinceTrans(Code([], t.text, Loc(0, 0, None)), b, b', c0, c1, c2);
    }
  }

  /** A start tag with nothing taken out holds all that was consumed since it began. */
  lemma TagConsumed(t: StartTag, a: StartTag, c0: string, c2: string, closer: string, c3: string)
    requires a.properties == t.properties && a.directives == t.directives
    requires TagSince(t, a, c0 + t.text, c2) && c3 == c2 + closer
    ensures Extends(c3, c0) && c3[|c0|..] == a.text + closer
  {
    ExtendsRest(a.text, t.text);
    assert c3 == c0 + (a.text + closer);
    ExtendsAppend(c0, a.text + closer);
  }

  /** What b adds to a, when b starts with a. */
  lemma ExtendsRest(b: string, a: string)
    requires Extends(b, a)
    ensures b == a + b[|a|..]
  {
    assert b[..|a|] + b[|a|..] == b;
  }

  /**
   * The state of `embeddedCode` between bracketed groups: until the first
   * html literal the text is everything consumed since consumed0, and
   * afterwards the last segment is a literal.
   */
  ghost predicate CodeSoFar(c: Code, consumed0: string, consumed: string)
  {
    (c.segments == [] ==> consumed == consumed0 + c.text) &&
    (|c.segments| > 0 ==> c.segments[|c.segments| - 1].Literal?)
  }

  lemma CodeSoFarStep(c: Code, c': Code, c0: string, c1: string, c2: string)
    requires CodeSoFar(c, c0, c1) && Grew(c, c') && TextSince(c, c', c1, c2)
    ensures CodeSoFar(c', c0, c2)
  {
    if c'.segments == [] {
      ExtendsRest(c'.text, c.text);
    }
  }

  lemma CodeSoFarEnd(c: Code, segments: seq<Segment>, c0: string, c1: string, c2: string)
    requires CodeSoFar(c, c0, c1) && Extends(segments, c.segments) && |segments| <= |c.segments| + 1
    requires c.segments == [] ==>
      |segments| == 1 && segments[0].CodeText? && Extends(segments[0].text, c.text) && c2 == c1 + segments[0].text[|c.text|..]
    ensures |segments| == 1 && segments[0].CodeText? ==> c2 == c0 + segments[0].text
  {
    if c.segments == [] {
      ExtendsRest(segments[0].text, c.text);
    } else if |segments| == 1 {
      assert segments[0] == c.segments[0];
    }
  }

  lemma EndsWithAppend(s: string, t: string)
    ensures EndsWith(s + t, t)
  {
    assert (s + t)[|s|..] == t;
  }

  class Parser {
    const toks: seq<string>
    var i: nat
    var eof: bool
    var tok: string
    var line: nat
    var col: nat
    var pos: nat
    /** How much of token `i` the cursor has moved past. */
    ghost var off: nat

    /** A cursor position: `TOK` is what is left of token `i`, and `EOF` means every token is used. */
    ghost predicate Shape(i': nat, eof': bool, tok': string, off': nat)
    {
      i' <= |toks| && (eof' <==> i' == |toks|) && (eof' ==> tok' == "" && off' == 0) &&
      (!eof' ==> off' <= |toks[i']| && tok' == toks[i'][off'..])
    }

    ghost predicate Valid()
      reads this
    {
      Shape(i, eof, tok, off)
    }

    /** The text before a cursor position. */
    ghost function Before(i': nat, off': nat): (s: string)
      requires i' <= |toks| && (i' < |toks| ==> off' <= |toks[i']|)
    {
      Joined(toks[..i']) + (if i' == |toks| then "" else toks[i'][..off'])
    }

    /** The text the cursor has moved past. */
    ghost function Consumed(): (s: string)
      requires Valid()
      reads this
    {
      Before(i, off)
    }

    /** The cursor is not behind position (i0, n0), n0 being the length of what was left of token i0. */
    predicate NotBefore(i0: nat, n0: nat)
      reads this
    {
      i0 < i || (i0 == i && |tok| <= n0)
    }

    /** The cursor is strictly ahead of position (i0, n0). */
    predicate Past(i0: nat, n0: nat)
      reads this
    {
      i0 < i || (i0 == i && |tok| < n0)
    }

    /** `IS(t)`: at the end `TOK` is `null`, which equals no string. */
    predicate Is(t: string)
      reads this
    {
      !eof && tok == t
    }

    /** `WS()`: the token is all whitespace; `null` reads as the text "null", which is not. */
    predicate Ws()
      reads this
    {
      !eof && AllWs(tok)
    }

    /** The tokens an html literal starts with. */
    predicate AtHtml()
      reads this
    {
      Is("<") || Is("<!--") || Is("@")
    }

    /** Where `htmlText` stops. */
    predicate AtTextEnd()
      reads this
    {
      eof || Is("<") || Is("<!--") || Is("@") || Is("</")
    }

    /** `PARENS()`: the closing bracket of an opening bracket token. */
    function ParensOf(): (r: Option<string>)
      reads this
      ensures r.Some? ==> !eof && Parens(tok) == r
    {
      if eof then None else Parens(tok)
    }

    /** `LOC()` */
    function Here(): (l: Loc)
      reads this
      ensures l.line == line && l.col == col && l.pos == Some(pos)
    {
      Loc(line, col, Some(pos))
    }

    /** `MARK()` */
    function MarkHere(): (m: Mark)
      reads this
      ensures m.tok == tok && m.i == i && m.eof == eof && m.line == line && m.col == col && m.pos == pos
    {
      Mark(tok, i, eof, line, col, pos)
    }

    /** `POS` is the offset of the cursor in `TOKS.join('')`, as `ERR` uses it. */
    ghost predicate Aligned()
      requires Valid()
      reads this
    {
      pos == |Consumed()|
    }

    constructor (toks: seq<string>)
      ensures this.toks == toks && Valid()
      ensures i == 0 && line == 0 && col == 0 && pos == 0
      ensures eof <==> |toks| == 0
      ensures !eof ==> tok == toks[0]
      ensures Consumed() == ""
    {
      this.toks := toks;
      i := 0;
      eof := |toks| == 0;
      tok := if |toks| == 0 then "" else toks[0];
      line, col, pos := 0, 0, 0;
      off := 0;
    }

    /**
     * `NEXT()`: a newline token moves to the next line, any other token
     * moves the column and position on by its length; then the cursor
     * takes the next whole token, or reaches the end.
     */
    /** Moving to the next token passes the rest of this one. */
    lemma BeforeNext(i': nat, off': nat)
      requires i' < |toks| && off' <= |toks[i']|
      ensures Before(i' + 1, 0) == Before(i', off') + toks[i'][off'..]
    {
      ghost var t := toks[i'];
      assert t[..off'] + t[off'..] == t;
      JoinedSnoc(toks, 0, i');
      assert toks[..i' + 1] == toks[0..i' + 1] && toks[..i'] == toks[0..i'];
    }

    method Next()
      requires Valid() && !eof
      modifies this
      ensures Valid() && i == old(i) + 1
      ensures !eof ==> tok == toks[i]
      ensures old(tok) == "\n" ==> line == old(line) + 1 && col == 0 && pos == old(pos) + 1
      ensures old(tok) != "\n" ==> line == old(line) && col == old(col) + |old(tok)| && pos == old(pos) + |old(tok)|
      ensures Consumed() == old(Consumed()) + old(tok)
      ensures old(Aligned()) ==> Aligned()
    {
      BeforeNext(i, off);
      if tok == "\n" {
        line, col, pos := line + 1, 0, pos + 1;
      } else {
        col, pos := col + |tok|, pos + |tok|;
      }
      i, off := i + 1, 0;
      if i >= |toks| {
        eof, tok := true, "";
      } else {
        tok := toks[i];
      }
    }

    /**
     * The part of `SPLIT` after a match of length n: move past the match,
     * and to the next token when nothing of this one is left.
     */
    method Take(n: nat) returns (m: string)
      requires Valid() && !eof && 0 < n <= |tok|
      modifies this
      ensures Valid() && Past(old(i), old(|tok|)) && m == old(tok)[..n]
      ensures line == old(line) && col == old(col) + n && pos == old(pos) + n
      ensures Consumed() == old(Consumed()) + m
      ensures n < |old(tok)| ==> i == old(i) && tok == old(tok)[n..]
      ensures n == |old(tok)| ==> i == old(i) + 1 && (!eof ==> tok == toks[i])
      ensures old(Aligned()) ==> Aligned()
    {
      m := tok[..n];
      ghost var w := toks[i];
      assert w[..off] + m == w[..off + n];
      col, pos := col + n, pos + n;
      tok, off := tok[n..], off + n;
      if tok == "" {
        Next();
      }
    }

    /**
     * `SPLIT(rx)`: take the prefix of the token the pattern matches. At the
     * end the pattern is matched against "null"; a match there makes
     * `substring` fail on `null` (after `COL` and `POS` have moved on, which
     * nothing observes once the error is thrown).
     */
    method Split(p: Pattern) returns (r: Result<Option<string>, ParseError>)
      requires Valid()
      modifies this
      ensures Valid() && NotBefore(old(i), old(|tok|))
      ensures MatchLen(p, if old(eof) then "null" else old(tok)) == 0 ==>
        r == Ok(None) && i == old(i) && eof == old(eof) && tok == old(tok) &&
        line == old(line) && col == old(col) && pos == old(pos)
      ensures old(eof) && MatchLen(p, "null") > 0 ==> r == Err(NullToken)
      ensures !old(eof) && MatchLen(p, old(tok)) > 0 ==>
        r.Ok? && r.value.Some? && Past(old(i), old(|tok|)) &&
        r.value.value == old(tok)[..MatchLen(p, old(tok))] && Consumed() == old(Consumed()) + r.value.value &&
        line == old(line) && col == old(col) + |r.value.value| && pos == old(pos) + |r.value.value|
      ensures r.Ok? && r.value.Some? && MatchLen(p, old(tok)) < |old(tok)| ==>
        i == old(i) && tok == old(tok)[MatchLen(p, old(tok))..]
      ensures r.Ok? && r.value.Some? && MatchLen(p, old(tok)) == |old(tok)| ==> i == old(i) + 1
      ensures r == Ok(None) ==> Consumed() == old(Consumed())
      ensures r.Ok? && r.value.Some? ==> Consumed() == old(Consumed()) + r.value.value
      ensures old(Aligned()) ==> Aligned()
    {
      var n := MatchLen(p, if eof then "null" else tok);
      if n == 0 {
        return Ok(None);
      }
      if eof {
        return Err(NullToken);
      }
      var m := Take(n);
      return Ok(Some(m));
    }

    /**
     * `ROLLBACK(mark)` as written: everything `MARK()` saved comes back, but
     * `POS` is not among it and stays where the abandoned scan left it.
     */
    method RollbackAsWritten(m: Mark, ghost off': nat)
      requires Shape(m.i, m.eof, m.tok, off')
      modifies this
      ensures Valid() && off == off'
      ensures tok == m.tok && i == m.i && eof == m.eof && line == m.line && col == m.col
      ensures pos == old(pos)
    {
      tok, i, eof, line, col := m.tok, m.i, m.eof, m.line, m.col;
      off := off';
    }

    /**
     * `ROLLBACK(mark)` restoring `POS` as well: a mark taken where `POS` was
     * the offset of the cursor gives that again.
     */
    method Rollback(m: Mark, ghost off': nat)
      requires Shape(m.i, m.eof, m.tok, off')
      modifies this
      ensures Valid() && off == off' && (m.pos == |Before(m.i, off')| ==> Aligned())
      ensures tok == m.tok && i == m.i && eof == m.eof && line == m.line && col == m.col && pos == m.pos
    {
      tok, i, eof, line, col, pos := m.tok, m.i, m.eof, m.line, m.col, m.pos;
      off := off';
    }

    // -------------------------------------------------------------------------
    // Productions. A production whose loop body or branches would make one
    // large proof has them as separate methods; `decreases` ranks the
    // productions that call each other without moving the cursor.
    // -------------------------------------------------------------------------

    /** `codeTopLevel()`: code text up to the end, split around the html literals in it. */
    method CodeTopLevelAt() returns (r: Result<CodeTopLevel, ParseError>)
      requires Valid()
      modifies this
      ensures Valid()
      ensures r.Ok? ==> eof && WellSegmented(r.value.segments)
      ensures r.Ok? && AllCode(r.value.segments) ==>
        (|r.value.segments| <= 1 &&
         (r.value.segments == [] ==> Consumed() == old(Consumed())) &&
         (r.value.segments != [] ==> Consumed() == old(Consumed()) + r.value.segments[0].text &&
                                     r.value.segments[0].loc == old(Here())))
    {
      ghost var c0 := Consumed();
      var c := Code([], "", Here());
      ghost var loc0 := c.loc;
      while !eof
        invariant Valid() && TopLevelSoFar(c, Consumed(), c0, loc0)
        decreases |toks| - i, |tok|
      {
        c :- TopLevelItem(c, c0, loc0);
      }
      var segments := c.segments;
      if c.text != "" {
        segments := segments + [CodeText(c.text, c.loc)];
      }
      if c.segments != [] {
        assert segments[|c.segments| - 1] == c.segments[|c.segments| - 1];
      }
      return Ok(CodeTopLevel(segments));
    }

    /** One round of the loop of `codeTopLevel`. */
    method TopLevelItem(c: Code, ghost c0: string, ghost loc0: Loc) returns (r: Result<Code, ParseError>)
      requires Valid() && !eof && TopLevelSoFar(c, Consumed(), c0, loc0)
      modifies this
      ensures Valid()
      ensures r.Ok? ==> Past(old(i), old(|tok|)) && TopLevelSoFar(r.value, Consumed(), c0, loc0)
    {
      if AtHtml() {
        var segments := c.segments;
        if c.text != "" {
          segments := segments + [CodeText(c.text, c.loc)];
        }
        var h :- HtmlLiteralAt();
        return Ok(Code(segments + [Literal(h)], "", Here()));
      }
      ghost var before := Consumed();
      var s :- CodeChunk();
      assert c.segments == [] ==> Consumed() == c0 + (c.text + s);
      return Ok(c.(text := c.text + s));
    }

    /**
     * What the loops of `codeTopLevel` and `balancedParens` add to the
     * text: a quoted string, a comment, or else one token.
     */
    method CodeChunk() returns (r: Result<string, ParseError>)
      requires Valid() && !eof
      modifies this
      ensures Valid() && NotBefore(old(i), old(|tok|))
      ensures r.Ok? ==> Past(old(i), old(|tok|)) && Consumed() == old(Consumed()) + r.value
      ensures !old(Is("\"") || Is("'") || Is("//") || Is("/*")) ==>
        r == Ok(old(tok)) && i == old(i) + 1 && (!eof ==> tok == toks[i])
    {
      if Is("\"") || Is("'") {
        r := QuotedString();
      } else if Is("//") {
        r := SingleLineComment();
      } else if Is("/*") {
        r := MultiLineComment();
      } else {
        var s := tok;
        Next();
        r := Ok(s);
      }
    }

    /** `htmlLiteral()`: elements, comments and inserts, with the whitespace between them. */
    method HtmlLiteralAt() returns (r: Result<HtmlLiteral, ParseError>)
      requires Valid()
      modifies this
      ensures Valid() && NotBefore(old(i), old(|tok|))
      ensures !old(AtHtml()) ==> r == Err(Error("not at start of html expression", None))
      ensures r.Ok? ==> Past(old(i), old(|tok|)) && |r.value.nodes| > 0 && WsTextsBetween(r.value.nodes)
      decreases |toks| - i, |tok|, 8
    {
      if !AtHtml() {
        return Err(Error("not at start of html expression", None));
      }
      ghost var i0, n0 := i, |tok|;
      var nodes: seq<Node> := [];
      while !eof
        invariant Valid() && NotBefore(i0, n0) && WsTextsSoFar(nodes)
        invariant |nodes| == 0 ==> AtHtml()
        invariant |nodes| > 0 ==> Past(i0, n0)
        invariant |nodes| > 0 && nodes[|nodes| - 1].HtmlText? ==> AtHtml()
        decreases |toks| - i, |tok|
      {
        var step :- LiteralItem(nodes);
        if step.1 {
          break;
        }
        WsTextsPush(nodes, step.0[|nodes|]);
        assert step.0 == nodes + [step.0[|nodes|]];
        nodes := step.0;
      }
      return Ok(HtmlLiteral(nodes));
    }

    /**
     * One round of the loop of `htmlLiteral`: an element, comment or insert,
     * or whitespace before one; true when the whitespace was rolled back and
     * the literal ends.
     */
    method LiteralItem(nodes: seq<Node>) returns (r: Result<(seq<Node>, bool), ParseError>)
      requires Valid() && !eof
      modifies this
      ensures Valid() && NotBefore(old(i), old(|tok|))
      ensures r.Ok? && r.value.1 ==>
        r.value.0 == nodes && !old(AtHtml()) && i == old(i) && tok == old(tok) && eof == old(eof)
      ensures r.Ok? && !r.value.1 ==>
        Past(old(i), old(|tok|)) && |r.value.0| == |nodes| + 1 && r.value.0[..|nodes|] == nodes
      ensures r.Ok? && !r.value.1 && r.value.0[|nodes|].HtmlText? ==>
        AllWs(r.value.0[|nodes|].text) && AtHtml() && !old(AtHtml())
      decreases |toks| - i, |tok|, 7
    {
      if Is("<") {
        var e :- HtmlElementAt();
        return Ok((nodes + [e], false));
      } else if Is("<!--") {
        var c :- HtmlCommentAt();
        return Ok((nodes + [c], false));
      } else if Is("@") {
        var h :- HtmlInsertAt();
        return Ok((nodes + [h], false));
      }
      var m := MarkHere();
      ghost var o := off;
      var ws := HtmlWhitespaceText();
      if AtHtml() {
        return Ok((nodes + [ws], false));
      }
      Rollback(m, o);
      return Ok((nodes, true));
    }

    /** `htmlElement()`: a start tag with its properties and directives, then content and end tag. */
    method HtmlElementAt() returns (r: Result<Node, ParseError>)
      requires Valid()
      modifies this
      ensures Valid() && NotBefore(old(i), old(|tok|))
      ensures !old(Is("<")) ==> r == Err(Error("not at start of html element", None))
      ensures r.Ok? ==> Past(old(i), old(|tok|)) && r.value.HtmlElement?
      ensures r.Ok? ==> |r.value.beginTag| > 0 && r.value.beginTag[0] == '<'
      ensures r.Ok? ==> r.value.endTag == "" || EndTagShape(r.value.endTag)
      ensures r.Ok? && r.value.endTag != "" ==> EndsWith(Consumed(), r.value.endTag)
      ensures r.Ok? && r.value.endTag == "" && r.value.properties == [] && r.value.directives == [] ==>
        Extends(Consumed(), old(Consumed())) && r.value.beginTag == DropEmptyLines(TrimTagWs(Consumed()[|old(Consumed())|..]))
      ensures old(Is("<")) && (forall k :: old(i) < k < |toks| ==> PlainAttr(toks[k])) ==>
        r == Err(Error("unterminated start node", Some(old(Here()))))
      ensures old(Is("<")) && old(i) + 1 < |toks| && toks[old(i) + 1] == "/>" ==>
        r == Ok(HtmlElement(DropEmptyLines(TrimTagWs(old(tok) + "/>")), [], [], [], ""))
      ensures old(Is("<")) && old(i) + 2 == |toks| && toks[old(i) + 1] == ">" ==>
        r == Err(Error("element missing close tag", None))
      ensures (old(Is("<")) && old(i) + 2 < |toks| && toks[old(i) + 1] == ">" && toks[old(i) + 2] == "</" &&
               NoneEqual(toks, old(i) + 3, |toks|, ">")) ==>
        r == Err(Error("eof while looking for element close tag", None))
      decreases |toks| - i, |tok|, 6
    {
      if !Is("<") {
        return Err(Error("not at start of html element", None));
      }
      ghost var i0, c0 := i, Consumed();
      var start :- StartTagAt();
      ghost var i1, eof1, tok1, c1 := i, eof, tok, Consumed();
      r := ElementBody(start.0, start.1);
      if i0 + 1 < |toks| && toks[i0 + 1] == ">" {
        assert start.1 && i1 == i0 + 2 && (!eof1 ==> tok1 == toks[i1]);
      }
      if !start.1 {
        assert Consumed() == c1;
      }
    }

    /** The part of `htmlElement` after the start tag: the content and end tag, when the tag ended with `>`. */
    method ElementBody(tag: StartTag, hasContent: bool) returns (r: Result<Node, ParseError>)
      requires Valid()
      modifies this
      ensures Valid() && NotBefore(old(i), old(|tok|))
      ensures !hasContent ==>
        r == Ok(HtmlElement(tag.text, tag.properties, tag.directives, [], "")) && Consumed() == old(Consumed())
      ensures hasContent && r.Ok? ==>
        r.value.HtmlElement? && r.value.beginTag == tag.text && r.value.properties == tag.properties &&
        r.value.directives == tag.directives && EndTagShape(r.value.endTag) && EndsWith(Consumed(), r.value.endTag)
      ensures hasContent && old(eof) ==> r == Err(Error("element missing close tag", None))
      ensures hasContent && old(Is("</")) && NoneEqual(toks, old(i) + 1, |toks|, ">") ==>
        r == Err(Error("eof while looking for element close tag", None))
      decreases |toks| - i, |tok|, 9
    {
      if !hasContent {
        return Ok(HtmlElement(tag.text, tag.properties, tag.directives, [], ""));
      }
      var body :- ElementContent();
      return Ok(HtmlElement(tag.text, tag.properties, tag.directives, body.0, body.1));
    }

    /**
     * The start tag part of `htmlElement`: the tag text up to `>` or `/>`
     * with its properties and directives taken out and its whitespace
     * cleaned up, and whether the element has content (the tag ended with `>`).
     */
    method StartTagAt() returns (r: Result<(StartTag, bool), ParseError>)
      requires Valid() && Is("<")
      modifies this
      ensures Valid() && NotBefore(old(i), old(|tok|))
      ensures r.Ok? ==> Past(old(i), old(|tok|)) && |r.value.0.text| > 0 && r.value.0.text[0] == '<'
      ensures (forall k :: old(i) < k < |toks| ==> PlainAttr(toks[k])) ==>
        r == Err(Error("unterminated start node", Some(old(Here()))))
      ensures old(i) + 1 < |toks| && (toks[old(i) + 1] == ">" || toks[old(i) + 1] == "/>") ==>
        r == Ok((StartTag(DropEmptyLines(TrimTagWs(old(tok) + toks[old(i) + 1])), [], []), toks[old(i) + 1] == ">")) &&
        i == old(i) + 2 && (!eof ==> tok == toks[i])
      ensures r.Ok? && r.value.0.properties == [] && r.value.0.directives == [] ==>
        Extends(Consumed(), old(Consumed())) && r.value.0.text == DropEmptyLines(TrimTagWs(Consumed()[|old(Consumed())|..]))
      decreases |toks| - i, |tok|, 5
    {
      ghost var c0 := Consumed();
      var start := Here();
      var t := StartTag(tok, [], []);
      Next();
      ghost var c1 := Consumed();
      var a :- StartTagAttributes(t);
      ghost var c2, closer := Consumed(), tok;
      r := StartTagClose(a, start);
      if r.Ok? && r.value.0.properties == [] && r.value.0.directives == [] {
        TagConsumed(t, a, c0, c2, closer, Consumed());
      }
    }

    /** The end of the start tag part of `htmlElement`: `>` or `/>`, and the tag text cleaned up. */
    method StartTagClose(t: StartTag, start: Loc) returns (r: Result<(StartTag, bool), ParseError>)
      requires Valid() && |t.text| > 0 && t.text[0] == '<'
      modifies this
      ensures Valid() && NotBefore(old(i), old(|tok|))
      ensures old(eof) ==> r == Err(Error("unterminated start node", Some(start)))
      ensures !old(eof) ==>
        r == Ok((t.(text := DropEmptyLines(TrimTagWs(t.text + old(tok)))), old(Is(">")))) && i == old(i) + 1 &&
        (!eof ==> tok == toks[i]) && Consumed() == old(Consumed()) + old(tok)
      ensures r.Ok? ==> |r.value.0.text| > 0 && r.value.0.text[0] == '<'
    {
      if eof {
        return Err(Error("unterminated start node", Some(start)));
      }
      var hasContent := Is(">");
      var text := t.text + tok;
      Next();
      assert text[0] == '<';
      var trimmed := TrimTagWs(text);
      assert trimmed[0] == '<' by {
        assert !IsSpace('<');
      }
      return Ok((t.(text := DropEmptyLines(trimmed)), hasContent));
    }

    /** The attribute loop of `htmlElement`: directives, properties and plain tokens up to `>` or `/>`. */
    method StartTagAttributes(t: StartTag) returns (r: Result<StartTag, ParseError>)
      requires Valid() && |t.text| > 0 && t.text[0] == '<'
      modifies this
      ensures Valid() && NotBefore(old(i), old(|tok|))
      ensures r.Ok? ==> (eof || Is(">") || Is("/>")) && |r.value.text| > 0 && r.value.text[0] == '<'
      ensures r.Ok? ==> Extends(r.value.properties, t.properties) && Extends(r.value.directives, t.directives)
      ensures r.Ok? ==> TagSince(t, r.value, old(Consumed()), Consumed())
      ensures old(Is(">") || Is("/>")) ==> r == Ok(t) && i == old(i) && tok == old(tok) && eof == old(eof)
      ensures (!old(eof) ==> old(tok) == toks[old(i)]) && (forall k :: old(i) <= k < |toks| ==> PlainAttr(toks[k])) ==>
        r.Ok? && eof
      decreases |toks| - i, |tok|, 5
    {
      ghost var i0, n0, c0 := i, |tok|, Consumed();
      ghost var plain := (!eof ==> tok == toks[i]) && forall k :: i0 <= k < |toks| ==> PlainAttr(toks[k]);
      var a := t;
      while !eof && !Is(">") && !Is("/>")
        invariant Valid() && NotBefore(i0, n0) && |a.text| > 0 && a.text[0] == '<'
        invariant Extends(a.properties, t.properties) && Extends(a.directives, t.directives)
        invariant TagSince(t, a, c0, Consumed())
        invariant old(Is(">") || Is("/>")) ==> a == t && i == i0 && tok == old(tok) && eof == old(eof)
        invariant plain ==> i0 <= i && (!eof ==> tok == toks[i])
        decreases |toks| - i, |tok|
      {
        ghost var before := Consumed();
        var a' :- StartTagItem(a);
        TagSinceTrans(t, a, a', c0, before, Consumed());
        ExtendsTrans(a'.properties, a.properties, t.properties);
        ExtendsTrans(a'.directives, a.directives, t.directives);
        a := a';
      }
      return Ok(a);
    }

    /** One round of the attribute loop of `htmlElement`. */
    method StartTagItem(t: StartTag) returns (r: Result<StartTag, ParseError>)
      requires Valid() && !eof && |t.text| > 0 && t.text[0] == '<'
      modifies this
      ensures Valid() && NotBefore(old(i), old(|tok|))
      ensures r.Ok? ==> Past(old(i), old(|tok|)) && |r.value.text| > 0 && r.value.text[0] == '<'
      ensures r.Ok? ==> Extends(r.value.properties, t.properties) && Extends(r.value.directives, t.directives)
      ensures r.Ok? ==> TagSince(t, r.value, old(Consumed()), Consumed())
      ensures PlainAttr(old(tok)) ==>
        r == Ok(t.(text := t.text + old(tok))) && i == old(i) + 1 && (!eof ==> tok == toks[i])
      decreases |toks| - i, |tok|, 4
    {
      if Is("@") {
        var d :- DirectiveAt();
        return Ok(t.(directives := t.directives + [d]));
      } else if Is("=") {
        r := PropertyAt(t);
      } else {
        var s := tok;
        Next();
        assert (t.text + s)[|t.text|..] == s;
        return Ok(t.(text := t.text + s));
      }
    }

    /** The content part of `htmlElement`: child nodes up to `</`, then the end tag up to `>`. */
    method ElementContent() returns (r: Result<(seq<Node>, string), ParseError>)
      requires Valid()
      modifies this
      ensures Valid() && NotBefore(old(i), old(|tok|))
      ensures r.Ok? ==> Past(old(i), old(|tok|)) && EndTagShape(r.value.1) && EndsWith(Consumed(), r.value.1)
      ensures old(eof) ==> r == Err(Error("element missing close tag", None))
      ensures old(Is("</")) && NoneEqual(toks, old(i) + 1, |toks|, ">") ==>
        r == Err(Error("eof while looking for element close tag", None))
      ensures old(Is("</")) && r.Ok? ==> r.value.0 == [] && Consumed() == old(Consumed()) + r.value.1
      decreases |toks| - i, |tok|, 8
    {
      ghost var i0, n0 := i, |tok|;
      var content: seq<Node> := [];
      while !eof && !Is("</")
        invariant Valid() && NotBefore(i0, n0)
        invariant old(eof || Is("</")) ==> content == [] && i == i0 && tok == old(tok) && eof == old(eof) && off == old(off)
        decreases |toks| - i, |tok|
      {
        content :- ContentItem(content);
      }
      if eof {
        return Err(Error("element missing close tag", None));
      }
      r := EndTagAt(content);
    }

    /** The end tag part of `htmlElement`, from `</` up to and including `>`. */
    method EndTagAt(content: seq<Node>) returns (r: Result<(seq<Node>, string), ParseError>)
      requires Valid() && Is("</")
      modifies this
      ensures Valid() && NotBefore(old(i), old(|tok|))
      ensures r.Ok? ==> Past(old(i), old(|tok|)) && r.value.0 == content && EndTagShape(r.value.1)
      ensures r.Ok? ==> Consumed() == old(Consumed()) + r.value.1
      ensures NoneEqual(toks, old(i) + 1, |toks|, ">") ==> r == Err(Error("eof while looking for element close tag", None))
    {
      var endTag := TakeUntil(">");
      if eof {
        return Err(Error("eof while looking for element close tag", None));
      }
      endTag := endTag + tok;
      Next();
      return Ok((content, endTag));
    }

    /** One round of the content loop of `htmlElement`. */
    method ContentItem(content: seq<Node>) returns (r: Result<seq<Node>, ParseError>)
      requires Valid() && !eof && !Is("</")
      modifies this
      ensures Valid() && NotBefore(old(i), old(|tok|))
      ensures r.Ok? ==> Past(old(i), old(|tok|)) && |r.value| == |content| + 1 && r.value[..|content|] == content
      decreases |toks| - i, |tok|, 7
    {
      if Is("<") {
        var e :- HtmlElementAt();
        return Ok(content + [e]);
      } else if Is("@") {
        var h :- HtmlInsertAt();
        return Ok(content + [h]);
      } else if Is("<!--") {
        var c :- HtmlCommentAt();
        return Ok(content + [c]);
      }
      var t := HtmlTextAt();
      return Ok(content + [t]);
    }

    /** `htmlText()`: tokens up to the next element, comment, insert or end tag. */
    method HtmlTextAt() returns (n: Node)
      requires Valid()
      modifies this
      ensures Valid() && NotBefore(old(i), old(|tok|)) && AtTextEnd()
      ensures n.HtmlText? && Consumed() == old(Consumed()) + n.text
      ensures !old(AtTextEnd()) ==> Past(old(i), old(|tok|))
      ensures old(AtTextEnd()) ==> n.text == "" && i == old(i) && tok == old(tok)
    {
      ghost var i0, c0, tok0, end0 := i, Consumed(), tok, AtTextEnd();
      var text := "";
      while !AtTextEnd()
        invariant Valid() && i0 <= i && Consumed() == c0 + text
        invariant i == i0 ==> text == "" && tok == tok0 && AtTextEnd() == end0
        invariant i0 < i ==> !end0
        decreases |toks| - i
      {
        text := text + tok;
        Next();
      }
      return HtmlText(text);
    }

    /** `htmlWhitespaceText()`: the whitespace tokens in a row. */
    method HtmlWhitespaceText() returns (n: Node)
      requires Valid()
      modifies this
      ensures Valid() && NotBefore(old(i), old(|tok|)) && !Ws()
      ensures n.HtmlText? && AllWs(n.text) && Consumed() == old(Consumed()) + n.text
      ensures old(Ws()) ==> Past(old(i), old(|tok|))
      ensures !old(Ws()) ==> n.text == "" && i == old(i) && tok == old(tok) && eof == old(eof)
    {
      ghost var c0 := Consumed();
      var text := "";
      while Ws()
        invariant Valid() && NotBefore(old(i), old(|tok|)) && Consumed() == c0 + text && AllWs(text)
        invariant old(i) < i || (i == old(i) && tok == old(tok) && eof == old(eof) && text == "")
        invariant old(i) < i ==> old(Ws())
        decreases |toks| - i
      {
        AllWsAppend(text, tok);
        text := text + tok;
        Next();
      }
      return HtmlText(text);
    }

    /** `htmlComment()`: from `<!--` to the first `-->` token. */
    method HtmlCommentAt() returns (r: Result<Node, ParseError>)
      requires Valid()
      modifies this
      ensures Valid() && NotBefore(old(i), old(|tok|))
      ensures !old(Is("<!--")) ==> r == Err(Error("not in HTML comment", None))
      ensures r.Ok? ==> (r.value.HtmlComment? && Past(old(i), old(|tok|)) &&
        Consumed() == old(Consumed()) + r.value.text &&
        old(i) + 1 < i && toks[i - 1] == "-->" && NoneEqual(toks, old(i) + 1, i - 1, "-->"))
      ensures old(Is("<!--")) && r.Err? ==>
        (r == Err(Error("unterminated html comment", None)) && NoneEqual(toks, old(i) + 1, |toks|, "-->"))
    {
      if !Is("<!--") {
        return Err(Error("not in HTML comment", None));
      }
      var text := TakeUntil("-->");
      if eof {
        return Err(Error("unterminated html comment", None));
      }
      text := text + tok;
      Next();
      return Ok(HtmlComment(text));
    }

    /** `htmlInsert()`: `@` followed by embedded code. */
    method HtmlInsertAt() returns (r: Result<Node, ParseError>)
      requires Valid()
      modifies this
      ensures Valid() && NotBefore(old(i), old(|tok|))
      ensures !old(Is("@")) ==> r == Err(Error("not at start of code insert", None))
      ensures r.Ok? ==> Past(old(i), old(|tok|)) && r.value.HtmlInsert? && |r.value.code.segments| > 0
      decreases |toks| - i, |tok|, 3
    {
      if !Is("@") {
        return Err(Error("not at start of code insert", None));
      }
      Next();
      var code :- EmbeddedCodeAt();
      return Ok(HtmlInsert(code));
    }

    /**
     * `property(beginTag, properties)`: at an `=` of the start tag. When the
     * tag text then ends in ` name =` (or ` name =>`, a callback) and the
     * value is not a quoted string, or it is a callback, the name is cut
     * from the tag and the property's embedded code is parsed; otherwise
     * the tag text just grows.
     */
    method PropertyAt(t: StartTag) returns (r: Result<StartTag, ParseError>)
      requires Valid()
      modifies this
      ensures Valid() && NotBefore(old(i), old(|tok|))
      ensures !old(Is("=")) ==> r == Err(Error("not at equals sign of a property assignment", None))
      ensures r.Ok? ==> Past(old(i), old(|tok|)) && r.value.directives == t.directives
      ensures r.Ok? ==> Extends(r.value.properties, t.properties) && |r.value.properties| <= |t.properties| + 1
      ensures r.Ok? && |r.value.properties| > |t.properties| ==> r.value.properties[|t.properties|].name != ""
      ensures r.Ok? && |t.text| > 0 && !IsSpace(t.text[0]) ==> |r.value.text| > 0 && r.value.text[0] == t.text[0]
      ensures r.Ok? && r.value.properties == t.properties ==>
        Extends(r.value.text, t.text) && Consumed() == old(Consumed()) + r.value.text[|t.text|..]
      decreases |toks| - i, |tok|, 3
    {
      if !Is("=") {
        return Err(Error("not at equals sign of a property assignment", None));
      }
      var tag, callback := PropertyHead(t.text);
      var m := PropertyLeftSide(tag);
      if |t.text| > 0 && !IsSpace(t.text[0]) {
        assert tag[0] == (t.text + "=")[0] == t.text[0];
      }
      if m.Some? && (callback || (!Is("\"") && !Is("'"))) {
        var p :- PropertyValue(m.value.name, callback);
        ExtendsAppend(t.properties, [p]);
        return Ok(t.(text := tag[..m.value.start], properties := t.properties + [p]));
      }
      ExtendsTrans(tag, t.text + "=", t.text);
      return Ok(t.(text := tag));
    }

    /** The end of `property` for a property assignment: its embedded code. */
    method PropertyValue(name: string, callback: bool) returns (r: Result<Property, ParseError>)
      requires Valid()
      modifies this
      ensures Valid() && NotBefore(old(i), old(|tok|))
      ensures r.Ok? ==> (Past(old(i), old(|tok|)) && r.value.name == name && r.value.callback == callback &&
        |r.value.code.segments| > 0)
      decreases |toks| - i, |tok|, 3
    {
      var ws :- Split(LeadingWs);
      var code :- EmbeddedCodeAt();
      return Ok(Property(name, code, callback));
    }

    /** The start of `property`: `=`, then `>` (a callback) and one whitespace token join the tag text. */
    method PropertyHead(text: string) returns (tag: string, callback: bool)
      requires Valid() && Is("=")
      modifies this
      ensures Valid() && Past(old(i), old(|tok|))
      ensures Extends(tag, text + "=") && Consumed() == old(Consumed()) + tag[|text|..]
    {
      ghost var c0 := Consumed();
      tag := text + tok;
      Next();
      var more;
      callback, more := ArrowAndWs();
      assert Consumed() == c0 + ("=" + more);
      tag := tag + more;
      assert tag[|text|..] == "=" + more;
      ExtendsAppend(text + "=", more);
    }

    /** The rest of the start of `property`: `>` for a callback and one whitespace token, each if present. */
    method ArrowAndWs() returns (callback: bool, more: string)
      requires Valid()
      modifies this
      ensures Valid() && NotBefore(old(i), old(|tok|)) && Consumed() == old(Consumed()) + more
      ensures callback == old(Is(">"))
    {
      callback, more := false, "";
      if Is(">") {
        callback, more := true, tok;
        Next();
      }
      if Ws() {
        more := more + tok;
        Next();
      }
    }

    /**
     * `directive()`: `@name(...)`, whose bracketed code is the directive,
     * or `@name:param:... = code` (`=>` for a callback), an attribute-style
     * directive whose name is split at the colons.
     */
    method DirectiveAt() returns (r: Result<Directive, ParseError>)
      requires Valid()
      modifies this
      ensures Valid() && NotBefore(old(i), old(|tok|))
      ensures !old(Is("@")) ==> r == Err(Error("not at start of directive", None))
      ensures r.Ok? ==> Past(old(i), old(|tok|)) && r.value.name != "" && |r.value.code.segments| > 0
      ensures r.Ok? && r.value.AttrStyleDirective? ==>
        ':' !in r.value.name && forall p :: p in r.value.params ==> ':' !in p
      ensures r.Ok? && r.value.Directive? && |r.value.code.segments| == 1 && r.value.code.segments[0].CodeText? ==>
        Consumed() == old(Consumed()) + "@" + r.value.name + r.value.code.segments[0].text
      decreases |toks| - i, |tok|, 3
    {
      if !Is("@") {
        return Err(Error("not at start of directive", None));
      }
      ghost var c0 := Consumed();
      Next();
      var name :- Split(DirectiveName);
      if name.None? {
        return Err(Error("directive must have name", None));
      }
      if Is("(") {
        r := ParenDirective(name.value);
      } else {
        r := AttrDirective(name.value);
      }
    }

    /** The `@name(...)` form of `directive`. */
    method ParenDirective(name: string) returns (r: Result<Directive, ParseError>)
      requires Valid() && Is("(")
      modifies this
      ensures Valid() && NotBefore(old(i), old(|tok|))
      ensures r.Ok? ==> Past(old(i), old(|tok|)) && r.value.Directive? && r.value.name == name
      ensures r.Ok? ==> |r.value.code.segments| > 0
      ensures r.Ok? && |r.value.code.segments| == 1 && r.value.code.segments[0].CodeText? ==>
        Consumed() == old(Consumed()) + r.value.code.segments[0].text
      decreases |toks| - i, |tok|, 1
    {
      var c :- BalancedParensAt(Code([], "", Here()));
      var segments := c.segments;
      if c.text != "" {
        segments := segments + [CodeText(c.text, c.loc)];
      }
      return Ok(Directive(name, EmbeddedCode(segments)));
    }

    /** The `@name:param:... = code` form of `directive`, after the name. */
    method AttrDirective(name: string) returns (r: Result<Directive, ParseError>)
      requires Valid() && name != "" && name[0] != ':'
      modifies this
      ensures Valid() && NotBefore(old(i), old(|tok|))
      ensures !old(Ws()) && !old(Is("=")) ==>
        r == Err(Error("unrecognized directive - must have form like @foo:bar = ... or @foo( ... )", None))
      ensures r.Ok? ==> Past(old(i), old(|tok|)) && r.value.AttrStyleDirective? && |r.value.code.segments| > 0
      ensures r.Ok? ==> r.value.name != "" && JoinColons([r.value.name] + r.value.params) == name
      ensures r.Ok? ==> ':' !in r.value.name && forall p :: p in r.value.params ==> ':' !in p
      decreases |toks| - i, |tok|, 3
    {
      var callback :- AttrDirectiveHead();
      var parts := SplitColons(name);
      SplitColonsParts(name);
      SplitColonsJoin(name);
      assert [parts[0]] + parts[1..] == parts;
      assert parts[0] in parts;
      assert forall p :: p in parts[1..] ==> p in parts;
      var code :- EmbeddedCodeAt();
      return Ok(AttrStyleDirective(parts[0], parts[1..], code, callback));
    }

    /**
     * The part of `directive` between the name and the code of an
     * attribute-style directive: an optional whitespace token, `=`, an
     * optional `>` (a callback), and leading whitespace.
     */
    method AttrDirectiveHead() returns (r: Result<bool, ParseError>)
      requires Valid()
      modifies this
      ensures Valid() && NotBefore(old(i), old(|tok|))
      ensures !old(Ws()) && !old(Is("=")) ==>
        r == Err(Error("unrecognized directive - must have form like @foo:bar = ... or @foo( ... )", None))
      ensures r.Ok? ==> Past(old(i), old(|tok|))
    {
      ghost var i0, n0 := i, |tok|;
      SkipWs();
      if !Is("=") {
        return Err(Error("unrecognized directive - must have form like @foo:bar = ... or @foo( ... )", None));
      }
      Next();
      assert i0 < i;
      var callback := CallbackArrow();
      var ws :- Split(LeadingWs);
      return Ok(callback);
    }

    /** `if (WS()) NEXT();`: one whitespace token is skipped. */
    method SkipWs()
      requires Valid()
      modifies this
      ensures Valid() && NotBefore(old(i), old(|tok|))
      ensures old(Ws()) ==> i == old(i) + 1
      ensures !old(Ws()) ==> i == old(i) && tok == old(tok) && eof == old(eof)
    {
      if Ws() {
        Next();
      }
    }

    /** `if (IS('>')) callback = true, NEXT();` after the `=` of an attribute-style directive. */
    method CallbackArrow() returns (callback: bool)
      requires Valid()
      modifies this
      ensures Valid() && old(i) <= i
      ensures callback == old(Is(">"))
      ensures !callback ==> i == old(i) && tok == old(tok) && eof == old(eof)
    {
      callback := Is(">");
      if callback {
        Next();
      }
    }

    /**
     * `embeddedCode()`: operators and an identifier, a property chain, any
     * number of bracketed groups each followed by a chain, and a `++` or
     * `--` suffix.
     */
    method EmbeddedCodeAt() returns (r: Result<EmbeddedCode, ParseError>)
      requires Valid()
      modifies this
      ensures Valid() && NotBefore(old(i), old(|tok|))
      ensures r.Ok? ==> Past(old(i), old(|tok|)) && |r.value.segments| > 0
      ensures old(eof) ==> r == Err(NullToken)
      ensures (!old(eof) && MatchLen(CodePrefix, old(tok)) == 0 && Parens(old(tok)).None? &&
        MatchLen(CodeSuffix, old(tok)) == 0) ==> r == Err(Error("not in embedded code", Some(old(Here()))))
      ensures r.Ok? && |r.value.segments| == 1 && r.value.segments[0].CodeText? ==>
        Consumed() == old(Consumed()) + r.value.segments[0].text
      decreases |toks| - i, |tok|, 2
    {
      ghost var i0, n0, c0 := i, |tok|, Consumed();
      var start := Here();
      var head :- CodeHead();
      var c := Code([], head, start);
      while ParensOf().Some?
        invariant Valid() && NotBefore(i0, n0)
        invariant CodeSoFar(c, c0, Consumed())
        invariant c.text != "" || |c.segments| > 0 ==> Past(i0, n0)
        invariant c.text != "" || |c.segments| > 0 ==> MatchLen(CodePrefix, old(tok)) > 0 || Parens(old(tok)).Some?
        invariant c.text == "" && c.segments == [] ==>
          i == i0 && tok == old(tok) && eof == old(eof) && line == old(line) && col == old(col) && pos == old(pos)
        decreases |toks| - i, |tok|
      {
        ghost var before := Consumed();
        var c' :- ParensRound(c);
        CodeSoFarStep(c, c', c0, before, Consumed());
        c := c';
      }
      ghost var before := Consumed();
      r := CodeTail(c, start);
      if r.Ok? {
        CodeSoFarEnd(c, r.value.segments, c0, before, Consumed());
      }
    }

    /** The end of `embeddedCode`: the suffix, and the error when nothing at all was found. */
    method CodeTail(c: Code, start: Loc) returns (r: Result<EmbeddedCode, ParseError>)
      requires Valid()
      modifies this
      ensures Valid() && NotBefore(old(i), old(|tok|))
      ensures r.Ok? ==> |r.value.segments| > 0
      ensures r.Ok? && c.text == "" && c.segments == [] ==> Past(old(i), old(|tok|))
      ensures (c.text == "" && c.segments == [] && !old(eof) && MatchLen(CodeSuffix, old(tok)) == 0) ==>
        r == Err(Error("not in embedded code", Some(start)))
      ensures r.Ok? && c.segments == [] ==>
        |r.value.segments| == 1 && r.value.segments[0].CodeText? && Extends(r.value.segments[0].text, c.text) &&
        Consumed() == old(Consumed()) + r.value.segments[0].text[|c.text|..]
      ensures r.Ok? ==> Extends(r.value.segments, c.segments) && |r.value.segments| <= |c.segments| + 1
    {
      var suffix :- Split(CodeSuffix);
      var text := c.text;
      if suffix.Some? {
        text := text + suffix.value;
        assert text[|c.text|..] == suffix.value;
      }
      ExtendsAppend(c.segments, [CodeText(text, c.loc)]);
      var segments := c.segments;
      if text != "" {
        segments := segments + [CodeText(text, c.loc)];
      }
      if |segments| == 0 {
        return Err(Error("not in embedded code", Some(start)));
      }
      return Ok(EmbeddedCode(segments));
    }

    /** The start of `embeddedCode`: operators and an identifier, then a property chain. */
    method CodeHead() returns (r: Result<string, ParseError>)
      requires Valid()
      modifies this
      ensures Valid() && NotBefore(old(i), old(|tok|))
      ensures r.Ok? && r.value != "" ==> Past(old(i), old(|tok|))
      ensures r.Ok? ==> Consumed() == old(Consumed()) + r.value
      ensures r.Ok? && r.value == "" ==>
        i == old(i) && tok == old(tok) && eof == old(eof) && line == old(line) && col == old(col) && pos == old(pos)
      ensures old(eof) ==> r == Err(NullToken)
      ensures !old(eof) && MatchLen(CodePrefix, old(tok)) == 0 ==>
        r == Ok("") && i == old(i) && tok == old(tok) && eof == old(eof) &&
        line == old(line) && col == old(col) && pos == old(pos)
    {
      NullMatches();
      var part :- Split(CodePrefix);
      if part.None? {
        return Ok("");
      }
      var chain := Interim();
      return Ok(part.value + chain);
    }

    /** `SPLIT(rx.interim)` as text: the property chain at the cursor, or nothing (the pattern matches nothing of "null", so this cannot fail). */
    method Interim() returns (chain: string)
      requires Valid()
      modifies this
      ensures Valid() && NotBefore(old(i), old(|tok|))
      ensures Consumed() == old(Consumed()) + chain
    {
      var part := Split(CodeInterim);
      chain := if part.Ok? && part.value.Some? then part.value.value else "";
    }

    /** One round of the bracket loop of `embeddedCode`: a bracketed group, then a property chain. */
    method ParensRound(c: Code) returns (r: Result<Code, ParseError>)
      requires Valid() && ParensOf().Some?
      modifies this
      ensures Valid() && NotBefore(old(i), old(|tok|))
      ensures r.Ok? ==> Past(old(i), old(|tok|)) && r.value.text != "" && Grew(c, r.value)
      ensures r.Ok? ==> TextSince(c, r.value, old(Consumed()), Consumed())
      decreases |toks| - i, |tok|, 1
    {
      var b :- BalancedParensAt(c);
      ghost var before := Consumed();
      var chain := Interim();
      var b' := b.(text := b.text + chain);
      assert b'.text[|b.text|..] == chain;
      TextSinceTrans(c, b, b', old(Consumed()), before, Consumed());
      EndsWithAppend(b.text, chain);
      return Ok(b');
    }

    /**
     * `balancedParens(segments, text, loc)`: from an opening bracket to its
     * closer, taking strings and comments whole, descending into nested round
     * brackets and splitting the text around embedded html literals.
     */
    method BalancedParensAt(c: Code) returns (r: Result<Code, ParseError>)
      requires Valid()
      modifies this
      ensures Valid() && NotBefore(old(i), old(|tok|))
      ensures old(ParensOf()).None? ==> r == Err(Error("not in parentheses", None))
      ensures r.Ok? ==> Past(old(i), old(|tok|)) && old(ParensOf()).Some? && EndsWith(r.value.text, old(ParensOf()).value)
      ensures r.Ok? ==> Grew(c, r.value) && TextSince(c, r.value, old(Consumed()), Consumed())
      ensures old(ParensOf()).Some? && (forall k :: old(i) < k < |toks| ==> PlainCode(toks[k]) && toks[k] != old(ParensOf()).value) ==>
        r == Err(Error("unterminated parentheses", None))
      decreases |toks| - i, |tok|, 0
    {
      var end := ParensOf();
      if end.None? {
        return Err(Error("not in parentheses", None));
      }
      ghost var i0, c0 := i, Consumed();
      var b := c.(text := c.text + tok);
      Next();
      assert b.text[|c.text|..] == old(tok);
      r := ParensRest(c, b, end.value, c0, i0);
    }

    /** The loop of `balancedParens` after the opening bracket at token i0, up to and including the closer. */
    method ParensRest(c: Code, b: Code, close: string, ghost c0: string, ghost i0: nat) returns (r: Result<Code, ParseError>)
      requires Valid() && i0 < i && Grew(c, b) && TextSince(c, b, c0, Consumed())
      requires (forall k :: i0 < k < |toks| ==> PlainCode(toks[k]) && toks[k] != close) ==> !eof ==> tok == toks[i]
      modifies this
      ensures Valid() && NotBefore(old(i), old(|tok|))
      ensures r.Ok? ==> Past(old(i), old(|tok|)) && EndsWith(r.value.text, close)
      ensures r.Ok? ==> Grew(c, r.value) && TextSince(c, r.value, c0, Consumed())
      ensures (forall k :: i0 < k < |toks| ==> PlainCode(toks[k]) && toks[k] != close) ==>
        r == Err(Error("unterminated parentheses", None))
      decreases |toks| - i, |tok|, 10
    {
      ghost var i1, n1 := i, |tok|;
      ghost var plain := forall k :: i0 < k < |toks| ==> PlainCode(toks[k]) && toks[k] != close;
      var b := b;
      while !eof && !Is(close)
        invariant Valid() && NotBefore(i1, n1) && Grew(c, b) && TextSince(c, b, c0, Consumed())
        invariant plain ==> i0 < i && (!eof ==> tok == toks[i])
        decreases |toks| - i, |tok|
      {
        ghost var before := Consumed();
        assert plain ==> PlainCode(toks[i]);
        var b' :- ParensItem(b);
        GrewTrans(c, b, b');
        TextSinceTrans(c, b, b', c0, before, Consumed());
        b := b';
      }
      if eof {
        return Err(Error("unterminated parentheses", None));
      }
      assert plain ==> toks[i] != close;
      EndsWithAppend(b.text, tok);
      ghost var before := Consumed();
      var b' := b.(text := b.text + tok);
      assert b'.text[|b.text|..] == tok;
      Next();
      TextSinceTrans(c, b, b', c0, before, Consumed());
      return Ok(b');
    }

    /** One round of the loop of `balancedParens`. */
    method ParensItem(c: Code) returns (r: Result<Code, ParseError>)
      requires Valid() && !eof
      modifies this
      ensures Valid() && NotBefore(old(i), old(|tok|))
      ensures r.Ok? ==> Past(old(i), old(|tok|)) && Grew(c, r.value)
      ensures r.Ok? ==> TextSince(c, r.value, old(Consumed()), Consumed())
      ensures PlainCode(old(tok)) ==> r.Ok? && i == old(i) + 1 && (!eof ==> tok == toks[i])
      decreases |toks| - i, |tok|, 9
    {
      if Is("<") || Is("<!--") {
        var segments := c.segments;
        if c.text != "" {
          segments := segments + [CodeText(c.text, Loc(c.loc.line, c.loc.col, None))];
        }
        var h :- HtmlLiteralAt();
        ExtendsAppend(c.segments, segments[|c.segments|..] + [Literal(h)]);
        assert c.segments + (segments[|c.segments|..] + [Literal(h)]) == segments + [Literal(h)];
        assert |segments + [Literal(h)]| > |c.segments|;
        return Ok(Code(segments + [Literal(h)], "", c.loc.(line := line, col := col)));
      } else if Is("(") {
        r := BalancedParensAt(c);
      } else {
        var s :- CodeChunk();
        assert (c.text + s)[|c.text|..] == s;
        return Ok(c.(text := c.text + s));
      }
    }

    /**
     * `quotedString()`: from a quote token to the first equal token that no
     * odd run of backslashes escapes.
     */
    method QuotedString() returns (r: Result<string, ParseError>)
      requires Valid()
      modifies this
      ensures Valid() && NotBefore(old(i), old(|tok|))
      ensures !old(Is("'") || Is("\"")) ==> r == Err(Error("not in quoted string", None))
      ensures r.Ok? ==> Past(old(i), old(|tok|)) && Consumed() == old(Consumed()) + r.value
      ensures r.Ok? ==> (old(i) + 2 <= i && toks[i - 1] == old(tok) &&
        r.value == old(tok) + Joined(toks[old(i) + 1..i - 1]) + old(tok) &&
        !EscapedEnd(old(tok) + Joined(toks[old(i) + 1..i - 1])) && Unclosed(toks, old(i), i - 1, old(tok)))
      ensures old(Is("'") || Is("\"")) && r.Err? ==>
        (r == Err(Error("unterminated string", None)) && eof)
    {
      if !(Is("'") || Is("\"")) {
        return Err(Error("not in quoted string", None));
      }
      r := QuotedFrom(tok);
    }

    /** `quotedString` from its opening quote on. */
    method QuotedFrom(quote: string) returns (r: Result<string, ParseError>)
      requires Valid() && !eof && tok == quote
      modifies this
      ensures Valid() && i > old(i)
      ensures r.Ok? ==> Consumed() == old(Consumed()) + r.value
      ensures r.Ok? ==> (old(i) + 2 <= i && toks[i - 1] == quote &&
        r.value == quote + Joined(toks[old(i) + 1..i - 1]) + quote &&
        !EscapedEnd(quote + Joined(toks[old(i) + 1..i - 1])) && Unclosed(toks, old(i), i - 1, quote))
      ensures r.Err? ==> r == Err(Error("unterminated string", None)) && eof
    {
      ghost var i0, c0 := i, Consumed();
      var text := tok;
      Next();
      assert toks[i0 + 1..i] == [];
      text := QuoteLoop(quote, i0, c0, text);
      if eof {
        return Err(Error("unterminated string", None));
      }
      ghost var b := i;
      text := QuoteClose(quote, i0, c0, text);
      assert i - 1 == b;
      return Ok(text);
    }

    /** The end of `quotedString`: the closing quote joins the string. */
    method QuoteClose(quote: string, ghost q: nat, ghost c0: string, text: string) returns (text': string)
      requires Valid() && q < i && !eof && tok == toks[i] && tok == quote
      requires Consumed() == c0 + text && text == quote + Joined(toks[q + 1..i])
      requires Unclosed(toks, q, i, quote) && !EscapedEnd(text)
      modifies this
      ensures Valid() && i == old(i) + 1 && q + 2 <= i && toks[i - 1] == quote
      ensures Consumed() == c0 + text' && text' == quote + Joined(toks[q + 1..i - 1]) + quote
      ensures !EscapedEnd(quote + Joined(toks[q + 1..i - 1])) && Unclosed(toks, q, i - 1, quote)
    {
      ghost var t := tok;
      text' := text + tok;
      assert c0 + text' == Consumed() + t;
      Next();
    }

    /** The loop of `quotedString`: tokens join the string until an unescaped closing quote or EOF. */
    method QuoteLoop(quote: string, ghost q: nat, ghost c0: string, text: string) returns (text': string)
      requires Valid() && q < i && (!eof ==> tok == toks[i])
      requires Consumed() == c0 + text && text == quote + Joined(toks[q + 1..i])
      requires Unclosed(toks, q, i, quote)
      modifies this
      ensures Valid() && old(i) <= i && (!eof ==> tok == toks[i])
      ensures Consumed() == c0 + text' && text' == quote + Joined(toks[q + 1..i])
      ensures Unclosed(toks, q, i, quote)
      ensures !eof ==> tok == quote && !EscapedEnd(text')
    {
      text' := text;
      while !eof && (!Is(quote) || EscapedEnd(text'))
        invariant Valid() && old(i) <= i && Consumed() == c0 + text'
        invariant !eof ==> tok == toks[i]
        invariant text' == quote + Joined(toks[q + 1..i])
        invariant Unclosed(toks, q, i, quote)
        decreases |toks| - i
      {
        text' := QuoteStep(quote, q, c0, text');
      }
    }

    /** One round of the loop of `quotedString`: the token joins the string. */
    method QuoteStep(quote: string, ghost q: nat, ghost c0: string, text: string) returns (text': string)
      requires Valid() && q < i && !eof && tok == toks[i]
      requires Consumed() == c0 + text && text == quote + Joined(toks[q + 1..i])
      requires Unclosed(toks, q, i, quote) && (tok != quote || EscapedEnd(text))
      modifies this
      ensures Valid() && i == old(i) + 1 && (!eof ==> tok == toks[i])
      ensures Consumed() == c0 + text' && text' == quote + Joined(toks[q + 1..i])
      ensures Unclosed(toks, q, i, quote)
    {
      ghost var b, t := i, tok;
      UnclosedStep(toks, q, b, quote);
      JoinedSnoc(toks, q + 1, b);
      text' := text + tok;
      assert text' == quote + Joined(toks[q + 1..b + 1]);
      assert c0 + text' == Consumed() + t;
      Next();
    }

    /**
     * The loop `while (!EOF && NOT(stop)) text += TOK, NEXT();` shared by the
     * comments and the end tag: the tokens up to the first one equal to stop.
     */
    method TakeUntil(stop: string) returns (text: string)
      requires Valid()
      modifies this
      ensures Valid() && NotBefore(old(i), old(|tok|)) && (eof || Is(stop))
      ensures Consumed() == old(Consumed()) + text
      ensures old(eof || Is(stop)) ==> text == "" && i == old(i) && tok == old(tok)
      ensures !old(eof || Is(stop)) ==> (old(i) < i && NoneEqual(toks, old(i) + 1, i, stop) &&
        (!eof ==> tok == toks[i]) && |old(tok)| <= |text| && text[..|old(tok)|] == old(tok))
    {
      ghost var i0, c0 := i, Consumed();
      text := "";
      while !eof && !Is(stop)
        invariant Valid() && i0 <= i && Consumed() == c0 + text
        invariant i == i0 ==> text == "" && tok == old(tok)
        invariant i0 < i ==> (!old(eof || Is(stop)) && NoneEqual(toks, i0 + 1, i, stop) &&
          (!eof ==> tok == toks[i]) && |old(tok)| <= |text| && text[..|old(tok)|] == old(tok))
        decreases |toks| - i
      {
        text := text + tok;
        Next();
      }
    }

    /** `codeSingleLineComment()`: from `//` through the next newline token; the end of input also ends it. */
    method SingleLineComment() returns (r: Result<string, ParseError>)
      requires Valid()
      modifies this
      ensures Valid() && NotBefore(old(i), old(|tok|))
      ensures !old(Is("//")) ==> r == Err(Error("not in code comment", None))
      ensures old(Is("//")) ==> r.Ok? && Past(old(i), old(|tok|)) && Consumed() == old(Consumed()) + r.value
      ensures old(Is("//")) ==> (old(i) < i && NoneEqual(toks, old(i) + 1, i - 1, "\n") &&
        (toks[i - 1] == "\n" || eof))
    {
      if !Is("//") {
        return Err(Error("not in code comment", None));
      }
      var text := TakeUntil("\n");
      if !eof {
        text := text + tok;
        Next();
      }
      return Ok(text);
    }

    /** `codeMultiLineComment()`: from `/*` to the first `*/` token. */
    method MultiLineComment() returns (r: Result<string, ParseError>)
      requires Valid()
      modifies this
      ensures Valid() && NotBefore(old(i), old(|tok|))
      ensures !old(Is("/*")) ==> r == Err(Error("not in code comment", None))
      ensures r.Ok? ==> (Past(old(i), old(|tok|)) && Consumed() == old(Consumed()) + r.value &&
        old(i) + 1 < i && toks[i - 1] == "*/" && NoneEqual(toks, old(i) + 1, i - 1, "*/"))
      ensures old(Is("/*")) && r.Err? ==>
        (r == Err(Error("unterminated multi-line comment", None)) && NoneEqual(toks, old(i) + 1, |toks|, "*/"))
    {
      if !Is("/*") {
        return Err(Error("not in code comment", None));
      }
      var text := TakeUntil("*/");
      if eof {
        return Err(Error("unterminated multi-line comment", None));
      }
      text := text + tok;
      Next();
      return Ok(text);
    }
  }

  /** `parse(TOKS)`: the code top level of the whole token list. */
  method ParseTokens(toks: seq<string>) returns (r: Result<CodeTopLevel, ParseError>)
    ensures r.Ok? ==> WellSegmented(r.value.segments)
    ensures r.Ok? && AllCode(r.value.segments) ==>
      r.value.segments == (if Joined(toks) == "" then [] else [CodeText(Joined(toks), Loc(0, 0, Some(0)))])
  {
    var p := new Parser(toks);
    assert p.Consumed() == "" && p.Here() == Loc(0, 0, Some(0));
    r := p.CodeTopLevelAt();
    if r.Ok? {
      assert p.toks[..p.i] == toks;
      assert p.Consumed() == Joined(toks);
      var segs := r.value.segments;
      if AllCode(segs) && segs != [] {
        assert segs[0].CodeText? && segs[0].text != "";
        assert segs == [CodeText(segs[0].text, segs[0].loc)];
        assert segs[0].text == Joined(toks);
        assert segs[0].loc == Loc(0, 0, Some(0));
      }
    }
  }

  /** The tokens of `<a></a> x`: an element, then whitespace that no html node follows. */
  function ElementThenText(): seq<string> {
    ["<", "a", ">", "</", "a", ">", " ", "x"]
  }

  /** A parser standing at the whitespace after the element of `ElementThenText`, offset 7. */
  method AtTrailingText() returns (p: Parser)
    ensures fresh(p) && p.Valid() && p.toks == ElementThenText() && p.i == 6 && p.tok == " "
    ensures p.pos == 7 && p.Aligned() && !p.eof
  {
    p := new Parser(ElementThenText());
    p.Next(); p.Next(); p.Next(); p.Next(); p.Next(); p.Next();
  }

  /**
   * As written, rolling back leaves `POS` where the abandoned scan left it.
   * On `<a></a> x` the html-literal loop marks at the whitespace after the
   * element, takes it, sees `x` and rolls back: the parser stands at the
   * whitespace again, at offset 7, with `POS` 8.
   */
  method RollbackDrift() returns (p: Parser)
    ensures p.Valid() && p.toks == ElementThenText() && p.i == 6 && p.tok == " "
    ensures p.pos == 8 && |p.Consumed()| == 7
  {
    p := AtTrailingText();
    var m := p.MarkHere();
    ghost var o := p.off;
    p.Next();
    p.RollbackAsWritten(m, o);
  }

  /** With `POS` restored, the same steps leave it at the cursor's offset. */
  method RollbackRealigns() returns (p: Parser)
    ensures p.Valid() && p.toks == ElementThenText() && p.i == 6 && p.tok == " "
    ensures p.Aligned() && p.pos == 7
  {
    p := AtTrailingText();
    var m := p.MarkHere();
    ghost var o := p.off;
    p.Next();
    p.Rollback(m, o);
  }
}
