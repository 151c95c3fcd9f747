/**
 * The source-map helpers of the html-literals preprocessor: the Base64 VLQ
 * encoder of the Source Map Revision 3 format ("Base64 VLQ" section of the
 * proposal), the scanner that strips location markers out of generated code and
 * emits the `mappings` string, and the map record built around it.
 */
module SourceMap {
  import opened Wrappers

  // ---------------------------------------------------------------------------
  // Base64 VLQ
  // ---------------------------------------------------------------------------

  /**
   * The digit of value `k` in the alphabet of last groups,
   * `ABCDEFGHIJKLMNOPQRSTUVWXYZabcdef` (Base64 values 0..31).
   */
  function LastDigit(k: nat): char
    requires k < 32
  {
    if k < 26 then ('A' as int + k) as char else ('a' as int + k - 26) as char
  }

  /**
   * The digit of value `k` in the alphabet of continued groups,
   * `ghijklmnopqrstuvwxyz0123456789+/` (Base64 values 32..63: continuation bit set).
   */
  function ContDigit(k: nat): char
    requires k < 32
  {
    if k < 20 then ('g' as int + k) as char
    else if k < 30 then ('0' as int + k - 20) as char
    else if k == 30 then '+'
    else '/'
  }

  /** ECMAScript ToInt32: the 32-bit two's-complement value an operand of `<<` is reduced to. */
  function ToInt32(x: int): (r: int)
    ensures -0x8000_0000 <= r < 0x8000_0000
  {
    var m := x % 0x1_0000_0000;
    if m >= 0x8000_0000 then m - 0x1_0000_0000 else m
  }

  /**
   * The sign moved to the least significant bit, with JavaScript's 32-bit shift:
   * a negative `n` becomes `(-n << 1) + 1`, any other `n << 1`.
   */
  function SignToLsb(n: int): (r: int)
    ensures r % 2 == (if n < 0 then 1 else 0)
  {
    if n < 0 then ToInt32(ToInt32(-n) * 2) + 1 else ToInt32(ToInt32(n) * 2)
  }

  lemma SignToLsbInRange(n: int)
    requires -0x4000_0000 < n < 0x4000_0000
    ensures SignToLsb(n) == if n < 0 then 2 * -n + 1 else 2 * n
  {
    ToInt32Small(n);
    ToInt32Small(-n);
    ToInt32Small(2 * n);
    ToInt32Small(2 * -n);
  }

  lemma ToInt32Small(x: int)
    requires -0x8000_0000 <= x < 0x8000_0000
    ensures ToInt32(x) == x
  {
  }

  /** The character `Number.prototype.toString(32)` uses for the digit `d`. */
  function Digit32(d: nat): char
    requires d < 32
  {
    if d < 10 then ('0' as int + d) as char else ('a' as int + d - 10) as char
  }

  /** `x.toString(32)` for a non-negative integer: base-32 digits, most significant first. */
  function ToBase32(x: nat): (s: string)
    ensures |s| >= 1
    decreases x
  {
    if x < 32 then [Digit32(x)] else ToBase32(x / 32) + [Digit32(x % 32)]
  }

  /** `x.toString(32)` for any integer: a negative number gets a leading `-`. */
  function NumberToString32(x: int): (s: string)
    ensures |s| >= 1
  {
    if x < 0 then "-" + ToBase32(-x) else ToBase32(x)
  }

  /** `parseInt(c, 32)` for a one-character string; `None` stands for `NaN`. */
  function ParseInt32(c: char): (r: Option<nat>)
    ensures r.Some? ==> r.value < 32
  {
    if '0' <= c <= '9' then Some(c as int - '0' as int)
    else if 'a' <= c <= 'v' then Some(c as int - 'a' as int + 10)
    else if 'A' <= c <= 'V' then Some(c as int - 'A' as int + 10)
    else None
  }

  /**
   * The text that `str += vlq_continuation_alphabet[d]` appends: the indexed
   * digit, or the word `undefined` when the index is `NaN`.
   */
  function PickCont(d: Option<nat>): (r: string)
    ensures d.Some? && d.value < 32 ==> |r| == 1 && Base64Value(r[0]) == Some(32 + d.value)
    ensures !(d.Some? && d.value < 32) ==> r == "undefined"
  {
    if d.Some? && d.value < 32 then AlphabetValues(d.value); [ContDigit(d.value)] else "undefined"
  }

  /** The same for the alphabet of last groups. */
  function PickLast(d: Option<nat>): (r: string)
    ensures d.Some? && d.value < 32 ==> |r| == 1 && Base64Value(r[0]) == Some(d.value)
    ensures !(d.Some? && d.value < 32) ==> r == "undefined"
  {
    if d.Some? && d.value < 32 then AlphabetValues(d.value); [LastDigit(d.value)] else "undefined"
  }

  /** What the digit loop of `vlq` appends for the digits `t`, taken last to first. */
  function ContReversed(t: string): string
    decreases |t|
  {
    if t == [] then "" else ContReversed(t[1..]) + PickCont(ParseInt32(t[0]))
  }

  /** Five-bit groups of `x`, least significant first; the last group has no continuation bit. */
  function Groups(x: nat): (s: string)
    ensures |s| >= 1
    decreases x
  {
    if x < 32 then [LastDigit(x)] else [ContDigit(x % 32)] + Groups(x / 32)
  }

  /** Five-bit groups of `x`, least significant first, all with the continuation bit. */
  function ContGroups(x: nat): string
    decreases x
  {
    if x < 32 then [ContDigit(x)] else [ContDigit(x % 32)] + ContGroups(x / 32)
  }

  /**
   * The VLQ text of a shifted value, stated group-wise. A value whose shift
   * overflowed to a negative 32-bit number prints as continuation digits
   * followed by the word `undefined`, which is what the digit lookup
   * produces for the `-` sign.
   */
  function GroupsOf(x: int): string {
    if x >= 0 then Groups(x) else ContGroups(-x) + "undefined"
  }

  /** The VLQ text of `n`. */
  function VlqSpec(n: int): string {
    GroupsOf(SignToLsb(n))
  }

  /** `vlq(num)`: the sign bit is moved into bit 0, then base-32 digits are emitted least significant first. */
  method Vlq(n: int) returns (str: string)
    ensures str == VlqSpec(n)
  {
    var num := SignToLsb(n);
    var digits := NumberToString32(num);
    str := "";
    var i := |digits| - 1;
    while i > 0
      invariant 0 <= i < |digits|
      invariant str == ContReversed(digits[i + 1..])
    {
      assert digits[i..][1..] == digits[i + 1..];
      str := str + PickCont(ParseInt32(digits[i]));
      i := i - 1;
    }
    str := str + PickLast(ParseInt32(digits[0]));
    DigitsMatchGroups(num);
  }

  lemma DigitsMatchGroups(x: int)
    ensures ContReversed(NumberToString32(x)[1..]) + PickLast(ParseInt32(NumberToString32(x)[0])) == GroupsOf(x)
  {
    if x >= 0 {
      Base32MatchesGroups(x);
    } else {
      var t := NumberToString32(x);
      assert t[1..] == ToBase32(-x);
      Base32MatchesContGroups(-x);
    }
  }

  lemma ParseDigit32(d: nat)
    requires d < 32
    ensures ParseInt32(Digit32(d)) == Some(d)
  {
  }

  lemma {:induction false} ContReversedSnoc(t: string, c: char)
    ensures ContReversed(t + [c]) == PickCont(ParseInt32(c)) + ContReversed(t)
    decreases |t|
  {
    if t == [] {
      assert ([] + [c])[1..] == [];
    } else {
      assert (t + [c])[1..] == t[1..] + [c];
      assert (t + [c])[0] == t[0];
      ContReversedSnoc(t[1..], c);
    }
  }

  lemma {:induction false} Base32MatchesGroups(x: nat)
    ensures ContReversed(ToBase32(x)[1..]) + PickLast(ParseInt32(ToBase32(x)[0])) == Groups(x)
    decreases x
  {
    ParseDigit32(x % 32);
    if x >= 32 {
      Base32MatchesGroups(x / 32);
      DigitLoopSnoc(ToBase32(x / 32), Digit32(x % 32), Groups(x / 32));
    } else {
      assert ToBase32(x)[1..] == [];
    }
  }

  /** One more base-32 digit at the end puts one more continuation group at the front. */
  lemma DigitLoopSnoc(t: string, d: char, g: string)
    requires |t| >= 1 && ContReversed(t[1..]) + PickLast(ParseInt32(t[0])) == g
    ensures ContReversed((t + [d])[1..]) + PickLast(ParseInt32((t + [d])[0])) == PickCont(ParseInt32(d)) + g
  {
    SnocSlices(t, d);
    ContReversedSnoc(t[1..], d);
    var c, r, l := PickCont(ParseInt32(d)), ContReversed(t[1..]), PickLast(ParseInt32(t[0]));
    assert (c + r) + l == c + (r + l);
  }

  lemma SnocSlices(t: string, d: char)
    requires |t| >= 1
    ensures (t + [d])[1..] == t[1..] + [d] && (t + [d])[0] == t[0]
  {
  }

  lemma {:induction false} Base32MatchesContGroups(x: nat)
    ensures ContReversed(ToBase32(x)) == ContGroups(x)
    decreases x
  {
    ParseDigit32(x % 32);
    if x >= 32 {
      ContReversedSnoc(ToBase32(x / 32), Digit32(x % 32));
      Base32MatchesContGroups(x / 32);
    } else {
      assert ToBase32(x)[1..] == [];
    }
  }

  lemma VlqExamples()
    ensures VlqSpec(0) == "A" && VlqSpec(1) == "C" && VlqSpec(-1) == "D"
    ensures VlqSpec(8) == "Q" && VlqSpec(16) == "gB"
  {
    SignToLsbInRange(0);
    SignToLsbInRange(1);
    SignToLsbInRange(-1);
    SignToLsbInRange(8);
    SignToLsbInRange(16);
    assert Groups(32) == [ContDigit(0)] + Groups(1);
  }

  // A standard VLQ decoder, independent of the encoder above.

  /** The value of a Base64 digit. */
  function Base64Value(c: char): Option<nat> {
    if 'A' <= c <= 'Z' then Some(c as int - 'A' as int)
    else if 'a' <= c <= 'z' then Some(c as int - 'a' as int + 26)
    else if '0' <= c <= '9' then Some(c as int - '0' as int + 52)
    else if c == '+' then Some(62)
    else if c == '/' then Some(63)
    else None
  }

  /** Reads groups least significant first until one without the continuation bit, which must end `s`. */
  function DecodeMagnitude(s: string): Option<nat>
    decreases |s|
  {
    if s == [] then None
    else match Base64Value(s[0])
      case None => None
      case Some(v) =>
        if v < 32 then (if |s| == 1 then Some(v) else None)
        else match DecodeMagnitude(s[1..])
          case None => None
          case Some(rest) => Some(v - 32 + 32 * rest)
  }

  /** Decodes one VLQ value: bit 0 is the sign. */
  function DecodeVlq(s: string): Option<int> {
    match DecodeMagnitude(s)
    case None => None
    case Some(x) => Some(if x % 2 == 1 then -(x / 2) else x / 2)
  }

  lemma AlphabetValues(k: nat)
    requires k < 32
    ensures Base64Value(LastDigit(k)) == Some(k)
    ensures Base64Value(ContDigit(k)) == Some(32 + k)
  {
  }

  lemma {:induction false} DecodeGroups(x: nat)
    ensures DecodeMagnitude(Groups(x)) == Some(x)
    decreases x
  {
    AlphabetValues(x % 32);
    if x >= 32 {
      assert Groups(x)[1..] == Groups(x / 32);
      DecodeGroups(x / 32);
    }
  }

  /** A standard decoder inverts `vlq` on every value the 32-bit shift does not overflow. */
  lemma VlqRoundTrip(n: int)
    requires -0x4000_0000 < n < 0x4000_0000
    ensures DecodeVlq(VlqSpec(n)) == Some(n)
  {
    SignToLsbInRange(n);
    DecodeGroups(SignToLsb(n));
  }

  predicate NotSeparator(c: char) {
    c != ';' && c != ','
  }

  lemma {:induction false} GroupsHaveNoSeparator(x: nat)
    ensures forall j :: 0 <= j < |Groups(x)| ==> NotSeparator(Groups(x)[j])
    ensures forall j :: 0 <= j < |ContGroups(x)| ==> NotSeparator(ContGroups(x)[j])
    decreases x
  {
    if x >= 32 {
      GroupsHaveNoSeparator(x / 32);
    }
  }

  /** VLQ text never contains the separators of the `mappings` string. */
  lemma VlqHasNoSeparator(n: int)
    ensures ';' !in VlqSpec(n) && ',' !in VlqSpec(n)
  {
    var x := SignToLsb(n);
    if x >= 0 {
      GroupsHaveNoSeparator(x);
    } else {
      GroupsHaveNoSeparator(-x);
      var s := VlqSpec(n);
      assert s == ContGroups(-x) + "undefined";
      assert forall j :: 0 <= j < |s| ==> NotSeparator(s[j]);
    }
  }

  // ---------------------------------------------------------------------------
  // Location markers and extractMappings
  // ---------------------------------------------------------------------------

  /** Decimal text of a number, as JavaScript's string concatenation prints it. */
  function NatToString(n: nat): (s: string)
    ensures |s| >= 1
    decreases n
  {
    if n < 10 then [('0' as int + n) as char] else NatToString(n / 10) + [('0' as int + n % 10) as char]
  }

  /** `segmentStart(loc)`: the marker that opens a generated segment for source line and column. */
  function SegmentStartMarker(line: nat, col: nat): (r: string)
    ensures |r| >= 5 && r[0] == '\U{0}' && r[|r| - 1] == '\U{0}'
  {
    "\U{0}" + NatToString(line) + "," + NatToString(col) + "\U{0}"
  }

  /** `segmentEnd()`: the marker that closes a generated segment. */
  function SegmentEndMarker(): string {
    "\U{0}\U{0}"
  }

  predicate IsDigit(c: char) {
    '0' <= c <= '9'
  }

  /** Length of the run of decimal digits at index `i` of `s` (`\d+` is greedy). */
  function DigitsFrom(s: string, i: nat): (k: nat)
    requires i <= |s|
    ensures i + k <= |s|
    decreases |s| - i
  {
    if i < |s| && IsDigit(s[i]) then 1 + DigitsFrom(s, i + 1) else 0
  }

  lemma {:induction false} DigitsFromAreDigits(s: string, i: nat, j: nat)
    requires i <= |s| && i <= j < i + DigitsFrom(s, i)
    ensures IsDigit(s[j])
    decreases j - i
  {
    if j > i {
      DigitsFromAreDigits(s, i + 1, j);
    }
  }

  /** A run of exactly `k` digits at `i` that a non-digit ends. */
  lemma {:induction false} DigitsFromExactly(s: string, i: nat, k: nat)
    requires i + k < |s| && !IsDigit(s[i + k])
    requires forall j :: i <= j < i + k ==> IsDigit(s[j])
    ensures DigitsFrom(s, i) == k
    decreases k
  {
    if k > 0 {
      DigitsFromExactly(s, i + 1, k - 1);
    }
  }

  function DigitValue(c: char): nat {
    if IsDigit(c) then c as int - '0' as int else 0
  }

  /** `parseInt` of the decimal digits `s[i..j]`. */
  function DecimalValue(s: string, i: nat, j: nat): nat
    requires i <= j <= |s|
    decreases j - i
  {
    if i == j then 0 else DecimalValue(s, i, j - 1) * 10 + DigitValue(s[j - 1])
  }

  /** Equal digits give equal values, wherever they stand. */
  lemma {:induction false} DecimalAgree(s: string, i: nat, u: string, h: nat, n: nat)
    requires i + n <= |s| && h + n <= |u|
    requires forall j :: i <= j < i + n ==> s[j] == u[h + (j - i)]
    ensures DecimalValue(s, i, i + n) == DecimalValue(u, h, h + n)
    decreases n
  {
    if n > 0 {
      assert s[i + n - 1] == u[h + n - 1];
      DecimalAgree(s, i, u, h, n - 1);
    }
  }

  /** Which alternative of `/(\n)|(\U{0}(\d+),(\d+)\U{0})|(\U{0}\U{0})/` matches at an index. */
  datatype Marker = Newline | SegmentStart(line: nat, col: nat, width: nat) | SegmentEnd | Plain(c: char)

  /** Number of characters a match (or the single copied character) covers. */
  function Width(m: Marker): nat {
    match m
    case Newline => 1
    case SegmentStart(_, _, w) => w
    case SegmentEnd => 2
    case Plain(_) => 1
  }

  /** After a NUL at `p` that opens no start marker: an end marker, or a character that is kept. */
  function EndOrPlain(s: string, p: nat): (m: Marker)
    requires p < |s|
    ensures 1 <= Width(m) && p + Width(m) <= |s| && !m.Newline?
    ensures m.Plain? ==> m.c == s[p]
    ensures m.SegmentEnd? ==> p + 1 < |s| && s[p + 1] == '\U{0}'
  {
    if p + 1 < |s| && s[p + 1] == '\U{0}' then SegmentEnd else Plain(s[p])
  }

  /** After a NUL at `p`, digits, and a comma at `q`: digits and a closing NUL complete a start marker. */
  function AfterComma(s: string, p: nat, q: nat): (m: Marker)
    requires p < q < |s|
    ensures 1 <= Width(m) && p + Width(m) <= |s| && !m.Newline?
    ensures m.Plain? ==> m.c == s[p]
  {
    var b := DigitsFrom(s, q + 1);
    var r := q + 1 + b;
    if b > 0 && r < |s| && s[r] == '\U{0}' then
      SegmentStart(DecimalValue(s, p + 1, q), DecimalValue(s, q + 1, r), r + 1 - p)
    else EndOrPlain(s, p)
  }

  /** After a NUL at `p`: digits and a comma continue a start marker. */
  function AfterNul(s: string, p: nat): (m: Marker)
    requires p < |s|
    ensures 1 <= Width(m) && p + Width(m) <= |s| && !m.Newline?
    ensures m.Plain? ==> m.c == s[p]
  {
    var a := DigitsFrom(s, p + 1);
    var q := p + 1 + a;
    if a > 0 && q < |s| && s[q] == ',' then AfterComma(s, p, q) else EndOrPlain(s, p)
  }

  /** The match, if any, at index `p` of the text `s`, as the global regular expression tries it. */
  function MarkerAt(s: string, p: nat): (m: Marker)
    requires p < |s|
    ensures 1 <= Width(m) && p + Width(m) <= |s|
    ensures m.Newline? <==> s[p] == '\n'
    ensures m.Plain? ==> m.c == s[p]
  {
    if s[p] == '\n' then Newline
    else if s[p] != '\U{0}' then Plain(s[p])
    else AfterNul(s, p)
  }

  /** A marker never spans a newline. */
  lemma MarkerHasNoNewline(s: string, p: nat, j: nat)
    requires p < |s| && !MarkerAt(s, p).Newline?
    requires p <= j < p + Width(MarkerAt(s, p))
    ensures s[j] != '\n'
  {
    var m := MarkerAt(s, p);
    if m.SegmentStart? && j > p {
      var a := DigitsFrom(s, p + 1);
      var q := p + 1 + a;
      if j < q {
        DigitsFromAreDigits(s, p + 1, j);
      } else if q < j < q + 1 + DigitsFrom(s, q + 1) {
        DigitsFromAreDigits(s, q + 1, j);
      }
    }
  }

  /** The tokens of `s` from index `p` on: the matches and the single characters between them. */
  function Tokens(s: string, p: nat): seq<Marker>
    requires p <= |s|
    decreases |s| - p
  {
    if p == |s| then [] else [MarkerAt(s, p)] + Tokens(s, p + Width(MarkerAt(s, p)))
  }

  function Tokenize(s: string): seq<Marker> {
    Tokens(s, 0)
  }

  /** What each token contributes to the output: a newline is kept, markers are removed. */
  function Output(ts: seq<Marker>): string
    decreases |ts|
  {
    if ts == [] then []
    else
      (match ts[0]
       case Newline => "\n"
       case Plain(c) => [c]
       case _ => "")
      + Output(ts[1..])
  }

  /** The generated text with every marker removed: the `src` that `extractMappings` returns. */
  function Stripped(s: string): string {
    Output(Tokenize(s))
  }

  /** Number of occurrences of `c` in `s`. */
  function Count(s: string, c: char): nat
    decreases |s|
  {
    if s == [] then 0 else (if s[0] == c then 1 else 0) + Count(s[1..], c)
  }

  /** Number of newline tokens. */
  function NewlineCount(ts: seq<Marker>): nat
    decreases |ts|
  {
    if ts == [] then 0 else (if ts[0].Newline? then 1 else 0) + NewlineCount(ts[1..])
  }

  /**
   * The running state of the scanner: the output so far, the `mappings` so
   * far, and the variables `pgcol`, `psline`, `pscol`, `insegment`,
   * `linestart` and `linecont`. `outstart` is where the current line begins in
   * the OUTPUT; only the corrected scanner reads it.
   */
  datatype Scan = Scan(src: string, mappings: string, pgcol: int, psline: int, pscol: int,
                       insegment: bool, linestart: int, linecont: bool, outstart: int)

  const Init := Scan("", "", 0, 0, 0, false, 0, false, 0)

  /**
   * One token at offset `off` of the original text. With `fixed` false the
   * generated column is `offset - linestart`, both measured in the text that
   * still holds the markers, as the source does; with `fixed` true it is the
   * column in the output.
   */
  function Step(st: Scan, m: Marker, off: int, fixed: bool): Scan {
    match m
    case Newline => NewlineStep(st, off)
    case SegmentStart(line, col, _) => SegmentStep(st, line, col, off, fixed)
    case SegmentEnd => st.(insegment := false)
    case Plain(c) => st.(src := st.src + [c])
  }

  /** A newline: a `;` in `mappings`, and a segment still open continues at column 0 of the next line. */
  function NewlineStep(st: Scan, off: int): (r: Scan)
    ensures OutputLineTracked(r) && r.pgcol == 0
    ensures |r.mappings| > |st.mappings| && r.mappings[..|st.mappings| + 1] == st.mappings + ";"
  {
    st.(src := st.src + "\n",
        mappings := st.mappings + ";" + (if st.insegment then "AA" + VlqSpec(1) + VlqSpec(0 - st.pscol) else ""),
        psline := if st.insegment then st.psline + 1 else st.psline,
        pscol := if st.insegment then 0 else st.pscol,
        linecont := st.insegment,
        linestart := off + 1,
        pgcol := 0,
        outstart := |st.src| + 1)
  }

  /** The generated column of a segment that starts at offset `off`. */
  function GeneratedColumn(st: Scan, off: int, fixed: bool): int {
    if fixed then |st.src| - st.outstart else off - st.linestart
  }

  /** A segment start: one segment of four deltas, after a `,` unless it is first on its line. */
  function SegmentStep(st: Scan, line: nat, col: nat, off: int, fixed: bool): (r: Scan)
    ensures r.src == st.src && r.outstart == st.outstart && r.insegment
    ensures |r.mappings| >= |st.mappings| && r.mappings[..|st.mappings|] == st.mappings
  {
    var gcol := GeneratedColumn(st, off, fixed);
    st.(mappings := st.mappings + SegmentText(st, line, col, gcol),
        insegment := true, linecont := true, pgcol := gcol, psline := line, pscol := col)
  }

  /** The text of one segment: generated column, source index 0, source line and column, each relative. */
  function SegmentText(st: Scan, line: nat, col: nat, gcol: int): string {
    (if st.linecont then "," else "") + VlqSpec(gcol - st.pgcol) + "A"
    + VlqSpec(line - st.psline) + VlqSpec(col - st.pscol)
  }

  /** The scanner run over the tokens `ts`, the first of which is at offset `off`, from state `st`. */
  function Run(ts: seq<Marker>, off: int, st: Scan, fixed: bool): Scan
    decreases |ts|
  {
    if ts == [] then st else Run(ts[1..], off + Width(ts[0]), Step(st, ts[0], off, fixed), fixed)
  }

  /** The `mappings` string the scanner produces for the whole generated text. */
  function Mappings(s: string, fixed: bool): string {
    Run(Tokenize(s), 0, Init, fixed).mappings
  }

  lemma RunCons(m: Marker, ts: seq<Marker>, off: int, st: Scan, fixed: bool)
    ensures Run([m] + ts, off, st, fixed) == Run(ts, off + Width(m), Step(st, m, off, fixed), fixed)
  {
    assert ([m] + ts)[1..] == ts;
  }

  /** One turn of the scanning loop: the token at `p`, then the rest of the text. */
  lemma RunTokensStep(s: string, p: nat, st: Scan, fixed: bool)
    requires p < |s|
    ensures Run(Tokens(s, p), p, st, fixed)
            == Run(Tokens(s, p + Width(MarkerAt(s, p))), p + Width(MarkerAt(s, p)), Step(st, MarkerAt(s, p), p, fixed), fixed)
  {
    var m := MarkerAt(s, p);
    assert Tokens(s, p) == [m] + Tokens(s, p + Width(m));
    RunCons(m, Tokens(s, p + Width(m)), p, st, fixed);
  }

  // The three branches of the replacement callback of `extractMappings`. The
  // variables the callback closes over (`mappings`, `pgcol`, `psline`,
  // `pscol`, `insegment`, `linestart`, `linecont`) travel in a `Scan` record;
  // each branch returns the replacement text and the updated record.

  /** A newline at `offset`: it is kept, and an open segment is continued on the next line. */
  method OnNewline(st: Scan, offset: int) returns (replacement: string, next: Scan)
    ensures replacement == "\n"
    ensures next == NewlineStep(st, offset)
  {
    var mappings := st.mappings + ";";
    var psline, pscol, linecont := st.psline, st.pscol, st.linecont;
    var text := "";
    if st.insegment {
      var one := Vlq(1);
      var back := Vlq(0 - pscol);
      text := "AA" + one + back;
      psline, pscol, linecont := psline + 1, 0, true;
    } else {
      linecont := false;
    }
    replacement := "\n";
    next := st.(src := st.src + replacement, mappings := mappings + text, psline := psline, pscol := pscol,
                linecont := linecont, linestart := offset + 1, pgcol := 0, outstart := |st.src| + 1);
  }

  /** A segment start marker at `offset`: it is removed, and one segment is appended to `mappings`. */
  method OnSegmentStart(st: Scan, line: nat, col: nat, offset: int) returns (replacement: string, next: Scan)
    ensures replacement == ""
    ensures next == SegmentStep(st, line, col, offset, false)
  {
    var gcol := offset - st.linestart;
    var dg := Vlq(gcol - st.pgcol);
    var dl := Vlq(line - st.psline);
    var dc := Vlq(col - st.pscol);
    var text := (if st.linecont then "," else "") + dg + "A" + dl + dc;
    assert text == SegmentText(st, line, col, gcol);
    replacement := "";
    next := st.(mappings := st.mappings + text,
                insegment := true, linecont := true, pgcol := gcol, psline := line, pscol := col);
  }

  /**
   * One match of the marker pattern at `p` (or the single character the
   * pattern skips there) and what the replacement callback does with it.
   */
  method ScanAt(embedded: string, p: nat, st: Scan) returns (next: Scan, width: nat)
    requires p < |embedded|
    ensures width == Width(MarkerAt(embedded, p))
    ensures next == Step(st, MarkerAt(embedded, p), p, false)
  {
    var m := MarkerAt(embedded, p);
    match m {
      case Newline =>
        var replacement;
        replacement, next := OnNewline(st, p);
      case SegmentStart(line, col, _) =>
        var replacement;
        replacement, next := OnSegmentStart(st, line, col, p);
      case SegmentEnd =>
        next := st.(insegment := false);
      case Plain(c) =>
        next := st.(src := st.src + [c]);
    }
    width := Width(m);
  }

  /** `extractMappings(embedded)`, as the source computes it. */
  method ExtractMappings(embedded: string) returns (src: string, mappings: string)
    ensures src == Stripped(embedded)
    ensures Count(mappings, ';') == Count(embedded, '\n')
    ensures mappings == Mappings(embedded, false)
  {
    var st := Init;
    ghost var final := Run(Tokenize(embedded), 0, Init, false);
    var p := 0;
    while p < |embedded|
      invariant 0 <= p <= |embedded|
      invariant Run(Tokens(embedded, p), p, st, false) == final
      decreases |embedded| - p
    {
      ghost var before := st;
      var width;
      st, width := ScanAt(embedded, p, st);
      RunTokensStep(embedded, p, before, false);
      p := p + width;
    }
    assert st == final;
    ScanResult(embedded, false);
    src, mappings := st.src, st.mappings;
  }

  /** What the whole scan yields: the stripped text, and one `;` per newline. */
  lemma ScanResult(s: string, fixed: bool)
    ensures Run(Tokenize(s), 0, Init, fixed).src == Stripped(s)
    ensures Count(Mappings(s, fixed), ';') == Count(s, '\n')
  {
    RunSrc(Tokenize(s), 0, Init, fixed);
    RunSemicolons(Tokenize(s), 0, Init, fixed);
    TokenizeCountsNewlines(s, 0);
    assert s[0..] == s;
  }

  lemma {:induction false} CountConcat(a: string, b: string, c: char)
    ensures Count(a + b, c) == Count(a, c) + Count(b, c)
    decreases |a|
  {
    if a != [] {
      assert (a + b)[1..] == a[1..] + b;
      assert (a + b)[0] == a[0];
      CountConcat(a[1..], b, c);
    } else {
      assert a + b == b;
    }
  }

  lemma {:induction false} CountAbsent(s: string, c: char)
    requires c !in s
    ensures Count(s, c) == 0
    decreases |s|
  {
    if s != [] {
      CountAbsent(s[1..], c);
    }
  }

  /** The text a token covers holds a newline exactly when the token is one. */
  lemma MarkerNewlines(s: string, p: nat)
    requires p < |s|
    ensures Count(s[p..p + Width(MarkerAt(s, p))], '\n') == if MarkerAt(s, p).Newline? then 1 else 0
  {
    var m := MarkerAt(s, p);
    var head := s[p..p + Width(m)];
    if m.Newline? {
      assert head == "\n";
    } else {
      forall j | 0 <= j < |head|
        ensures head[j] != '\n'
      {
        MarkerHasNoNewline(s, p, p + j);
      }
      CountAbsent(head, '\n');
    }
  }

  /** Each newline of the text is exactly one newline token. */
  lemma {:induction false} TokenizeCountsNewlines(s: string, p: nat)
    requires p <= |s|
    ensures NewlineCount(Tokens(s, p)) == Count(s[p..], '\n')
    decreases |s| - p
  {
    if p < |s| {
      var m := MarkerAt(s, p);
      var w := Width(m);
      var rest := Tokens(s, p + w);
      assert Tokens(s, p) == [m] + rest;
      NewlineCountCons(m, rest);
      TokenizeCountsNewlines(s, p + w);
      var head, tail := s[p..p + w], s[p + w..];
      assert s[p..] == head + tail;
      CountConcat(head, tail, '\n');
      MarkerNewlines(s, p);
    }
  }

  lemma NewlineCountCons(m: Marker, rest: seq<Marker>)
    ensures NewlineCount([m] + rest) == (if m.Newline? then 1 else 0) + NewlineCount(rest)
  {
    assert ([m] + rest)[1..] == rest;
  }

  /** Each newline token puts exactly one newline into the output. */
  lemma {:induction false} OutputCountsNewlines(ts: seq<Marker>)
    requires forall i :: 0 <= i < |ts| ==> ts[i] != Plain('\n')
    ensures Count(Output(ts), '\n') == NewlineCount(ts)
    decreases |ts|
  {
    if ts != [] {
      OutputCountsNewlines(ts[1..]);
      var head := match ts[0] case Newline => "\n" case Plain(c) => [c] case _ => "";
      CountConcat(head, Output(ts[1..]), '\n');
    }
  }

  lemma {:induction false} TokensHaveNoPlainNewline(s: string, p: nat)
    requires p <= |s|
    ensures forall i :: 0 <= i < |Tokens(s, p)| ==> Tokens(s, p)[i] != Plain('\n')
    decreases |s| - p
  {
    if p < |s| {
      var m := MarkerAt(s, p);
      TokensHaveNoPlainNewline(s, p + Width(m));
      assert Tokens(s, p) == [m] + Tokens(s, p + Width(m));
    }
  }

  lemma {:induction false} RunSrc(ts: seq<Marker>, off: int, st: Scan, fixed: bool)
    ensures Run(ts, off, st, fixed).src == st.src + Output(ts)
    decreases |ts|
  {
    if ts != [] {
      RunSrc(ts[1..], off + Width(ts[0]), Step(st, ts[0], off, fixed), fixed);
    }
  }

  lemma NewlineStepSemicolons(st: Scan, off: int)
    ensures Count(NewlineStep(st, off).mappings, ';') == Count(st.mappings, ';') + 1
  {
    var tail := if st.insegment then "AA" + VlqSpec(1) + VlqSpec(0 - st.pscol) else "";
    VlqHasNoSeparator(1);
    VlqHasNoSeparator(0 - st.pscol);
    assert ';' !in tail;
    CountAbsent(tail, ';');
    CountConcat(st.mappings + ";", tail, ';');
    CountConcat(st.mappings, ";", ';');
  }

  lemma SegmentStepSemicolons(st: Scan, line: nat, col: nat, off: int, fixed: bool)
    ensures Count(SegmentStep(st, line, col, off, fixed).mappings, ';') == Count(st.mappings, ';')
  {
    var gcol := GeneratedColumn(st, off, fixed);
    VlqHasNoSeparator(gcol - st.pgcol);
    VlqHasNoSeparator(line - st.psline);
    VlqHasNoSeparator(col - st.pscol);
    var text := SegmentText(st, line, col, gcol);
    assert ';' !in text;
    CountAbsent(text, ';');
    CountConcat(st.mappings, text, ';');
  }

  /** A step adds one `;` to `mappings` exactly when it consumes a newline. */
  lemma StepSemicolons(st: Scan, m: Marker, off: int, fixed: bool)
    ensures Count(Step(st, m, off, fixed).mappings, ';') == Count(st.mappings, ';') + (if m.Newline? then 1 else 0)
  {
    match m {
      case Newline => NewlineStepSemicolons(st, off);
      case SegmentStart(line, col, _) => SegmentStepSemicolons(st, line, col, off, fixed);
      case SegmentEnd =>
      case Plain(_) =>
    }
  }

  lemma {:induction false} RunSemicolons(ts: seq<Marker>, off: int, st: Scan, fixed: bool)
    ensures Count(Run(ts, off, st, fixed).mappings, ';') == Count(st.mappings, ';') + NewlineCount(ts)
    decreases |ts|
  {
    if ts != [] {
      StepSemicolons(st, ts[0], off, fixed);
      RunSemicolons(ts[1..], off + Width(ts[0]), Step(st, ts[0], off, fixed), fixed);
    }
  }

  /** Stripping removes no newline, so lines of the output are lines of the input. */
  lemma StripKeepsNewlines(s: string)
    ensures Count(Stripped(s), '\n') == Count(s, '\n')
  {
    TokensHaveNoPlainNewline(s, 0);
    OutputCountsNewlines(Tokenize(s));
    TokenizeCountsNewlines(s, 0);
    assert s[0..] == s;
  }

  // Markers as the code generator writes them are exactly what the scanner removes.

  /** `parseInt` reads back the decimal text of a number. */
  lemma {:induction false} ParseNatToString(n: nat)
    ensures Numeral(NatToString(n), n)
    decreases n
  {
    if n >= 10 {
      var s, t, d := NatToString(n), NatToString(n / 10), ('0' as int + n % 10) as char;
      assert s == t + [d];
      ParseNatToString(n / 10);
      DecimalAgree(s, 0, t, 0, |t|);
      assert DecimalValue(s, 0, |s|) == DecimalValue(t, 0, |t|) * 10 + DigitValue(d);
    }
  }

  /** A numeral: decimal digits only, with value `n`. */
  ghost predicate Numeral(t: string, n: nat) {
    && (forall j :: 0 <= j < |t| ==> IsDigit(t[j]))
    && DecimalValue(t, 0, |t|) == n
  }

  /** Inside a text, a numeral that a non-digit ends. */
  lemma DigitsAt(s: string, i: nat, t: string, n: nat)
    requires Numeral(t, n) && i + |t| < |s| && !IsDigit(s[i + |t|])
    requires forall j :: i <= j < i + |t| ==> s[j] == t[j - i]
    ensures DigitsFrom(s, i) == |t|
    ensures DecimalValue(s, i, i + |t|) == n
  {
    DigitsFromExactly(s, i, |t|);
    DecimalAgree(s, i, t, 0, |t|);
  }

  /** Where the parts of a generated start marker stand in the text it begins. */
  lemma StartMarkerLayout(line: nat, col: nat, rest: string)
    ensures var a, b, s := NatToString(line), NatToString(col), SegmentStartMarker(line, col) + rest;
            && |SegmentStartMarker(line, col)| == |a| + |b| + 3
            && s[0] == '\U{0}' && s[1 + |a|] == ',' && s[2 + |a| + |b|] == '\U{0}'
            && (forall j :: 1 <= j < 1 + |a| ==> s[j] == a[j - 1])
            && (forall j :: 2 + |a| <= j < 2 + |a| + |b| ==> s[j] == b[j - (2 + |a|)])
  {
    MarkerTextLayout(NatToString(line), NatToString(col), rest);
  }

  /** Where the parts of a start marker's text sit. */
  lemma MarkerTextLayout(a: string, b: string, rest: string)
    ensures var s := "\U{0}" + a + "," + b + "\U{0}" + rest;
            && s[0] == '\U{0}' && s[1 + |a|] == ',' && s[2 + |a| + |b|] == '\U{0}'
            && (forall j :: 1 <= j < 1 + |a| ==> s[j] == a[j - 1])
            && (forall j :: 2 + |a| <= j < 2 + |a| + |b| ==> s[j] == b[j - (2 + |a|)])
  {
  }

  /** A text laid out as a start marker for the numerals `a` and `b` matches as one. */
  lemma StartMarkerAt(s: string, a: string, line: nat, b: string, col: nat)
    requires Numeral(a, line) && Numeral(b, col) && a != [] && b != [] && |a| + |b| + 3 <= |s|
    requires s[0] == '\U{0}' && s[1 + |a|] == ',' && s[2 + |a| + |b|] == '\U{0}'
    requires forall j :: 1 <= j < 1 + |a| ==> s[j] == a[j - 1]
    requires forall j :: 2 + |a| <= j < 2 + |a| + |b| ==> s[j] == b[j - (2 + |a|)]
    ensures MarkerAt(s, 0) == SegmentStart(line, col, |a| + |b| + 3)
  {
    DigitsAt(s, 1, a, line);
    DigitsAt(s, 2 + |a|, b, col);
    assert AfterComma(s, 0, 1 + |a|) == SegmentStart(line, col, |a| + |b| + 3);
  }

  /** The scanner reads back the line and column a generated start marker carries. */
  lemma StartMarkerMatches(line: nat, col: nat, rest: string)
    ensures MarkerAt(SegmentStartMarker(line, col) + rest, 0)
            == SegmentStart(line, col, |SegmentStartMarker(line, col)|)
  {
    StartMarkerLayout(line, col, rest);
    ParseNatToString(line);
    ParseNatToString(col);
    StartMarkerAt(SegmentStartMarker(line, col) + rest, NatToString(line), line, NatToString(col), col);
  }

  lemma EndOrPlainShift(u: string, r: string, k: nat)
    requires k < |r|
    ensures EndOrPlain(u + r, |u| + k) == EndOrPlain(r, k)
  {
    assert (u + r)[|u| + k] == r[k];
    if k + 1 < |r| {
      assert (u + r)[|u| + k + 1] == r[k + 1];
    }
  }

  lemma AfterCommaShift(u: string, r: string, k: nat, q: nat)
    requires k < q < |r|
    ensures AfterComma(u + r, |u| + k, |u| + q) == AfterComma(r, k, q)
  {
    var s := u + r;
    DigitsFromShift(u, r, q + 1);
    var b := DigitsFrom(r, q + 1);
    EndOrPlainShift(u, r, k);
    if b > 0 && q + 1 + b < |r| && r[q + 1 + b] == '\U{0}' {
      assert s[|u| + q + 1 + b] == r[q + 1 + b];
      DecimalAgree(s, |u| + k + 1, r, k + 1, q - k - 1);
      DecimalAgree(s, |u| + q + 1, r, q + 1, b);
    } else if q + 1 + b < |r| {
      assert s[|u| + q + 1 + b] == r[q + 1 + b];
    }
  }

  lemma AfterNulShift(u: string, r: string, k: nat)
    requires k < |r|
    ensures AfterNul(u + r, |u| + k) == AfterNul(r, k)
  {
    var s := u + r;
    DigitsFromShift(u, r, k + 1);
    var q := k + 1 + DigitsFrom(r, k + 1);
    EndOrPlainShift(u, r, k);
    if q < |r| {
      assert s[|u| + q] == r[q];
      AfterCommaShift(u, r, k, q);
    }
  }

  lemma MarkerShift(u: string, r: string, k: nat)
    requires k < |r|
    ensures MarkerAt(u + r, |u| + k) == MarkerAt(r, k)
  {
    assert (u + r)[|u| + k] == r[k];
    AfterNulShift(u, r, k);
  }

  lemma {:induction false} DigitsFromShift(u: string, r: string, i: nat)
    requires i <= |r|
    ensures DigitsFrom(u + r, |u| + i) == DigitsFrom(r, i)
    decreases |r| - i
  {
    if i < |r| {
      assert (u + r)[|u| + i] == r[i];
      DigitsFromShift(u, r, i + 1);
    }
  }

  /** The tokens after a prefix do not depend on the prefix. */
  lemma {:induction false} TokensShift(u: string, r: string, k: nat)
    requires k <= |r|
    ensures Tokens(u + r, |u| + k) == Tokens(r, k)
    decreases |r| - k
  {
    var s := u + r;
    if k < |r| {
      var m := MarkerAt(r, k);
      var w := Width(m);
      MarkerShift(u, r, k);
      TokensUnfold(s, |u| + k);
      TokensUnfold(r, k);
      TokensShift(u, r, k + w);
      assert |u| + k + w == |u| + (k + w);
    } else {
      assert |u| + k == |s|;
    }
  }

  /** One step of the tokenizer. */
  lemma TokensUnfold(s: string, p: nat)
    requires p < |s|
    ensures Tokens(s, p) == [MarkerAt(s, p)] + Tokens(s, p + Width(MarkerAt(s, p)))
  {
  }

  lemma TokenizeSegmentStart(line: nat, col: nat, rest: string)
    ensures Tokenize(SegmentStartMarker(line, col) + rest)
            == [SegmentStart(line, col, |SegmentStartMarker(line, col)|)] + Tokenize(rest)
  {
    var mk := SegmentStartMarker(line, col);
    StartMarkerMatches(line, col, rest);
    TokensShift(mk, rest, 0);
  }

  lemma TokenizeSegmentEnd(rest: string)
    ensures Tokenize(SegmentEndMarker() + rest) == [SegmentEnd] + Tokenize(rest)
  {
    var s := SegmentEndMarker() + rest;
    assert DigitsFrom(s, 1) == 0;
    TokensShift(SegmentEndMarker(), rest, 0);
  }

  lemma TokenizePlain(c: char, rest: string)
    requires c != '\n' && c != '\U{0}'
    ensures Tokenize([c] + rest) == [Plain(c)] + Tokenize(rest)
  {
    TokensShift([c], rest, 0);
  }

  lemma OutputCons(m: Marker, ts: seq<Marker>)
    ensures Output([m] + ts) == Output([m]) + Output(ts)
  {
    assert ([m] + ts)[1..] == ts;
    assert [m][1..] == [];
  }

  /** Stripping removes a generated start marker and keeps what follows. */
  lemma StripSegmentStart(line: nat, col: nat, rest: string)
    ensures Stripped(SegmentStartMarker(line, col) + rest) == Stripped(rest)
  {
    TokenizeSegmentStart(line, col, rest);
    OutputCons(SegmentStart(line, col, |SegmentStartMarker(line, col)|), Tokenize(rest));
  }

  /** Stripping removes a generated end marker and keeps what follows. */
  lemma StripSegmentEnd(rest: string)
    ensures Stripped(SegmentEndMarker() + rest) == Stripped(rest)
  {
    TokenizeSegmentEnd(rest);
    OutputCons(SegmentEnd, Tokenize(rest));
  }

  lemma {:induction false} PlainTextTokens(t: string, p: nat)
    requires p <= |t| && '\U{0}' !in t
    ensures Output(Tokens(t, p)) == t[p..]
    decreases |t| - p
  {
    if p < |t| {
      var m := MarkerAt(t, p);
      assert Tokens(t, p) == [m] + Tokens(t, p + 1);
      OutputCons(m, Tokens(t, p + 1));
      PlainTextTokens(t, p + 1);
      assert t[p..] == [t[p]] + t[p + 1..];
    }
  }

  /** Text with no NUL character passes through unchanged. */
  lemma StripPlainText(t: string)
    requires '\U{0}' !in t
    ensures Stripped(t) == t
  {
    PlainTextTokens(t, 0);
    assert t[0..] == t;
  }

  // The generated column (see Findings in README.md)
  // ---------------------------------------------------------------------------

  /** Index just after the last newline of `t`: where its last line starts. */
  function LineStart(t: string): (k: nat)
    ensures k <= |t|
    decreases |t|
  {
    if t == [] then 0
    else if t[|t| - 1] == '\n' then |t|
    else LineStart(t[..|t| - 1])
  }

  /** The column at the end of `t`. */
  function Column(t: string): nat {
    |t| - LineStart(t)
  }

  ghost predicate OutputLineTracked(st: Scan) {
    st.outstart == LineStart(st.src)
  }

  lemma StepTracksOutputLine(st: Scan, m: Marker, off: int)
    requires m != Plain('\n') && OutputLineTracked(st)
    ensures OutputLineTracked(Step(st, m, off, true))
  {
    if m.Plain? {
      var t := st.src + [m.c];
      assert t[..|t| - 1] == st.src;
    }
  }

  /** In the corrected scanner the generated column of a segment is its column in the output. */
  lemma CorrectedColumnIsOutputColumn(st: Scan, line: nat, col: nat, off: int)
    requires OutputLineTracked(st)
    ensures SegmentStep(st, line, col, off, true).pgcol == Column(st.src)
  {
  }

  lemma {:induction false} CorrectedRunTracksOutputLine(ts: seq<Marker>, off: int, st: Scan)
    requires forall i :: 0 <= i < |ts| ==> ts[i] != Plain('\n')
    requires OutputLineTracked(st)
    ensures OutputLineTracked(Run(ts, off, st, true))
    decreases |ts|
  {
    if ts != [] {
      StepTracksOutputLine(st, ts[0], off);
      CorrectedRunTracksOutputLine(ts[1..], off + Width(ts[0]), Step(st, ts[0], off, true));
    }
  }

  /**
   * Every state the corrected scanner reaches, after each prefix of the
   * tokens and at the end, knows where the output's current line starts.
   */
  lemma CorrectedScanTracksOutputLine(s: string)
    ensures forall k :: 0 <= k <= |Tokenize(s)| ==> OutputLineTracked(Run(Tokenize(s)[..k], 0, Init, true))
    ensures OutputLineTracked(Run(Tokenize(s), 0, Init, true))
  {
    var ts := Tokenize(s);
    TokensHaveNoPlainNewline(s, 0);
    forall k | 0 <= k <= |ts|
      ensures OutputLineTracked(Run(ts[..k], 0, Init, true))
    {
      CorrectedRunTracksOutputLine(ts[..k], 0, Init);
    }
    assert ts[..|ts|] == ts;
  }

  /** The number of characters the tokens `ts` cover. */
  function Widths(ts: seq<Marker>): nat
    decreases |ts|
  {
    if ts == [] then 0 else Width(ts[0]) + Widths(ts[1..])
  }

  /** The scanner over `ts` and then `m`: `m` is scanned at the offset just past `ts`. */
  lemma {:induction false} RunSnoc(ts: seq<Marker>, m: Marker, off: int, st: Scan, fixed: bool)
    ensures Run(ts + [m], off, st, fixed) == Step(Run(ts, off, st, fixed), m, off + Widths(ts), fixed)
    decreases |ts|
  {
    if ts == [] {
      RunCons(m, [], off, st, fixed);
    } else {
      var off', st' := off + Width(ts[0]), Step(st, ts[0], off, fixed);
      assert (ts + [m])[1..] == ts[1..] + [m];
      RunSnoc(ts[1..], m, off', st', fixed);
      var before := Run(ts[1..], off', st', fixed);
      assert Run(ts, off, st, fixed) == before;
      assert Run(ts + [m], off, st, fixed) == Run(ts[1..] + [m], off', st', fixed);
    }
  }

  /** A segment start in the corrected scanner is recorded at the output column of the state before it. */
  lemma CorrectedRunSegment(ts: seq<Marker>, k: nat)
    requires forall i :: 0 <= i < |ts| ==> ts[i] != Plain('\n')
    requires k < |ts| && ts[k].SegmentStart?
    ensures Run(ts[..k + 1], 0, Init, true).pgcol == Column(Run(ts[..k], 0, Init, true).src)
  {
    var before := Run(ts[..k], 0, Init, true);
    var m := ts[k];
    assert ts[..k + 1] == ts[..k] + [m];
    RunSnoc(ts[..k], m, 0, Init, true);
    assert Step(before, m, Widths(ts[..k]), true) == SegmentStep(before, m.line, m.col, Widths(ts[..k]), true);
    CorrectedRunTracksOutputLine(ts[..k], 0, Init);
    CorrectedColumnIsOutputColumn(before, m.line, m.col, Widths(ts[..k]));
  }

  /**
   * Every segment the corrected scanner records carries, as its generated
   * column, the column the segment starts at in the stripped output.
   */
  lemma CorrectedSegmentsAtOutputColumn(s: string, k: nat)
    requires k < |Tokenize(s)| && Tokenize(s)[k].SegmentStart?
    ensures Run(Tokenize(s)[..k + 1], 0, Init, true).pgcol == Column(Run(Tokenize(s)[..k], 0, Init, true).src)
  {
    TokensHaveNoPlainNewline(s, 0);
    CorrectedRunSegment(Tokenize(s), k);
  }


  // The generated text for `a` from source column 0 and then `b` from source
  // column 1, on one line, and its suffixes after each marker or character.

  function SecondStart(): string {
    SegmentStartMarker(0, 1) + "b"
  }

  function AfterFirstEnd(): string {
    SegmentEndMarker() + SecondStart()
  }

  function AfterA(): string {
    "a" + AfterFirstEnd()
  }

  function TwoSegments(): string {
    SegmentStartMarker(0, 0) + AfterA()
  }

  lemma NumeralsZeroOne()
    ensures |SegmentStartMarker(0, 0)| == 5 && |SegmentStartMarker(0, 1)| == 5
  {
    assert NatToString(0) == "0" && NatToString(1) == "1";
  }

  lemma SecondStartTokens()
    ensures Tokenize(SecondStart()) == [SegmentStart(0, 1, 5)] + ([Plain('b')] + Tokenize(""))
  {
    NumeralsZeroOne();
    TokenizePlain('b', "");
    assert "b" == ['b'] + "";
    TokenizeSegmentStart(0, 1, "b");
  }

  lemma AfterATokens()
    ensures Tokenize(AfterA()) == [Plain('a')] + ([SegmentEnd] + Tokenize(SecondStart()))
  {
    TokenizeSegmentEnd(SecondStart());
    assert AfterA() == ['a'] + AfterFirstEnd();
    TokenizePlain('a', AfterFirstEnd());
  }

  lemma TwoSegmentsTokens()
    ensures Tokenize(TwoSegments()) == [SegmentStart(0, 0, 5)] + Tokenize(AfterA())
  {
    NumeralsZeroOne();
    TokenizeSegmentStart(0, 0, AfterA());
  }

  /** The scanner states after each of the five tokens. */
  lemma TwoSegmentsSteps(fixed: bool)
    ensures var s3 := Step(Step(Step(Init, SegmentStart(0, 0, 5), 0, fixed), Plain('a'), 5, fixed), SegmentEnd, 6, fixed);
            var s4 := Step(s3, SegmentStart(0, 1, 5), 8, fixed);
            && s4.pgcol == (if fixed then 1 else 8)
            && Step(s4, Plain('b'), 13, fixed).src == "ab"
  {
    var s1 := Step(Init, SegmentStart(0, 0, 5), 0, fixed);
    assert s1.src == "" && s1.linestart == 0 && s1.outstart == 0;
    var s3 := Step(Step(s1, Plain('a'), 5, fixed), SegmentEnd, 6, fixed);
    assert s3.src == "a" && s3.linestart == 0 && s3.outstart == 0;
  }

  /** The scanner over the two segments: the output, and the generated column of the second segment. */
  lemma TwoSegmentsRun(fixed: bool)
    ensures Run(Tokenize(TwoSegments()), 0, Init, fixed).src == "ab"
    ensures Run(Tokenize(TwoSegments()), 0, Init, fixed).pgcol == if fixed then 1 else 8
  {
    TwoSegmentsTokens();
    AfterATokens();
    SecondStartTokens();
    TwoSegmentsSteps(fixed);
    var t0, t1, t2, t3, t4 := SegmentStart(0, 0, 5), Plain('a'), SegmentEnd, SegmentStart(0, 1, 5), Plain('b');
    var s1 := Step(Init, t0, 0, fixed);
    var s2 := Step(s1, t1, 5, fixed);
    var s3 := Step(s2, t2, 6, fixed);
    var s4 := Step(s3, t3, 8, fixed);
    RunCons(t0, Tokenize(AfterA()), 0, Init, fixed);
    RunCons(t1, [t2] + Tokenize(SecondStart()), 5, s1, fixed);
    RunCons(t2, Tokenize(SecondStart()), 6, s2, fixed);
    RunCons(t3, [t4] + Tokenize(""), 8, s3, fixed);
    RunCons(t4, Tokenize(""), 13, s4, fixed);
    assert Tokenize("") == [];
  }

  /**
   * Two segments on one line, `a` then `b`: the output is `ab`, so `b` is at
   * generated column 1, but the source counts the eight characters of text and
   * markers before the second marker and records generated column 8 (a delta
   * `Q` in `mappings` where `C` is meant).
   */
  lemma GeneratedColumnCountsMarkers()
    ensures Stripped(TwoSegments()) == "ab"
    ensures Run(Tokenize(TwoSegments()), 0, Init, false).pgcol == 8
    ensures Run(Tokenize(TwoSegments()), 0, Init, true).pgcol == 1
    ensures Column(Stripped(TwoSegments())[..1]) == 1
  {
    TwoSegmentsRun(false);
    TwoSegmentsRun(true);
    RunSrc(Tokenize(TwoSegments()), 0, Init, false);
    assert Stripped(TwoSegments()) == "ab";
    assert "ab"[..1] == "a";
    assert LineStart("a") == 0;
  }

  // ---------------------------------------------------------------------------
  // The source map record
  // ---------------------------------------------------------------------------

  /** A Source Map Revision 3 record. */
  datatype SourceMapV3 = SourceMapV3(version: nat, file: string, sources: seq<string>,
                                     sourcesContent: seq<string>, names: seq<string>, mappings: string)

  /** `createMap(mappings, original)`: one source file, no names. */
  function CreateMap(mappings: string, original: string): SourceMapV3 {
    SourceMapV3(3, "out.js", ["in.js"], [original], [], mappings)
  }

  datatype Extracted = Extracted(src: string, sourceMap: SourceMapV3)

  /** `extractMap(src, original)`, built on the corrected column computation. */
  function ExtractMap(embedded: string, original: string): (r: Extracted)
    ensures r.src == Stripped(embedded)
    ensures Count(r.sourceMap.mappings, ';') == Count(r.src, '\n')
    ensures r.sourceMap.version == 3 && r.sourceMap.sources == ["in.js"] && r.sourceMap.sourcesContent == [original]
  {
    var st := Run(Tokenize(embedded), 0, Init, true);
    ScanResult(embedded, true);
    StripKeepsNewlines(embedded);
    Extracted(st.src, CreateMap(st.mappings, original))
  }
}
