/** Characters, UTF-8 sizes, surrogate arithmetic and the number grammar of RFC 8259. */

module Wrappers {
  datatype Option<+T> = None | Some(value: T) {
    function GetOr(default: T): T {
      if Some? then value else default
    }
  }
}

module JsonText {

  // A Python `str` is a sequence of code points; lone surrogates can occur in it.
  type CodePoint = c: int | 0 <= c <= 0x10FFFF
  type Text = seq<CodePoint>

  const QUOTE: CodePoint := 0x22
  const BACKSLASH: CodePoint := 0x5C
  const SOLIDUS: CodePoint := 0x2F
  const LBRACE: CodePoint := 0x7B
  const RBRACE: CodePoint := 0x7D
  const LBRACKET: CodePoint := 0x5B
  const RBRACKET: CodePoint := 0x5D
  const COLON: CodePoint := 0x3A
  const COMMA: CodePoint := 0x2C
  const MINUS: CodePoint := 0x2D
  const PLUS: CodePoint := 0x2B
  const DOT: CodePoint := 0x2E
  const LOWER_B: CodePoint := 0x62
  const LOWER_E: CodePoint := 0x65
  const UPPER_E: CodePoint := 0x45
  const LOWER_F: CodePoint := 0x66
  const LOWER_N: CodePoint := 0x6E
  const LOWER_R: CodePoint := 0x72
  const LOWER_T: CodePoint := 0x74
  const LOWER_U: CodePoint := 0x75

  const TRUE: Text := [0x74, 0x72, 0x75, 0x65]
  const FALSE: Text := [0x66, 0x61, 0x6C, 0x73, 0x65]
  const NULL: Text := [0x6E, 0x75, 0x6C, 0x6C]

  // `ws` of RFC 8259, section 2
  predicate IsWs(c: CodePoint) {
    c == 0x20 || c == 0x09 || c == 0x0A || c == 0x0D
  }

  predicate AllWs(t: Text) {
    forall i :: 0 <= i < |t| ==> IsWs(t[i])
  }

  predicate IsDigit(c: CodePoint) {
    0x30 <= c <= 0x39
  }

  predicate IsHex(c: CodePoint) {
    IsDigit(c) || 0x41 <= c <= 0x46 || 0x61 <= c <= 0x66
  }

  predicate AllHex(t: Text) {
    forall i :: 0 <= i < |t| ==> IsHex(t[i])
  }

  function HexDigit(c: CodePoint): (v: nat)
    requires IsHex(c)
    ensures v < 16
  {
    if IsDigit(c) then c - 0x30 else if c <= 0x46 then c - 0x41 + 10 else c - 0x61 + 10
  }

  /** The value of four hexadecimal digits. */
  function HexValue(t: Text): (v: nat)
    requires |t| == 4 && AllHex(t)
    ensures v <= 0xFFFF
  {
    HexDigit(t[0]) * 4096 + HexDigit(t[1]) * 256 + HexDigit(t[2]) * 16 + HexDigit(t[3])
  }

  predicate IsHigh(v: int) {
    0xD800 <= v <= 0xDBFF
  }

  predicate IsLow(v: int) {
    0xDC00 <= v <= 0xDFFF
  }

  predicate IsScalar(c: CodePoint) {
    !IsHigh(c) && !IsLow(c)
  }

  function PairValue(high: int, low: int): (c: CodePoint)
    requires IsHigh(high) && IsLow(low)
  {
    0x10000 + (high - 0xD800) * 1024 + (low - 0xDC00)
  }

  /** Section 2.2 of RFC 2781: the two code units that encode a code point above U+FFFF. */
  function HighOf(c: CodePoint): (v: int)
    requires c >= 0x10000
  {
    0xD800 + (c - 0x10000) / 1024
  }

  function LowOf(c: CodePoint): (v: int)
    requires c >= 0x10000
  {
    0xDC00 + (c - 0x10000) % 1024
  }

  /** Surrogate pairs and the supplementary code points are in one-to-one correspondence. */
  lemma SurrogatePairs(high: int, low: int, c: CodePoint)
    requires IsHigh(high) && IsLow(low) && c >= 0x10000
    ensures PairValue(high, low) >= 0x10000 && IsScalar(PairValue(high, low))
    ensures HighOf(PairValue(high, low)) == high && LowOf(PairValue(high, low)) == low
    ensures IsHigh(HighOf(c)) && IsLow(LowOf(c)) && PairValue(HighOf(c), LowOf(c)) == c
  {
  }

  function Utf8Size(c: CodePoint): (n: nat)
    ensures 1 <= n <= 4
  {
    if c <= 0x7F then 1 else if c <= 0x7FF then 2 else if c <= 0xFFFF then 3 else 4
  }

  // ---------------------------------------------------------------- chunks

  /** A text that arrives in chunks */
  function Concat(chunks: seq<Text>): Text {
    if chunks == [] then [] else Concat(chunks[..|chunks| - 1]) + chunks[|chunks| - 1]
  }

  lemma ConcatSnoc(chunks: seq<Text>, c: Text)
    ensures Concat(chunks + [c]) == Concat(chunks) + c
  {
    assert (chunks + [c])[..|chunks|] == chunks;
  }

  // ---------------------------------------------------------------- numbers

  // RFC 8259, section 6: number = [ minus ] int [ frac ] [ exp ]

  // `t[from..to]` consists of digits
  ghost predicate DigitsAt(t: Text, from: nat, to: nat) {
    && from <= to <= |t|
    && forall i :: from <= i < to ==> IsDigit(t[i])
  }

  // minus = %x2D, optional
  ghost predicate MinusAt(t: Text, from: nat, to: nat) {
    && from <= to <= |t|
    && (to == from || (to == from + 1 && t[from] == MINUS))
  }

  // int = zero / ( digit1-9 *DIGIT )
  ghost predicate IntAt(t: Text, from: nat, to: nat) {
    && from < to && DigitsAt(t, from, to)
    && (t[from] == 0x30 ==> to == from + 1)
  }

  // frac = decimal-point 1*DIGIT, optional
  ghost predicate FracAt(t: Text, from: nat, to: nat) {
    && from <= to <= |t|
    && (to == from || (from + 1 < to && t[from] == DOT && DigitsAt(t, from + 1, to)))
  }

  // exp = e [ minus / plus ] 1*DIGIT, optional
  ghost predicate ExpAt(t: Text, from: nat, to: nat) {
    && from <= to <= |t|
    && (|| to == from
        || (&& from + 1 < to && (t[from] == LOWER_E || t[from] == UPPER_E)
            && var digits := if t[from + 1] == PLUS || t[from + 1] == MINUS then from + 2 else from + 1;
               digits < to && DigitsAt(t, digits, to)))
  }

  // `p1`, `p2` and `p3` are where the integer, the fraction and the exponent begin.
  ghost predicate NumberCut(t: Text, p1: nat, p2: nat, p3: nat) {
    MinusAt(t, 0, p1) && IntAt(t, p1, p2) && FracAt(t, p2, p3) && ExpAt(t, p3, |t|)
  }

  ghost predicate IsNumber(t: Text) {
    exists p1, p2, p3 :: NumberCut(t, p1, p2, p3)
  }

  // `t[from..end]` is the longest run of digits that begins at `from`
  ghost predicate DigitRun(t: Text, from: nat, end: nat) {
    DigitsAt(t, from, end) && (end < |t| ==> !IsDigit(t[end]))
  }

  /** Every way to cut a number agrees with the greedy left-to-right scan. */
  lemma CutIsGreedy(t: Text, p1: nat, p2: nat, p3: nat)
    requires NumberCut(t, p1, p2, p3)
    ensures p1 < |t| && p1 == (if t[0] == MINUS then 1 else 0) && IsDigit(t[p1])
    ensures if t[p1] == 0x30 then p2 == p1 + 1 else DigitRun(t, p1, p2)
    ensures p2 < |t| ==> !IsDigit(t[p2])
    ensures if p2 < |t| && t[p2] == DOT then p2 + 1 < p3 && DigitRun(t, p2 + 1, p3) else p3 == p2
    ensures p3 < |t| ==> t[p3] == LOWER_E || t[p3] == UPPER_E
  {
  }

  method SkipDigits(value: Text, start: nat) returns (index: nat)
    requires start <= |value|
    ensures DigitRun(value, start, index)
  {
    index := start;
    while index < |value| && IsDigit(value[index])
      invariant DigitsAt(value, start, index)
    {
      index := index + 1;
    }
  }

  /**
   * The scan of the source. Python's `str.isdigit` also holds of non-ASCII digits;
   * `isDigit` stands for it, and the answer does not depend on what it says about them.
   */
  method ValidJsonNumber(value: Text, isDigit: CodePoint -> bool) returns (ok: bool)
    requires forall c: CodePoint :: c <= 0x7F ==> (isDigit(c) <==> IsDigit(c))
    ensures ok <==> IsNumber(value)
  {
    ghost var p1: nat, p2: nat, p3: nat := 0, 0, 0;
    if IsNumber(value) {
      p1, p2, p3 :| NumberCut(value, p1, p2, p3);
      CutIsGreedy(value, p1, p2, p3);
    }
    ghost var number := NumberCut(value, p1, p2, p3);
    if |value| == 0 {
      return false;
    }
    var index: nat := 0;
    if value[index] == MINUS {
      index := index + 1;
      if index == |value| {
        return false;
      }
    }
    ghost var q1 := index;
    if value[index] == 0x30 {
      index := index + 1;
      if index < |value| && isDigit(value[index]) {
        return false;
      }
    } else if 0x31 <= value[index] <= 0x39 {
      index := SkipDigits(value, index + 1);
      assert DigitRun(value, q1, index);
    } else {
      return false;
    }
    assert MinusAt(value, 0, q1) && IntAt(value, q1, index);
    assert number ==> p1 == q1 && p2 == index;
    ok := ValidTail(value, index);
    assert number ==> ValidCuts(value, index, p3);
    if ok {
      ghost var r3: nat :| ValidCuts(value, index, r3);
      assert NumberCut(value, q1, index, r3);
    }
  }

  ghost predicate ValidCuts(value: Text, p2: nat, p3: nat) {
    FracAt(value, p2, p3) && ExpAt(value, p3, |value|)
  }

  // The fraction and the exponent
  method ValidTail(value: Text, p2: nat) returns (ok: bool)
    requires p2 <= |value|
    ensures ok <==> exists p3 :: ValidCuts(value, p2, p3)
  {
    var index := p2;
    if index < |value| && value[index] == DOT {
      index := index + 1;
      var start := index;
      index := SkipDigits(value, start);
      if index == start {
        return false;
      }
    }
    assert forall p3 :: ValidCuts(value, p2, p3) ==> p3 == index;
    ghost var q3 := index;
    if index < |value| && (value[index] == LOWER_E || value[index] == UPPER_E) {
      index := index + 1;
      if index < |value| && (value[index] == PLUS || value[index] == MINUS) {
        index := index + 1;
      }
      var start := index;
      index := SkipDigits(value, start);
      if index == start {
        return false;
      }
    }
    if index == |value| {
      assert ValidCuts(value, p2, q3);
    }
    return index == |value|;
  }
}
