/** Display of decimal texts: parsing, half-up rounding, grouping, and what rounds to zero. */
module NumberFormat {
  import opened Wrappers

  // ---------------------------------------------------------------- digits

  predicate IsDigit(c: char) {
    '0' <= c <= '9'
  }

  predicate Digits(s: string) {
    forall i :: 0 <= i < |s| ==> IsDigit(s[i])
  }

  function DigitValue(c: char): nat
    requires IsDigit(c)
  {
    (c - '0') as nat
  }

  // The number that a digit string denotes
  function Num(s: string): nat
    requires Digits(s)
  {
    if s == "" then 0 else Num(s[..|s| - 1]) * 10 + DigitValue(s[|s| - 1])
  }

  function Pow10(n: nat): (p: nat)
    ensures p >= 1
  {
    if n == 0 then 1 else 10 * Pow10(n - 1)
  }

  function Zeros(n: nat): (s: string)
    ensures |s| == n && Digits(s)
  {
    seq(n, _ => '0')
  }

  lemma {:induction false} NumConcat(a: string, b: string)
    requires Digits(a) && Digits(b)
    ensures Digits(a + b) && Num(a + b) == Num(a) * Pow10(|b|) + Num(b)
  {
    if b == "" {
      assert a + b == a;
    } else {
      var init, c := b[..|b| - 1], b[|b| - 1];
      NumConcat(a, init);
      assert (a + b)[..|a + b| - 1] == a + init;
      ShiftLeft(Num(a), Pow10(|init|), Num(init), DigitValue(c));
    }
  }

  lemma ShiftLeft(a: nat, p: nat, n: nat, d: nat)
    ensures (a * p + n) * 10 + d == a * (10 * p) + (n * 10 + d)
  {
  }

  lemma {:induction false} NumZeros(n: nat)
    ensures Num(Zeros(n)) == 0
  {
    if n > 0 {
      assert Zeros(n)[..n - 1] == Zeros(n - 1);
      NumZeros(n - 1);
    }
  }

  lemma NumPadded(s: string, n: nat)
    requires Digits(s)
    ensures Digits(s + Zeros(n)) && Num(s + Zeros(n)) == Num(s) * Pow10(n)
    ensures Digits(Zeros(n) + s) && Num(Zeros(n) + s) == Num(s)
  {
    NumConcat(s, Zeros(n));
    NumConcat(Zeros(n), s);
    NumZeros(n);
  }

  // `replace(/^0+(?=\d)/, '')`
  function StripZeros(s: string): (r: string)
    requires Digits(s)
    ensures Digits(r) && |r| <= |s| && (s != "" ==> r != "")
  {
    if |s| > 1 && s[0] == '0' then StripZeros(s[1..]) else s
  }

  lemma {:induction false} NumStripped(s: string)
    requires Digits(s)
    ensures Num(StripZeros(s)) == Num(s)
  {
    if |s| > 1 && s[0] == '0' {
      NumStripped(s[1..]);
      assert s == Zeros(1) + s[1..];
      NumPadded(s[1..], 1);
    }
  }

  // ---------------------------------------------------------------- the accepted texts

  datatype Exponent = Exponent(marker: char, sign: string, digits: string)

  datatype Numeral = Numeral(negative: bool, whole: string, fraction: Option<string>, exponent: Option<Exponent>)

  predicate WfNumeral(n: Numeral) {
    && n.whole != "" && Digits(n.whole)
    && (n.fraction.Some? ==> n.fraction.value != "" && Digits(n.fraction.value))
    && (n.exponent.Some? ==>
          && (n.exponent.value.marker == 'e' || n.exponent.value.marker == 'E')
          && (n.exponent.value.sign == "" || n.exponent.value.sign == "+" || n.exponent.value.sign == "-")
          && n.exponent.value.digits != "" && Digits(n.exponent.value.digits))
  }

  function FractionText(f: Option<string>): string {
    if f.Some? then "." + f.value else ""
  }

  function ExponentText(e: Option<Exponent>): string {
    if e.Some? then [e.value.marker] + (e.value.sign + e.value.digits) else ""
  }

  function NumeralText(n: Numeral): string {
    (if n.negative then "-" else "") + (n.whole + (FractionText(n.fraction) + ExponentText(n.exponent)))
  }

  // The digits at the start of a text
  function DigitRun(s: string): (n: nat)
    ensures n <= |s| && Digits(s[..n]) && (n < |s| ==> !IsDigit(s[n]))
  {
    if s != "" && IsDigit(s[0]) then DigitRun(s[1..]) + 1 else 0
  }

  lemma {:induction false} DigitRunAt(d: string, rest: string)
    requires Digits(d) && (rest != "" ==> !IsDigit(rest[0]))
    ensures DigitRun(d + rest) == |d|
  {
    if d == "" {
      assert d + rest == rest;
    } else {
      assert (d + rest)[1..] == d[1..] + rest;
      DigitRunAt(d[1..], rest);
    }
  }

  function ScanExponent(s: string): Option<Option<Exponent>> {
    if s == "" then Some(None)
    else if s[0] != 'e' && s[0] != 'E' then None
    else
      var signed := |s| > 1 && (s[1] == '+' || s[1] == '-');
      var digits := if signed then s[2..] else s[1..];
      if digits == "" || !Digits(digits) then None
      else Some(Some(Exponent(s[0], if signed then [s[1]] else "", digits)))
  }

  function ScanFraction(s: string): Option<(Option<string>, string)> {
    if s != "" && s[0] == '.' then
      var n := DigitRun(s[1..]);
      if n == 0 then None else Some((Some(s[1..][..n]), s[1..][n..]))
    else Some((None, s))
  }

  function Scan(s: string): Option<Numeral> {
    var negative := s != "" && s[0] == '-';
    var t := if negative then s[1..] else s;
    var n := DigitRun(t);
    if n == 0 then None
    else
      match ScanFraction(t[n..])
      case None => None
      case Some((fraction, rest)) =>
        match ScanExponent(rest)
        case None => None
        case Some(exponent) => Some(Numeral(negative, t[..n], fraction, exponent))
  }

  lemma ExponentRead(s: string, e: Option<Exponent>)
    requires ScanExponent(s) == Some(e)
    ensures s == ExponentText(e)
  {
    hide Digits;
    if s != "" {
      if |s| > 1 && (s[1] == '+' || s[1] == '-') {
        assert s == [s[0]] + ([s[1]] + s[2..]);
      } else {
        assert s == [s[0]] + ("" + s[1..]);
      }
    }
  }

  lemma ExponentScanned(e: Option<Exponent>)
    requires WfNumeral(Numeral(false, "0", None, e))
    ensures ScanExponent(ExponentText(e)) == Some(e)
  {
    if e.Some? {
      var x := e.value;
      var s := ExponentText(e);
      assert s[0] == x.marker && s[1..] == x.sign + x.digits;
      if x.sign == "" {
        assert s[1] == x.digits[0];
        assert x.sign + x.digits == x.digits;
      } else {
        assert s[1] == x.sign[0] && s[2..] == x.digits;
        assert [s[1]] == x.sign;
      }
    }
  }

  lemma ExponentWf(s: string, e: Option<Exponent>)
    requires ScanExponent(s) == Some(e)
    ensures WfNumeral(Numeral(false, "0", None, e))
  {
  }

  lemma ExponentStart(e: Option<Exponent>)
    requires WfNumeral(Numeral(false, "0", None, e))
    ensures var s := ExponentText(e); s != "" ==> !IsDigit(s[0]) && s[0] != '.'
  {
  }

  lemma FractionRead(s: string, f: Option<string>, rest: string)
    requires ScanFraction(s) == Some((f, rest))
    ensures s == FractionText(f) + rest && (f.Some? ==> f.value != "" && Digits(f.value))
  {
  }

  lemma FractionScanned(f: Option<string>, rest: string)
    requires f.Some? ==> f.value != "" && Digits(f.value)
    requires rest != "" ==> !IsDigit(rest[0]) && rest[0] != '.'
    ensures ScanFraction(FractionText(f) + rest) == Some((f, rest))
  {
    var s := FractionText(f) + rest;
    if f.Some? {
      assert s[1..] == f.value + rest;
      DigitRunAt(f.value, rest);
      assert s[1..][..|f.value|] == f.value && s[1..][|f.value|..] == rest;
    } else {
      assert s == rest;
    }
  }

  lemma ScanSound(s: string)
    requires Scan(s).Some?
    ensures WfNumeral(Scan(s).value) && NumeralText(Scan(s).value) == s
  {
    hide ScanFraction, ScanExponent, DigitRun, FractionText, ExponentText;
    var negative := s != "" && s[0] == '-';
    var t := if negative then s[1..] else s;
    var n := DigitRun(t);
    var (fraction, rest) := ScanFraction(t[n..]).value;
    var exponent := ScanExponent(rest).value;
    FractionRead(t[n..], fraction, rest);
    ExponentRead(rest, exponent);
    ExponentWf(rest, exponent);
    assert t == t[..n] + t[n..];
    assert s == (if negative then "-" else "") + t;
  }

  lemma TailStart(f: Option<string>, e: Option<Exponent>)
    requires WfNumeral(Numeral(false, "0", None, e))
    ensures var tail := FractionText(f) + ExponentText(e); tail != "" ==> !IsDigit(tail[0])
  {
  }

  lemma ScanComplete(n: Numeral)
    requires WfNumeral(n)
    ensures Scan(NumeralText(n)) == Some(n)
  {
    hide ScanFraction, ScanExponent, DigitRun;
    var tail := FractionText(n.fraction) + ExponentText(n.exponent);
    var t := n.whole + tail;
    var s := NumeralText(n);
    ExponentStart(n.exponent);
    TailStart(n.fraction, n.exponent);
    hide FractionText, ExponentText;
    assert n.negative ==> s[0] == '-' && s[1..] == t;
    assert !n.negative ==> s == t && s[0] == n.whole[0] && IsDigit(s[0]);
    DigitRunAt(n.whole, tail);
    assert t[..|n.whole|] == n.whole && t[|n.whole|..] == tail;
    FractionScanned(n.fraction, ExponentText(n.exponent));
    ExponentScanned(n.exponent);
  }

  /** A text is read exactly when it is a decimal numeral, and then as that numeral. */
  lemma ScanExact(s: string, n: Numeral)
    ensures Scan(s) == Some(n) <==> WfNumeral(n) && NumeralText(n) == s
  {
    if Scan(s) == Some(n) {
      ScanSound(s);
    }
    if WfNumeral(n) && NumeralText(n) == s {
      ScanComplete(n);
    }
  }

  // ---------------------------------------------------------------- the parsed value

  datatype Parsed = Parsed(negative: bool, digits: string, scale: nat)

  function ExponentValue(e: Option<Exponent>): int
    requires WfNumeral(Numeral(false, "0", None, e))
  {
    if e.None? then 0 else if e.value.sign == "-" then -(Num(e.value.digits) as int) else Num(e.value.digits)
  }

  function FractionDigits(n: Numeral): string {
    n.fraction.GetOr("")
  }

  predicate WithinLimits(n: Numeral)
    requires WfNumeral(n)
  {
    |n.whole| + |FractionDigits(n)| <= 10000 && -1000 <= ExponentValue(n.exponent) <= 1000
  }

  function ParsedOf(n: Numeral): Parsed
    requires WfNumeral(n)
  {
    var digits := StripZeros(n.whole + FractionDigits(n));
    var scale := |FractionDigits(n)| - ExponentValue(n.exponent);
    if scale < 0 then Parsed(n.negative, digits + Zeros(-scale), 0) else Parsed(n.negative, digits, scale)
  }

  function Decimal(s: string): (r: Option<Parsed>)
    ensures r.Some? ==> r.value.digits != "" && Digits(r.value.digits)
  {
    match Scan(s)
    case None => None
    case Some(n) =>
      ScanSound(s);
      if WithinLimits(n) then Some(ParsedOf(n)) else None
  }

  // `x / 10^a == y / 10^b`, without fractions
  predicate SameValue(x: nat, a: int, y: nat, b: int) {
    if a >= b then x == y * Pow10(a - b) else x * Pow10(b - a) == y
  }

  lemma WfParts(n: Numeral)
    requires WfNumeral(n)
    ensures Digits(n.whole + FractionDigits(n)) && WfNumeral(Numeral(false, "0", None, n.exponent))
  {
  }

  lemma PowZero()
    ensures Pow10(0) == 1
  {
  }

  /** Parsing keeps the value: digits over ten to the scale is the numeral with its exponent. */
  lemma ParsedExact(n: Numeral)
    requires WfNumeral(n)
    ensures var p := ParsedOf(n);
            && p.negative == n.negative
            && SameValue(Num(p.digits), p.scale, Num(n.whole + FractionDigits(n)),
                         |FractionDigits(n)| - ExponentValue(n.exponent))
  {
    hide StripZeros, Num, WfNumeral, Pow10;
    WfParts(n);
    var all := n.whole + FractionDigits(n);
    NumStripped(all);
    PowZero();
    var scale := |FractionDigits(n)| - ExponentValue(n.exponent);
    if scale < 0 {
      NumPadded(StripZeros(all), -scale);
    }
  }

  // ---------------------------------------------------------------- rounding

  function Round(n: nat, divisor: nat): nat
    requires divisor >= 1
  {
    n / divisor + if n % divisor * 2 >= divisor then 1 else 0
  }

  /** Half-up rounding: the nearest multiple, and the upper one of two that are equally near. */
  lemma RoundNearest(n: nat, divisor: nat)
    requires divisor >= 1
    ensures var r := Round(n, divisor); 2 * (r * divisor) <= 2 * n + divisor < 2 * (r * divisor) + 2 * divisor
  {
    var q, m := n / divisor, n % divisor;
    assert n == q * divisor + m;
    assert (q + 1) * divisor == q * divisor + divisor;
  }

  // The scaled amount at a precision
  function Amount(digits: string, scale: nat, precision: nat): nat
    requires Digits(digits)
  {
    if scale > precision then Round(Num(digits), Pow10(scale - precision)) else Num(digits) * Pow10(precision - scale)
  }

  // ---------------------------------------------------------------- printing

  function DigitChar(d: nat): (c: char)
    requires d < 10
    ensures IsDigit(c) && DigitValue(c) == d
  {
    '0' + d as char
  }

  // `amount.toString()`
  function ToText(n: nat): (s: string)
    ensures s != "" && Digits(s)
  {
    if n < 10 then [DigitChar(n)] else ToText(n / 10) + [DigitChar(n % 10)]
  }

  lemma {:induction false} ToTextExact(n: nat)
    ensures Num(ToText(n)) == n
    ensures ToText(n)[0] == '0' <==> n == 0
    ensures n == 0 ==> ToText(n) == "0"
  {
    if n >= 10 {
      ToTextExact(n / 10);
      assert ToText(n)[..|ToText(n)| - 1] == ToText(n / 10);
    } else {
      assert [DigitChar(n)][..0] == "";
    }
  }

  // `padStart(width, '0')`
  function PadStart(s: string, width: nat): (r: string)
    requires Digits(s)
    ensures Digits(r) && |r| >= width && |r| >= |s|
  {
    if |s| < width then Zeros(width - |s|) + s else s
  }

  function Grouped(s: string): (r: string)
    ensures s != "" ==> r != "" && r[0] == s[0]
  {
    if |s| <= 3 then s else Grouped(s[..|s| - 3]) + "," + s[|s| - 3..]
  }

  function Ungrouped(s: string): string {
    if s == "" then ""
    else Ungrouped(s[..|s| - 1]) + if s[|s| - 1] == ',' then "" else [s[|s| - 1]]
  }

  lemma {:induction false} UngroupedConcat(a: string, b: string)
    ensures Ungrouped(a + b) == Ungrouped(a) + Ungrouped(b)
  {
    if b == "" {
      assert a + b == a;
    } else {
      UngroupedConcat(a, b[..|b| - 1]);
      assert (a + b)[..|a + b| - 1] == a + b[..|b| - 1];
    }
  }

  lemma {:induction false} UngroupedDigits(s: string)
    requires Digits(s)
    ensures Ungrouped(s) == s
  {
    if s != "" {
      UngroupedDigits(s[..|s| - 1]);
    }
  }

  lemma {:induction false} GroupedBack(s: string)
    requires Digits(s)
    ensures Ungrouped(Grouped(s)) == s
  {
    hide Ungrouped, IsDigit;
    if |s| <= 3 {
      UngroupedDigits(s);
    } else {
      var head, tail := s[..|s| - 3], s[|s| - 3..];
      GroupedBack(head);
      UngroupedDigits(tail);
      UngroupedConcat(Grouped(head) + ",", tail);
      UngroupedConcat(Grouped(head), ",");
      UngroupedComma();
      assert head + "" == head && head + tail == s;
    }
  }

  // Every comma has a multiple of three digits, and as many commas as that makes, behind it.
  ghost predicate CommasByFour(t: string) {
    forall k :: 0 <= k < |t| ==> (t[k] == ',' <==> (|t| - k) % 4 == 0)
  }

  lemma {:induction false} GroupedCommas(s: string)
    requires Digits(s)
    ensures CommasByFour(Grouped(s)) && (s != "" ==> |Grouped(s)| % 4 != 0)
  {
    hide CommasByFour;
    if |s| <= 3 {
      NoCommas(s);
    } else {
      GroupedCommas(s[..|s| - 3]);
      GroupedPlaces(Grouped(s[..|s| - 3]), s[|s| - 3..]);
    }
  }

  lemma NoCommas(s: string)
    requires Digits(s) && |s| <= 3
    ensures CommasByFour(s)
  {
  }

  /** Commas split an integer into groups of three from the right, and taking them out gives it back. */
  lemma GroupedExact(s: string)
    requires Digits(s) && s != ""
    ensures Ungrouped(Grouped(s)) == s && CommasByFour(Grouped(s)) && Grouped(s)[0] != ','
  {
    GroupedBack(s);
    GroupedCommas(s);
  }

  lemma UngroupedComma()
    ensures Ungrouped(",") == ""
  {
    assert ","[..0] == "";
  }

  lemma GroupedPlaces(g: string, tail: string)
    requires Digits(tail) && |tail| == 3
    requires CommasByFour(g)
    ensures CommasByFour(g + "," + tail) && |g + "," + tail| % 4 == |g| % 4
  {
    var t := g + "," + tail;
    forall k | 0 <= k < |t|
      ensures t[k] == ',' <==> (|t| - k) % 4 == 0
    {
      if k < |g| {
        assert t[k] == g[k];
        assert |t| - k == |g| - k + 4;
      } else if k > |g| {
        assert t[k] == tail[k - |g| - 1];
      }
    }
  }

  // ---------------------------------------------------------------- display

  datatype Format = Money | Count | Ratio | Plain | Raw

  datatype Column = Column(certified: bool, metric: bool, unit: Option<string>, format: Format)

  // What is displayed; `text` is what `String(value)` gives.
  datatype Value = Null | Text(text: string) | Number(text: string) | Other(text: string)

  const NO_DATA := "\U{65E0}\U{6570}\U{636E}"
  const EMPTY_TEXT := "\U{7A7A}\U{5B57}\U{7B26}\U{4E32}"

  function RawText(v: Value): string {
    match v
    case Null => NO_DATA
    case Text(s) => if s == "" then EMPTY_TEXT else s
    case Number(s) => s
    case Other(s) => s
  }

  function ParsedValue(v: Value): (r: Option<Parsed>)
    ensures r.Some? ==> r.value.digits != "" && Digits(r.value.digits)
  {
    if v.Text? || v.Number? then Decimal(v.text) else None
  }

  predicate Shown(c: Option<Column>) {
    c.Some? && c.value.certified && c.value.metric && !c.value.format.Raw?
  }

  // A ratio is shown as a percentage: two places fewer.
  function Shifted(p: Parsed, ratio: bool): (r: Parsed)
    requires p.digits != "" && Digits(p.digits)
    ensures r.digits != "" && Digits(r.digits) && r.negative == p.negative
  {
    if !ratio then p
    else if p.scale >= 2 then p.(scale := p.scale - 2)
    else p.(digits := p.digits + Zeros(2 - p.scale), scale := 0)
  }

  // The last `n` digits are zero.
  predicate EndsInZeros(s: string, n: nat) {
    |s| >= n && s[|s| - n..] == Zeros(n)
  }

  function Suffix(c: Column): string {
    if c.unit.None? then "" else if c.format.Ratio? then c.unit.value else " " + c.unit.value
  }

  // An amount with its decimal places
  function Layout(negative: bool, amount: nat, precision: nat): string {
    var text := PadStart(ToText(amount), precision + 1);
    var whole := text[..|text| - precision];
    (if negative && amount != 0 then "-" else "")
    + (Grouped(whole) + (if precision > 0 then "." + text[|text| - precision..] else ""))
  }

  function Display(v: Value, c: Option<Column>): string {
    if !Shown(c) || ParsedValue(v).None? then RawText(v)
    else
      var format := c.value.format;
      var p := Shifted(ParsedValue(v).value, format.Ratio?);
      if format.Count? then
        if p.scale > 0 && !EndsInZeros(p.digits, p.scale) then RawText(v)
        else Layout(p.negative, Num(CountDigits(p)), 0) + Suffix(c.value)
      else
        var places := if format.Plain? then p.scale else 2;
        Layout(p.negative, Amount(p.digits, p.scale, places), places) + Suffix(c.value)
  }

  // The digits of a whole number of things
  function CountDigits(p: Parsed): (digits: string)
    requires Digits(p.digits)
    ensures Digits(digits)
  {
    if p.scale == 0 then p.digits else if p.scale < |p.digits| then p.digits[..|p.digits| - p.scale] else "0"
  }

  // A sign, an integer in groups and the places of an amount
  ghost predicate Spells(s: string, whole: string, places: string, negative: bool, amount: nat, precision: nat) {
    && s == (if negative && amount != 0 then "-" else "")
            + (Grouped(whole) + (if precision > 0 then "." + places else ""))
    && whole != "" && Digits(whole) && Digits(places) && |places| == precision
    && (whole[0] == '0' ==> whole == "0")
    && Num(whole + places) == amount
  }

  // The text reads back as the amount.
  ghost predicate ReadsAs(s: string, negative: bool, amount: nat, precision: nat) {
    exists whole, places {:trigger Spells(s, whole, places, negative, amount, precision)} ::
      Spells(s, whole, places, negative, amount, precision)
  }

  lemma PadExact(n: nat, width: nat)
    requires width >= 1
    ensures var t := PadStart(ToText(n), width);
            Num(t) == n && t[..|t| - (width - 1)] != "" && (t[0] == '0' ==> |t| == width)
  {
    ToTextExact(n);
    if |ToText(n)| < width {
      NumPadded(ToText(n), width - |ToText(n)|);
    }
  }

  /** An amount is printed with exactly its places, its sign only when it is not zero, and reads back exactly. */
  lemma LayoutReads(negative: bool, amount: nat, precision: nat)
    ensures ReadsAs(Layout(negative, amount, precision), negative, amount, precision)
  {
    hide Num, ToText, PadStart, Grouped;
    var text := PadStart(ToText(amount), precision + 1);
    var whole, places := text[..|text| - precision], text[|text| - precision..];
    PadExact(amount, precision + 1);
    assert whole + places == text;
    ZeroWhole(whole);
    assert Spells(Layout(negative, amount, precision), whole, places, negative, amount, precision);
  }

  lemma ZeroWhole(whole: string)
    ensures |whole| == 1 && whole[0] == '0' ==> whole == "0"
  {
  }

  lemma ShiftedExact(p: Parsed, ratio: bool)
    requires p.digits != "" && Digits(p.digits)
    ensures var r := Shifted(p, ratio);
            SameValue(Num(r.digits), r.scale, Num(p.digits), p.scale - if ratio then 2 else 0)
  {
    hide Num, Pow10;
    PowZero();
    if ratio && p.scale < 2 {
      NumPadded(p.digits, 2 - p.scale);
    }
  }

  // The amount at two places against the exact value `n / 10^scale`
  ghost predicate RoundedAt2(amount: nat, n: nat, scale: nat) {
    if scale <= 2 then amount == n * Pow10(2 - scale)
    else
      2 * (amount * Pow10(scale - 2)) <= 2 * n + Pow10(scale - 2)
                                      < 2 * (amount * Pow10(scale - 2)) + 2 * Pow10(scale - 2)
  }

  /**
   * Money and ratios are shown as the exact value, times 100 for a ratio, rounded to two places
   * with ties away from zero; a value that rounds to zero has no sign.
   */
  lemma DisplayRounds(v: Value, c: Option<Column>)
    requires Shown(c) && (c.value.format.Money? || c.value.format.Ratio?) && ParsedValue(v).Some?
    ensures var p := ParsedValue(v).value;
            var q := Shifted(p, c.value.format.Ratio?);
            var amount := Amount(q.digits, q.scale, 2);
            && SameValue(Num(q.digits), q.scale, Num(p.digits), p.scale - if c.value.format.Ratio? then 2 else 0)
            && RoundedAt2(amount, Num(q.digits), q.scale)
            && exists body :: Display(v, c) == body + Suffix(c.value) && ReadsAs(body, p.negative, amount, 2)
  {
    hide Num, Pow10, Layout, ReadsAs, SameValue, ParsedValue, Shifted, Round, Suffix;
    var p := ParsedValue(v).value;
    var q := Shifted(p, c.value.format.Ratio?);
    ShiftedExact(p, c.value.format.Ratio?);
    if q.scale > 2 {
      RoundNearest(Num(q.digits), Pow10(q.scale - 2));
    }
    LayoutReads(p.negative, Amount(q.digits, q.scale, 2), 2);
  }

  // ---------------------------------------------------------------- whole numbers

  lemma {:induction false} NumBound(s: string)
    requires Digits(s)
    ensures Num(s) < Pow10(|s|)
  {
    if s != "" {
      NumBound(s[..|s| - 1]);
    }
  }

  lemma {:induction false} PowGrows(m: nat, n: nat)
    requires m <= n
    ensures Pow10(m) <= Pow10(n)
  {
    if m < n {
      PowGrows(m, n - 1);
    }
  }

  // The value of `digits` over ten to the scale is a whole number.
  ghost predicate Whole(digits: string, scale: nat)
    requires Digits(digits)
  {
    exists n: nat {:trigger n * Pow10(scale)} :: Num(digits) == n * Pow10(scale)
  }

  lemma {:induction false} Spread(a: nat, b: nat, p: nat)
    requires a <= b
    ensures a * p <= b * p
    ensures a < b ==> a * p + p <= b * p
    decreases b
  {
    if a < b {
      Spread(a, b - 1, p);
      assert b * p == (b - 1) * p + p;
    }
  }

  lemma Multiple(n: nat, p: nat, head: nat, tail: nat)
    requires n * p == head * p + tail && tail < p
    ensures tail == 0
  {
    if n <= head {
      Spread(n, head, p);
    } else {
      Spread(head, n, p);
    }
  }

  /** A number is whole exactly when its decimal places are zeros, or it is zero. */
  lemma WholeExact(digits: string, scale: nat)
    requires Digits(digits)
    ensures Whole(digits, scale) <==> EndsInZeros(digits, scale) || Num(digits) == 0
  {
    hide Num, Pow10, Zeros;
    if EndsInZeros(digits, scale) {
      var head := digits[..|digits| - scale];
      assert digits == head + Zeros(scale);
      NumPadded(head, scale);
    } else if Num(digits) == 0 {
      assert Num(digits) == 0 * Pow10(scale);
    } else if Whole(digits, scale) {
      var n: nat :| Num(digits) == n * Pow10(scale);
      if |digits| < scale {
        NumBound(digits);
        PowGrows(|digits|, scale);
        Multiple(n, Pow10(scale), 0, Num(digits));
      } else {
        var head, tail := digits[..|digits| - scale], digits[|digits| - scale..];
        assert digits == head + tail;
        NumConcat(head, tail);
        NumBound(tail);
        Multiple(n, Pow10(scale), Num(head), Num(tail));
        AllZero(tail);
        ZerosAre(tail);
      }
    }
  }

  lemma ZerosAre(s: string)
    requires forall i :: 0 <= i < |s| ==> s[i] == '0'
    ensures s == Zeros(|s|)
  {
  }

  /**
   * A count is shown as an integer of exactly its value when its decimal places are zeros, and as
   * it came otherwise: when it is not whole, or is zero with more places than digits.
   */
  lemma CountExact(v: Value, c: Option<Column>)
    requires Shown(c) && c.value.format.Count? && ParsedValue(v).Some?
    ensures var p := ParsedValue(v).value;
            && (EndsInZeros(p.digits, p.scale) ==>
                  exists body, n: nat {:trigger ReadsAs(body, p.negative, n, 0)} ::
                    Display(v, c) == body + Suffix(c.value) && ReadsAs(body, p.negative, n, 0)
                      && Num(p.digits) == n * Pow10(p.scale))
            && (!EndsInZeros(p.digits, p.scale) ==> Display(v, c) == RawText(v))
            && (Whole(p.digits, p.scale) <==> EndsInZeros(p.digits, p.scale) || Num(p.digits) == 0)
  {
    hide Num, Pow10, Layout, ReadsAs, ParsedValue, Suffix, RawText, Zeros;
    var p := ParsedValue(v).value;
    WholeExact(p.digits, p.scale);
    if EndsInZeros(p.digits, p.scale) {
      CountValue(p);
      LayoutReads(p.negative, Num(CountDigits(p)), 0);
      assert ReadsAs(Layout(p.negative, Num(CountDigits(p)), 0), p.negative, Num(CountDigits(p)), 0);
    }
  }

  lemma CountValue(p: Parsed)
    requires Digits(p.digits) && p.digits != "" && EndsInZeros(p.digits, p.scale)
    ensures Num(p.digits) == Num(CountDigits(p)) * Pow10(p.scale)
    ensures p.scale == 0 ==> EndsInZeros(p.digits, p.scale)
  {
    hide Num;
    var head := p.digits[..|p.digits| - p.scale];
    assert p.digits == head + Zeros(p.scale);
    NumPadded(head, p.scale);
    if p.scale == |p.digits| {
      assert head == "";
      AmountOfZero();
      FewZeros();
    }
  }

  /** A plain number is shown with all of its decimal places, and reads back exactly. */
  lemma PlainExact(v: Value, c: Option<Column>)
    requires Shown(c) && c.value.format.Plain? && ParsedValue(v).Some?
    ensures var p := ParsedValue(v).value;
            exists body :: Display(v, c) == body + Suffix(c.value) && ReadsAs(body, p.negative, Num(p.digits), p.scale)
  {
    hide Num, Layout, ReadsAs, ParsedValue, Suffix, RawText;
    var p := ParsedValue(v).value;
    PowZero();
    LayoutReads(p.negative, Num(p.digits), p.scale);
  }

  // ---------------------------------------------------------------- what is formatted at all

  // The text is a decimal numeral of at most 10000 digits whose exponent is at most 1000 in size.
  ghost predicate Readable(s: string) {
    exists n :: WfNumeral(n) && NumeralText(n) == s
                && |n.whole| + (if n.fraction.Some? then |n.fraction.value| else 0) <= 10000
                && (n.exponent.Some? ==> Num(n.exponent.value.digits) <= 1000)
  }

  // A value is formatted when its column is a certified metric with a format, and it reads as a decimal.
  ghost predicate Formatted(v: Value, c: Option<Column>) {
    && c.Some? && c.value.certified && c.value.metric && c.value.format in {Money, Count, Ratio, Plain}
    && (v.Text? || v.Number?) && Readable(v.text)
  }

  lemma ReadableExact(s: string)
    ensures Readable(s) <==> Decimal(s).Some?
  {
    hide Scan, NumeralText, WithinLimits, Num, ParsedOf;
    if Decimal(s).Some? {
      ScanSound(s);
      LimitsExact(Scan(s).value);
      assert WfNumeral(Scan(s).value);
    }
    if n :| WfNumeral(n) && NumeralText(n) == s
            && |n.whole| + (if n.fraction.Some? then |n.fraction.value| else 0) <= 10000
            && (n.exponent.Some? ==> Num(n.exponent.value.digits) <= 1000) {
      ScanExact(s, n);
      LimitsExact(n);
    }
  }

  lemma LimitsExact(n: Numeral)
    requires WfNumeral(n)
    ensures WithinLimits(n) <==>
              && |n.whole| + (if n.fraction.Some? then |n.fraction.value| else 0) <= 10000
              && (n.exponent.Some? ==> Num(n.exponent.value.digits) <= 1000)
  {
    hide Num;
  }

  /** Everything else is shown as it came, an absent value and an empty text by their words. */
  lemma RawExact(v: Value, c: Option<Column>)
    ensures Formatted(v, c) <==> Shown(c) && ParsedValue(v).Some?
    ensures !Formatted(v, c) ==>
              Display(v, c) == match v
                               case Null => "\U{65E0}\U{6570}\U{636E}"
                               case Text(s) => if s == "" then "\U{7A7A}\U{5B57}\U{7B26}\U{4E32}" else s
                               case Number(s) => s
                               case Other(s) => s
  {
    hide Readable, Decimal, Layout, Num, NO_DATA, EMPTY_TEXT;
    if v.Text? || v.Number? {
      ReadableExact(v.text);
    }
    Words();
  }

  lemma Words()
    ensures NO_DATA == "\U{65E0}\U{6570}\U{636E}" && EMPTY_TEXT == "\U{7A7A}\U{5B57}\U{7B26}\U{4E32}"
  {
  }

  // ---------------------------------------------------------------- what rounds to zero

  // `\s` of a regular expression
  predicate Space(c: char) {
    || c == ' ' || ('\U{9}' <= c <= '\U{D}') || c == '\U{A0}' || c == '\U{1680}' || ('\U{2000}' <= c <= '\U{200A}')
    || c == '\U{2028}' || c == '\U{2029}' || c == '\U{202F}' || c == '\U{205F}' || c == '\U{3000}' || c == '\U{FEFF}'
  }

  // `/^(?:0\.00)(?:\s|%|$)/`
  predicate ReadsZero(s: string) {
    |s| >= 4 && s[..4] == "0.00" && (|s| == 4 || s[4] == '%' || Space(s[4]))
  }

  function RoundedToZero(v: Value, c: Option<Column>): bool {
    ParsedValue(v).Some? && Num(ParsedValue(v).value.digits) != 0 && ReadsZero(Display(v, c))
  }

  // The unit lets the regular expression end after the places.
  predicate EndsAfterPlaces(c: Column) {
    c.format.Money? || (c.format.Ratio? && (c.unit.None? || c.unit.value == "" || c.unit.value[0] == '%'
                                            || Space(c.unit.value[0])))
  }

  // A raw numeral that reads "0.00" is zero.
  lemma RawNotZero(s: string)
    requires ReadsZero(s) && Decimal(s).Some?
    ensures Num(Decimal(s).value.digits) == 0
  {
    ScanZero(s);
    ScanSound(s);
    ZeroDigits();
  }

  lemma ZeroDigits()
    ensures Num(StripZeros("0" + "00")) == 0
  {
    assert "0" + "00" == Zeros(3);
    NumStripped(Zeros(3));
    NumZeros(3);
  }

  lemma ScanZero(s: string)
    requires ReadsZero(s)
    ensures Scan(s) == if |s| == 4 then Some(Numeral(false, "0", Some("00"), None)) else None
  {
    hide Digits, ScanExponent;
    var rest := s[4..];
    assert s == "0" + (".00" + rest);
    PlainDigits();
    DigitRunAt("0", ".00" + rest);
    assert s[1..] == ".00" + rest && s[..1] == "0";
    assert s[1..][1..] == "00" + rest;
    DigitRunAt("00", rest);
    assert ("00" + rest)[..2] == "00" && ("00" + rest)[2..] == rest;
    ScanRest(rest);
  }

  lemma PlainDigits()
    ensures Digits("0") && Digits("00")
  {
  }

  lemma ScanRest(rest: string)
    requires rest != "" ==> rest[0] == '%' || Space(rest[0])
    ensures ScanExponent(rest) == if rest == "" then Some(None) else None
    ensures rest != "" ==> !IsDigit(rest[0])
  {
  }

  // What a spelled amount starts with
  lemma SpelledStart(s: string, whole: string, places: string, negative: bool, amount: nat, precision: nat)
    requires Spells(s, whole, places, negative, amount, precision)
    ensures amount != 0 && s[0] == '0' ==> whole == "0" && Grouped(whole) == "0"
    ensures amount == 0 ==> whole == "0" || whole[0] != '0'
  {
  }

  lemma ZeroAmount(whole: string, places: string)
    requires Digits(whole) && Digits(places) && Num(whole + places) == 0 && whole != ""
    ensures forall i :: 0 <= i < |whole| ==> whole[i] == '0'
    ensures forall i :: 0 <= i < |places| ==> places[i] == '0'
  {
    AllZero(whole + places);
    assert forall i :: 0 <= i < |whole| ==> (whole + places)[i] == whole[i];
    assert forall i :: 0 <= i < |places| ==> (whole + places)[|whole| + i] == places[i];
  }

  lemma {:induction false} AllZero(s: string)
    requires Digits(s) && Num(s) == 0
    ensures forall i :: 0 <= i < |s| ==> s[i] == '0'
  {
    if s != "" {
      AllZero(s[..|s| - 1]);
    }
  }

  /** A spelled amount of two places reads as zero exactly when it is zero and the suffix lets it. */
  lemma TwoPlaces(body: string, negative: bool, amount: nat, suffix: string)
    requires ReadsAs(body, negative, amount, 2)
    ensures ReadsZero(body + suffix) <==> amount == 0 && (suffix == "" || suffix[0] == '%' || Space(suffix[0]))
  {
    hide Num;
    var whole, places :| Spells(body, whole, places, negative, amount, 2);
    SpelledStart(body, whole, places, negative, amount, 2);
    if amount == 0 {
      ZeroAmount(whole, places);
      assert whole == "0" && places == "00";
      assert body == "0.00";
      assert (body + suffix)[..4] == "0.00";
      assert suffix != "" ==> (body + suffix)[4] == suffix[0];
    } else if ReadsZero(body + suffix) {
      var all := body + suffix;
      assert all[0] == '0';
      assert body != "";
      assert body[0] == all[0];
      NotZero(body, whole, places, suffix, amount, negative);
    }
  }

  lemma NotZero(body: string, whole: string, places: string, suffix: string, amount: nat, negative: bool)
    requires Spells(body, whole, places, negative, amount, 2) && amount != 0 && whole == "0" && body[0] == '0'
    ensures !ReadsZero(body + suffix)
  {
    assert body == "0" + ("." + places);
    if ReadsZero(body + suffix) {
      assert (body + suffix)[2] == places[0] && (body + suffix)[3] == places[1];
      assert places == Zeros(2);
      NumPadded("0", 2);
      assert Num("0") == 0 by { AmountOfZero(); }
    }
  }

  lemma AmountOfZero()
    ensures Num("0") == 0
  {
    assert "0"[..0] == "";
  }

  // An amount that is not zero, with all of its places shown, never reads as zero.
  lemma ExactNotZero(body: string, negative: bool, amount: nat, precision: nat, suffix: string)
    requires ReadsAs(body, negative, amount, precision) && amount != 0 && (suffix != "" ==> suffix[0] == ' ')
    ensures !ReadsZero(body + suffix)
  {
    hide Num;
    var whole, places :| Spells(body, whole, places, negative, amount, precision);
    SpelledStart(body, whole, places, negative, amount, precision);
    assert body != "" && (body + suffix)[0] == body[0];
    if body[0] == '0' {
      assert whole == "0";
      ZeroWholePlaces(body, places, negative, amount, precision, suffix);
    }
  }

  lemma ZeroWholePlaces(body: string, places: string, negative: bool, amount: nat, precision: nat, suffix: string)
    requires Spells(body, "0", places, negative, amount, precision) && amount != 0 && body[0] == '0'
    requires suffix != "" ==> suffix[0] == ' '
    ensures !ReadsZero(body + suffix)
  {
    hide Num, ReadsZero, IsDigit;
    SomePlace(places, amount);
    PlacesDecide(places, suffix);
    assert body + suffix == "0." + places + suffix;
  }

  lemma PlacesDecide(places: string, suffix: string)
    requires Digits(places) && places != "" && places != "0" && places != "00" && (|places| > 2 ==> IsDigit(places[2]))
    requires suffix != "" ==> suffix[0] == ' '
    ensures !ReadsZero("0." + places + suffix)
  {
    var all := "0." + places + suffix;
    assert all[2] == places[0];
    if |places| == 1 {
      assert places == [places[0]];
    } else if |places| == 2 {
      assert places == [places[0], places[1]] && all[3] == places[1];
    } else {
      assert all[4] == places[2];
    }
  }

  // Some place is not zero, and the first two decide when there are no more.
  lemma SomePlace(places: string, amount: nat)
    requires Digits(places) && Num("0" + places) == amount && amount != 0
    ensures places != "" && places != "0" && places != "00"
    ensures |places| > 2 ==> IsDigit(places[2])
  {
    hide Num, Pow10, Zeros;
    NumConcat("0", places);
    AmountOfZero();
    FewZeros();
  }

  lemma FewZeros()
    ensures Num("") == 0 && Num("0") == 0 && Num("00") == 0
  {
    assert "00" == Zeros(2) && "0" == Zeros(1);
    NumZeros(2);
    NumZeros(1);
  }

  lemma CountNotZero(p: Parsed)
    requires Digits(p.digits) && p.digits != "" && Num(p.digits) != 0
             && (p.scale > 0 ==> EndsInZeros(p.digits, p.scale))
    ensures Num(CountDigits(p)) != 0
  {
    hide IsDigit, Pow10;
    if p.scale > 0 {
      var head := p.digits[..|p.digits| - p.scale];
      assert p.digits == head + Zeros(p.scale);
      HeadNotZero(p.digits, head, p.scale);
    }
  }

  lemma HeadNotZero(digits: string, head: string, n: nat)
    requires Digits(digits) && digits == head + Zeros(n) && Digits(head) && Num(digits) != 0
    ensures head != "" && Num(head) != 0
  {
    NumPadded(head, n);
  }

  lemma RawReads(v: Value)
    requires ParsedValue(v).Some? && ReadsZero(RawText(v))
    ensures Num(ParsedValue(v).value.digits) == 0
  {
    assert v.text != "";
    RawNotZero(v.text);
  }

  lemma CountReads(v: Value, c: Option<Column>)
    requires Shown(c) && c.value.format.Count? && ParsedValue(v).Some? && Num(ParsedValue(v).value.digits) != 0
    ensures !ReadsZero(Display(v, c))
  {
    hide Num, ReadsZero, ParsedValue, Layout, RawText;
    var p := ParsedValue(v).value;
    if p.scale > 0 && !EndsInZeros(p.digits, p.scale) {
      if ReadsZero(RawText(v)) {
        RawReads(v);
      }
    } else {
      CountNotZero(p);
      LayoutReads(p.negative, Num(CountDigits(p)), 0);
      ExactNotZero(Layout(p.negative, Num(CountDigits(p)), 0), p.negative, Num(CountDigits(p)), 0, Suffix(c.value));
    }
  }

  lemma PlainReads(v: Value, c: Option<Column>)
    requires Shown(c) && c.value.format.Plain? && ParsedValue(v).Some? && Num(ParsedValue(v).value.digits) != 0
    ensures !ReadsZero(Display(v, c))
  {
    hide Num, ReadsZero, ParsedValue, Layout, RawText;
    var p := ParsedValue(v).value;
    PowZero();
    LayoutReads(p.negative, Num(p.digits), p.scale);
    ExactNotZero(Layout(p.negative, Num(p.digits), p.scale), p.negative, Num(p.digits), p.scale, Suffix(c.value));
  }

  lemma TwoPlacesReads(v: Value, c: Option<Column>)
    requires Shown(c) && (c.value.format.Money? || c.value.format.Ratio?) && ParsedValue(v).Some?
    ensures var q := Shifted(ParsedValue(v).value, c.value.format.Ratio?);
            ReadsZero(Display(v, c)) <==> Amount(q.digits, q.scale, 2) == 0 && EndsAfterPlaces(c.value)
  {
    hide Num, ReadsZero, ParsedValue, Layout, RawText, Amount, Shifted, ReadsAs;
    var p := ParsedValue(v).value;
    var q := Shifted(p, c.value.format.Ratio?);
    var amount := Amount(q.digits, q.scale, 2);
    LayoutReads(p.negative, amount, 2);
    TwoPlaces(Layout(p.negative, amount, 2), p.negative, amount, Suffix(c.value));
  }

  /**
   * A value is reported as rounded to zero exactly when it is not zero, is shown as money or as a
   * ratio whose label the text can end with, and its rounded amount is zero.
   */
  lemma RoundedToZeroExact(v: Value, c: Option<Column>)
    ensures RoundedToZero(v, c) <==>
              && ParsedValue(v).Some? && Num(ParsedValue(v).value.digits) != 0
              && Shown(c) && EndsAfterPlaces(c.value)
              && var q := Shifted(ParsedValue(v).value, c.value.format.Ratio?); Amount(q.digits, q.scale, 2) == 0
  {
    hide Num, ReadsZero, ParsedValue, Layout, RawText, Amount, Shifted;
    if ParsedValue(v).Some? && Num(ParsedValue(v).value.digits) != 0 {
      if !Shown(c) {
        if ReadsZero(RawText(v)) {
          RawReads(v);
        }
      } else if c.value.format.Count? {
        CountReads(v, c);
      } else if c.value.format.Plain? {
        PlainReads(v, c);
      } else {
        TwoPlacesReads(v, c);
      }
    }
  }
}
