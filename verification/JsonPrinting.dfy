/**
 * A printer of JSON values, written from RFC 8259 by character, and the decoder on what it prints. It shares no
 * table of characters with the decoder or its grammar.
 */
module JsonPrinting {
  import opened Wrappers
  import opened JsonText
  import opened JsonSyntax
  import opened DecoderMachine
  import opened DecoderComplete
  import opened DecoderLanguage
  import opened Replica
  import opened DraftLedger

  function Code(c: char): CodePoint {
    c as int
  }

  function Codes(s: string): Text {
    seq(|s|, i requires 0 <= i < |s| => Code(s[i]))
  }

  // ---------------------------------------------------------------- characters of a string (section 7)

  // A character stands for itself, for a letter after a backslash, or for its code units, each as four digits
  // of the given cases.
  datatype Spelling = Plainly | Lettered | Digitally(upper: seq<bool>)

  function Letter(c: CodePoint): Option<char> {
    if c == 0x22 then Some('"')
    else if c == 0x5C then Some('\\')
    else if c == 0x2F then Some('/')
    else if c == 0x08 then Some('b')
    else if c == 0x0C then Some('f')
    else if c == 0x0A then Some('n')
    else if c == 0x0D then Some('r')
    else if c == 0x09 then Some('t')
    else None
  }

  // The ways to spell a character
  predicate May(c: CodePoint, how: Spelling) {
    match how
    case Plainly => c >= 0x20 && c != 0x22 && c != 0x5C
    case Lettered => Letter(c).Some?
    case Digitally(upper) => |upper| == if c < 0x10000 then 4 else 8
  }

  function DigitChar(v: nat, upper: bool): CodePoint
    requires v < 16
  {
    if v < 10 then Code('0') + v else (if upper then Code('A') else Code('a')) + (v - 10)
  }

  // A code unit, digit by digit
  function UnitText(u: nat, upper: seq<bool>): (r: Text)
    requires u < 0x10000 && |upper| == 4
    ensures |r| == 6
  {
    [Code('\\'), Code('u')]
    + [DigitChar(u / 16 / 16 / 16, upper[0]), DigitChar(u / 16 / 16 % 16, upper[1]),
       DigitChar(u / 16 % 16, upper[2]), DigitChar(u % 16, upper[3])]
  }

  function CharText(c: CodePoint, how: Spelling): Text
    requires May(c, how)
  {
    match how
    case Plainly => [c]
    case Lettered => [Code('\\'), Code(Letter(c).value)]
    case Digitally(upper) =>
      if c < 0x10000 then UnitText(c, upper)
      else UnitText(HighOf(c), upper[..4]) + UnitText(LowOf(c), upper[4..])
  }

  // The part of the grammar that derives a spelled character
  function ItemOf(c: CodePoint, how: Spelling): LitItem
    requires May(c, how)
  {
    match how
    case Plainly => Raw(c)
    case Lettered => Short(Code(Letter(c).value))
    case Digitally(upper) =>
      if c < 0x10000 then Unicode(UnitText(c, upper)[2..])
      else Pair(UnitText(HighOf(c), upper[..4])[2..], UnitText(LowOf(c), upper[4..])[2..])
  }

  lemma DigitRead(v: nat, upper: bool)
    requires v < 16
    ensures IsHex(DigitChar(v, upper)) && HexDigit(DigitChar(v, upper)) == v
  {
  }

  lemma UnitRead(u: nat, upper: seq<bool>)
    requires u < 0x10000 && |upper| == 4
    ensures IsHex4(UnitText(u, upper)[2..]) && HexValue(UnitText(u, upper)[2..]) == u
    ensures UnitText(u, upper) == [BACKSLASH, LOWER_U] + UnitText(u, upper)[2..]
  {
    DigitRead(u / 16 / 16 / 16, upper[0]);
    DigitRead(u / 16 / 16 % 16, upper[1]);
    DigitRead(u / 16 % 16, upper[2]);
    DigitRead(u % 16, upper[3]);
  }

  /** What the printer writes for a character, the grammar derives, and decodes to the same character. */
  lemma CharRead(c: CodePoint, how: Spelling)
    requires May(c, how) && IsScalar(c)
    ensures var item := ItemOf(c, how);
            WfItem(item) && ItemText(item) == CharText(c, how) && ItemChar(item) == c
  {
    hide UnitText, HexValue, IsHex4, ShortEscape;
    match how
    case Plainly =>
    case Lettered => LetterRead(c);
    case Digitally(upper) =>
      if c < 0x10000 {
        UnitRead(c, upper);
      } else {
        PairRead(c, upper);
      }
  }

  lemma LetterRead(c: CodePoint)
    requires Letter(c).Some?
    ensures ShortEscape(Code(Letter(c).value)) == Some(c) && BACKSLASH == Code('\\')
  {
  }

  lemma PairRead(c: CodePoint, upper: seq<bool>)
    requires c >= 0x10000 && |upper| == 8
    ensures var a, b := UnitText(HighOf(c), upper[..4]), UnitText(LowOf(c), upper[4..]);
            var item := Pair(a[2..], b[2..]);
            WfItem(item) && ItemChar(item) == c && ItemText(item) == a + b
  {
    hide UnitText, HexValue, IsHex4, HighOf, LowOf, PairValue;
    SurrogatePairs(0xD800, 0xDC00, c);
    UnitRead(HighOf(c), upper[..4]);
    UnitRead(LowOf(c), upper[4..]);
    PairIs(UnitText(HighOf(c), upper[..4])[2..], UnitText(LowOf(c), upper[4..])[2..]);
  }

  // A pair of escapes, as the grammar sees it
  lemma PairIs(h: Text, l: Text)
    requires IsHex4(h) && IsHex4(l) && IsHigh(HexValue(h)) && IsLow(HexValue(l))
    ensures WfItem(Pair(h, l)) && ItemChar(Pair(h, l)) == PairValue(HexValue(h), HexValue(l))
    ensures ItemText(Pair(h, l)) == ([BACKSLASH, LOWER_U] + h) + ([BACKSLASH, LOWER_U] + l)
  {
    hide HexValue, AllHex, PairValue;
  }

  // The value and the case of a digit give the digit back.
  lemma DigitWritten(d: CodePoint) returns (upper: bool)
    requires IsHex(d)
    ensures DigitChar(HexDigit(d), upper) == d
  {
    upper := d <= 0x46;
  }

  lemma UnitWritten(d: Text) returns (upper: seq<bool>)
    requires IsHex4(d)
    ensures |upper| == 4 && HexValue(d) < 0x10000 && UnitText(HexValue(d), upper) == [BACKSLASH, LOWER_U] + d
  {
    var a := DigitWritten(d[0]);
    var b := DigitWritten(d[1]);
    var x := DigitWritten(d[2]);
    var y := DigitWritten(d[3]);
    upper := [a, b, x, y];
    DigitsOf(HexDigit(d[0]), HexDigit(d[1]), HexDigit(d[2]), HexDigit(d[3]));
  }

  lemma DigitsOf(a: nat, b: nat, x: nat, y: nat)
    requires a < 16 && b < 16 && x < 16 && y < 16
    ensures var u := a * 4096 + b * 256 + x * 16 + y;
            u / 16 / 16 / 16 == a && u / 16 / 16 % 16 == b && u / 16 % 16 == x && u % 16 == y && u < 0x10000
  {
    LastDigit(a * 256 + b * 16 + x, y);
    LastDigit(a * 16 + b, x);
    LastDigit(a, b);
  }

  lemma LastDigit(q: nat, d: nat)
    requires d < 16
    ensures (q * 16 + d) / 16 == q && (q * 16 + d) % 16 == d
  {
  }

  /** Everything that the grammar derives inside a string, the printer writes for the character it decodes to. */
  lemma CharWritten(item: LitItem) returns (how: Spelling)
    requires WfItem(item)
    ensures IsScalar(ItemChar(item)) && May(ItemChar(item), how) && CharText(ItemChar(item), how) == ItemText(item)
  {
    hide UnitText, HexValue, AllHex, ShortEscape, HighOf, LowOf, PairValue;
    DecodedScalar(item);
    match item
    case Raw(_) => how := Plainly;
    case Short(c) =>
      LetterWritten(c);
      how := Lettered;
    case Unicode(d) =>
      var upper := UnitWritten(d);
      how := Digitally(upper);
    case Pair(h, l) =>
      PairIs(h, l);
      how := PairWritten(h, l);
  }

  lemma LetterWritten(c: CodePoint)
    requires ShortEscape(c).Some?
    ensures Letter(ShortEscape(c).value).Some?
    ensures [Code('\\'), Code(Letter(ShortEscape(c).value).value)] == [BACKSLASH, c]
  {
  }

  lemma PairWritten(h: Text, l: Text) returns (how: Spelling)
    requires IsHex4(h) && IsHex4(l) && IsHigh(HexValue(h)) && IsLow(HexValue(l))
    ensures var c := PairValue(HexValue(h), HexValue(l));
            May(c, how) && CharText(c, how) == ([BACKSLASH, LOWER_U] + h) + ([BACKSLASH, LOWER_U] + l)
  {
    hide UnitText, HexValue, AllHex, HighOf, LowOf, PairValue;
    var a := UnitWritten(h);
    var b := UnitWritten(l);
    how := Digitally(a + b);
    SurrogatePairs(HexValue(h), HexValue(l), 0x10000);
    assert (a + b)[..4] == a && (a + b)[4..] == b;
  }

  lemma AsciiBytes(t: Text)
    requires forall i :: 0 <= i < |t| ==> t[i] <= 0x7F
    ensures TextBytes(t) == |t|
  {
    if t != [] {
      AsciiBytes(t[..|t| - 1]);
    }
  }

  lemma UnitBytes(u: nat, upper: seq<bool>)
    requires u < 0x10000 && |upper| == 4
    ensures TextBytes(UnitText(u, upper)) == 6
  {
    AsciiBytes(UnitText(u, upper));
  }

  // The bytes of a spelled character
  lemma SpelledBytes(c: CodePoint, how: Spelling)
    requires May(c, how) && IsScalar(c)
    ensures TextBytes(CharText(c, how))
            == match how
               case Plainly => Utf8Size(c)
               case Lettered => 2
               case Digitally(_) => if c < 0x10000 then 6 else 12
  {
    hide UnitText, HighOf, LowOf, TextBytes;
    match how
    case Plainly => OneByte(c);
    case Lettered => AsciiBytes(CharText(c, how));
    case Digitally(upper) =>
      if c < 0x10000 {
        UnitBytes(c, upper);
      } else {
        SurrogatePairs(0xD800, 0xDC00, c);
        UnitBytes(HighOf(c), upper[..4]);
        UnitBytes(LowOf(c), upper[4..]);
        TextBytesConcat(UnitText(HighOf(c), upper[..4]), UnitText(LowOf(c), upper[4..]));
      }
  }

  lemma OneByte(c: CodePoint)
    ensures TextBytes([c]) == Utf8Size(c)
  {
    assert [c][..0] == [];
  }

  /** The size that the server counts for a character is that of its shortest spelling. */
  lemma CharSizeExact(c: CodePoint)
    requires IsScalar(c)
    ensures forall how :: May(c, how) ==> CharJson(c) <= TextBytes(CharText(c, how))
    ensures exists how :: May(c, how) && CharJson(c) == TextBytes(CharText(c, how))
  {
    hide TextBytes, CharText;
    forall how | May(c, how)
      ensures CharJson(c) <= TextBytes(CharText(c, how))
    {
      SpelledBytes(c, how);
    }
    var best := if May(c, Plainly) then Plainly else if May(c, Lettered) then Lettered
    else Digitally([false, false, false, false]);
    SpelledBytes(c, best);
  }

  // ---------------------------------------------------------------- strings

  /** A text with a spelling for each of its characters */
  datatype Quotation = Quotation(text: Text, how: seq<Spelling>)

  ghost predicate WfQuotation(q: Quotation) {
    && |q.how| == |q.text|
    && forall i :: 0 <= i < |q.text| ==> IsScalar(q.text[i]) && May(q.text[i], q.how[i])
  }

  ghost function Spelled(q: Quotation): Text
    requires WfQuotation(q)
    decreases |q.text|
  {
    if q.text == [] then []
    else
      var n := |q.text| - 1;
      Spelled(Quotation(q.text[..n], q.how[..n])) + CharText(q.text[n], q.how[n])
  }

  ghost function LitOf(q: Quotation): Lit
    requires WfQuotation(q)
  {
    seq(|q.text|, i requires 0 <= i < |q.text| => ItemOf(q.text[i], q.how[i]))
  }

  lemma {:induction false} QuotationText(q: Quotation)
    requires WfQuotation(q)
    ensures LitText(LitOf(q)) == Spelled(q)
    decreases |q.text|
  {
    if q.text != [] {
      var n := |q.text| - 1;
      var init := Quotation(q.text[..n], q.how[..n]);
      QuotationText(init);
      CharRead(q.text[n], q.how[n]);
      assert LitOf(q)[..n] == LitOf(init);
    }
  }

  lemma QuotationRead(q: Quotation)
    requires WfQuotation(q)
    ensures WfLit(LitOf(q)) && Decoded(LitOf(q)) == q.text
    ensures Quoted(LitOf(q)) == [Code('"')] + Spelled(q) + [Code('"')]
  {
    forall i | 0 <= i < |q.text|
      ensures WfItem(LitOf(q)[i]) && ItemChar(LitOf(q)[i]) == q.text[i]
    {
      CharRead(q.text[i], q.how[i]);
    }
    QuotationText(q);
  }

  // ---------------------------------------------------------------- numbers (section 6) and white space (section 2)

  datatype Exponent = Exponent(upper: bool, sign: Option<bool>, digits: Text)

  datatype Numeral = Numeral(negative: bool, whole: Text, fraction: Option<Text>, exponent: Option<Exponent>)

  predicate Decimals(t: Text) {
    t != [] && forall i :: 0 <= i < |t| ==> Code('0') <= t[i] <= Code('9')
  }

  predicate WfNumeral(n: Numeral) {
    && Decimals(n.whole) && (|n.whole| > 1 ==> n.whole[0] != Code('0'))
    && (n.fraction.Some? ==> Decimals(n.fraction.value))
    && (n.exponent.Some? ==> Decimals(n.exponent.value.digits))
  }

  function SignText(n: Numeral): Text {
    if n.negative then [Code('-')] else []
  }

  function FractionText(n: Numeral): Text {
    if n.fraction.Some? then [Code('.')] + n.fraction.value else []
  }

  function ExponentText(n: Numeral): Text {
    match n.exponent
    case None => []
    case Some(e) =>
      [if e.upper then Code('E') else Code('e')]
      + (match e.sign case None => [] case Some(minus) => [if minus then Code('-') else Code('+')])
      + e.digits
  }

  function NumberText(n: Numeral): Text {
    SignText(n) + n.whole + FractionText(n) + ExponentText(n)
  }

  /** A text is a number exactly when the printer writes it. */
  lemma NumberRead(n: Numeral)
    requires WfNumeral(n)
    ensures IsNumber(NumberText(n))
  {
    hide WfNumeral, SignText, FractionText, ExponentText, MinusAt, IntAt, FracAt, ExpAt;
    var t := NumberText(n);
    var p1 := |SignText(n)|;
    var p2 := p1 + |n.whole|;
    var p3 := p2 + |FractionText(n)|;
    assert t[p1..p2] == n.whole && t[p2..p3] == FractionText(n) && t[p3..] == ExponentText(n);
    WholeAt(n, t, p1, p2);
    FractionAt(n, t, p2, p3);
    ExponentAt(n, t, p3);
    assert NumberCut(t, p1, p2, p3);
  }

  lemma WholeAt(n: Numeral, t: Text, p1: nat, p2: nat)
    requires WfNumeral(n) && p1 <= p2 <= |t| && t[p1..p2] == n.whole && p1 == |SignText(n)| && t[..p1] == SignText(n)
    ensures MinusAt(t, 0, p1) && IntAt(t, p1, p2)
  {
    assert forall i :: p1 <= i < p2 ==> t[i] == n.whole[i - p1];
    assert p1 > 0 ==> t[0] == t[..p1][0];
  }

  lemma FractionAt(n: Numeral, t: Text, p2: nat, p3: nat)
    requires WfNumeral(n) && p2 <= p3 <= |t| && t[p2..p3] == FractionText(n)
    ensures FracAt(t, p2, p3)
  {
    assert forall i :: p2 <= i < p3 ==> t[i] == FractionText(n)[i - p2];
    if n.fraction.Some? {
      assert forall i :: p2 < i < p3 ==> t[i] == n.fraction.value[i - p2 - 1];
    }
  }

  lemma ExponentAt(n: Numeral, t: Text, p3: nat)
    requires WfNumeral(n) && p3 <= |t| && t[p3..] == ExponentText(n)
    ensures ExpAt(t, p3, |t|)
  {
    if n.exponent.Some? {
      var e := n.exponent.value;
      var from := if e.sign.Some? then p3 + 2 else p3 + 1;
      assert forall i :: p3 <= i < |t| ==> t[i] == t[p3..][i - p3];
      assert forall i :: from <= i < |t| ==> t[i] == e.digits[i - from];
    }
  }

  lemma NumberWritten(t: Text) returns (n: Numeral)
    requires IsNumber(t)
    ensures WfNumeral(n) && NumberText(n) == t
  {
    hide MinusAt, IntAt, FracAt, ExpAt;
    var p1: nat, p2: nat, p3: nat :| NumberCut(t, p1, p2, p3);
    WholeOf(t, p1, p2);
    var f := FractionOf(t, p2, p3);
    var e := ExponentOf(t, p3);
    n := Numeral(p1 > 0, t[p1..p2], f, e);
    FourParts(t, p1, p2, p3);
  }

  lemma FourParts(t: Text, p1: nat, p2: nat, p3: nat)
    requires p1 <= p2 <= p3 <= |t|
    ensures t == t[..p1] + t[p1..p2] + t[p2..p3] + t[p3..]
  {
    assert t[..p2] == t[..p1] + t[p1..p2];
    assert t[..p3] == t[..p2] + t[p2..p3];
    assert t == t[..p3] + t[p3..];
  }

  lemma WholeOf(t: Text, p1: nat, p2: nat)
    requires MinusAt(t, 0, p1) && IntAt(t, p1, p2)
    ensures p1 < p2 <= |t| && t[..p1] == SignText(Numeral(p1 > 0, [], None, None))
    ensures WfNumeral(Numeral(p1 > 0, t[p1..p2], None, None))
  {
  }

  lemma FractionOf(t: Text, p2: nat, p3: nat) returns (f: Option<Text>)
    requires FracAt(t, p2, p3)
    ensures p2 <= p3 <= |t| && (f.Some? ==> Decimals(f.value))
    ensures t[p2..p3] == FractionText(Numeral(false, [], f, None))
  {
    f := None;
    if p2 < p3 {
      f := Some(t[p2 + 1..p3]);
      assert t[p2..p3] == [t[p2]] + t[p2 + 1..p3];
    }
  }

  lemma ExponentOf(t: Text, p3: nat) returns (e: Option<Exponent>)
    requires ExpAt(t, p3, |t|)
    ensures p3 <= |t| && (e.Some? ==> Decimals(e.value.digits))
    ensures t[p3..] == ExponentText(Numeral(false, [], None, e))
  {
    e := None;
    if p3 < |t| {
      if t[p3 + 1] == PLUS || t[p3 + 1] == MINUS {
        e := Some(Exponent(t[p3] == UPPER_E, Some(t[p3 + 1] == MINUS), t[p3 + 2..]));
        assert t[p3..] == [t[p3]] + [t[p3 + 1]] + t[p3 + 2..];
      } else {
        e := Some(Exponent(t[p3] == UPPER_E, None, t[p3 + 1..]));
        assert t[p3..] == [t[p3]] + [] + t[p3 + 1..];
      }
    }
  }

  predicate Blank(t: Text) {
    forall i :: 0 <= i < |t| ==>
      t[i] == Code(' ') || t[i] == Code('\t') || t[i] == Code('\n') || t[i] == Code('\r')
  }

  /** White space is what the printer may write between two tokens. */
  lemma BlankExact(t: Text)
    ensures AllWs(t) <==> Blank(t)
  {
    assert AllWs(t) ==> forall i :: 0 <= i < |t| ==> IsWs(t[i]);
  }

  // ---------------------------------------------------------------- values (sections 3 to 5)

  datatype Json =
    | Null
    | Boolean(b: bool)
    | Number(n: Numeral)
    | String(q: Quotation)
    | Array(items: Items)
    | Object(fields: Fields)

  datatype Items = NoItems | Item(before: Items, value: Json)

  datatype Fields = NoFields | Field(before: Fields, name: Quotation, value: Json)

  function Names(fields: Fields): set<Text> {
    match fields
    case NoFields => {}
    case Field(before, name, _) => Names(before) + {name.text}
  }

  ghost predicate WfJson(j: Json) {
    match j
    case Number(n) => WfNumeral(n)
    case String(q) => WfQuotation(q)
    case Array(items) => WfAll(items)
    case Object(fields) => WfFields(fields)
    case _ => true
  }

  ghost predicate WfAll(items: Items) {
    match items
    case NoItems => true
    case Item(before, v) => WfAll(before) && WfJson(v)
  }

  // The names of an object are distinct texts, however they are spelled.
  ghost predicate WfFields(fields: Fields) {
    match fields
    case NoFields => true
    case Field(before, name, v) =>
      WfFields(before) && WfQuotation(name) && name.text !in Names(before) && WfJson(v)
  }

  ghost function QuotedText(q: Quotation): Text
    requires WfQuotation(q)
  {
    [Code('"')] + Spelled(q) + [Code('"')]
  }

  /** The printed value, with the same white space in every place that may have some */
  ghost function Print(j: Json, gap: Text): Text
    requires WfJson(j)
  {
    match j
    case Null => Codes("null")
    case Boolean(b) => if b then Codes("true") else Codes("false")
    case Number(n) => NumberText(n)
    case String(q) => QuotedText(q)
    case Array(items) => [Code('[')] + (if items.NoItems? then gap else []) + PrintItems(items, gap) + [Code(']')]
    case Object(fields) =>
      [Code('{')] + (if fields.NoFields? then gap else []) + PrintFields(fields, gap) + [Code('}')]
  }

  ghost function PrintItems(items: Items, gap: Text): Text
    requires WfAll(items)
  {
    match items
    case NoItems => []
    case Item(before, v) =>
      PrintItems(before, gap) + (if before.NoItems? then [] else [Code(',')]) + gap + Print(v, gap) + gap
  }

  ghost function PrintFields(fields: Fields, gap: Text): Text
    requires WfFields(fields)
  {
    match fields
    case NoFields => []
    case Field(before, name, v) =>
      PrintFields(before, gap) + (if before.NoFields? then [] else [Code(',')])
      + gap + QuotedText(name) + gap + [Code(':')] + gap + Print(v, gap) + gap
  }

  // ---------------------------------------------------------------- the derivation of a printed value

  ghost function Tree(j: Json, gap: Text): Value
    requires WfJson(j)
  {
    match j
    case Null => Primitive(Codes("null"))
    case Boolean(b) => Primitive(if b then Codes("true") else Codes("false"))
    case Number(n) => Primitive(NumberText(n))
    case String(q) => Str(LitOf(q))
    case Array(items) => Arr(if items.NoItems? then gap else [], Trees(items, gap))
    case Object(fields) => Obj(if fields.NoFields? then gap else [], FieldTrees(fields, gap))
  }

  ghost function Trees(items: Items, gap: Text): Elems
    requires WfAll(items)
  {
    match items
    case NoItems => NoElems
    case Item(before, v) => Elem(Trees(before, gap), gap, Tree(v, gap), gap)
  }

  ghost function FieldTrees(fields: Fields, gap: Text): Members
    requires WfFields(fields)
  {
    match fields
    case NoFields => NoMembers
    case Field(before, name, v) => Member(FieldTrees(before, gap), gap, LitOf(name), gap, gap, Tree(v, gap), gap)
  }

  lemma Words()
    ensures Codes("null") == NULL && Codes("true") == TRUE && Codes("false") == FALSE
  {
  }

  lemma {:induction false} TreeRead(j: Json, gap: Text)
    requires WfJson(j) && Blank(gap)
    ensures WfValue(Tree(j, gap)) && ValueText(Tree(j, gap)) == Print(j, gap)
    decreases j
  {
    hide LitOf, Spelled, Codes, NumberText, WfQuotation, IsNumber;
    BlankExact(gap);
    Words();
    match j
    case Number(n) => NumberRead(n);
    case String(q) => QuotationRead(q);
    case Array(items) => TreesRead(items, gap);
    case Object(fields) => FieldsRead(fields, gap);
    case _ =>
  }

  lemma {:induction false} TreesRead(items: Items, gap: Text)
    requires WfAll(items) && Blank(gap)
    ensures WfElems(Trees(items, gap)) && ElemsText(Trees(items, gap)) == PrintItems(items, gap)
    ensures Trees(items, gap).NoElems? <==> items.NoItems?
    ensures AllWs([]) && AllWs(gap)
    decreases items
  {
    BlankExact(gap);
    if items.Item? {
      TreesRead(items.before, gap);
      TreeRead(items.value, gap);
    }
  }

  lemma {:induction false} FieldsRead(fields: Fields, gap: Text)
    requires WfFields(fields) && Blank(gap)
    ensures WfMembers(FieldTrees(fields, gap)) && MembersText(FieldTrees(fields, gap)) == PrintFields(fields, gap)
    ensures FieldTrees(fields, gap).NoMembers? <==> fields.NoFields?
    ensures Keys(FieldTrees(fields, gap)) == Names(fields)
    ensures AllWs([]) && AllWs(gap)
    decreases fields
  {
    hide LitOf, Spelled, WfQuotation;
    BlankExact(gap);
    if fields.Field? {
      FieldsRead(fields.before, gap);
      QuotationRead(fields.name);
      TreeRead(fields.value, gap);
    }
  }

  // ---------------------------------------------------------------- what a printed document publishes

  function Label(f: JsonSyntax.Field): string {
    match f
    case Title => "title"
    case ExecutiveSummary => "executive_summary"
    case TrendJudgment => "trend_judgment"
    case KeyFindings => "key_findings"
    case RootCauses => "root_causes"
    case ActionSuggestions => "action_suggestions"
  }

  lemma Labels(f: JsonSyntax.Field)
    ensures FieldName(f) == Codes(Label(f))
    ensures IsTextField(f) <==> f in {Title, ExecutiveSummary, TrendJudgment}
  {
  }

  function Find(fields: Fields, name: Text): Option<Json> {
    match fields
    case NoFields => None
    case Field(before, n, v) => if n.text == name then Some(v) else Find(before, name)
  }

  function Length(items: Items): nat {
    match items
    case NoItems => 0
    case Item(before, _) => Length(before) + 1
  }

  function At(items: Items, i: nat): Option<Json> {
    match items
    case NoItems => None
    case Item(before, v) => if Length(before) == i then Some(v) else At(before, i)
  }

  function TextIn(j: Option<Json>): Text {
    if j.Some? && j.value.String? then j.value.q.text else []
  }

  /** What a report shows at a place: the string of a root field, or the string at a place of a root list. */
  function Shown(fields: Fields, slot: Slot): Text {
    var v := Find(fields, Codes(Label(slot.0)));
    if v.None? then []
    else if slot.0 in {Title, ExecutiveSummary, TrendJudgment} then
      if slot.1.None? then TextIn(v) else []
    else if slot.1.Some? && v.value.Array? then TextIn(At(v.value.items, slot.1.value))
    else []
  }

  lemma {:induction false} FindRead(fields: Fields, gap: Text, name: Text)
    requires WfFields(fields)
    ensures var v := Lookup(FieldTrees(fields, gap), name);
            match Find(fields, name)
            case None => v.None?
            case Some(j) => WfJson(j) && v == Some(Tree(j, gap))
  {
    hide LitOf, WfQuotation, Tree;
    if fields.Field? {
      QuotationRead(fields.name);
      FindRead(fields.before, gap, name);
    }
  }

  lemma {:induction false} AtRead(items: Items, gap: Text, i: nat)
    requires WfAll(items)
    ensures Count(Trees(items, gap)) == Length(items)
    ensures var v := DecoderLanguage.Item(Trees(items, gap), i);
            match At(items, i)
            case None => v.None?
            case Some(j) => WfJson(j) && v == Some(Tree(j, gap))
  {
    hide Tree;
    if items.Item? {
      AtRead(items.before, gap, i);
    }
  }

  lemma TextRead(j: Option<Json>, gap: Text)
    requires j.Some? ==> WfJson(j.value)
    ensures StringOf(if j.None? then None else Some(Tree(j.value, gap))) == TextIn(j)
  {
    if j.Some? && j.value.String? {
      QuotationRead(j.value.q);
    }
  }

  ghost function DocOf(fields: Fields, gap: Text): Doc
    requires WfFields(fields)
  {
    Doc(gap, Tree(Object(fields), gap), gap)
  }

  lemma ShownRead(fields: Fields, gap: Text, slot: Slot)
    requires WfFields(fields)
    ensures RootString(DocOf(fields, gap), slot) == Shown(fields, slot)
  {
    hide Codes, FieldName, Label, StringOf, Lookup, Find;
    Labels(slot.0);
    FindRead(fields, gap, FieldName(slot.0));
    var v := Find(fields, FieldName(slot.0));
    TextRead(v, gap);
    if v.Some? && v.value.Array? && slot.1.Some? {
      AtRead(v.value.items, gap, slot.1.value);
      TextRead(At(v.value.items, slot.1.value), gap);
    }
  }

  /**
   * A report that is printed in any spelling, with any white space, is accepted when its draft fits the cap, and
   * each place of the draft gets exactly the string that stands there; a larger one is rejected as too large.
   */
  lemma PrintedReport(cap: nat, fields: Fields, gap: Text)
    requires WfFields(fields) && Blank(gap)
    ensures var text := gap + Print(Object(fields), gap) + gap;
            && WfDoc(DocOf(fields, gap)) && DocText(DocOf(fields, gap)) == text
            && if Bytes(DocOut(DocOf(fields, gap))) <= cap
               then Decode(cap, text).Ok?
                    && forall slot :: SlotText(Decode(cap, text).s.out, slot) == Shown(fields, slot)
               else Decode(cap, text) == Err(DraftTooLarge)
  {
    hide Tree, Print, DocOut, RootString, Shown;
    var d := DocOf(fields, gap);
    TreeRead(Object(fields), gap);
    TreeObject(fields, gap);
    BlankExact(gap);
    if Bytes(DocOut(d)) <= cap {
      RoundTrip(cap, d);
      forall slot
        ensures SlotText(DocOut(d), slot) == Shown(fields, slot)
      {
        PublishedText(d, slot);
        ShownRead(fields, gap, slot);
      }
    } else {
      OversizedDraft(cap, d);
    }
  }

  lemma TreeObject(fields: Fields, gap: Text)
    requires WfFields(fields)
    ensures Tree(Object(fields), gap).Obj?
  {
  }

  // The name of a field, spelled plainly
  function NameOf(f: JsonSyntax.Field): Quotation {
    Quotation(Codes(Label(f)), seq(|Label(f)|, _ => Plainly))
  }

  lemma LabelLetters(f: JsonSyntax.Field, i: nat)
    requires f in {Title, ExecutiveSummary, TrendJudgment} && i < |Label(f)|
    ensures Label(f)[i] == '_' || 'a' <= Label(f)[i] <= 'z'
  {
    match f
    case Title =>
    case ExecutiveSummary =>
    case TrendJudgment =>
  }

  lemma LabelPlain(f: JsonSyntax.Field)
    requires f in {Title, ExecutiveSummary, TrendJudgment}
    ensures WfQuotation(NameOf(f))
  {
    hide Label;
    forall i | 0 <= i < |Label(f)|
      ensures IsScalar(Code(Label(f)[i])) && May(Code(Label(f)[i]), Plainly)
    {
      LabelLetters(f, i);
    }
  }

  // An object with one text field
  function Single(f: JsonSyntax.Field, q: Quotation): Fields {
    Field(NoFields, NameOf(f), String(q))
  }

  lemma SingleWf(f: JsonSyntax.Field, q: Quotation)
    requires WfQuotation(q) && f in {Title, ExecutiveSummary, TrendJudgment}
    ensures WfFields(Single(f, q))
  {
    hide Label, Codes, WfQuotation;
    LabelPlain(f);
    assert WfFields(NoFields) && WfJson(String(q));
  }

  /** One text field: whatever the text and however it is spelled, exactly it is published if it fits the cap. */
  lemma PrintedText(cap: nat, f: JsonSyntax.Field, q: Quotation, gap: Text)
    requires WfQuotation(q) && Blank(gap) && f in {Title, ExecutiveSummary, TrendJudgment}
    ensures WfFields(Single(f, q))
    ensures var r := Decode(cap, gap + Print(Object(Single(f, q)), gap) + gap);
            if TextBytes(q.text) <= cap then r.Ok? && SlotText(r.s.out, (f, None)) == q.text
            else r == Err(DraftTooLarge)
  {
    hide Print, DocOut, Decode, Bytes, Label, Codes, WfQuotation, DocOf;
    SingleWf(f, q);
    PrintedReport(cap, Single(f, q), gap);
    PrintedSize(f, q, gap);
    assert Shown(Single(f, q), (f, None)) == q.text;
  }

  lemma PrintedSize(f: JsonSyntax.Field, q: Quotation, gap: Text)
    requires WfQuotation(q) && f in {Title, ExecutiveSummary, TrendJudgment} && WfFields(Single(f, q))
    requires WfDoc(DocOf(Single(f, q), gap))
    ensures Bytes(DocOut(DocOf(Single(f, q), gap))) == TextBytes(q.text)
  {
    hide Label, Codes, Bytes, LitOut, WfQuotation, DocOf, DocOut, TextBytes, WfLit, Single, WfFields;
    QuotationRead(q);
    LitBytes(f, q);
    SingleDocOut(f, q, gap);
  }

  lemma SingleDocOut(f: JsonSyntax.Field, q: Quotation, gap: Text)
    requires WfQuotation(q) && WfLit(LitOf(q)) && f in {Title, ExecutiveSummary, TrendJudgment}
    requires WfFields(Single(f, q)) && WfDoc(DocOf(Single(f, q), gap))
    ensures DocOut(DocOf(Single(f, q), gap)) == LitOut(f, None, LitOf(q))
  {
    hide Label, Codes, LitOf, LitOut, FieldNamed, WfQuotation, DocOf, WfLit, Decoded, Single, WfFields, MemberOut;
    LabelPlain(f);
    QuotationRead(NameOf(f));
    SingleTree(f, q, gap);
    SingleOut(f, q);
    var ms := Member(NoMembers, gap, LitOf(NameOf(f)), gap, gap, Str(LitOf(q)), gap);
    assert MembersOut(ms) == MembersOut(NoMembers) + MemberOut(Codes(Label(f)), Str(LitOf(q)));
    assert [] + LitOut(f, None, LitOf(q)) == LitOut(f, None, LitOf(q));
  }

  lemma SingleOut(f: JsonSyntax.Field, q: Quotation)
    requires WfQuotation(q) && WfLit(LitOf(q)) && f in {Title, ExecutiveSummary, TrendJudgment}
    ensures MemberOut(Codes(Label(f)), Str(LitOf(q))) == LitOut(f, None, LitOf(q))
  {
    hide Label, Codes, LitOf, LitOut, FieldName, WfQuotation;
    Labels(f);
    assert FieldNamed(FieldName(f)) == Some(f);
  }

  lemma SingleTree(f: JsonSyntax.Field, q: Quotation, gap: Text)
    requires WfQuotation(q) && WfFields(Single(f, q)) && WfQuotation(NameOf(f))
    ensures DocOf(Single(f, q), gap)
            == Doc(gap, Obj([], Member(NoMembers, gap, LitOf(NameOf(f)), gap, gap, Str(LitOf(q)), gap)), gap)
  {
    hide Label, Codes, LitOf, WfQuotation;
    var fields := Single(f, q);
    assert FieldTrees(NoFields, gap) == NoMembers && Tree(String(q), gap) == Str(LitOf(q));
    assert FieldTrees(fields, gap) == Member(NoMembers, gap, LitOf(NameOf(f)), gap, gap, Str(LitOf(q)), gap);
    assert Tree(Object(fields), gap) == Obj([], FieldTrees(fields, gap));
  }

  lemma {:induction false} LitBytes(f: JsonSyntax.Field, q: Quotation)
    requires WfQuotation(q) && WfLit(LitOf(q))
    ensures Bytes(LitOut(f, None, LitOf(q))) == TextBytes(q.text)
    decreases |q.text|
  {
    hide May, ItemOf, ItemText, CharText, WfItem;
    if q.text != [] {
      var n := |q.text| - 1;
      var init := Quotation(q.text[..n], q.how[..n]);
      CharRead(q.text[n], q.how[n]);
      assert LitOf(q)[..n] == LitOf(init);
      LitBytes(f, init);
      assert LitOut(f, None, LitOf(q))[..n] == LitOut(f, None, LitOf(init));
    }
  }
}
