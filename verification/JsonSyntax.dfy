/**
 * The concrete syntax of RFC 8259 (sections 2 to 7) as derivation trees. A tree records every
 * character of the text it derives, white space and escapes included, so that `DocText` is the
 * grammar: a text is a JSON object document exactly when it is the text of a well-formed tree.
 */
module JsonSyntax {
  import opened Wrappers
  import opened JsonText

  // ---------------------------------------------------------------- strings (section 7)

  datatype LitItem =
    | Raw(c: CodePoint)
    | Short(letter: CodePoint)
    | Unicode(digits: Text)
    | Pair(high: Text, low: Text)

  type Lit = seq<LitItem>

  function ShortEscape(c: CodePoint): (r: Option<CodePoint>) {
    if c == QUOTE || c == BACKSLASH || c == SOLIDUS then Some(c)
    else if c == LOWER_B then Some(0x08)
    else if c == LOWER_F then Some(0x0C)
    else if c == LOWER_N then Some(0x0A)
    else if c == LOWER_R then Some(0x0D)
    else if c == LOWER_T then Some(0x09)
    else None
  }

  predicate IsHex4(t: Text) {
    |t| == 4 && AllHex(t)
  }

  predicate WfItem(item: LitItem) {
    match item
    case Raw(c) => c >= 0x20 && c != QUOTE && c != BACKSLASH && IsScalar(c)
    case Short(c) => ShortEscape(c).Some?
    case Unicode(d) => IsHex4(d) && IsScalar(HexValue(d))
    case Pair(h, l) => IsHex4(h) && IsHex4(l) && IsHigh(HexValue(h)) && IsLow(HexValue(l))
  }

  predicate WfLit(lit: Lit) {
    forall i :: 0 <= i < |lit| ==> WfItem(lit[i])
  }

  function ItemText(item: LitItem): Text {
    match item
    case Raw(c) => [c]
    case Short(c) => [BACKSLASH, c]
    case Unicode(d) => [BACKSLASH, LOWER_U] + d
    case Pair(h, l) => [BACKSLASH, LOWER_U] + h + ([BACKSLASH, LOWER_U] + l)
  }

  function ItemChar(item: LitItem): CodePoint
    requires WfItem(item)
  {
    match item
    case Raw(c) => c
    case Short(c) => ShortEscape(c).value
    case Unicode(d) => HexValue(d)
    case Pair(h, l) => PairValue(HexValue(h), HexValue(l))
  }

  function LitText(lit: Lit): Text {
    if lit == [] then [] else LitText(lit[..|lit| - 1]) + ItemText(lit[|lit| - 1])
  }

  function Decoded(lit: Lit): Text
    requires WfLit(lit)
  {
    seq(|lit|, i requires 0 <= i < |lit| => ItemChar(lit[i]))
  }

  /** Every decoded character is a Unicode scalar value (section 8.2). */
  lemma DecodedScalar(item: LitItem)
    requires WfItem(item)
    ensures IsScalar(ItemChar(item))
  {
    match item
    case Pair(h, l) => SurrogatePairs(HexValue(h), HexValue(l), 0x10000);
    case _ =>
  }

  // ---------------------------------------------------------------- values (sections 2 to 6)

  datatype Value =
    | Primitive(token: Text)
    | Str(lit: Lit)
    | Obj(inner: Text, members: Members)
    | Arr(inner: Text, elems: Elems)

  // `inner` is the white space of an empty container.
  datatype Members =
    | NoMembers
    | Member(before: Members, lead: Text, key: Lit, afterKey: Text,
             afterColon: Text, value: Value, afterValue: Text)

  datatype Elems =
    | NoElems
    | Elem(before: Elems, lead: Text, value: Value, afterValue: Text)

  datatype Doc = Doc(before: Text, root: Value, after: Text)

  function Quoted(lit: Lit): Text {
    [QUOTE] + LitText(lit) + [QUOTE]
  }

  function ValueText(v: Value): Text {
    match v
    case Primitive(t) => t
    case Str(lit) => Quoted(lit)
    case Obj(inner, ms) => [LBRACE] + inner + MembersText(ms) + [RBRACE]
    case Arr(inner, es) => [LBRACKET] + inner + ElemsText(es) + [RBRACKET]
  }

  function MembersText(ms: Members): Text {
    match ms
    case NoMembers => []
    case Member(before, lead, key, ak, ac, v, av) =>
      MembersText(before) + MemberSeparator(before)
      + lead + Quoted(key) + ak + [COLON] + ac + ValueText(v) + av
  }

  function MemberSeparator(before: Members): Text {
    if before.NoMembers? then [] else [COMMA]
  }

  function ElemsText(es: Elems): Text {
    match es
    case NoElems => []
    case Elem(before, lead, v, av) =>
      ElemsText(before) + ElemSeparator(before) + lead + ValueText(v) + av
  }

  function ElemSeparator(before: Elems): Text {
    if before.NoElems? then [] else [COMMA]
  }

  function DocText(d: Doc): Text {
    d.before + ValueText(d.root) + d.after
  }

  ghost predicate WfPrimitive(t: Text) {
    t == TRUE || t == FALSE || t == NULL || IsNumber(t)
  }

  ghost predicate WfValue(v: Value) {
    match v
    case Primitive(t) => WfPrimitive(t)
    case Str(lit) => WfLit(lit)
    case Obj(inner, ms) => AllWs(inner) && (ms.Member? ==> inner == []) && WfMembers(ms)
    case Arr(inner, es) => AllWs(inner) && (es.Elem? ==> inner == []) && WfElems(es)
  }

  ghost predicate WfMembers(ms: Members) {
    match ms
    case NoMembers => true
    case Member(before, lead, key, ak, ac, v, av) =>
      && WfMembers(before) && WfLit(key) && WfValue(v)
      && AllWs(lead) && AllWs(ak) && AllWs(ac) && AllWs(av)
      && Decoded(key) !in Keys(before)
  }

  ghost predicate WfElems(es: Elems) {
    match es
    case NoElems => true
    case Elem(before, lead, v, av) =>
      WfElems(before) && WfValue(v) && AllWs(lead) && AllWs(av)
  }

  // The decoded member names
  function Keys(ms: Members): set<Text> {
    match ms
    case NoMembers => {}
    case Member(before, _, key, _, _, _, _) =>
      Keys(before) + if WfLit(key) then {Decoded(key)} else {}
  }

  function Count(es: Elems): nat {
    match es
    case NoElems => 0
    case Elem(before, _, _, _) => Count(before) + 1
  }

  ghost predicate WfDoc(d: Doc) {
    d.root.Obj? && WfValue(d.root) && AllWs(d.before) && AllWs(d.after)
  }

  // ---------------------------------------------------------------- report draft

  datatype Field = Title | ExecutiveSummary | TrendJudgment | KeyFindings | RootCauses | ActionSuggestions

  predicate IsTextField(f: Field) {
    f.Title? || f.ExecutiveSummary? || f.TrendJudgment?
  }

  function Ascii(s: string): Text
    requires forall i :: 0 <= i < |s| ==> s[i] as int < 0x80
  {
    seq(|s|, i requires 0 <= i < |s| => s[i] as int)
  }

  function FieldName(f: Field): Text {
    match f
    case Title => Ascii("title")
    case ExecutiveSummary => Ascii("executive_summary")
    case TrendJudgment => Ascii("trend_judgment")
    case KeyFindings => Ascii("key_findings")
    case RootCauses => Ascii("root_causes")
    case ActionSuggestions => Ascii("action_suggestions")
  }

  function FieldNamed(key: Text): (r: Option<Field>)
    ensures r.Some? ==> FieldName(r.value) == key
    ensures forall f :: FieldName(f) == key ==> r == Some(f)
  {
    if key == FieldName(Title) then Some(Title)
    else if key == FieldName(ExecutiveSummary) then Some(ExecutiveSummary)
    else if key == FieldName(TrendJudgment) then Some(TrendJudgment)
    else if key == FieldName(KeyFindings) then Some(KeyFindings)
    else if key == FieldName(RootCauses) then Some(RootCauses)
    else if key == FieldName(ActionSuggestions) then Some(ActionSuggestions)
    else None
  }

  // One published character of a draft field; `index` numbers the items of a list field.
  datatype Emit = Emit(field: Field, index: Option<nat>, c: CodePoint)

  type Slot = (Field, Option<nat>)

  function LitOut(f: Field, index: Option<nat>, lit: Lit): seq<Emit>
    requires WfLit(lit)
  {
    seq(|lit|, i requires 0 <= i < |lit| => Emit(f, index, ItemChar(lit[i])))
  }

  ghost function StrOut(f: Field, index: Option<nat>, v: Value): seq<Emit>
    requires WfValue(v)
  {
    if v.Str? then LitOut(f, index, v.lit) else []
  }

  ghost function ElemsOut(f: Field, es: Elems): seq<Emit>
    requires WfElems(es)
  {
    match es
    case NoElems => []
    case Elem(before, _, v, _) =>
      ElemsOut(f, before) + StrOut(f, Some(Count(before)), v)
  }

  ghost function MemberOut(key: Text, v: Value): seq<Emit>
    requires WfValue(v)
  {
    match FieldNamed(key)
    case None => []
    case Some(f) =>
      if IsTextField(f) then StrOut(f, None, v)
      else if v.Arr? then ElemsOut(f, v.elems)
      else []
  }

  ghost function MembersOut(ms: Members): seq<Emit>
    requires WfMembers(ms)
  {
    match ms
    case NoMembers => []
    case Member(before, _, key, _, _, v, _) => MembersOut(before) + MemberOut(Decoded(key), v)
  }

  /** Everything the six root fields of a document contribute to the draft. */
  ghost function DocOut(d: Doc): seq<Emit>
    requires WfDoc(d)
  {
    MembersOut(d.root.members)
  }

  function Bytes(out: seq<Emit>): nat {
    if out == [] then 0 else Bytes(out[..|out| - 1]) + Utf8Size(out[|out| - 1].c)
  }

  lemma BytesConcat(a: seq<Emit>, b: seq<Emit>)
    ensures Bytes(a + b) == Bytes(a) + Bytes(b)
  {
    if b == [] {
      assert a + b == a;
    } else {
      BytesConcat(a, b[..|b| - 1]);
      assert (a + b)[..|a + b| - 1] == a + b[..|b| - 1];
    }
  }
}
