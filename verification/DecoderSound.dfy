/**
 * The accepted language. A `Zipper` is a partial derivation: a document tree that has been
 * read up to some character. Each state of the decoder is the image of a zipper whose text is
 * exactly the input so far, so a complete input has a complete derivation.
 */
module DecoderSound {
  import opened Wrappers
  import opened JsonText
  import opened JsonSyntax
  import opened DecoderMachine
  import opened DecoderComplete

  datatype ObjectAt =
    | AtKey(lead: Text)
    | AtColon(lead: Text, key: Lit, afterKey: Text)
    | AtValue(lead: Text, key: Lit, afterKey: Text, afterColon: Text)
    | ObjectEnd

  datatype ArrayAt = AtItem(lead: Text) | ArrayEnd

  datatype PFrame = PObj(ms: Members, o: ObjectAt) | PArr(es: Elems, a: ArrayAt)

  datatype Frames = Bottom | Push(rest: Frames, top: PFrame)

  datatype PMode =
    | PPlain
    | PEscaped
    | PDigits(digits: Text)
    | PSlash(high: Text)
    | PLetter(high: Text)
    | PLow(high: Text, digits: Text)

  datatype Cur = NoCur | InKey(lit: Lit, mode: PMode) | InStr(lit: Lit, mode: PMode) | InPrim(token: Text)

  datatype Zipper = Before(pre: Text) | Inside(pre: Text, frames: Frames, cur: Cur) | After(doc: Doc)

  // ---------------------------------------------------------------- text of a partial derivation

  const ESCAPE_U: Text := [BACKSLASH, LOWER_U]

  function ModeText(m: PMode): Text {
    match m
    case PPlain => []
    case PEscaped => [BACKSLASH]
    case PDigits(d) => ESCAPE_U + d
    case PSlash(h) => ESCAPE_U + h
    case PLetter(h) => ESCAPE_U + h + [BACKSLASH]
    case PLow(h, d) => ESCAPE_U + h + ESCAPE_U + d
  }

  function FrameText(f: PFrame): Text {
    match f
    case PObj(ms, o) =>
      [LBRACE] + MembersText(ms) +
      (match o
       case AtKey(lead) => MemberSeparator(ms) + lead
       case AtColon(lead, key, ak) => MemberSeparator(ms) + lead + Quoted(key) + ak
       case AtValue(lead, key, ak, ac) => MemberSeparator(ms) + lead + Quoted(key) + ak + [COLON] + ac
       case ObjectEnd => [])
    case PArr(es, a) =>
      [LBRACKET] + ElemsText(es) +
      (match a
       case AtItem(lead) => ElemSeparator(es) + lead
       case ArrayEnd => [])
  }

  function FramesText(fs: Frames): Text {
    match fs
    case Bottom => []
    case Push(rest, top) => FramesText(rest) + FrameText(top)
  }

  function CurText(cur: Cur): Text {
    match cur
    case NoCur => []
    case InKey(lit, m) => [QUOTE] + LitText(lit) + ModeText(m)
    case InStr(lit, m) => [QUOTE] + LitText(lit) + ModeText(m)
    case InPrim(t) => t
  }

  function ZText(z: Zipper): Text {
    match z
    case Before(pre) => pre
    case Inside(pre, fs, cur) => pre + FramesText(fs) + CurText(cur)
    case After(doc) => DocText(doc)
  }

  // ---------------------------------------------------------------- well-formedness

  predicate WfPMode(m: PMode) {
    match m
    case PPlain => true
    case PEscaped => true
    case PDigits(d) => |d| < 4 && AllHex(d)
    case PSlash(h) => IsHex4(h) && IsHigh(HexValue(h))
    case PLetter(h) => IsHex4(h) && IsHigh(HexValue(h))
    case PLow(h, d) => IsHex4(h) && IsHigh(HexValue(h)) && |d| < 4 && AllHex(d)
  }

  ghost predicate WfFrame(f: PFrame) {
    match f
    case PObj(ms, o) =>
      && WfMembers(ms)
      && (match o
          case AtKey(lead) => AllWs(lead)
          case AtColon(lead, key, ak) =>
            AllWs(lead) && AllWs(ak) && WfLit(key) && Decoded(key) !in Keys(ms)
          case AtValue(lead, key, ak, ac) =>
            AllWs(lead) && AllWs(ak) && AllWs(ac) && WfLit(key) && Decoded(key) !in Keys(ms)
          case ObjectEnd => ms.Member?)
    case PArr(es, a) =>
      && WfElems(es)
      && (match a
          case AtItem(lead) => AllWs(lead)
          case ArrayEnd => es.Elem?)
  }

  predicate AtValuePosition(f: PFrame) {
    match f
    case PObj(_, o) => o.AtValue?
    case PArr(_, a) => a.AtItem?
  }

  ghost predicate WfFrames(fs: Frames) {
    match fs
    case Bottom => true
    case Push(rest, top) =>
      && WfFrames(rest) && WfFrame(top)
      && (rest.Push? ==> AtValuePosition(rest.top))
      && (rest.Bottom? ==> top.PObj?)
  }

  ghost predicate WfCur(top: PFrame, cur: Cur) {
    match cur
    case NoCur => true
    case InKey(lit, m) => top.PObj? && top.o.AtKey? && WfLit(lit) && WfPMode(m)
    case InStr(lit, m) => AtValuePosition(top) && WfLit(lit) && WfPMode(m)
    case InPrim(t) => AtValuePosition(top)
  }

  ghost predicate WfZ(z: Zipper) {
    match z
    case Before(pre) => AllWs(pre)
    case Inside(pre, fs, cur) => AllWs(pre) && fs.Push? && WfFrames(fs) && WfCur(fs.top, cur)
    case After(doc) => WfDoc(doc)
  }

  // ---------------------------------------------------------------- the decoder state of a zipper

  function AbsMode(m: PMode): Mode
    requires WfPMode(m)
  {
    match m
    case PPlain => Plain
    case PEscaped => Escaped
    case PDigits(d) => Digits(None, d)
    case PSlash(h) => ExpectSlash(HexValue(h))
    case PLetter(h) => ExpectU(HexValue(h))
    case PLow(h, d) => Digits(Some(HexValue(h)), d)
  }

  ghost function AbsTop(fs: Frames): Frame
    requires fs.Push? && WfFrames(fs)
  {
    match fs.top
    case PObj(ms, o) =>
      var root := fs.rest.Bottom?;
      (match o
       case AtKey(_) =>
         Frame(ObjectKind, if ms.NoMembers? then KeyOrEnd else KeyRequired, root, Keys(ms), None, None, 0)
       case AtColon(_, key, _) =>
         Frame(ObjectKind, ColonNext, root, Keys(ms) + {Decoded(key)}, Some(Decoded(key)), None, 0)
       case AtValue(_, key, _, _) =>
         Frame(ObjectKind, ValueNext, root, Keys(ms) + {Decoded(key)}, Some(Decoded(key)), None, 0)
       case ObjectEnd =>
         Frame(ObjectKind, CommaOrEnd, root, Keys(ms), None, None, 0))
    case PArr(es, a) =>
      var phase := match a
                   case AtItem(_) => if es.NoElems? then ValueOrEnd else ValueRequired
                   case ArrayEnd => CommaOrEnd;
      Frame(ArrayKind, phase, false, {}, None, ListTarget(AbsTop(fs.rest)), Count(es))
  }

  ghost function AbsFrames(fs: Frames): seq<Frame>
    requires WfFrames(fs)
  {
    match fs
    case Bottom => []
    case Push(rest, top) => AbsFrames(rest) + [AbsTop(fs)]
  }

  // What the completed members and items of a frame have published
  ghost function TopOut(fs: Frames): seq<Emit>
    requires fs.Push? && WfFrames(fs)
  {
    match fs.top
    case PObj(ms, _) => ObjectOut(AbsTop(fs), ms)
    case PArr(es, _) => ArrayOut(AbsTop(fs), es)
  }

  ghost function FramesOut(fs: Frames): seq<Emit>
    requires WfFrames(fs)
  {
    match fs
    case Bottom => []
    case Push(rest, top) => FramesOut(rest) + TopOut(fs)
  }

  ghost function StrRole(fs: Frames): Role
    requires fs.Push? && WfFrames(fs)
  {
    ValueRole(Target(AbsTop(fs)).0, Target(AbsTop(fs)).1)
  }

  ghost function AbsInside(cap: nat, fs: Frames, cur: Cur): State
    requires fs.Push? && WfFrames(fs) && WfCur(fs.top, cur)
  {
    var s := State(cap, AbsFrames(fs), true, false, None, None, FramesOut(fs));
    match cur
    case NoCur => s
    case InKey(lit, m) => s.(str := Some(Token(KeyRole(Decoded(lit)), AbsMode(m))))
    case InStr(lit, m) =>
      s.(str := Some(Token(StrRole(fs), AbsMode(m))), out := FramesOut(fs) + RoleOut(StrRole(fs), lit))
    case InPrim(t) => s.(prim := Some(t))
  }

  ghost function Abs(cap: nat, z: Zipper): State
    requires WfZ(z)
  {
    match z
    case Before(_) => Initial(cap)
    case Inside(_, fs, cur) => AbsInside(cap, fs, cur)
    case After(doc) => AfterDoc(cap, doc)
  }

  // ---------------------------------------------------------------- one character

  ghost predicate Follows(cap: nat, z: Zipper, c: CodePoint, z': Zipper)
    requires WfZ(z)
  {
    && WfZ(z') && ZText(z') == ZText(z) + [c]
    && Step(Abs(cap, z), c) == Ok(Abs(cap, z'))
  }

  // `Follows` for a character that is not inside a string or a primitive
  ghost predicate JsonFollows(cap: nat, z: Zipper, c: CodePoint, z': Zipper)
    requires WfZ(z)
  {
    && WfZ(z') && ZText(z') == ZText(z) + [c]
    && ConsumeJson(Abs(cap, z), c) == Ok(Abs(cap, z'))
  }

  ghost predicate Rejects(o: Outcome) {
    o.Err? && o.error != StateInvalid
  }

  function PutValue(fs: Frames, v: Value): Frames
    requires fs.Push? && AtValuePosition(fs.top)
  {
    match fs.top
    case PObj(ms, o) =>
      Push(fs.rest, PObj(Member(ms, o.lead, o.key, o.afterKey, o.afterColon, v, []), ObjectEnd))
    case PArr(es, a) => Push(fs.rest, PArr(Elem(es, a.lead, v, []), ArrayEnd))
  }

  lemma PutMemberText(f: PFrame, v: Value, rest: Frames)
    requires f.PObj? && f.o.AtValue?
    ensures FrameText(PutValue(Push(rest, f), v).top) == FrameText(f) + ValueText(v)
  {
    var ms, o := f.ms, f.o;
    var a, b := MembersText(ms), MemberSeparator(ms) + o.lead + Quoted(o.key) + o.afterKey + [COLON] + o.afterColon;
    var after := PutValue(Push(rest, f), v).top;
    assert MembersText(after.ms) == a + b + ValueText(v) by {
      var m := MemberSeparator(ms);
      ConcatAssoc(a, m, o.lead);
      ConcatAssoc(a, m + o.lead, Quoted(o.key));
      ConcatAssoc(a, m + o.lead + Quoted(o.key), o.afterKey);
      ConcatAssoc(a, m + o.lead + Quoted(o.key) + o.afterKey, [COLON]);
      ConcatAssoc(a, m + o.lead + Quoted(o.key) + o.afterKey + [COLON], o.afterColon);
    }
    ConcatAssoc([LBRACE], a, b);
    ConcatAssoc([LBRACE], a + b, ValueText(v));
  }

  lemma PutElemText(f: PFrame, v: Value, rest: Frames)
    requires f.PArr? && f.a.AtItem?
    ensures FrameText(PutValue(Push(rest, f), v).top) == FrameText(f) + ValueText(v)
  {
    var a, m := ElemsText(f.es), ElemSeparator(f.es);
    var after := PutValue(Push(rest, f), v).top;
    assert ElemsText(after.es) == a + (m + f.a.lead) + ValueText(v) by {
      ConcatAssoc(a, m, f.a.lead);
    }
    ConcatAssoc([LBRACKET], a, m + f.a.lead);
    ConcatAssoc([LBRACKET], a + (m + f.a.lead), ValueText(v));
  }

  lemma PutValueText(fs: Frames, v: Value)
    requires fs.Push? && AtValuePosition(fs.top)
    ensures FramesText(PutValue(fs, v)) == FramesText(fs) + ValueText(v)
  {
    if fs.top.PObj? {
      PutMemberText(fs.top, v, fs.rest);
    } else {
      PutElemText(fs.top, v, fs.rest);
    }
    ConcatAssoc(FramesText(fs.rest), FrameText(fs.top), ValueText(v));
  }

  lemma PutValueWf(fs: Frames, v: Value)
    requires fs.Push? && WfFrames(fs) && AtValuePosition(fs.top) && WfValue(v)
    ensures WfFrames(PutValue(fs, v))
  {
  }

  lemma PutValueOut(fs: Frames, v: Value)
    requires fs.Push? && WfFrames(fs) && AtValuePosition(fs.top) && WfValue(v)
    requires WfFrames(PutValue(fs, v))
    ensures FramesOut(PutValue(fs, v)) == FramesOut(fs) + ValueOut(AbsTop(fs), v)
  {
    var x, y := TopOut(fs), ValueOut(AbsTop(fs), v);
    assert TopOut(PutValue(fs, v)) == x + y;
    ConcatAssoc(FramesOut(fs.rest), x, y);
  }

  lemma PutValueTop(fs: Frames, v: Value)
    requires fs.Push? && WfFrames(fs) && AtValuePosition(fs.top) && WfValue(v)
    requires WfFrames(PutValue(fs, v))
    ensures var f := AbsTop(fs);
            && InValuePosition(f)
            && AbsTop(PutValue(fs, v)) == if f.kind.ObjectKind? then f.(phase := CommaOrEnd, currentKey := None)
                                          else f.(phase := CommaOrEnd, items := f.items + 1)
  {
  }

  lemma PutValueAbs(cap: nat, fs: Frames, v: Value)
    requires fs.Push? && WfFrames(fs) && AtValuePosition(fs.top) && WfValue(v)
    ensures WfFrames(PutValue(fs, v))
    ensures CompleteValue(AbsInside(cap, fs, NoCur).(out := FramesOut(fs) + ValueOut(AbsTop(fs), v)))
            == Ok(AbsInside(cap, PutValue(fs, v), NoCur))
  {
    PutValueWf(fs, v);
    PutValueOut(fs, v);
    PutValueTop(fs, v);
    CompleteTop(AbsInside(cap, fs, NoCur).(out := FramesOut(fs) + ValueOut(AbsTop(fs), v)),
                AbsFrames(fs.rest), AbsTop(fs), AbsTop(PutValue(fs, v)));
  }

  lemma CompleteTop(s: State, rest: seq<Frame>, f: Frame, f': Frame)
    requires s.stack == rest + [f] && InValuePosition(f)
    requires f' == if f.kind.ObjectKind? then f.(phase := CommaOrEnd, currentKey := None)
                   else f.(phase := CommaOrEnd, items := f.items + 1)
    ensures CompleteValue(s) == Ok(s.(stack := rest + [f']))
  {
    assert s.stack[..|s.stack| - 1] == rest;
  }

  lemma TextStep(pre: Text, rest: Frames, f: PFrame, f': PFrame, cur: Cur, cur': Cur, c: CodePoint)
    requires FrameText(f') + CurText(cur') == FrameText(f) + CurText(cur) + [c]
    ensures ZText(Inside(pre, Push(rest, f'), cur')) == ZText(Inside(pre, Push(rest, f), cur)) + [c]
  {
    var r := FramesText(rest);
    ConcatAssoc(r, FrameText(f'), CurText(cur'));
    ConcatAssoc(r, FrameText(f), CurText(cur));
    ConcatAssoc(pre, r + FrameText(f'), CurText(cur'));
    ConcatAssoc(pre, r + FrameText(f), CurText(cur));
    ConcatAssoc(r, FrameText(f) + CurText(cur), [c]);
    ConcatAssoc(pre, r + (FrameText(f) + CurText(cur)), [c]);
  }

  // A character that changes the top frame only
  lemma TopStep(cap: nat, pre: Text, rest: Frames, f: PFrame, f': PFrame, c: CodePoint)
    requires AllWs(pre) && WfFrames(Push(rest, f)) && WfFrames(Push(rest, f'))
    requires FrameText(f') == FrameText(f) + [c]
    requires TopOut(Push(rest, f')) == TopOut(Push(rest, f))
    requires var s := AbsInside(cap, Push(rest, f), NoCur);
             ConsumeJson(s, c) == Ok(SetTop(s, AbsTop(Push(rest, f'))))
    ensures JsonFollows(cap, Inside(pre, Push(rest, f), NoCur), c, Inside(pre, Push(rest, f'), NoCur))
  {
    TextStep(pre, rest, f, f', NoCur, NoCur, c);
    var s := AbsInside(cap, Push(rest, f), NoCur);
    assert s.stack[..|s.stack| - 1] == AbsFrames(rest);
  }

  function WsFrame(f: PFrame, c: CodePoint): PFrame {
    match f
    case PObj(ms, AtKey(lead)) => PObj(ms, AtKey(lead + [c]))
    case PObj(ms, AtColon(lead, key, ak)) => PObj(ms, AtColon(lead, key, ak + [c]))
    case PObj(ms, AtValue(lead, key, ak, ac)) => PObj(ms, AtValue(lead, key, ak, ac + [c]))
    case PObj(ms, ObjectEnd) =>
      if ms.Member? then PObj(ms.(afterValue := ms.afterValue + [c]), ObjectEnd) else f
    case PArr(es, AtItem(lead)) => PArr(es, AtItem(lead + [c]))
    case PArr(es, ArrayEnd) =>
      if es.Elem? then PArr(es.(afterValue := es.afterValue + [c]), ArrayEnd) else f
  }

  lemma WsObjectText(f: PFrame, c: CodePoint)
    requires f.PObj? && (f.o.ObjectEnd? ==> f.ms.Member?)
    ensures FrameText(WsFrame(f, c)) == FrameText(f) + [c]
  {
    var a, m := [LBRACE] + MembersText(f.ms), MemberSeparator(f.ms);
    match f.o
    case AtKey(lead) =>
      ConcatAssoc(m, lead, [c]);
      ConcatAssoc(a, m + lead, [c]);
    case AtColon(lead, key, ak) =>
      ConcatAssoc(m + lead + Quoted(key), ak, [c]);
      ConcatAssoc(a, m + lead + Quoted(key) + ak, [c]);
    case AtValue(lead, key, ak, ac) =>
      ConcatAssoc(m + lead + Quoted(key) + ak + [COLON], ac, [c]);
      ConcatAssoc(a, m + lead + Quoted(key) + ak + [COLON] + ac, [c]);
    case ObjectEnd =>
      assert MembersText(WsFrame(f, c).ms) == MembersText(f.ms) + [c];
      ConcatAssoc([LBRACE], MembersText(f.ms), [c]);
  }

  lemma WsArrayText(f: PFrame, c: CodePoint)
    requires f.PArr? && (f.a.ArrayEnd? ==> f.es.Elem?)
    ensures FrameText(WsFrame(f, c)) == FrameText(f) + [c]
  {
    var a, m := [LBRACKET] + ElemsText(f.es), ElemSeparator(f.es);
    match f.a
    case AtItem(lead) =>
      ConcatAssoc(m, lead, [c]);
      ConcatAssoc(a, m + lead, [c]);
    case ArrayEnd =>
      assert ElemsText(WsFrame(f, c).es) == ElemsText(f.es) + [c];
      ConcatAssoc([LBRACKET], ElemsText(f.es), [c]);
  }

  lemma WsAbs(rest: Frames, f: PFrame, c: CodePoint)
    requires WfFrames(Push(rest, f)) && IsWs(c)
    ensures WfFrames(Push(rest, WsFrame(f, c)))
    ensures AbsTop(Push(rest, WsFrame(f, c))) == AbsTop(Push(rest, f))
    ensures TopOut(Push(rest, WsFrame(f, c))) == TopOut(Push(rest, f))
  {
  }

  lemma SimWs(cap: nat, z: Zipper, c: CodePoint) returns (z': Zipper)
    requires WfZ(z) && IsWs(c) && (z.Inside? ==> z.cur.NoCur?)
    ensures JsonFollows(cap, z, c, z')
  {
    match z
    case Before(pre) => z' := Before(pre + [c]);
    case Inside(pre, fs, _) =>
      var f := fs.top;
      WsAbs(fs.rest, f, c);
      if f.PObj? {
        WsObjectText(f, c);
      } else {
        WsArrayText(f, c);
      }
      z' := Inside(pre, Push(fs.rest, WsFrame(f, c)), NoCur);
      TopStep(cap, pre, fs.rest, f, WsFrame(f, c), c);
    case After(doc) =>
      z' := After(doc.(after := doc.after + [c]));
      ConcatAssoc(doc.before + ValueText(doc.root), doc.after, [c]);
  }

  lemma Dispatch(cap: nat, fs: Frames, c: CodePoint)
    requires fs.Push? && WfFrames(fs)
    ensures var s := AbsInside(cap, fs, NoCur);
            && s.stack != [] && Top(s) == AbsTop(fs) && s.stack[..|s.stack| - 1] == AbsFrames(fs.rest)
            && (!IsWs(c) ==> ConsumeJson(s, c) == if fs.top.PObj? then ConsumeObject(s, c) else ConsumeArray(s, c))
  {
  }

  lemma SimQuoteAbs(cap: nat, fs: Frames, key: bool)
    requires fs.Push? && WfFrames(fs)
    requires if key then fs.top.PObj? && fs.top.o.AtKey? else AtValuePosition(fs.top)
    ensures var cur := if key then InKey([], PPlain) else InStr([], PPlain);
            ConsumeJson(AbsInside(cap, fs, NoCur), QUOTE) == Ok(AbsInside(cap, fs, cur))
  {
    hide ConsumeJson, FramesOut, WfFrames, WfMembers, WfElems;
    Dispatch(cap, fs, QUOTE);
    assert Decoded([]) == [];
    assert FramesOut(fs) + RoleOut(StrRole(fs), []) == FramesOut(fs);
  }

  // A quotation mark: a name or a string value begins
  lemma SimQuote(cap: nat, pre: Text, fs: Frames, key: bool) returns (z': Zipper)
    requires var z := Inside(pre, fs, NoCur); WfZ(z)
    requires if key then fs.top.PObj? && fs.top.o.AtKey? else AtValuePosition(fs.top)
    ensures JsonFollows(cap, Inside(pre, fs, NoCur), QUOTE, z')
  {
    var cur := if key then InKey([], PPlain) else InStr([], PPlain);
    z' := Inside(pre, fs, cur);
    SimQuoteAbs(cap, fs, key);
    assert CurText(cur) == [QUOTE];
    TextStep(pre, fs.rest, fs.top, fs.top, NoCur, cur, QUOTE);
  }

  lemma OpenAbs(fs: Frames, f: PFrame)
    requires fs.Push? && WfFrames(fs) && AtValuePosition(fs.top)
    requires f == PObj(NoMembers, AtKey([])) || f == PArr(NoElems, AtItem([]))
    ensures var fs' := Push(fs, f);
            && WfFrames(fs') && FramesOut(fs') == FramesOut(fs)
            && AbsTop(fs') == if f.PObj? then NewFrame(ObjectKind, KeyOrEnd, false, None)
                              else NewFrame(ArrayKind, ValueOrEnd, false, ListTarget(AbsTop(fs)))
  {
    assert TopOut(Push(fs, f)) == [];
  }

  lemma OpenStep(cap: nat, fs: Frames, c: CodePoint, f: PFrame)
    requires fs.Push? && WfFrames(fs) && AtValuePosition(fs.top)
    requires (c == LBRACE && f == PObj(NoMembers, AtKey([]))) || (c == LBRACKET && f == PArr(NoElems, AtItem([])))
    ensures WfFrames(Push(fs, f))
    ensures ConsumeJson(AbsInside(cap, fs, NoCur), c) == Ok(AbsInside(cap, Push(fs, f), NoCur))
  {
    OpenAbs(fs, f);
    Dispatch(cap, fs, c);
    StartsValue(cap, fs, c);
    hide ConsumeJson;
  }

  lemma StartsValue(cap: nat, fs: Frames, c: CodePoint)
    requires fs.Push? && WfFrames(fs) && AtValuePosition(fs.top) && !IsWs(c) && c != RBRACKET
    ensures var s := AbsInside(cap, fs, NoCur); ConsumeJson(s, c) == StartValue(s, c)
  {
    hide StartValue;
    Dispatch(cap, fs, c);
  }

  // An opening bracket: a container begins as a value
  lemma SimOpen(cap: nat, pre: Text, fs: Frames, c: CodePoint) returns (z': Zipper)
    requires WfZ(Inside(pre, fs, NoCur)) && AtValuePosition(fs.top)
    requires c == LBRACE || c == LBRACKET
    ensures JsonFollows(cap, Inside(pre, fs, NoCur), c, z')
  {
    var f := if c == LBRACE then PObj(NoMembers, AtKey([])) else PArr(NoElems, AtItem([]));
    var fs' := Push(fs, f);
    z' := Inside(pre, fs', NoCur);
    OpenStep(cap, fs, c, f);
    assert FrameText(f) == [c];
    ConcatAssoc(pre, FramesText(fs), [c]);
    assert ZText(Inside(pre, fs, NoCur)) == pre + FramesText(fs);
    assert ZText(z') == pre + FramesText(fs');
  }

  lemma SimStartValue(cap: nat, pre: Text, fs: Frames, c: CodePoint) returns (r: Option<Zipper>)
    requires WfZ(Inside(pre, fs, NoCur)) && AtValuePosition(fs.top) && !IsWs(c)
    requires ConsumeJson(AbsInside(cap, fs, NoCur), c) == StartValue(AbsInside(cap, fs, NoCur), c)
    ensures match r
            case Some(z') => JsonFollows(cap, Inside(pre, fs, NoCur), c, z')
            case None => Rejects(ConsumeJson(Abs(cap, Inside(pre, fs, NoCur)), c))
  {
    Dispatch(cap, fs, c);
    if c == QUOTE {
      var z' := SimQuote(cap, pre, fs, false);
      r := Some(z');
    } else if c == LBRACE || c == LBRACKET {
      var z' := SimOpen(cap, pre, fs, c);
      r := Some(z');
    } else if StartsPrimitive(c) {
      TextStep(pre, fs.rest, fs.top, fs.top, NoCur, InPrim([c]), c);
      r := Some(Inside(pre, fs, InPrim([c])));
    } else {
      r := None;
    }
  }

  // The value that a closing bracket completes
  function Closed(f: PFrame): Value {
    match f
    case PObj(ms, o) => Obj(if o.AtKey? then o.lead else [], ms)
    case PArr(es, a) => Arr(if a.AtItem? then a.lead else [], es)
  }

  function CloseChar(f: PFrame): CodePoint {
    if f.PObj? then RBRACE else RBRACKET
  }

  predicate MayClose(f: PFrame) {
    match f
    case PObj(ms, o) => o.ObjectEnd? || (o.AtKey? && ms.NoMembers?)
    case PArr(es, a) => a.ArrayEnd? || (a.AtItem? && es.NoElems?)
  }

  lemma ClosedObject(f: PFrame)
    requires f.PObj? && WfFrame(f) && MayClose(f)
    ensures WfValue(Closed(f))
    ensures ValueText(Closed(f)) == FrameText(f) + [RBRACE]
  {
    hide WfMembers, MembersText, AllWs;
    if f.o.AtKey? {
      EmptyText(LBRACE, f.o.lead, RBRACE);
      NoText();
    } else {
      FullText(LBRACE, MembersText(f.ms), RBRACE);
      NoText();
    }
  }

  lemma ClosedArray(f: PFrame)
    requires f.PArr? && WfFrame(f) && MayClose(f)
    ensures WfValue(Closed(f))
    ensures ValueText(Closed(f)) == FrameText(f) + [RBRACKET]
  {
    hide WfElems, ElemsText, AllWs;
    if f.a.AtItem? {
      EmptyText(LBRACKET, f.a.lead, RBRACKET);
      NoText();
    } else {
      FullText(LBRACKET, ElemsText(f.es), RBRACKET);
      NoText();
    }
  }

  lemma NoText()
    ensures MembersText(NoMembers) == [] && ElemsText(NoElems) == [] && WfMembers(NoMembers) && WfElems(NoElems)
    ensures AllWs([])
  {
  }

  lemma EmptyText(o: CodePoint, lead: Text, c: CodePoint)
    ensures [o] + lead + [] + [c] == [o] + [] + ([] + lead) + [c]
  {
  }

  lemma FullText(o: CodePoint, text: Text, c: CodePoint)
    ensures [o] + [] + text + [c] == [o] + text + [] + [c]
  {
  }

  lemma ClosedFrame(f: PFrame)
    requires WfFrame(f) && MayClose(f)
    ensures WfValue(Closed(f))
    ensures ValueText(Closed(f)) == FrameText(f) + [CloseChar(f)]
  {
    if f.PObj? {
      ClosedObject(f);
    } else {
      ClosedArray(f);
    }
  }

  lemma CloseText(pre: Text, fs: Frames)
    requires fs.Push? && WfFrames(fs) && MayClose(fs.top) && fs.rest.Push?
    ensures ZText(Inside(pre, PutValue(fs.rest, Closed(fs.top)), NoCur))
            == ZText(Inside(pre, fs, NoCur)) + [CloseChar(fs.top)]
  {
    var v, c := Closed(fs.top), [CloseChar(fs.top)];
    ClosedFrame(fs.top);
    PutValueText(fs.rest, v);
    ConcatAssoc(FramesText(fs.rest), FrameText(fs.top), c);
    ConcatAssoc(pre, FramesText(fs), c);
  }

  lemma InnerText(pre: Text, fs: Frames)
    requires WfZ(Inside(pre, fs, NoCur)) && MayClose(fs.top) && fs.rest.Push?
    ensures var z' := Inside(pre, PutValue(fs.rest, Closed(fs.top)), NoCur);
            WfZ(z') && ZText(z') == ZText(Inside(pre, fs, NoCur)) + [CloseChar(fs.top)]
  {
    ClosedFrame(fs.top);
    hide Closed, CloseChar, MayClose, WfFrame, WfValue, ZText, PutValue;
    CloseText(pre, fs);
    PutValueWf(fs.rest, Closed(fs.top));
  }

  lemma InnerAbs(cap: nat, pre: Text, fs: Frames)
    requires WfZ(Inside(pre, fs, NoCur)) && MayClose(fs.top) && fs.rest.Push?
    requires WfZ(Inside(pre, PutValue(fs.rest, Closed(fs.top)), NoCur))
    ensures CloseContainer(AbsInside(cap, fs, NoCur))
            == Ok(Abs(cap, Inside(pre, PutValue(fs.rest, Closed(fs.top)), NoCur)))
  {
    var v := Closed(fs.top);
    assert TopOut(fs) == ValueOut(AbsTop(fs.rest), v);
    ClosedFrame(fs.top);
    hide PutValue, ValueText, FrameText, WfValue, Closed;
    PutValueAbs(cap, fs.rest, v);
    Dispatch(cap, fs, CloseChar(fs.top));
  }

  lemma SimCloseInner(cap: nat, pre: Text, fs: Frames) returns (z': Zipper)
    requires WfZ(Inside(pre, fs, NoCur)) && MayClose(fs.top) && fs.rest.Push?
    ensures WfZ(z') && ZText(z') == ZText(Inside(pre, fs, NoCur)) + [CloseChar(fs.top)]
    ensures CloseContainer(AbsInside(cap, fs, NoCur)) == Ok(Abs(cap, z'))
  {
    assert fs.Push?;
    hide *;
    InnerText(pre, fs);
    InnerAbs(cap, pre, fs);
    z' := Inside(pre, PutValue(fs.rest, Closed(fs.top)), NoCur);
  }

  lemma RootText(pre: Text, fs: Frames)
    requires WfZ(Inside(pre, fs, NoCur)) && MayClose(fs.top) && fs.rest.Bottom?
    ensures var z' := After(Doc(pre, Closed(fs.top), []));
            WfZ(z') && ZText(z') == ZText(Inside(pre, fs, NoCur)) + [CloseChar(fs.top)]
  {
    hide CloseChar, MayClose, WfFrame, WfValue, ValueText, FrameText;
    ClosedFrame(fs.top);
    assert FramesText(fs) == FrameText(fs.top);
    ConcatAssoc(pre, FrameText(fs.top), [CloseChar(fs.top)]);
  }

  lemma RootAbs(cap: nat, pre: Text, fs: Frames)
    requires WfZ(Inside(pre, fs, NoCur)) && MayClose(fs.top) && fs.rest.Bottom?
    ensures CloseContainer(AbsInside(cap, fs, NoCur)) == Ok(Abs(cap, After(Doc(pre, Closed(fs.top), []))))
  {
    Dispatch(cap, fs, CloseChar(fs.top));
    assert FramesOut(fs) == DocOut(Doc(pre, Closed(fs.top), []));
  }

  lemma SimCloseRoot(cap: nat, pre: Text, fs: Frames) returns (z': Zipper)
    requires WfZ(Inside(pre, fs, NoCur)) && MayClose(fs.top) && fs.rest.Bottom?
    ensures WfZ(z') && ZText(z') == ZText(Inside(pre, fs, NoCur)) + [CloseChar(fs.top)]
    ensures CloseContainer(AbsInside(cap, fs, NoCur)) == Ok(Abs(cap, z'))
  {
    assert fs.Push?;
    hide *;
    RootText(pre, fs);
    RootAbs(cap, pre, fs);
    z' := After(Doc(pre, Closed(fs.top), []));
  }

  lemma CloseStep(cap: nat, fs: Frames)
    requires fs.Push? && WfFrames(fs) && MayClose(fs.top)
    ensures var s := AbsInside(cap, fs, NoCur);
            s.stack != [] && ConsumeJson(s, CloseChar(fs.top)) == CloseContainer(s)
  {
    Dispatch(cap, fs, CloseChar(fs.top));
  }

  lemma SimClose(cap: nat, pre: Text, fs: Frames) returns (z': Zipper)
    requires WfZ(Inside(pre, fs, NoCur)) && MayClose(fs.top)
    ensures JsonFollows(cap, Inside(pre, fs, NoCur), CloseChar(fs.top), z')
  {
    CloseStep(cap, fs);
    if fs.rest.Push? {
      z' := SimCloseInner(cap, pre, fs);
    } else {
      z' := SimCloseRoot(cap, pre, fs);
    }
  }

  lemma SimColon(cap: nat, pre: Text, fs: Frames) returns (z': Zipper)
    requires WfZ(Inside(pre, fs, NoCur)) && fs.top.PObj? && fs.top.o.AtColon?
    ensures JsonFollows(cap, Inside(pre, fs, NoCur), COLON, z')
  {
    var o := fs.top.o;
    var f' := PObj(fs.top.ms, AtValue(o.lead, o.key, o.afterKey, []));
    z' := Inside(pre, Push(fs.rest, f'), NoCur);
    ColonText(fs.top.ms, o);
    Dispatch(cap, fs, COLON);
    TopStep(cap, pre, fs.rest, fs.top, f', COLON);
  }

  lemma SimMemberComma(cap: nat, pre: Text, fs: Frames) returns (z': Zipper)
    requires WfZ(Inside(pre, fs, NoCur)) && fs.top.PObj? && fs.top.o.ObjectEnd?
    ensures JsonFollows(cap, Inside(pre, fs, NoCur), COMMA, z')
  {
    var f' := PObj(fs.top.ms, AtKey([]));
    z' := Inside(pre, Push(fs.rest, f'), NoCur);
    MemberCommaText(fs.top.ms);
    Dispatch(cap, fs, COMMA);
    TopStep(cap, pre, fs.rest, fs.top, f', COMMA);
  }

  lemma MemberCommaText(ms: Members)
    requires ms.Member?
    ensures FrameText(PObj(ms, AtKey([]))) == FrameText(PObj(ms, ObjectEnd)) + [COMMA]
  {
    var t := [LBRACE] + MembersText(ms);
    assert t + [] == t;
    assert [COMMA] + [] == [COMMA];
  }

  lemma ColonText(ms: Members, o: ObjectAt)
    requires o.AtColon?
    ensures FrameText(PObj(ms, AtValue(o.lead, o.key, o.afterKey, []))) == FrameText(PObj(ms, o)) + [COLON]
  {
    var t := MemberSeparator(ms) + o.lead + Quoted(o.key) + o.afterKey;
    assert t + [COLON] + [] == t + [COLON];
    ConcatAssoc([LBRACE] + MembersText(ms), t, [COLON]);
  }

  lemma SimObject(cap: nat, pre: Text, fs: Frames, c: CodePoint) returns (r: Option<Zipper>)
    requires WfZ(Inside(pre, fs, NoCur)) && fs.top.PObj? && !IsWs(c)
    ensures match r
            case Some(z') => JsonFollows(cap, Inside(pre, fs, NoCur), c, z')
            case None => Rejects(ConsumeJson(Abs(cap, Inside(pre, fs, NoCur)), c))
  {
    Dispatch(cap, fs, c);
    var ms, o := fs.top.ms, fs.top.o;
    if c == RBRACE && MayClose(fs.top) {
      var z' := SimClose(cap, pre, fs);
      r := Some(z');
    } else if o.AtKey? && c == QUOTE {
      var z' := SimQuote(cap, pre, fs, true);
      r := Some(z');
    } else if o.AtColon? && c == COLON {
      var z' := SimColon(cap, pre, fs);
      r := Some(z');
    } else if o.AtValue? {
      r := SimStartValue(cap, pre, fs, c);
    } else if o.ObjectEnd? && c == COMMA {
      var z' := SimMemberComma(cap, pre, fs);
      r := Some(z');
    } else {
      r := None;
    }
  }

  lemma SimArray(cap: nat, pre: Text, fs: Frames, c: CodePoint) returns (r: Option<Zipper>)
    requires WfZ(Inside(pre, fs, NoCur)) && fs.top.PArr? && !IsWs(c)
    ensures match r
            case Some(z') => JsonFollows(cap, Inside(pre, fs, NoCur), c, z')
            case None => Rejects(ConsumeJson(Abs(cap, Inside(pre, fs, NoCur)), c))
  {
    hide ConsumeJson, StartValue, CloseContainer, ZText;
    Dispatch(cap, fs, c);
    var es, a := fs.top.es, fs.top.a;
    if c == RBRACKET && MayClose(fs.top) {
      var z' := SimClose(cap, pre, fs);
      r := Some(z');
    } else if a.AtItem? {
      r := SimStartValue(cap, pre, fs, c);
    } else if c == COMMA {
      var f' := PArr(es, AtItem([]));
      assert FrameText(f') == FrameText(fs.top) + [COMMA];
      TopStep(cap, pre, fs.rest, fs.top, f', c);
      r := Some(Inside(pre, Push(fs.rest, f'), NoCur));
    } else {
      r := None;
    }
  }

  // ---------------------------------------------------------------- inside a string

  // The literal item that a character completes
  function Completes(m: PMode, c: CodePoint): Option<LitItem>
    requires WfPMode(m)
  {
    match m
    case PPlain => if WfItem(Raw(c)) then Some(Raw(c)) else None
    case PEscaped => if WfItem(Short(c)) then Some(Short(c)) else None
    case PDigits(d) =>
      if |d| == 3 && IsHex(c) && WfItem(Unicode(d + [c])) then Some(Unicode(d + [c])) else None
    case PLow(h, d) =>
      if |d| == 3 && IsHex(c) && WfItem(Pair(h, d + [c])) then Some(Pair(h, d + [c])) else None
    case _ => None
  }

  // The sub-state of an escape that a character leads to
  function Moves(m: PMode, c: CodePoint): Option<PMode>
    requires WfPMode(m)
  {
    match m
    case PPlain => if c == BACKSLASH then Some(PEscaped) else None
    case PEscaped => if c == LOWER_U then Some(PDigits([])) else None
    case PDigits(d) =>
      if !IsHex(c) then None
      else if |d| < 3 then Some(PDigits(d + [c]))
      else if IsHigh(HexValue(d + [c])) then Some(PSlash(d + [c]))
      else None
    case PSlash(h) => if c == BACKSLASH then Some(PLetter(h)) else None
    case PLetter(h) => if c == LOWER_U then Some(PLow(h, [])) else None
    case PLow(h, d) => if IsHex(c) && |d| < 3 then Some(PLow(h, d + [c])) else None
  }

  lemma CompletesText(m: PMode, c: CodePoint)
    requires WfPMode(m) && Completes(m, c).Some?
    ensures WfItem(Completes(m, c).value)
    ensures ItemText(Completes(m, c).value) == ModeText(m) + [c]
  {
    if m.PLow? {
      assert ESCAPE_U + m.high + (ESCAPE_U + (m.digits + [c])) == ESCAPE_U + m.high + ESCAPE_U + m.digits + [c];
    }
  }

  lemma MovesText(m: PMode, c: CodePoint)
    requires WfPMode(m) && Moves(m, c).Some?
    ensures WfPMode(Moves(m, c).value)
    ensures ModeText(Moves(m, c).value) == ModeText(m) + [c]
  {
    match m
    case PPlain => assert [] + [c] == [c];
    case PEscaped => assert ESCAPE_U + [] == [BACKSLASH] + [c];
    case PDigits(d) => assert ESCAPE_U + (d + [c]) == ESCAPE_U + d + [c];
    case PSlash(h) =>
    case PLetter(h) => assert ESCAPE_U + h + ESCAPE_U + [] == ESCAPE_U + h + [BACKSLASH] + [c];
    case PLow(h, d) => assert ESCAPE_U + h + ESCAPE_U + (d + [c]) == ESCAPE_U + h + ESCAPE_U + d + [c];
  }

  lemma StringModes(s: State, role: Role, m: PMode, c: CodePoint)
    requires WfPMode(m) && !(m.PPlain? && c == QUOTE)
    ensures var o := ConsumeString(s, role, AbsMode(m), c);
            if Completes(m, c).Some? then
              WfItem(Completes(m, c).value) && o == EmitChar(s, role, ItemChar(Completes(m, c).value))
            else if Moves(m, c).Some? then
              WfPMode(Moves(m, c).value) && o == Ok(SetMode(s, role, AbsMode(Moves(m, c).value)))
            else Rejects(o)
  {
    hide EmitChar, CloseString, HexValue;
    match m
    case PDigits(d) =>
      if |d| == 3 && IsHex(c) {
        assert IsHex4(d + [c]);
      }
    case PLow(h, d) =>
      if |d| == 3 && IsHex(c) {
        assert IsHex4(d + [c]);
      }
    case _ =>
  }

  function WithLit(cur: Cur, lit: Lit, m: PMode): Cur {
    if cur.InKey? then InKey(lit, m) else InStr(lit, m)
  }

  ghost function CurRole(fs: Frames, cur: Cur): Role
    requires fs.Push? && WfFrames(fs) && WfCur(fs.top, cur) && (cur.InKey? || cur.InStr?)
  {
    if cur.InKey? then KeyRole(Decoded(cur.lit)) else StrRole(fs)
  }

  lemma CurTextStep(pre: Text, fs: Frames, cur: Cur, cur': Cur, c: CodePoint)
    requires fs.Push? && CurText(cur') == CurText(cur) + [c]
    ensures ZText(Inside(pre, fs, cur')) == ZText(Inside(pre, fs, cur)) + [c]
  {
    ConcatAssoc(pre + FramesText(fs), CurText(cur), [c]);
  }

  // A decoded character is published, or the cap is exceeded.
  lemma SimEmit(cap: nat, fs: Frames, cur: Cur, item: LitItem)
    requires fs.Push? && WfFrames(fs) && WfCur(fs.top, cur) && (cur.InKey? || cur.InStr?) && WfItem(item)
    ensures var o := EmitChar(AbsInside(cap, fs, cur), CurRole(fs, cur), ItemChar(item));
            var cur' := WithLit(cur, cur.lit + [item], PPlain);
            WfCur(fs.top, cur') && (o == Ok(AbsInside(cap, fs, cur')) || Rejects(o))
  {
    LitSnoc(CurRole(fs, cur), cur.lit, item);
    if cur.InStr? && StrRole(fs).field.Some? {
      ConcatAssoc(FramesOut(fs), RoleOut(StrRole(fs), cur.lit),
                  [Emit(StrRole(fs).field.value, StrRole(fs).index, ItemChar(item))]);
    }
  }

  lemma ClosedStringText(pre: Text, fs: Frames, lit: Lit)
    requires WfZ(Inside(pre, fs, InStr(lit, PPlain)))
    ensures var z' := Inside(pre, PutValue(fs, Str(lit)), NoCur);
            WfZ(z') && ZText(z') == ZText(Inside(pre, fs, InStr(lit, PPlain))) + [QUOTE]
  {
    PutValueText(fs, Str(lit));
    assert ValueText(Str(lit)) == CurText(InStr(lit, PPlain)) + [QUOTE];
    ConcatAssoc(FramesText(fs), CurText(InStr(lit, PPlain)), [QUOTE]);
    ConcatAssoc(pre, FramesText(fs), CurText(InStr(lit, PPlain)) + [QUOTE]);
    ConcatAssoc(pre + FramesText(fs), CurText(InStr(lit, PPlain)), [QUOTE]);
  }

  lemma SimCloseString(cap: nat, pre: Text, fs: Frames, lit: Lit) returns (z': Zipper)
    requires WfZ(Inside(pre, fs, InStr(lit, PPlain)))
    ensures WfZ(z') && ZText(z') == ZText(Inside(pre, fs, InStr(lit, PPlain))) + [QUOTE]
    ensures CloseString(AbsInside(cap, fs, InStr(lit, PPlain)), StrRole(fs)) == Ok(Abs(cap, z'))
  {
    z' := Inside(pre, PutValue(fs, Str(lit)), NoCur);
    ClosedStringText(pre, fs, lit);
    hide ZText, FramesText, CurText;
    PutValueAbs(cap, fs, Str(lit));
    assert ValueOut(AbsTop(fs), Str(lit)) == RoleOut(StrRole(fs), lit);
  }

  lemma SimCloseKey(cap: nat, pre: Text, fs: Frames, lit: Lit) returns (r: Option<Zipper>)
    requires WfZ(Inside(pre, fs, InKey(lit, PPlain)))
    ensures var z := Inside(pre, fs, InKey(lit, PPlain));
            var o := CloseString(AbsInside(cap, fs, InKey(lit, PPlain)), KeyRole(Decoded(lit)));
            match r
            case Some(z') => WfZ(z') && ZText(z') == ZText(z) + [QUOTE] && o == Ok(Abs(cap, z'))
            case None => Rejects(o)
  {
    Dispatch(cap, fs, QUOTE);
    var ms, lead := fs.top.ms, fs.top.o.lead;
    if Decoded(lit) in Keys(ms) {
      r := None;
    } else {
      var f' := PObj(ms, AtColon(lead, lit, []));
      r := Some(Inside(pre, Push(fs.rest, f'), NoCur));
      KeyText(fs.top, lit);
      TextStep(pre, fs.rest, fs.top, f', InKey(lit, PPlain), NoCur, QUOTE);
      KeyAbs(fs, lit);
    }
  }

  lemma KeyText(f: PFrame, lit: Lit)
    requires f.PObj? && f.o.AtKey?
    ensures FrameText(PObj(f.ms, AtColon(f.o.lead, lit, []))) + CurText(NoCur)
            == FrameText(f) + CurText(InKey(lit, PPlain)) + [QUOTE]
  {
    var t, m := [LBRACE] + MembersText(f.ms), MemberSeparator(f.ms) + f.o.lead;
    assert m + Quoted(lit) + [] == m + Quoted(lit);
    ConcatAssoc(t, m, Quoted(lit));
    assert CurText(InKey(lit, PPlain)) == [QUOTE] + LitText(lit);
    ConcatAssoc(t + m, [QUOTE] + LitText(lit), [QUOTE]);
  }

  lemma KeyAbs(fs: Frames, lit: Lit)
    requires fs.Push? && WfFrames(fs) && fs.top.PObj? && fs.top.o.AtKey?
    requires WfLit(lit) && Decoded(lit) !in Keys(fs.top.ms)
    ensures var fs' := Push(fs.rest, PObj(fs.top.ms, AtColon(fs.top.o.lead, lit, [])));
            && WfFrames(fs') && FramesOut(fs') == FramesOut(fs)
            && AbsTop(fs') == AbsTop(fs).(keys := AbsTop(fs).keys + {Decoded(lit)},
                                          currentKey := Some(Decoded(lit)), phase := ColonNext)
  {
  }

  lemma SimString(cap: nat, pre: Text, fs: Frames, cur: Cur, c: CodePoint) returns (r: Option<Zipper>)
    requires WfZ(Inside(pre, fs, cur)) && (cur.InKey? || cur.InStr?)
    ensures match r
            case Some(z') => Follows(cap, Inside(pre, fs, cur), c, z')
            case None => Rejects(Step(Abs(cap, Inside(pre, fs, cur)), c))
  {
    var s, role, m := AbsInside(cap, fs, cur), CurRole(fs, cur), cur.mode;
    assert Step(s, c) == ConsumeString(s, role, AbsMode(m), c);
    hide ConsumeString;
    if m.PPlain? && c == QUOTE {
      if cur.InKey? {
        r := SimCloseKey(cap, pre, fs, cur.lit);
      } else {
        var z' := SimCloseString(cap, pre, fs, cur.lit);
        r := Some(z');
      }
    } else {
      StringModes(s, role, m, c);
      if Completes(m, c).Some? {
        r := SimCompletes(cap, pre, fs, cur, c);
      } else if Moves(m, c).Some? {
        MovesText(m, c);
        var cur' := WithLit(cur, cur.lit, Moves(m, c).value);
        ConcatAssoc([QUOTE] + LitText(cur.lit), ModeText(m), [c]);
        CurTextStep(pre, fs, cur, cur', c);
        r := Some(Inside(pre, fs, cur'));
      } else {
        r := None;
      }
    }
  }

  lemma SimCompletes(cap: nat, pre: Text, fs: Frames, cur: Cur, c: CodePoint) returns (r: Option<Zipper>)
    requires WfZ(Inside(pre, fs, cur)) && (cur.InKey? || cur.InStr?)
    requires Completes(cur.mode, c).Some? && WfItem(Completes(cur.mode, c).value)
    ensures var z := Inside(pre, fs, cur);
            var o := EmitChar(AbsInside(cap, fs, cur), CurRole(fs, cur), ItemChar(Completes(cur.mode, c).value));
            match r
            case Some(z') => WfZ(z') && ZText(z') == ZText(z) + [c] && o == Ok(Abs(cap, z'))
            case None => Rejects(o)
  {
    hide EmitChar, CurRole, ItemText, Completes;
    var item := Completes(cur.mode, c).value;
    SimEmit(cap, fs, cur, item);
    CompletesText(cur.mode, c);
    LitSnoc(CurRole(fs, cur), cur.lit, item);
    var cur' := WithLit(cur, cur.lit + [item], PPlain);
    assert CurText(cur') == CurText(cur) + [c] by {
      ConcatAssoc([QUOTE], LitText(cur.lit), ItemText(item));
      ConcatAssoc([QUOTE] + LitText(cur.lit), ModeText(cur.mode), [c]);
    }
    CurTextStep(pre, fs, cur, cur', c);
    var o := EmitChar(AbsInside(cap, fs, cur), CurRole(fs, cur), ItemChar(item));
    r := if o.Ok? then Some(Inside(pre, fs, cur')) else None;
  }

  // ---------------------------------------------------------------- every character

  lemma SimJson(cap: nat, z: Zipper, c: CodePoint) returns (r: Option<Zipper>)
    requires WfZ(z) && (z.Inside? ==> z.cur.NoCur?)
    ensures match r
            case Some(z') => JsonFollows(cap, z, c, z')
            case None => Rejects(ConsumeJson(Abs(cap, z), c))
  {
    if IsWs(c) {
      var z' := SimWs(cap, z, c);
      r := Some(z');
    } else {
      match z
      case Before(pre) =>
        if c == LBRACE {
          r := Some(Inside(pre, Push(Bottom, PObj(NoMembers, AtKey([]))), NoCur));
          assert FramesText(r.value.frames) == [LBRACE];
          assert FramesOut(r.value.frames) == [];
        } else {
          r := None;
        }
      case Inside(pre, fs, _) =>
        if fs.top.PObj? {
          r := SimObject(cap, pre, fs, c);
        } else {
          r := SimArray(cap, pre, fs, c);
        }
      case After(_) => r := None;
    }
  }

  lemma FinishAbs(cap: nat, fs: Frames, t: Text)
    requires fs.Push? && WfFrames(fs) && AtValuePosition(fs.top) && WfPrimitive(t)
    ensures var fs' := PutValue(fs, Primitive(t));
            && fs'.Push? && WfFrames(fs')
            && FinishPrimitive(AbsInside(cap, fs, InPrim(t)), t) == Ok(AbsInside(cap, fs', NoCur))
  {
    hide PutValue;
    var v := Primitive(t);
    PutValueAbs(cap, fs, v);
    assert FramesOut(fs) + ValueOut(AbsTop(fs), v) == FramesOut(fs);
  }

  lemma SimDelimiter(cap: nat, pre: Text, fs: Frames, t: Text, c: CodePoint) returns (r: Option<Zipper>)
    requires WfZ(Inside(pre, fs, InPrim(t))) && EndsPrimitive(c) && WfPrimitive(t)
    ensures match r
            case Some(z') => Follows(cap, Inside(pre, fs, InPrim(t)), c, z')
            case None => Rejects(Step(Abs(cap, Inside(pre, fs, InPrim(t))), c))
  {
    hide ConsumeJson, FinishPrimitive;
    var v := Primitive(t);
    PutValueText(fs, v);
    FinishAbs(cap, fs, t);
    var z0 := Inside(pre, PutValue(fs, v), NoCur);
    ConcatAssoc(pre, FramesText(fs), t);
    assert ZText(z0) == ZText(Inside(pre, fs, InPrim(t)));
    r := SimJson(cap, z0, c);
  }

  /** Each step of the decoder is one more character of a derivation, or a proper rejection. */
  lemma Sim(cap: nat, z: Zipper, c: CodePoint) returns (r: Option<Zipper>)
    requires WfZ(z)
    ensures match r
            case Some(z') => Follows(cap, z, c, z')
            case None => Rejects(Step(Abs(cap, z), c))
  {
    if !z.Inside? || z.cur.NoCur? {
      r := SimJson(cap, z, c);
    } else if z.cur.InPrim? {
      if !EndsPrimitive(c) {
        CurTextStep(z.pre, z.frames, z.cur, InPrim(z.cur.token + [c]), c);
        r := Some(z.(cur := InPrim(z.cur.token + [c])));
      } else if WfPrimitive(z.cur.token) {
        r := SimDelimiter(cap, z.pre, z.frames, z.cur.token, c);
      } else {
        r := None;
      }
    } else {
      r := SimString(cap, z.pre, z.frames, z.cur, c);
    }
  }

  lemma {:induction false} Derivation(cap: nat, t: Text) returns (r: Option<Zipper>)
    ensures match r
            case Some(z) => WfZ(z) && ZText(z) == t && Run(Ok(Initial(cap)), t) == Ok(Abs(cap, z))
            case None => Rejects(Run(Ok(Initial(cap)), t))
  {
    if t == [] {
      r := Some(Before([]));
    } else {
      var init, c := t[..|t| - 1], t[|t| - 1];
      assert t == init + [c];
      var z := Derivation(cap, init);
      if z.None? {
        r := None;
      } else {
        r := Sim(cap, z.value, c);
      }
    }
  }
}
