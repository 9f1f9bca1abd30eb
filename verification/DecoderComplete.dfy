/** Every well-formed document within the cap is decoded, and its draft text comes out exactly. */
module DecoderComplete {
  import opened Wrappers
  import opened JsonText
  import opened JsonSyntax
  import opened DecoderMachine

  ghost predicate Feeds(s: State, t: Text, s': State) {
    Run(Ok(s), t) == Ok(s')
  }

  lemma ConcatAssoc<T>(a: seq<T>, b: seq<T>, c: seq<T>)
    ensures a + b + c == a + (b + c)
  {
  }

  lemma Chain(s: State, a: Text, s1: State, b: Text, s2: State)
    requires Feeds(s, a, s1) && Feeds(s1, b, s2)
    ensures Feeds(s, a + b, s2)
  {
    RunConcat(Ok(s), a, b);
  }

  lemma ChainOne(s: State, a: Text, s1: State, c: CodePoint, s2: State)
    requires Feeds(s, a, s1) && Step(s1, c) == Ok(s2)
    ensures Feeds(s, a + [c], s2)
  {
    RunOne(Ok(s1), c);
    Chain(s, a, s1, [c], s2);
  }

  lemma FeedOne(s: State, c: CodePoint, s': State)
    requires Step(s, c) == Ok(s')
    ensures Feeds(s, [c], s')
  {
    RunOne(Ok(s), c);
  }

  predicate Idle(s: State) {
    s.str.None? && s.prim.None?
  }

  lemma {:induction false} FeedWs(s: State, ws: Text)
    requires AllWs(ws) && Idle(s)
    ensures Feeds(s, ws, s)
  {
    if ws != [] {
      FeedWs(s, ws[..|ws| - 1]);
    }
  }

  // A pending primitive is settled by any delimiter.
  lemma FeedDelimited(s: State, r: State, t: Text)
    requires s.str.None? && Settle(s) == Ok(r)
    requires t != [] && EndsPrimitive(t[0])
    ensures Run(Ok(s), t) == Run(Ok(r), t)
  {
    assert t == [t[0]] + t[1..];
    RunCons(Ok(s), t[0], t[1..]);
    RunCons(Ok(r), t[0], t[1..]);
  }

  // White space after a value
  lemma FeedTrailing(s: State, r: State, ws: Text) returns (s': State)
    requires s.str.None? && Settle(s) == Ok(r) && Idle(r) && AllWs(ws)
    ensures Feeds(s, ws, s') && s'.str.None? && Settle(s') == Ok(r)
  {
    if ws == [] {
      s' := s;
    } else {
      FeedDelimited(s, r, ws);
      FeedWs(r, ws);
      s' := r;
    }
  }

  // ---------------------------------------------------------------- strings

  lemma FeedHex4(s: State, role: Role, high: Option<int>, d: Text)
    requires s.str == Some(Token(role, Digits(high, []))) && IsHex4(d)
    requires high.Some? ==> IsHigh(high.value)
    ensures Run(Ok(s), d) == FinishDigits(s, role, high, HexValue(d))
  {
    var s1, s2, s3 := SetMode(s, role, Digits(high, d[..1])),
                      SetMode(s, role, Digits(high, d[..2])),
                      SetMode(s, role, Digits(high, d[..3]));
    assert [] + [d[0]] == d[..1] && d[..1] + [d[1]] == d[..2] && d[..2] + [d[2]] == d[..3];
    assert d[..3] + [d[3]] == d;
    FeedOne(s, d[0], s1);
    assert [d[0]] == d[..1];
    ChainOne(s, d[..1], s1, d[1], s2);
    ChainOne(s, d[..2], s2, d[2], s3);
    RunConcat(Ok(s), d[..3], [d[3]]);
    RunOne(Ok(s3), d[3]);
  }

  lemma FeedEscapeU(s: State, role: Role, d: Text)
    requires s.str == Some(Token(role, Plain)) && IsHex4(d)
    ensures Run(Ok(s), [BACKSLASH, LOWER_U] + d) == FinishDigits(s, role, None, HexValue(d))
  {
    var s1, s2 := SetMode(s, role, Escaped), SetMode(s, role, Digits(None, []));
    FeedOne(s, BACKSLASH, s1);
    ChainOne(s, [BACKSLASH], s1, LOWER_U, s2);
    assert [BACKSLASH] + [LOWER_U] == [BACKSLASH, LOWER_U];
    RunConcat(Ok(s), [BACKSLASH, LOWER_U], d);
    FeedHex4(s2, role, None, d);
  }

  lemma FeedLow(s: State, role: Role, high: int, d: Text)
    requires s.str == Some(Token(role, ExpectSlash(high))) && IsHex4(d) && IsHigh(high)
    ensures Run(Ok(s), [BACKSLASH, LOWER_U] + d) == FinishDigits(s, role, Some(high), HexValue(d))
  {
    var s1, s2 := SetMode(s, role, ExpectU(high)), SetMode(s, role, Digits(Some(high), []));
    FeedOne(s, BACKSLASH, s1);
    ChainOne(s, [BACKSLASH], s1, LOWER_U, s2);
    assert [BACKSLASH] + [LOWER_U] == [BACKSLASH, LOWER_U];
    RunConcat(Ok(s), [BACKSLASH, LOWER_U], d);
    FeedHex4(s2, role, Some(high), d);
  }

  lemma FeedItem(s: State, role: Role, item: LitItem)
    requires s.str == Some(Token(role, Plain)) && WfItem(item)
    ensures Run(Ok(s), ItemText(item)) == EmitChar(s, role, ItemChar(item))
  {
    match item
    case Raw(c) => RunOne(Ok(s), c);
    case Short(c) =>
      var s1 := SetMode(s, role, Escaped);
      FeedOne(s, BACKSLASH, s1);
      RunConcat(Ok(s), [BACKSLASH], [c]);
      RunOne(Ok(s1), c);
      assert [BACKSLASH] + [c] == ItemText(item);
    case Unicode(d) => FeedEscapeU(s, role, d);
    case Pair(h, l) =>
      FeedEscapeU(s, role, h);
      var s1 := SetMode(s, role, ExpectSlash(HexValue(h)));
      RunConcat(Ok(s), [BACKSLASH, LOWER_U] + h, [BACKSLASH, LOWER_U] + l);
      FeedLow(s1, role, HexValue(h), l);
  }

  function RoleOut(role: Role, lit: Lit): seq<Emit>
    requires WfLit(lit)
  {
    if role.ValueRole? && role.field.Some? then LitOut(role.field.value, role.index, lit) else []
  }

  function AfterLit(s: State, role: Role, lit: Lit): State
    requires WfLit(lit)
  {
    match role
    case KeyRole(parts) => s.(str := Some(Token(KeyRole(parts + Decoded(lit)), Plain)))
    case ValueRole(_, _) => s.(str := Some(Token(role, Plain)), out := s.out + RoleOut(role, lit))
  }

  lemma LitSnoc(role: Role, lit: Lit, item: LitItem)
    requires WfLit(lit) && WfItem(item)
    ensures LitText(lit + [item]) == LitText(lit) + ItemText(item)
    ensures Decoded(lit + [item]) == Decoded(lit) + [ItemChar(item)]
    ensures role.ValueRole? && role.field.Some? ==>
              RoleOut(role, lit + [item])
              == RoleOut(role, lit) + [Emit(role.field.value, role.index, ItemChar(item))]
  {
    assert (lit + [item])[..|lit|] == lit;
  }

  lemma RoleOutBytes(role: Role, lit: Lit, item: LitItem)
    requires WfLit(lit) && WfItem(item)
    ensures Bytes(RoleOut(role, lit + [item]))
            == Bytes(RoleOut(role, lit))
               + if role.ValueRole? && role.field.Some? then Utf8Size(ItemChar(item)) else 0
  {
    LitSnoc(role, lit, item);
    if role.ValueRole? && role.field.Some? {
      var e := Emit(role.field.value, role.index, ItemChar(item));
      assert (RoleOut(role, lit) + [e])[..|RoleOut(role, lit)|] == RoleOut(role, lit);
    }
  }

  // One more decoded character on top of a literal prefix
  lemma EmitNext(s: State, role: Role, lit: Lit, item: LitItem)
    requires s.str == Some(Token(role, Plain)) && WfLit(lit) && WfItem(item)
    requires Bytes(s.out) + Bytes(RoleOut(role, lit + [item])) <= s.cap
    ensures Bytes(s.out) + Bytes(RoleOut(role, lit)) <= s.cap
    ensures var m := AfterLit(s, role, lit);
            EmitChar(m, m.str.value.role, ItemChar(item)) == Ok(AfterLit(s, role, lit + [item]))
  {
    LitSnoc(role, lit, item);
    RoleOutBytes(role, lit, item);
    match role {
      case KeyRole(parts) => EmitNextKey(s, parts, Decoded(lit), Decoded(lit + [item]), ItemChar(item));
      case ValueRole(field, index) =>
        EmitNextValue(s, role, RoleOut(role, lit), RoleOut(role, lit + [item]), ItemChar(item));
    }
  }

  lemma EmitNextKey(s: State, parts: Text, t: Text, t': Text, c: CodePoint)
    requires t' == t + [c]
    ensures EmitChar(s, KeyRole(parts + t), c) == Ok(s.(str := Some(Token(KeyRole(parts + t'), Plain))))
  {
    ConcatAssoc(parts, t, [c]);
  }

  lemma EmitNextValue(s: State, role: Role, o: seq<Emit>, o': seq<Emit>, c: CodePoint)
    requires role.ValueRole? && s.str == Some(Token(role, Plain))
    requires o' == if role.field.Some? then o + [Emit(role.field.value, role.index, c)] else o
    requires Bytes(o') == Bytes(o) + if role.field.Some? then Utf8Size(c) else 0
    requires Bytes(s.out) + Bytes(o') <= s.cap
    ensures EmitChar(s.(out := s.out + o), role, c) == Ok(s.(out := s.out + o'))
  {
    hide Bytes, Utf8Size;
    BytesConcat(s.out, o);
    if role.field.Some? {
      ConcatAssoc(s.out, o, [Emit(role.field.value, role.index, c)]);
    }
  }

  lemma {:induction false} FeedLit(s: State, role: Role, lit: Lit)
    requires s.str == Some(Token(role, Plain)) && WfLit(lit)
    requires Bytes(s.out) + Bytes(RoleOut(role, lit)) <= s.cap
    ensures Feeds(s, LitText(lit), AfterLit(s, role, lit))
  {
    if lit == [] {
      assert s.out + RoleOut(role, lit) == s.out;
      if role.KeyRole? {
        assert role.parts + Decoded(lit) == role.parts;
      }
    } else {
      var init, item := lit[..|lit| - 1], lit[|lit| - 1];
      assert lit == init + [item];
      EmitNext(s, role, init, item);
      FeedLit(s, role, init);
      var m := AfterLit(s, role, init);
      FeedItem(m, m.str.value.role, item);
      RunConcat(Ok(s), LitText(init), ItemText(item));
    }
  }

  // ---------------------------------------------------------------- values

  ghost function ValueOut(f: Frame, v: Value): seq<Emit>
    requires WfValue(v)
  {
    match v
    case Str(lit) => RoleOut(ValueRole(Target(f).0, Target(f).1), lit)
    case Arr(_, es) => if ListTarget(f).Some? then ElemsOut(ListTarget(f).value, es) else []
    case _ => []
  }

  ghost function AfterValue(s: State, v: Value): Outcome
    requires s.stack != [] && WfValue(v)
  {
    CompleteValue(s.(out := s.out + ValueOut(Top(s), v)))
  }

  ghost predicate ValueFed(s: State, v: Value, o: State)
    requires s.stack != [] && WfValue(v)
  {
    && Feeds(s, ValueText(v), o) && o.str.None?
    && Settle(o) == AfterValue(s, v)
  }

  lemma FeedStr(s: State, lit: Lit)
    requires Idle(s) && s.stack != [] && InValuePosition(Top(s)) && WfLit(lit)
    requires Bytes(s.out) + Bytes(ValueOut(Top(s), Str(lit))) <= s.cap
    ensures ValueFed(s, Str(lit), AfterValue(s, Str(lit)).s)
  {
    var role := ValueRole(Target(Top(s)).0, Target(Top(s)).1);
    var s1 := s.(str := Some(Token(role, Plain)));
    FeedOne(s, QUOTE, s1);
    FeedLit(s1, role, lit);
    var s2 := AfterLit(s1, role, lit);
    Chain(s, [QUOTE], s1, LitText(lit), s2);
    ChainOne(s, [QUOTE] + LitText(lit), s2, QUOTE, AfterValue(s, Str(lit)).s);
  }

  lemma {:induction false} FeedPrimitiveTail(s: State, token: Text, n: nat)
    requires Idle(s) && 1 <= n <= |token|
    requires Step(s, token[0]) == Ok(s.(prim := Some([token[0]])))
    requires forall i :: 0 < i < |token| ==> !EndsPrimitive(token[i])
    ensures Feeds(s, token[..n], s.(prim := Some(token[..n])))
  {
    if n == 1 {
      assert token[..1] == [token[0]];
      FeedOne(s, token[0], s.(prim := Some([token[0]])));
    } else {
      FeedPrimitiveTail(s, token, n - 1);
      assert token[..n] == token[..n - 1] + [token[n - 1]];
      ChainOne(s, token[..n - 1], s.(prim := Some(token[..n - 1])), token[n - 1],
               s.(prim := Some(token[..n])));
    }
  }

  lemma PrimitiveShape(t: Text)
    requires WfPrimitive(t)
    ensures t != [] && StartsPrimitive(t[0])
    ensures forall i :: 0 <= i < |t| ==> !EndsPrimitive(t[i])
  {
    if IsNumber(t) {
      var p1: nat, p2: nat, p3: nat :| NumberCut(t, p1, p2, p3);
      assert IsDigit(t[p1]);
      forall i | 0 <= i < |t|
        ensures !EndsPrimitive(t[i])
      {
        assert IsDigit(t[i]) || t[i] == MINUS || t[i] == PLUS || t[i] == DOT || t[i] == LOWER_E || t[i] == UPPER_E;
      }
    }
  }

  lemma FeedPrimitive(s: State, t: Text) returns (o: State)
    requires Idle(s) && s.stack != [] && InValuePosition(Top(s)) && WfPrimitive(t)
    ensures ValueFed(s, Primitive(t), o)
  {
    PrimitiveShape(t);
    FeedPrimitiveTail(s, t, |t|);
    assert t[..|t|] == t;
    o := s.(prim := Some(t));
    assert s.out + ValueOut(Top(s), Primitive(t)) == s.out;
  }

  // ---------------------------------------------------------------- containers

  ghost function AfterMembers(s: State, ms: Members): State
    requires s.stack != [] && WfMembers(ms)
  {
    if ms.NoMembers? then s
    else
      var f := Top(s);
      SetTop(s, f.(phase := CommaOrEnd, keys := Keys(ms), currentKey := None))
      .(out := s.out + ObjectOut(f, ms))
  }

  // In front of the member that follows `before`
  ghost function BeforeMember(s: State, before: Members): State
    requires s.stack != [] && WfMembers(before)
  {
    if before.NoMembers? then s
    else var a := AfterMembers(s, before); SetTop(a, Top(a).(phase := KeyRequired))
  }

  ghost function BeforeElem(s: State, before: Elems): State
    requires s.stack != [] && WfElems(before)
  {
    if before.NoElems? then s
    else var a := AfterElems(s, before); SetTop(a, Top(a).(phase := ValueRequired))
  }

  ghost predicate OpenObject(s: State) {
    && Idle(s) && s.stack != []
    && Top(s).kind == ObjectKind && Top(s).phase == KeyOrEnd
    && Top(s).keys == {} && Top(s).currentKey == None
  }

  ghost function AfterElems(s: State, es: Elems): State
    requires s.stack != [] && WfElems(es)
  {
    if es.NoElems? then s
    else
      var f := Top(s);
      SetTop(s, f.(phase := CommaOrEnd, items := Count(es)))
      .(out := s.out + ArrayOut(f, es))
  }

  ghost predicate OpenArray(s: State) {
    && Idle(s) && s.stack != []
    && Top(s).kind == ArrayKind && Top(s).phase == ValueOrEnd && Top(s).items == 0
  }

  lemma {:induction false} FeedValue(s: State, v: Value) returns (o: State)
    requires Idle(s) && s.stack != [] && InValuePosition(Top(s)) && WfValue(v)
    requires Bytes(s.out) + Bytes(ValueOut(Top(s), v)) <= s.cap
    ensures ValueFed(s, v, o)
    decreases v
  {
    match v
    case Primitive(t) => o := FeedPrimitive(s, t);
    case Str(lit) =>
      FeedStr(s, lit);
      o := AfterValue(s, v).s;
    case Obj(inner, ms) => o := FeedObj(s, v);
    case Arr(inner, es) => o := FeedArr(s, v);
  }

  lemma {:induction false} FeedObj(s: State, v: Value) returns (o: State)
    requires Idle(s) && s.stack != [] && InValuePosition(Top(s)) && v.Obj? && WfValue(v)
    requires Bytes(s.out) <= s.cap
    ensures ValueFed(s, v, o)
    decreases v, 0
  {
    var inner, ms := v.inner, v.members;
    var s1 := s.(stack := s.stack + [NewFrame(ObjectKind, KeyOrEnd, false, None)]);
    FeedOne(s, LBRACE, s1);
    FeedWs(s1, inner);
    Chain(s, [LBRACE], s1, inner, s1);
    var s2 := FeedMembers(s1, ms);
    Chain(s, [LBRACE] + inner, s1, MembersText(ms), s2);
    o := AfterContainer(s, v, s2, AfterMembers(s1, ms), RBRACE);
    ChainOne(s, [LBRACE] + inner + MembersText(ms), s2, RBRACE, o);
  }

  // The bracket that opens an array
  lemma OpenArr(s: State, v: Value, s1: State)
    requires Idle(s) && s.stack != [] && InValuePosition(Top(s)) && v.Arr? && WfValue(v)
    requires Bytes(s.out) + Bytes(ValueOut(Top(s), v)) <= s.cap
    requires s1 == s.(stack := s.stack + [NewFrame(ArrayKind, ValueOrEnd, false, ListTarget(Top(s)))])
    ensures Feeds(s, [LBRACKET], s1) && OpenArray(s1) && ValueOut(Top(s), v) == ArrayOut(Top(s1), v.elems)
  {
    FeedOne(s, LBRACKET, s1);
  }

  lemma {:induction false} FeedArr(s: State, v: Value) returns (o: State)
    requires Idle(s) && s.stack != [] && InValuePosition(Top(s)) && v.Arr? && WfValue(v)
    requires Bytes(s.out) + Bytes(ValueOut(Top(s), v)) <= s.cap
    ensures ValueFed(s, v, o)
    decreases v, 0
  {
    hide Step, ValueOut, Bytes;
    var inner, es := v.inner, v.elems;
    var s1 := s.(stack := s.stack + [NewFrame(ArrayKind, ValueOrEnd, false, ListTarget(Top(s)))]);
    OpenArr(s, v, s1);
    FeedWs(s1, inner);
    Chain(s, [LBRACKET], s1, inner, s1);
    var s2 := FeedElems(s1, es);
    Chain(s, [LBRACKET] + inner, s1, ElemsText(es), s2);
    o := AfterContainer(s, v, s2, AfterElems(s1, es), RBRACKET);
    ChainOne(s, [LBRACKET] + inner + ElemsText(es), s2, RBRACKET, o);
  }

  // The closing bracket of a container that was opened as a value at the top frame of `s`
  lemma AfterContainer(s: State, v: Value, s2: State, a: State, c: CodePoint) returns (o: State)
    requires Idle(s) && s.stack != [] && InValuePosition(Top(s)) && WfValue(v)
    requires s2.str.None? && Settle(s2) == Ok(a)
    requires |a.stack| == |s.stack| + 1 && a.stack[..|s.stack|] == s.stack
    requires a == s.(stack := a.stack, out := a.out)
    requires a.out == s.out + ValueOut(Top(s), v)
    requires || (c == RBRACE && Top(a).kind == ObjectKind && (Top(a).phase == KeyOrEnd || Top(a).phase == CommaOrEnd))
             || (c == RBRACKET && Top(a).kind == ArrayKind
                 && (Top(a).phase == ValueOrEnd || Top(a).phase == CommaOrEnd))
    ensures Step(s2, c) == Ok(o) && Ok(o) == AfterValue(s, v)
    ensures Settle(o) == Ok(o) && o.str.None?
  {
    o := AfterValue(s, v).s;
    assert a.stack[..|a.stack| - 1] == s.stack;
    assert a.(stack := s.stack) == s.(out := a.out);
    assert Step(a, c) == CloseContainer(a);
  }

  lemma {:induction false} FeedMembers(s: State, ms: Members) returns (o: State)
    requires OpenObject(s) && WfMembers(ms)
    requires Bytes(s.out) + Bytes(ObjectOut(Top(s), ms)) <= s.cap
    ensures Feeds(s, MembersText(ms), o) && o.str.None? && Settle(o) == Ok(AfterMembers(s, ms))
    decreases ms, 0
  {
    match ms
    case NoMembers => o := s;
    case Member(before, lead, key, ak, ac, v, av) =>
      var k, t1 := FeedToMember(s, ms);
      MemberAccount(s, k, ms);
      var c := FeedKey(s, t1, k, lead, key, ak, ac);
      var w := FeedValue(c, v);
      var t2 := t1 + lead + Quoted(key) + ak + [COLON] + ac;
      Chain(s, t2, c, ValueText(v), w);
      o := FeedTrailing(w, AfterMembers(s, ms), av);
      Chain(s, t2 + ValueText(v), w, av, o);
  }

  lemma CommaStep(s1: State, b: State, phase: Phase, k: State)
    requires s1.str.None? && Settle(s1) == Ok(b) && Idle(b)
    requires b.stack != [] && Top(b).phase == CommaOrEnd
    requires phase == if Top(b).kind == ObjectKind then KeyRequired else ValueRequired
    requires k == SetTop(b, Top(b).(phase := phase))
    ensures Step(s1, COMMA) == Ok(k)
  {
    assert Step(b, COMMA) == Ok(k);
  }

  // Up to the separator in front of the last member
  lemma {:induction false} FeedToMember(s: State, ms: Members) returns (k: State, t: Text)
    requires OpenObject(s) && WfMembers(ms) && ms.Member?
    requires Bytes(s.out) + Bytes(ObjectOut(Top(s), ms)) <= s.cap
    ensures t == MembersText(ms.before) + MemberSeparator(ms.before)
    ensures Feeds(s, t, k)
    ensures k == BeforeMember(s, ms.before)
    decreases ms.before, 1
  {
    var before := ms.before;
    if Top(s).root {
      BytesConcat(MembersOut(before), MemberOut(Decoded(ms.key), ms.value));
    }
    var s1 := FeedMembers(s, before);
    t := MembersText(before) + MemberSeparator(before);
    if before.NoMembers? {
      k := s;
      assert t == [];
    } else {
      k := BeforeMember(s, before);
      CommaStep(s1, AfterMembers(s, before), KeyRequired, k);
      ChainOne(s, MembersText(before), s1, COMMA, k);
    }
  }

  function Named(f: Frame, name: Text, phase: Phase): Frame {
    f.(keys := f.keys + {name}, currentKey := Some(name), phase := phase)
  }

  predicate ExpectsKey(k: State) {
    && Idle(k) && k.stack != [] && Top(k).kind == ObjectKind
    && (Top(k).phase == KeyOrEnd || Top(k).phase == KeyRequired)
  }

  lemma FeedName(k: State, key: Lit)
    requires ExpectsKey(k) && WfLit(key) && Decoded(key) !in Top(k).keys && Bytes(k.out) <= k.cap
    ensures Feeds(k, Quoted(key), SetTop(k, Named(Top(k), Decoded(key), ColonNext)))
  {
    var k1 := k.(str := Some(Token(KeyRole([]), Plain)));
    FeedOne(k, QUOTE, k1);
    FeedLit(k1, KeyRole([]), key);
    assert [] + Decoded(key) == Decoded(key);
    var k2 := k.(str := Some(Token(KeyRole(Decoded(key)), Plain)));
    Chain(k, [QUOTE], k1, LitText(key), k2);
    ChainOne(k, [QUOTE] + LitText(key), k2, QUOTE, SetTop(k, Named(Top(k), Decoded(key), ColonNext)));
  }

  // A member name and its colon, after the text `t`
  lemma FeedKey(s: State, t: Text, k: State, lead: Text, key: Lit, ak: Text, ac: Text) returns (c: State)
    requires Feeds(s, t, k)
    requires ExpectsKey(k) && WfLit(key) && Decoded(key) !in Top(k).keys && Bytes(k.out) <= k.cap
    requires AllWs(lead) && AllWs(ak) && AllWs(ac)
    ensures Feeds(s, t + lead + Quoted(key) + ak + [COLON] + ac, c)
    ensures c == SetTop(k, Named(Top(k), Decoded(key), ValueNext))
  {
    FeedWs(k, lead);
    Chain(s, t, k, lead, k);
    FeedName(k, key);
    var k3 := SetTop(k, Named(Top(k), Decoded(key), ColonNext));
    Chain(s, t + lead, k, Quoted(key), k3);
    FeedWs(k3, ak);
    Chain(s, t + lead + Quoted(key), k3, ak, k3);
    c := SetTop(k3, Top(k3).(phase := ValueNext));
    ChainOne(s, t + lead + Quoted(key) + ak, k3, COLON, c);
    FeedWs(c, ac);
    Chain(s, t + lead + Quoted(key) + ak + [COLON], c, ac, c);
  }

  lemma SetTopTwice(s: State, f: Frame, out: seq<Emit>, g: Frame)
    requires s.stack != []
    ensures Top(SetTop(s, f)) == f
    ensures SetTop(SetTop(s, f).(out := out), g) == SetTop(s, g).(out := out)
  {
  }

  lemma CompleteSetTop(s: State, f: Frame, out: seq<Emit>, f': Frame)
    requires s.stack != [] && InValuePosition(f)
    requires f' == if f.kind.ObjectKind? then f.(phase := CommaOrEnd, currentKey := None)
                   else f.(phase := CommaOrEnd, items := f.items + 1)
    ensures CompleteValue(SetTop(s, f).(out := out)) == Ok(SetTop(s, f').(out := out))
  {
    SetTopTwice(s, f, out, f');
    assert Top(SetTop(s, f).(out := out)) == f;
  }

  // The draft text of an object, when it is the root object
  ghost function ObjectOut(f: Frame, ms: Members): seq<Emit>
    requires WfMembers(ms)
  {
    if f.root then MembersOut(ms) else []
  }

  lemma BeforeMemberState(s: State, before: Members)
    requires OpenObject(s) && WfMembers(before)
    ensures var k := BeforeMember(s, before);
            && ExpectsKey(k) && Top(k).keys == Keys(before) && Top(k).currentKey == None
            && k == SetTop(s, Top(k)).(out := s.out + ObjectOut(Top(s), before))
            && Top(k) == Top(s).(phase := Top(k).phase, keys := Keys(before))
  {
    if before.NoMembers? {
      assert s.out + ObjectOut(Top(s), before) == s.out;
      assert SetTop(s, Top(s)) == s;
    } else {
      var f := Top(s).(phase := CommaOrEnd, keys := Keys(before), currentKey := None);
      SetTopTwice(s, f, s.out + ObjectOut(Top(s), before), f.(phase := KeyRequired));
    }
  }

  // The bytes of a draft that grows by two parts
  lemma PartBytes(a: seq<Emit>, x: seq<Emit>, y: seq<Emit>, cap: nat)
    requires Bytes(a) + Bytes(x + y) <= cap
    ensures Bytes(a) <= cap && Bytes(a + x) + Bytes(y) <= cap && a + x + y == a + (x + y)
  {
    BytesConcat(a, x);
    BytesConcat(x, y);
    ConcatAssoc(a, x, y);
  }

  lemma ObjectOutSplit(f: Frame, ms: Members)
    requires WfMembers(ms) && ms.Member?
    ensures ObjectOut(f, ms) == ObjectOut(f, ms.before) + (if f.root then MemberOut(Decoded(ms.key), ms.value) else [])
  {
  }

  lemma MemberValueOut(f: Frame, key: Text, v: Value)
    requires WfValue(v) && f.kind == ObjectKind && f.currentKey == Some(key)
    ensures ValueOut(f, v) == if f.root then MemberOut(key, v) else []
  {
  }

  // The state in front of the last member, and what that member adds to the draft
  lemma MemberAccount(s: State, k: State, ms: Members)
    requires OpenObject(s) && WfMembers(ms) && ms.Member?
    requires Bytes(s.out) + Bytes(ObjectOut(Top(s), ms)) <= s.cap
    requires k == BeforeMember(s, ms.before)
    ensures ExpectsKey(k) && Decoded(ms.key) !in Top(k).keys && Bytes(k.out) <= k.cap
    ensures var c := SetTop(k, Named(Top(k), Decoded(ms.key), ValueNext));
            && Bytes(c.out) + Bytes(ValueOut(Top(c), ms.value)) <= c.cap
            && AfterValue(c, ms.value) == Ok(AfterMembers(s, ms))
  {
    hide BeforeMember, ObjectOut, ValueOut, AfterValue, AfterMembers, WfValue, Bytes;
    BeforeMemberState(s, ms.before);
    var f := Named(Top(k), Decoded(ms.key), ValueNext);
    MemberSplit(s, f, ms);
    var x, y := ObjectOut(Top(s), ms.before), ValueOut(f, ms.value);
    PartBytes(s.out, x, y, s.cap);
    SetTopTwice(s, Top(k), s.out + x, f);
    MemberAfter(s, f, ms, x, y);
  }

  lemma MemberSplit(s: State, f: Frame, ms: Members)
    requires OpenObject(s) && WfMembers(ms) && ms.Member?
    requires f == Top(s).(phase := ValueNext, keys := Keys(ms), currentKey := Some(Decoded(ms.key)))
    ensures ObjectOut(Top(s), ms) == ObjectOut(Top(s), ms.before) + ValueOut(f, ms.value)
  {
    hide ObjectOut, ValueOut, StrOut, Bytes;
    ObjectOutSplit(Top(s), ms);
    MemberValueOut(f, Decoded(ms.key), ms.value);
  }

  lemma MemberAfter(s: State, f: Frame, ms: Members, x: seq<Emit>, y: seq<Emit>)
    requires OpenObject(s) && WfMembers(ms) && ms.Member? && InValuePosition(f)
    requires y == ValueOut(f, ms.value) && ObjectOut(Top(s), ms) == x + y && s.out + x + y == s.out + (x + y)
    requires f == Top(s).(phase := ValueNext, keys := Keys(ms), currentKey := Some(Decoded(ms.key)))
    ensures AfterValue(SetTop(s, f).(out := s.out + x), ms.value) == Ok(AfterMembers(s, ms))
  {
    hide ObjectOut, ValueOut, CompleteValue, Bytes;
    CompleteSetTop(s, f, s.out + x + y, f.(phase := CommaOrEnd, currentKey := None));
  }

  lemma {:induction false} FeedElems(s: State, es: Elems) returns (o: State)
    requires OpenArray(s) && WfElems(es)
    requires Bytes(s.out) + Bytes(ArrayOut(Top(s), es)) <= s.cap
    ensures Feeds(s, ElemsText(es), o) && o.str.None? && Settle(o) == Ok(AfterElems(s, es))
    decreases es, 0
  {
    match es
    case NoElems => o := s;
    case Elem(before, lead, v, av) =>
      var k, t1 := FeedToElem(s, es);
      FeedWs(k, lead);
      Chain(s, t1, k, lead, k);
      ElemAccount(s, k, es);
      var w := FeedValue(k, v);
      Chain(s, t1 + lead, k, ValueText(v), w);
      var r := AfterValue(k, v).s;
      o := FeedTrailing(w, r, av);
      Chain(s, t1 + lead + ValueText(v), w, av, o);
  }

  lemma {:induction false} FeedToElem(s: State, es: Elems) returns (k: State, t: Text)
    requires OpenArray(s) && WfElems(es) && es.Elem?
    requires Bytes(s.out) + Bytes(ArrayOut(Top(s), es)) <= s.cap
    ensures t == ElemsText(es.before) + ElemSeparator(es.before)
    ensures Feeds(s, t, k)
    ensures k == BeforeElem(s, es.before)
    decreases es.before, 1
  {
    var before := es.before;
    var d := Top(s).draftField;
    if d.Some? {
      BytesConcat(ElemsOut(d.value, before), StrOut(d.value, Some(Count(before)), es.value));
    }
    var s1 := FeedElems(s, before);
    t := ElemsText(before) + ElemSeparator(before);
    if before.NoElems? {
      k := s;
      assert t == [];
    } else {
      k := BeforeElem(s, before);
      CommaStep(s1, AfterElems(s, before), ValueRequired, k);
      ChainOne(s, ElemsText(before), s1, COMMA, k);
    }
  }

  // The draft text of an array, when it is a root list field
  ghost function ArrayOut(f: Frame, es: Elems): seq<Emit>
    requires WfElems(es)
  {
    if f.draftField.Some? then ElemsOut(f.draftField.value, es) else []
  }

  lemma BeforeElemState(s: State, before: Elems)
    requires OpenArray(s) && WfElems(before)
    ensures var k := BeforeElem(s, before);
            && Idle(k) && k.stack != [] && InValuePosition(Top(k))
            && k == SetTop(s, Top(k)).(out := s.out + ArrayOut(Top(s), before))
            && Top(k) == Top(s).(phase := Top(k).phase, items := Count(before))
  {
    if before.NoElems? {
      assert s.out + ArrayOut(Top(s), before) == s.out;
      assert SetTop(s, Top(s)) == s;
    } else {
      var f := Top(s).(phase := CommaOrEnd, items := Count(before));
      SetTopTwice(s, f, s.out + ArrayOut(Top(s), before), f.(phase := ValueRequired));
    }
  }

  lemma ElemAccount(s: State, k: State, es: Elems)
    requires OpenArray(s) && WfElems(es) && es.Elem?
    requires Bytes(s.out) + Bytes(ArrayOut(Top(s), es)) <= s.cap
    requires k == BeforeElem(s, es.before)
    ensures Idle(k) && k.stack != [] && InValuePosition(Top(k))
    ensures Bytes(k.out) + Bytes(ValueOut(Top(k), es.value)) <= k.cap
    ensures AfterValue(k, es.value) == Ok(AfterElems(s, es))
  {
    BeforeElemState(s, es.before);
    ElemOut(s, k, es);
    hide BeforeElem, ArrayOut, ValueOut, CompleteValue, WfValue, StrOut;
    var x, y := ArrayOut(Top(s), es.before), ValueOut(Top(k), es.value);
    PartBytes(s.out, x, y, s.cap);
    ElemAfter(s, k, es, x, y);
  }

  // What an element adds to what the elements before it have published
  lemma ElemOut(s: State, k: State, es: Elems)
    requires OpenArray(s) && WfElems(es) && es.Elem? && k.stack != []
    requires Top(k) == Top(s).(phase := Top(k).phase, items := Count(es.before))
    ensures ArrayOut(Top(s), es) == ArrayOut(Top(s), es.before) + ValueOut(Top(k), es.value)
  {
    hide ArrayOut, ValueOut, StrOut, Bytes;
    ArrayOutSplit(Top(s), es);
    ElemValueOut(Top(k), es.value);
  }

  lemma ElemAfter(s: State, k: State, es: Elems, x: seq<Emit>, y: seq<Emit>)
    requires OpenArray(s) && WfElems(es) && es.Elem? && k.stack != [] && InValuePosition(Top(k))
    requires x == ArrayOut(Top(s), es.before) && y == ValueOut(Top(k), es.value)
    requires ArrayOut(Top(s), es) == x + y && s.out + x + y == s.out + (x + y)
    requires k == SetTop(s, Top(k)).(out := s.out + x)
    requires Top(k) == Top(s).(phase := Top(k).phase, items := Count(es.before))
    ensures AfterValue(k, es.value) == Ok(AfterElems(s, es))
  {
    hide ArrayOut, ValueOut, StrOut, CompleteValue, SetTop, Bytes;
    var f := Top(k);
    CompleteSetTop(s, f, s.out + x + y, f.(phase := CommaOrEnd, items := f.items + 1));
  }

  lemma ArrayOutSplit(f: Frame, es: Elems)
    requires WfElems(es) && es.Elem?
    ensures ArrayOut(f, es)
            == ArrayOut(f, es.before)
               + (if f.draftField.Some? then StrOut(f.draftField.value, Some(Count(es.before)), es.value) else [])
  {
  }

  lemma ElemValueOut(f: Frame, v: Value)
    requires WfValue(v) && f.kind == ArrayKind
    ensures ValueOut(f, v) == if f.draftField.Some? then StrOut(f.draftField.value, Some(f.items), v) else []
  {
  }

  // ---------------------------------------------------------------- documents

  ghost function AfterDoc(cap: nat, d: Doc): State
    requires WfDoc(d)
  {
    Initial(cap).(started := true, complete := true, out := DocOut(d))
  }

  lemma CloseRoot(a: State, e: State, s2: State)
    requires Idle(a) && |a.stack| == 1 && Top(a).kind == ObjectKind
    requires Top(a).phase == KeyOrEnd || Top(a).phase == CommaOrEnd
    requires e == a.(stack := [], complete := true)
    requires s2.str.None? && Settle(s2) == Ok(a)
    ensures Step(s2, RBRACE) == Ok(e)
  {
    assert a.stack[..0] == [];
    assert CloseContainer(a) == Ok(e);
    assert Step(a, RBRACE) == Ok(e);
  }

  lemma DocTextSplit(d: Doc)
    requires d.root.Obj?
    ensures DocText(d) == d.before + [LBRACE] + d.root.inner + MembersText(d.root.members) + [RBRACE] + d.after
  {
    ConcatAssoc(d.before, [LBRACE], d.root.inner);
    ConcatAssoc(d.before, [LBRACE] + d.root.inner, MembersText(d.root.members));
    ConcatAssoc(d.before, [LBRACE] + d.root.inner + MembersText(d.root.members), [RBRACE]);
  }

  /**
   * Round trip: the text of every well-formed document whose draft fits the cap is accepted,
   * and what has been published is exactly the text of the six root fields.
   */
  lemma RoundTrip(cap: nat, d: Doc)
    requires WfDoc(d) && Bytes(DocOut(d)) <= cap
    ensures Run(Ok(Initial(cap)), DocText(d)) == Ok(AfterDoc(cap, d))
    ensures Decode(cap, DocText(d)) == Ok(AfterDoc(cap, d))
  {
    var s := Initial(cap);
    var inner, ms := d.root.inner, d.root.members;
    FeedWs(s, d.before);
    var s1 := s.(started := true, stack := [NewFrame(ObjectKind, KeyOrEnd, true, None)]);
    ChainOne(s, d.before, s, LBRACE, s1);
    FeedWs(s1, inner);
    Chain(s, d.before + [LBRACE], s1, inner, s1);
    var s2 := FeedMembers(s1, ms);
    Chain(s, d.before + [LBRACE] + inner, s1, MembersText(ms), s2);
    var e := AfterDoc(cap, d);
    var a := AfterMembers(s1, ms);
    assert a.out == DocOut(d);
    CloseRoot(a, e, s2);
    ChainOne(s, d.before + [LBRACE] + inner + MembersText(ms), s2, RBRACE, e);
    FeedWs(e, d.after);
    DocTextSplit(d);
    Chain(s, d.before + [LBRACE] + inner + MembersText(ms) + [RBRACE], e, d.after, e);
  }
}
