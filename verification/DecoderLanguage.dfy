/** What the decoder accepts and what it publishes, for every text and every way to cut it. */
module DecoderLanguage {
  import opened Wrappers
  import opened JsonText
  import opened JsonSyntax
  import opened DecoderMachine
  import opened DecoderComplete
  import DecoderSound

  ghost predicate IsDocument(t: Text, d: Doc) {
    WfDoc(d) && DocText(d) == t
  }

  // ---------------------------------------------------------------- one published character

  // A step publishes at most one character, a scalar value that fits under the cap.
  ghost predicate Extends(s: State, o: Outcome) {
    o.Ok? ==>
      && o.s.cap == s.cap
      && (|| o.s.out == s.out
          || (&& |o.s.out| == |s.out| + 1 && o.s.out[..|s.out|] == s.out
              && IsScalar(o.s.out[|s.out|].c)
              && Bytes(s.out) + Utf8Size(o.s.out[|s.out|].c) <= s.cap))
  }

  lemma EmitExtends(s: State, role: Role, c: CodePoint)
    requires IsScalar(c)
    ensures Extends(s, EmitChar(s, role, c))
  {
  }

  lemma DigitsExtend(s: State, role: Role, high: Option<int>, value: nat)
    requires value <= 0xFFFF && (high.Some? ==> IsHigh(high.value))
    ensures Extends(s, FinishDigits(s, role, high, value))
  {
    if high.Some? && IsLow(value) {
      assert PairValue(high.value, value) >= 0x10000;
      EmitExtends(s, role, PairValue(high.value, value));
    } else if IsScalar(value) {
      EmitExtends(s, role, value);
    }
  }

  lemma StringExtends(s: State, role: Role, mode: Mode, c: CodePoint)
    ensures Extends(s, ConsumeString(s, role, mode, c))
  {
    if mode.Digits? && WfMode(mode) && IsHex(c) && |mode.digits| == 3 {
      DigitsExtend(s, role, mode.high, HexValue(mode.digits + [c]));
    } else if mode.Escaped? && ShortEscape(c).Some? {
      EmitExtends(s, role, ShortEscape(c).value);
    } else if mode.Plain? && c != QUOTE && c != BACKSLASH && IsScalar(c) {
      EmitExtends(s, role, c);
    }
  }

  lemma JsonExtends(s: State, c: CodePoint)
    ensures Extends(s, ConsumeJson(s, c))
  {
  }

  lemma StepExtends(s: State, c: CodePoint)
    ensures Extends(s, Step(s, c))
  {
    if s.str.Some? {
      StringExtends(s, s.str.value.role, s.str.value.mode, c);
    } else if s.prim.Some? && EndsPrimitive(c) {
      var o := FinishPrimitive(s, s.prim.value);
      if o.Ok? {
        JsonExtends(o.s, c);
      }
    } else if s.prim.None? {
      JsonExtends(s, c);
    }
  }

  lemma AppendPublishes(out: seq<Emit>, o: seq<Emit>, cap: nat)
    requires |o| == |out| + 1 && o[..|out|] == out && IsScalar(o[|out|].c) && AllScalar(out)
    requires Bytes(out) + Utf8Size(o[|out|].c) <= cap
    ensures out <= o && Bytes(o) <= cap && AllScalar(o)
  {
    forall i | 0 <= i < |o|
      ensures IsScalar(o[i].c)
    {
      assert i < |out| ==> o[i] == out[i];
    }
  }

  lemma StepPublishes(s: State, c: CodePoint)
    requires Step(s, c).Ok? && Bytes(s.out) <= s.cap && AllScalar(s.out)
    ensures var r := Step(s, c).s;
            r.cap == s.cap && s.out <= r.out && Bytes(r.out) <= r.cap && AllScalar(r.out)
  {
    StepExtends(s, c);
    var r := Step(s, c).s;
    if r.out != s.out {
      AppendPublishes(s.out, r.out, s.cap);
    }
  }

  ghost predicate AllScalar(out: seq<Emit>) {
    forall i :: 0 <= i < |out| ==> IsScalar(out[i].c)
  }

  /**
   * Whatever the input, publishing is append-only, stays within the cap, and publishes
   * Unicode scalar values only.
   */
  lemma {:induction false} Publishing(s: State, t: Text)
    requires Run(Ok(s), t).Ok? && Bytes(s.out) <= s.cap && AllScalar(s.out)
    ensures var r := Run(Ok(s), t).s;
            r.cap == s.cap && s.out <= r.out && Bytes(r.out) <= r.cap && AllScalar(r.out)
  {
    if t != [] {
      Publishing(s, t[..|t| - 1]);
      StepPublishes(Run(Ok(s), t[..|t| - 1]).s, t[|t| - 1]);
    }
  }

  // ---------------------------------------------------------------- the language

  lemma Sound(cap: nat, t: Text) returns (d: Doc)
    requires Decode(cap, t).Ok?
    ensures IsDocument(t, d) && Bytes(DocOut(d)) <= cap && Decode(cap, t) == Ok(AfterDoc(cap, d))
  {
    var z := DecoderSound.Derivation(cap, t);
    Publishing(Initial(cap), t);
    match z.value
    case After(doc) => d := doc;
    case Before(_) => d := Doc([], Primitive([]), []);
    case Inside(_, fs, cur) =>
      DecoderSound.Dispatch(cap, fs, QUOTE);
      d := Doc([], Primitive([]), []);
  }

  /**
   * Exact language: a text is accepted exactly when it is an RFC 8259 object between white
   * space, with distinct names in every object and a draft within the cap.
   */
  lemma Language(cap: nat, t: Text)
    ensures Decode(cap, t).Ok? <==> exists d :: IsDocument(t, d) && Bytes(DocOut(d)) <= cap
  {
    if Decode(cap, t).Ok? {
      var d := Sound(cap, t);
    }
    if d :| IsDocument(t, d) && Bytes(DocOut(d)) <= cap {
      RoundTrip(cap, d);
    }
  }

  /** All derivations of one text publish the same draft. */
  lemma Unambiguous(d: Doc, d': Doc)
    requires WfDoc(d) && WfDoc(d') && DocText(d) == DocText(d')
    ensures DocOut(d) == DocOut(d')
  {
    var cap := Bytes(DocOut(d)) + Bytes(DocOut(d'));
    RoundTrip(cap, d);
    RoundTrip(cap, d');
  }

  /** The raises for impossible states and the accesses to an empty stack are unreachable. */
  lemma StateInvalidUnreachable(cap: nat, t: Text)
    ensures Run(Ok(Initial(cap)), t) != Err(StateInvalid)
    ensures Decode(cap, t) != Err(StateInvalid)
  {
    var z := DecoderSound.Derivation(cap, t);
    if z.Some? && z.value.Inside? {
      var fs := z.value.frames;
      DecoderSound.Dispatch(cap, fs, QUOTE);
      if z.value.cur.InPrim? && WfPrimitive(z.value.cur.token) {
        var v := Primitive(z.value.cur.token);
        DecoderSound.PutValueAbs(cap, fs, v);
        assert DecoderSound.FramesOut(fs) + ValueOut(DecoderSound.AbsTop(fs), v) == DecoderSound.FramesOut(fs);
      }
    }
  }

  // ---------------------------------------------------------------- what is published

  // The text that has been published for one slot
  function SlotText(out: seq<Emit>, slot: Slot): Text {
    if out == [] then []
    else
      var e := out[|out| - 1];
      SlotText(out[..|out| - 1], slot) + if (e.field, e.index) == slot then [e.c] else []
  }

  function Lookup(ms: Members, name: Text): Option<Value> {
    match ms
    case NoMembers => None
    case Member(before, _, key, _, _, v, _) =>
      if WfLit(key) && Decoded(key) == name then Some(v) else Lookup(before, name)
  }

  function Item(es: Elems, j: nat): Option<Value> {
    match es
    case NoElems => None
    case Elem(before, _, v, _) => if Count(before) == j then Some(v) else Item(before, j)
  }

  function StringOf(v: Option<Value>): Text {
    if v.Some? && v.value.Str? && WfLit(v.value.lit) then Decoded(v.value.lit) else []
  }

  /** The string that a document holds for a draft slot: only root fields and their items count. */
  function RootString(d: Doc, slot: Slot): Text
    requires d.root.Obj?
  {
    var v := Lookup(d.root.members, FieldName(slot.0));
    if v.None? then []
    else if IsTextField(slot.0) then (if slot.1.None? then StringOf(v) else [])
    else if slot.1.Some? && v.value.Arr? then StringOf(Item(v.value.elems, slot.1.value))
    else []
  }

  lemma {:induction false} SlotConcat(a: seq<Emit>, b: seq<Emit>, slot: Slot)
    ensures SlotText(a + b, slot) == SlotText(a, slot) + SlotText(b, slot)
  {
    if b == [] {
      assert a + b == a;
    } else {
      SlotConcat(a, b[..|b| - 1], slot);
      assert (a + b)[..|a + b| - 1] == a + b[..|b| - 1];
    }
  }

  lemma {:induction false} SlotOther(out: seq<Emit>, slot: Slot)
    requires forall i :: 0 <= i < |out| ==> (out[i].field, out[i].index) != slot
    ensures SlotText(out, slot) == []
  {
    if out != [] {
      SlotOther(out[..|out| - 1], slot);
    }
  }

  lemma {:induction false} SlotLit(f: Field, index: Option<nat>, lit: Lit)
    requires WfLit(lit)
    ensures SlotText(LitOut(f, index, lit), (f, index)) == Decoded(lit)
  {
    if lit != [] {
      var init, item := lit[..|lit| - 1], lit[|lit| - 1];
      assert lit == init + [item];
      LitSnoc(ValueRole(Some(f), index), init, item);
      SlotLit(f, index, init);
      var o := LitOut(f, index, lit);
      assert o == LitOut(f, index, init) + [Emit(f, index, ItemChar(item))];
      assert o[..|o| - 1] == LitOut(f, index, init);
    }
  }

  lemma {:induction false} ElemsFields(f: Field, es: Elems)
    requires WfElems(es)
    ensures forall e :: e in ElemsOut(f, es) ==> e.field == f && e.index.Some? && e.index.value < Count(es)
  {
    if es.Elem? {
      ElemsFields(f, es.before);
    }
  }

  lemma {:induction false} SlotElems(f: Field, es: Elems, j: nat)
    requires WfElems(es)
    ensures SlotText(ElemsOut(f, es), (f, Some(j))) == StringOf(Item(es, j))
  {
    if es.Elem? {
      var a, b := ElemsOut(f, es.before), StrOut(f, Some(Count(es.before)), es.value);
      SlotConcat(a, b, (f, Some(j)));
      SlotElems(f, es.before, j);
      ElemsFields(f, es.before);
      if j == Count(es.before) {
        SlotOther(a, (f, Some(j)));
        if es.value.Str? {
          SlotLit(f, Some(j), es.value.lit);
        }
      } else {
        SlotOther(b, (f, Some(j)));
      }
    }
  }

  lemma {:induction false} LookupNone(ms: Members, name: Text)
    requires WfMembers(ms) && name !in Keys(ms)
    ensures Lookup(ms, name).None?
  {
    if ms.Member? {
      LookupNone(ms.before, name);
    }
  }

  lemma MemberFields(key: Text, v: Value)
    requires WfValue(v)
    ensures forall e :: e in MemberOut(key, v) ==>
              FieldName(e.field) == key && (IsTextField(e.field) <==> e.index.None?)
  {
    var f := FieldNamed(key);
    if f.Some? && !IsTextField(f.value) && v.Arr? {
      ElemsFields(f.value, v.elems);
    }
  }

  lemma SlotMember(key: Text, v: Value, slot: Slot)
    requires WfValue(v)
    ensures SlotText(MemberOut(key, v), slot)
            == if FieldName(slot.0) != key then []
               else if IsTextField(slot.0) then (if slot.1.None? then StringOf(Some(v)) else [])
               else if slot.1.Some? && v.Arr? then StringOf(Item(v.elems, slot.1.value))
               else []
  {
    MemberFields(key, v);
    var (f, index) := slot;
    if FieldName(f) != key || IsTextField(f) != index.None? {
      SlotOther(MemberOut(key, v), slot);
    } else if IsTextField(f) {
      if v.Str? {
        SlotLit(f, None, v.lit);
      }
    } else if v.Arr? {
      SlotElems(f, v.elems, index.value);
    }
  }

  lemma {:induction false} SlotMembers(d: Doc, ms: Members, slot: Slot)
    requires d.root.Obj? && d.root.members == ms && WfMembers(ms)
    ensures SlotText(MembersOut(ms), slot) == RootString(d, slot)
    decreases ms
  {
    if ms.Member? {
      var a, b := MembersOut(ms.before), MemberOut(Decoded(ms.key), ms.value);
      SlotConcat(a, b, slot);
      SlotMembers(d.(root := d.root.(members := ms.before)), ms.before, slot);
      SlotMember(Decoded(ms.key), ms.value, slot);
      if Decoded(ms.key) == FieldName(slot.0) {
        LookupNone(ms.before, FieldName(slot.0));
      }
    }
  }

  /** The draft of a document: each slot holds the string found there, and nothing else does. */
  lemma PublishedText(d: Doc, slot: Slot)
    requires WfDoc(d)
    ensures SlotText(DocOut(d), slot) == RootString(d, slot)
  {
    SlotMembers(d, d.root.members, slot);
  }

  // ---------------------------------------------------------------- the cap's own rejections

  // The outcome under a cap, against the outcome under a larger one
  ghost predicate SameUpToCap(a: Outcome, b: Outcome) {
    || a == Err(DraftTooLarge)
    || (a.Err? && a == b)
    || (a.Ok? && b.Ok? && a.s.cap <= b.s.cap && b.s == a.s.(cap := b.s.cap))
  }

  lemma EmitCap(s: State, big: nat, role: Role, c: CodePoint)
    requires s.cap <= big
    ensures SameUpToCap(EmitChar(s, role, c), EmitChar(s.(cap := big), role, c))
  {
  }

  lemma CompleteCap(s: State, big: nat)
    requires s.cap <= big
    ensures SameUpToCap(CompleteValue(s), CompleteValue(s.(cap := big)))
  {
  }

  lemma CloseCap(s: State, big: nat)
    requires s.cap <= big && s.stack != []
    ensures SameUpToCap(CloseContainer(s), CloseContainer(s.(cap := big)))
  {
    var s' := s.(stack := DropLast(s.stack));
    CompleteCap(s', big);
    assert s'.(cap := big) == s.(cap := big).(stack := DropLast(s.stack));
  }

  lemma StartCap(s: State, big: nat, c: CodePoint)
    requires s.cap <= big && s.stack != []
    ensures SameUpToCap(StartValue(s, c), StartValue(s.(cap := big), c))
  {
  }

  lemma StringCap(s: State, big: nat, role: Role, mode: Mode, c: CodePoint)
    requires s.cap <= big
    ensures SameUpToCap(ConsumeString(s, role, mode, c), ConsumeString(s.(cap := big), role, mode, c))
  {
    hide EmitChar, CompleteValue, HexValue, IsScalar;
    match mode
    case Digits(high, digits) =>
      if WfMode(mode) && IsHex(c) && |digits| == 3 {
        var v := HexValue(digits + [c]);
        if high.Some? && IsLow(v) {
          EmitCap(s, big, role, PairValue(high.value, v));
        } else {
          EmitCap(s, big, role, v);
        }
      }
    case Escaped =>
      if ShortEscape(c).Some? {
        EmitCap(s, big, role, ShortEscape(c).value);
      }
    case Plain =>
      CompleteCap(s.(str := None), big);
      EmitCap(s, big, role, c);
    case _ =>
  }

  lemma JsonCap(s: State, big: nat, c: CodePoint)
    requires s.cap <= big
    ensures SameUpToCap(ConsumeJson(s, c), ConsumeJson(s.(cap := big), c))
  {
    hide CloseContainer, StartValue, IsWs;
    if s.stack != [] {
      CloseCap(s, big);
      StartCap(s, big, c);
    }
  }

  lemma PrimitiveCap(s: State, big: nat, t: Text)
    requires s.cap <= big
    ensures SameUpToCap(FinishPrimitive(s, t), FinishPrimitive(s.(cap := big), t))
  {
  }

  lemma StepCap(s: State, big: nat, c: CodePoint)
    requires s.cap <= big
    ensures SameUpToCap(Step(s, c), Step(s.(cap := big), c))
  {
    if s.str.Some? {
      StringCap(s, big, s.str.value.role, s.str.value.mode, c);
    } else if s.prim.Some? && EndsPrimitive(c) {
      PrimitiveCap(s, big, s.prim.value);
      var o := FinishPrimitive(s, s.prim.value);
      if o.Ok? {
        JsonCap(o.s, big, c);
      }
    } else if s.prim.None? {
      JsonCap(s, big, c);
    }
  }

  lemma {:induction false} RunCap(cap: nat, big: nat, t: Text)
    requires cap <= big
    ensures SameUpToCap(Run(Ok(Initial(cap)), t), Run(Ok(Initial(big)), t))
  {
    if t != [] {
      RunCap(cap, big, t[..|t| - 1]);
      var a, b := Run(Ok(Initial(cap)), t[..|t| - 1]), Run(Ok(Initial(big)), t[..|t| - 1]);
      if a.Ok? {
        StepCap(a.s, b.s.cap, t[|t| - 1]);
      }
    }
  }

  /** A document whose draft is too large is rejected, and with the cap's own error. */
  lemma OversizedDraft(cap: nat, d: Doc)
    requires WfDoc(d) && Bytes(DocOut(d)) > cap
    ensures Decode(cap, DocText(d)) == Err(DraftTooLarge)
  {
    var big := Bytes(DocOut(d));
    RoundTrip(big, d);
    RunCap(cap, big, DocText(d));
    var o := Run(Ok(Initial(cap)), DocText(d));
    if o.Ok? {
      Publishing(Initial(cap), DocText(d));
    }
  }

  // ---------------------------------------------------------------- chunks

  ghost function RunChunks(o: Outcome, chunks: seq<Text>): Outcome {
    if chunks == [] then o else Run(RunChunks(o, chunks[..|chunks| - 1]), chunks[|chunks| - 1])
  }

  /** Chunk independence: only the concatenation of the chunks matters. */
  lemma {:induction false} ChunkIndependence(o: Outcome, chunks: seq<Text>)
    ensures RunChunks(o, chunks) == Run(o, Concat(chunks))
  {
    if chunks != [] {
      ChunkIndependence(o, chunks[..|chunks| - 1]);
      RunConcat(o, Concat(chunks[..|chunks| - 1]), chunks[|chunks| - 1]);
    }
  }
}
