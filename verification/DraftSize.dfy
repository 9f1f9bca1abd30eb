/** The compact JSON of a draft is never larger than the text that the draft was read from. */
module DraftSize {
  import opened Wrappers
  import opened JsonText
  import opened JsonSyntax
  import opened ExecutionEvents
  import opened Replica
  import opened DraftLedger
  import opened DecoderComplete
  import opened DecoderRoles
  import opened DecoderLanguage
  import opened ReportStream
  import opened ReportDraft

  // ---------------------------------------------------------------- strings

  lemma TextBytesOne(c: CodePoint)
    ensures TextBytes([c]) == Utf8Size(c) && ContentJson([c]) == CharJson(c)
  {
    assert [c][..0] == [];
  }

  lemma {:induction false} LengthBytes(t: Text)
    ensures |t| <= TextBytes(t)
  {
    if t != [] {
      LengthBytes(t[..|t| - 1]);
    }
  }

  lemma ItemSize(item: LitItem)
    requires WfItem(item)
    ensures CharJson(ItemChar(item)) <= TextBytes(ItemText(item)) && 1 <= TextBytes(ItemText(item))
  {
    LengthBytes(ItemText(item));
    match item
    case Raw(c) => TextBytesOne(c);
    case _ =>
  }

  /** Every way to spell a character in JSON takes at least the bytes of its compact spelling. */
  lemma {:induction false} LitSize(lit: Lit)
    requires WfLit(lit)
    ensures ContentJson(JsonSyntax.Decoded(lit)) <= TextBytes(LitText(lit)) && |lit| <= TextBytes(LitText(lit))
  {
    if lit != [] {
      var init, item := lit[..|lit| - 1], lit[|lit| - 1];
      LitSize(init);
      ItemSize(item);
      assert JsonSyntax.Decoded(lit)[..|lit| - 1] == JsonSyntax.Decoded(init);
      TextBytesConcat(LitText(init), ItemText(item));
    }
  }

  lemma QuotedSize(lit: Lit)
    ensures TextBytes(Quoted(lit)) == TextBytes(LitText(lit)) + 2
  {
    TextBytesOne(QUOTE);
    TextBytesConcat([QUOTE], LitText(lit));
    TextBytesConcat([QUOTE] + LitText(lit), [QUOTE]);
  }

  // ---------------------------------------------------------------- one string is one delta

  lemma {:induction false} DrawLit(a: seq<Emit>, d: Draft, f: Field, index: Option<nat>, lit: Lit)
    requires Draw(a) == Some(d) && WfLit(lit) && lit != [] && (IsTextField(f) <==> index.None?) && TypedDraft(d)
    ensures Draw(a + LitOut(f, index, lit)) == Grow(d, f, index, |SlotOf(d, (f, index))|, JsonSyntax.Decoded(lit))
  {
    hide Grow, SlotOf;
    var init, c := lit[..|lit| - 1], ItemChar(lit[|lit| - 1]);
    var offset, text := |SlotOf(d, (f, index))|, JsonSyntax.Decoded(init);
    assert LitOut(f, index, lit) == LitOut(f, index, init) + [Emit(f, index, c)];
    assert a + LitOut(f, index, lit) == (a + LitOut(f, index, init)) + [Emit(f, index, c)];
    assert JsonSyntax.Decoded(lit) == text + [c];
    DrawSnoc(a + LitOut(f, index, init), Emit(f, index, c));
    if init == [] {
      assert a + LitOut(f, index, init) == a;
      assert text + [c] == [c];
    } else {
      DrawLit(a, d, f, index, init);
      GrowAny(d, f, index, offset, text, text + [c]);
      if Grow(d, f, index, offset, text).Some? {
        GrowSplit(d, f, index, offset, text, [c]);
        GrownSlot(d, f, index, offset, text);
      }
    }
  }

  lemma GrownSlot(d: Draft, f: Field, index: Option<nat>, offset: nat, text: Text)
    requires Grow(d, f, index, offset, text).Some? && (IsTextField(f) <==> index.None?)
    ensures |SlotOf(Grow(d, f, index, offset, text).value, (f, index))| == offset + |text|
  {
  }

  // ---------------------------------------------------------------- one field

  // The size with the field's name paid for
  function Named(d: Draft, f: Field): nat {
    JsonSize(d) + if HasField(d, f) then 0 else |FieldName(f)| + 5 + Flag(HasAny(d))
  }

  ghost predicate Shaped(d: Draft) {
    TypedDraft(d) && NoEmptyLists(d)
  }

  lemma NamedGrow(d: Draft, f: Field, index: Option<nat>, offset: nat, text: Text)
    requires Grow(d, f, index, offset, text).Some? && Shaped(d) && (IsTextField(f) <==> index.None?)
    ensures var d' := Grow(d, f, index, offset, text).value;
            && Shaped(d') && HasField(d', f)
            && Named(d', f) <= Named(d, f) + ContentJson(text)
                               + (if index.Some? then 2 + Flag(index.value > 0) else 0)
  {
    hide JsonSize, TypedDraft, NoEmptyLists, HasAny;
    GrowCounts(d, f, index, offset, text);
    GrowShape(d, f, index, offset, text);
    NoLines(d, f);
  }

  lemma NoLines(d: Draft, f: Field)
    ensures !HasField(d, f) ==> LinesOf(d, f) == []
  {
  }

  lemma {:induction false} ElemsSize(a: seq<Emit>, d: Draft, f: Field, es: Elems)
    requires Draw(a) == Some(d) && Shaped(d) && !IsTextField(f) && WfElems(es)
    requires Draw(a + ElemsOut(f, es)).Some?
    ensures var d' := Draw(a + ElemsOut(f, es)).value;
            Shaped(d') && Named(d', f) <= Named(d, f) + TextBytes(ElemsText(es))
    decreases es
  {
    hide Draw, Named, Shaped, WfElems;
    match es
    case NoElems =>
      assert a + ElemsOut(f, es) == a;
    case Elem(before, lead, v, av) =>
      WfElem(es);
      var outs := a + ElemsOut(f, before);
      ElemStep(a, f, es);
      ElemsSize(a, d, f, before);
      StrSize(outs, Draw(outs).value, f, Some(Count(before)), v);
      ElemText(es);
  }

  lemma WfElem(es: Elems)
    requires WfElems(es) && es.Elem?
    ensures WfElems(es.before) && WfValue(es.value)
  {
  }

  lemma {:induction false} DrawPrefix(a: seq<Emit>, b: seq<Emit>)
    requires Draw(a + b).Some?
    ensures Draw(a).Some?
  {
    if b == [] {
      assert a + b == a;
    } else {
      assert (a + b)[..|a + b| - 1] == a + b[..|b| - 1];
      DrawPrefix(a, b[..|b| - 1]);
    }
  }

  lemma ElemStep(a: seq<Emit>, f: Field, es: Elems)
    requires WfElems(es) && es.Elem? && Draw(a + ElemsOut(f, es)).Some?
    ensures Draw(a + ElemsOut(f, es.before)).Some?
    ensures a + ElemsOut(f, es) == (a + ElemsOut(f, es.before)) + StrOut(f, Some(Count(es.before)), es.value)
  {
    hide Draw, WfValue, Count;
    var b := StrOut(f, Some(Count(es.before)), es.value);
    ConcatAssoc(a, ElemsOut(f, es.before), b);
    DrawPrefix(a + ElemsOut(f, es.before), b);
  }

  lemma ElemText(es: Elems)
    requires es.Elem?
    ensures TextBytes(ElemsText(es)) >= TextBytes(ElemsText(es.before)) + Flag(Count(es.before) > 0)
            + TextBytes(ValueText(es.value))
  {
    var b, s, l, v := ElemsText(es.before), ElemSeparator(es.before), es.lead, ValueText(es.value);
    TextBytesConcat(b, s);
    TextBytesConcat(b + s, l);
    TextBytesConcat(b + s + l, v);
    TextBytesConcat(b + s + l + v, es.afterValue);
    TextBytesOne(COMMA);
  }

  // A string value, or one that publishes nothing
  lemma StrSize(a: seq<Emit>, d: Draft, f: Field, index: Option<nat>, v: Value)
    requires Draw(a) == Some(d) && Shaped(d) && WfValue(v) && (IsTextField(f) <==> index.None?)
    requires Draw(a + StrOut(f, index, v)).Some?
    ensures var d' := Draw(a + StrOut(f, index, v)).value;
            && Shaped(d')
            && (index.Some? ==> Named(d', f) <= Named(d, f) + TextBytes(ValueText(v)) + Flag(index.value > 0))
            && (index.None? ==> d' == d || Named(d', f) + 2 <= Named(d, f) + TextBytes(ValueText(v)))
  {
    hide Draw, Named, Grow;
    if v.Str? && v.lit != [] {
      DrawLit(a, d, f, index, v.lit);
      NamedGrow(d, f, index, |SlotOf(d, (f, index))|, JsonSyntax.Decoded(v.lit));
      LitSize(v.lit);
      QuotedSize(v.lit);
    } else {
      assert a + StrOut(f, index, v) == a;
      if v.Str? {
        QuotedSize(v.lit);
      }
    }
  }

  // ---------------------------------------------------------------- documents

  lemma MemberText(ms: Members)
    requires ms.Member?
    ensures TextBytes(MembersText(ms))
            >= TextBytes(MembersText(ms.before)) + Flag(ms.before.Member?) + TextBytes(LitText(ms.key)) + 3
              + TextBytes(ValueText(ms.value))
  {
    var a, s, l, k := MembersText(ms.before), MemberSeparator(ms.before), ms.lead, Quoted(ms.key);
    TextBytesConcat(a, s);
    TextBytesConcat(a + s, l);
    TextBytesConcat(a + s + l, k);
    TextBytesConcat(a + s + l + k, ms.afterKey);
    TextBytesConcat(a + s + l + k + ms.afterKey, [COLON]);
    TextBytesConcat(a + s + l + k + ms.afterKey + [COLON], ms.afterColon);
    TextBytesConcat(a + s + l + k + ms.afterKey + [COLON] + ms.afterColon, ValueText(ms.value));
    TextBytesConcat(a + s + l + k + ms.afterKey + [COLON] + ms.afterColon + ValueText(ms.value), ms.afterValue);
    QuotedSize(ms.key);
    TextBytesOne(COLON);
    TextBytesOne(COMMA);
  }

  lemma ArrSize(v: Value)
    requires v.Arr?
    ensures TextBytes(ValueText(v)) >= 2 + TextBytes(ElemsText(v.elems))
  {
    TextBytesOne(LBRACKET);
    TextBytesOne(RBRACKET);
    TextBytesConcat([LBRACKET], v.inner);
    TextBytesConcat([LBRACKET] + v.inner, ElemsText(v.elems));
    TextBytesConcat([LBRACKET] + v.inner + ElemsText(v.elems), [RBRACKET]);
  }

  // One member of the root object
  lemma MemberSize(a: seq<Emit>, d: Draft, key: Text, v: Value)
    requires Draw(a) == Some(d) && Shaped(d) && WfValue(v)
    requires Draw(a + MemberOut(key, v)).Some?
    ensures var d' := Draw(a + MemberOut(key, v)).value;
            Shaped(d') && JsonSize(d') <= JsonSize(d) + |key| + 3 + Flag(HasAny(d)) + TextBytes(ValueText(v))
  {
    hide Draw, Shaped, WfValue, JsonSize, HasField, HasAny;
    match FieldNamed(key)
    case None => assert a + MemberOut(key, v) == a;
    case Some(f) =>
      if IsTextField(f) {
        StrSize(a, d, f, None, v);
      } else if v.Arr? {
        WfArr(v);
        ElemsSize(a, d, f, v.elems);
        ArrSize(v);
      } else {
        assert a + MemberOut(key, v) == a;
      }
  }

  lemma WfArr(v: Value)
    requires WfValue(v) && v.Arr?
    ensures WfElems(v.elems)
  {
  }

  lemma NothingDrawn()
    ensures Draw([]) == Some(EMPTY_DRAFT) && Shaped(EMPTY_DRAFT) && JsonSize(EMPTY_DRAFT) == 2 && !HasAny(EMPTY_DRAFT)
  {
  }

  lemma {:induction false} MembersSize(ms: Members)
    requires WfMembers(ms) && Draw(MembersOut(ms)).Some?
    ensures var d := Draw(MembersOut(ms)).value;
            && Shaped(d) && JsonSize(d) <= 2 + TextBytes(MembersText(ms))
            && (ms.NoMembers? ==> !HasAny(d))
  {
    hide Draw, Shaped, JsonSize, HasAny;
    match ms
    case NoMembers => NothingDrawn();
    case Member(before, _, key, _, _, v, _) =>
      DrawPrefix(MembersOut(before), MemberOut(JsonSyntax.Decoded(key), v));
      MembersSize(before);
      MemberSize(MembersOut(before), Draw(MembersOut(before)).value, JsonSyntax.Decoded(key), v);
      MemberText(ms);
      LitSize(key);
  }

  /** The snapshot of a report's draft is never larger than the JSON text of the report. */
  lemma SnapshotFits(d: Doc)
    requires WfDoc(d) && Draw(DocOut(d)).Some?
    ensures JsonSize(Draw(DocOut(d)).value) <= TextBytes(DocText(d))
  {
    hide Draw, JsonSize, WfMembers;
    var inner, ms := d.root.inner, d.root.members;
    MembersSize(ms);
    var body := [LBRACE] + inner + MembersText(ms) + [RBRACE];
    TextBytesOne(LBRACE);
    TextBytesOne(RBRACE);
    TextBytesConcat([LBRACE], inner);
    TextBytesConcat([LBRACE] + inner, MembersText(ms));
    TextBytesConcat([LBRACE] + inner + MembersText(ms), [RBRACE]);
    TextBytesConcat(d.before, body);
    TextBytesConcat(d.before + body, d.after);
  }

  // ---------------------------------------------------------------- draft bytes

  lemma {:induction false} ContentCovers(t: Text)
    ensures TextBytes(t) <= ContentJson(t)
  {
    if t != [] {
      ContentCovers(t[..|t| - 1]);
    }
  }

  lemma {:induction false} LinesCover(lines: seq<Text>)
    ensures LinesBytes(lines) <= LinesJson(lines)
  {
    if lines != [] {
      LinesCover(lines[..|lines| - 1]);
      ContentCovers(lines[|lines| - 1]);
    }
  }

  lemma FieldCovers(d: Draft, f: Field)
    requires TypedDraft(d)
    ensures FieldBytes(d, f) <= FieldJson(d, f)
  {
    ContentCovers(TextOf(d, f));
    LinesCover(LinesOf(d, f));
  }

  lemma {:induction false} SumCovers(d: Draft, k: nat)
    requires TypedDraft(d) && k <= 6
    ensures BytesUpTo(d, k) <= JsonUpTo(d, k)
  {
    if k > 0 {
      SumCovers(d, k - 1);
      FieldCovers(d, FieldAt(k - 1));
    }
  }

  lemma JsonCovers(d: Draft)
    requires TypedDraft(d)
    ensures DraftBytes(d) <= JsonSize(d)
  {
    SumCovers(d, 6);
  }
}
