/** From published characters to the draft that the deltas build. */
module ReportDraft {
  import opened Wrappers
  import opened JsonText
  import opened JsonSyntax
  import opened ExecutionEvents
  import opened Replica
  import opened DraftLedger
  import opened DecoderRoles
  import opened DecoderLanguage
  import opened ReportStream

  // A published character at the end of its slot
  function DrawChar(d: Draft, e: Emit): Option<Draft> {
    Grow(d, e.field, e.index, |SlotOf(d, (e.field, e.index))|, [e.c])
  }

  /** The draft of everything published; `None` when a list item is skipped. */
  function Draw(out: seq<Emit>): Option<Draft> {
    if out == [] then Some(EMPTY_DRAFT)
    else
      match Draw(out[..|out| - 1])
      case None => None
      case Some(d) => DrawChar(d, out[|out| - 1])
  }

  /** What `text_delta` and the browser make of a list of deltas. */
  function ApplyDeltas(d: Draft, ds: seq<Delta>): Option<Draft> {
    if ds == [] then Some(d)
    else
      var x := ds[|ds| - 1];
      match ApplyDeltas(d, ds[..|ds| - 1])
      case None => None
      case Some(m) => Grow(m, x.field, x.index, x.offset, x.text)
  }

  lemma DrawSnoc(out: seq<Emit>, e: Emit)
    ensures Draw(out + [e]) == match Draw(out) case None => None case Some(d) => DrawChar(d, e)
    ensures forall slot ::
              SlotText(out + [e], slot) == SlotText(out, slot) + if (e.field, e.index) == slot then [e.c] else []
  {
    assert (out + [e])[..|out|] == out;
  }

  lemma ApplySnoc(d: Draft, ds: seq<Delta>, x: Delta)
    ensures ApplyDeltas(d, ds + [x])
            == match ApplyDeltas(d, ds) case None => None case Some(m) => Grow(m, x.field, x.index, x.offset, x.text)
  {
    assert (ds + [x])[..|ds|] == ds;
  }

  // ---------------------------------------------------------------- slots

  // The draft holds the published texts, and no empty line.
  ghost predicate Shows(d: Draft, out: seq<Emit>) {
    && TypedDraft(d)
    && (forall slot {:trigger SlotOf(d, slot)} :: SlotOf(d, slot) == SlotText(out, slot))
    && (forall f, i {:trigger LineAt(LinesOf(d, f), i)} :: 0 <= i < |LinesOf(d, f)| ==> LineAt(LinesOf(d, f), i) != [])
  }

  lemma GrowSlot(d: Draft, e: Emit, slot: Slot)
    requires DrawChar(d, e).Some? && TypedDraft(d) && (IsTextField(e.field) <==> e.index.None?)
    ensures var d' := DrawChar(d, e).value;
            SlotOf(d', slot) == SlotOf(d, slot) + if (e.field, e.index) == slot then [e.c] else []
  {
  }

  lemma GrowLines(d: Draft, e: Emit, f: Field)
    requires DrawChar(d, e).Some? && TypedDraft(d) && (IsTextField(e.field) <==> e.index.None?)
    ensures var d' := DrawChar(d, e).value;
            && TypedDraft(d')
            && LinesOf(d', f) == if f == e.field && e.index.Some?
                                 then SetLine(LinesOf(d, f), e.index.value,
                                              LineAt(LinesOf(d, f), e.index.value) + [e.c])
                                 else LinesOf(d, f)
  {
  }

  lemma ShowsSnoc(d: Draft, out: seq<Emit>, e: Emit)
    requires Shows(d, out) && DrawChar(d, e).Some? && (IsTextField(e.field) <==> e.index.None?)
    ensures Shows(DrawChar(d, e).value, out + [e])
  {
    hide DrawChar, SlotText;
    var d' := DrawChar(d, e).value;
    DrawSnoc(out, e);
    GrowLines(d, e, e.field);
    forall slot
      ensures SlotOf(d', slot) == SlotText(out + [e], slot)
    {
      GrowSlot(d, e, slot);
      assert SlotOf(d, slot) == SlotText(out, slot);
    }
    forall f, i | 0 <= i < |LinesOf(d', f)|
      ensures LineAt(LinesOf(d', f), i) != []
    {
      GrowLines(d, e, f);
      if i < |LinesOf(d, f)| {
        assert LineAt(LinesOf(d, f), i) != [];
      }
    }
  }

  lemma {:induction false} DrawShows(out: seq<Emit>)
    requires TypedOut(out) && Draw(out).Some?
    ensures Shows(Draw(out).value, out)
  {
    if out != [] {
      var init := out[..|out| - 1];
      DrawShows(init);
      ShowsSnoc(Draw(init).value, init, out[|out| - 1]);
      assert out == init + [out[|out| - 1]];
    }
  }

  // ---------------------------------------------------------------- deltas

  // Growing does not look at the text.
  lemma GrowAny(d: Draft, f: Field, index: Option<nat>, offset: nat, a: Text, b: Text)
    ensures Grow(d, f, index, offset, a).Some? <==> Grow(d, f, index, offset, b).Some?
  {
  }

  lemma ApplyAdd(d0: Draft, ds: seq<Delta>, e: Emit, offset: nat)
    ensures var r := ApplyDeltas(d0, ds);
            ApplyDeltas(d0, AddChar(ds, e, offset))
            == if r.None? then None else Grow(r.value, e.field, e.index, offset, [e.c])
  {
    ApplySnoc(d0, ds, Delta(e.field, e.index, offset, [e.c]));
    if ds != [] {
      var init, x := ds[..|ds| - 1], ds[|ds| - 1];
      assert ds == init + [x];
      if x.field == e.field && x.index == e.index && x.offset + |x.text| == offset {
        ApplySnoc(d0, init, x);
        ApplySnoc(d0, init, x.(text := x.text + [e.c]));
        var m := ApplyDeltas(d0, init);
        if m.Some? {
          GrowAny(m.value, x.field, x.index, x.offset, x.text, x.text + [e.c]);
          if Grow(m.value, x.field, x.index, x.offset, x.text).Some? {
            GrowSplit(m.value, x.field, x.index, x.offset, x.text, [e.c]);
          }
        }
      }
    }
  }

  /**
   * Applying the deltas of a feed to the draft of the earlier feeds is drawing everything
   * published so far: the offsets fit, however the characters were merged into deltas.
   */
  lemma {:induction false} DeltasDraw(out: seq<Emit>, from: nat)
    requires from <= |out| && TypedOut(out) && Draw(out[..from]).Some?
    ensures ApplyDeltas(Draw(out[..from]).value, DeltasOf(out, from)) == Draw(out)
  {
    hide Grow, AddChar, SlotOf, SlotText, Shows;
    if |out| == from {
      assert out[..from] == out;
    } else {
      var before, e := out[..|out| - 1], out[|out| - 1];
      assert before[..from] == out[..from];
      DeltasDraw(before, from);
      var slot := (e.field, e.index);
      ApplyAdd(Draw(out[..from]).value, DeltasOf(before, from), e, |SlotText(before, slot)|);
      if Draw(before).Some? {
        DrawShows(before);
        SlotShown(Draw(before).value, before, slot);
      }
    }
  }

  lemma SlotShown(d: Draft, out: seq<Emit>, slot: Slot)
    requires Shows(d, out)
    ensures SlotOf(d, slot) == SlotText(out, slot)
  {
  }

  // ---------------------------------------------------------------- gaps

  // Items of one list field are published in order.
  ghost predicate InOrder(out: seq<Emit>) {
    forall i, j :: 0 <= i < j < |out| && out[i].field == out[j].field && out[i].index.Some? && out[j].index.Some?
                   ==> out[i].index.value <= out[j].index.value
  }

  // No item with text follows an item without.
  ghost predicate GapFree(out: seq<Emit>) {
    forall f, j: nat, k: nat :: j < k && SlotText(out, (f, Some(k))) != [] ==> SlotText(out, (f, Some(j))) != []
  }

  lemma {:induction false} SlotEarlier(out: seq<Emit>, n: nat, slot: Slot)
    requires n <= |out| && SlotText(out, slot) == []
    ensures SlotText(out[..n], slot) == []
  {
    if n < |out| {
      SlotEarlier(out[..|out| - 1], n, slot);
      assert out[..|out| - 1][..n] == out[..n];
    } else {
      assert out[..n] == out;
    }
  }

  // The number of lines, read off the published texts
  lemma LinesShown(d: Draft, out: seq<Emit>, f: Field, i: nat)
    requires Shows(d, out)
    ensures i < |LinesOf(d, f)| <==> SlotText(out, (f, Some(i))) != []
  {
    assert SlotOf(d, (f, Some(i))) == SlotText(out, (f, Some(i)));
    if i < |LinesOf(d, f)| {
      assert LineAt(LinesOf(d, f), i) != [];
    }
  }

  lemma {:induction false} GapNone(out: seq<Emit>, f: Field, j: nat, k: nat)
    requires TypedOut(out) && j < k && SlotText(out, (f, Some(k))) != [] && SlotText(out, (f, Some(j))) == []
    ensures Draw(out).None?
  {
    hide Grow, Shows;
    var init, e := out[..|out| - 1], out[|out| - 1];
    SlotEarlier(out, |out| - 1, (f, Some(j)));
    if SlotText(init, (f, Some(k))) != [] {
      GapNone(init, f, j, k);
    } else if Draw(init).Some? {
      DrawShows(init);
      LinesShown(Draw(init).value, init, f, j);
      SkippedLine(Draw(init).value, e, j);
    }
  }

  lemma SkippedLine(d: Draft, e: Emit, j: nat)
    requires e.index.Some? && !IsTextField(e.field) && j < e.index.value && |LinesOf(d, e.field)| <= j
    ensures DrawChar(d, e).None?
  {
  }

  lemma NoneSkips(d: Draft, e: Emit)
    requires DrawChar(d, e).None? && (IsTextField(e.field) <==> e.index.None?)
    ensures e.index.Some? && |LinesOf(d, e.field)| < e.index.value
  {
  }

  lemma {:induction false} NoneGap(out: seq<Emit>)
    requires TypedOut(out) && InOrder(out) && Draw(out).None?
    ensures !GapFree(out)
  {
    hide Grow, Shows;
    var init, e := out[..|out| - 1], out[|out| - 1];
    if Draw(init).None? {
      NoneGap(init);
      var f, j: nat, k: nat :| j < k && SlotText(init, (f, Some(k))) != [] && SlotText(init, (f, Some(j))) == [];
      var i := SlotWitness(init, (f, Some(k)));
      assert out[i] == init[i];
      assert (e.field, e.index) != (f, Some(j));
    } else {
      var d := Draw(init).value;
      NoneSkips(d, e);
      DrawShows(init);
      var j := |LinesOf(d, e.field)|;
      LinesShown(d, init, e.field, j);
      assert SlotText(out, (e.field, Some(j))) == [];
      assert SlotText(out, (e.field, e.index)) != [];
    }
  }

  lemma {:induction false} SlotWitness(out: seq<Emit>, slot: Slot) returns (i: nat)
    requires SlotText(out, slot) != []
    ensures i < |out| && (out[i].field, out[i].index) == slot
  {
    var e := out[|out| - 1];
    if (e.field, e.index) == slot {
      i := |out| - 1;
    } else {
      i := SlotWitness(out[..|out| - 1], slot);
    }
  }

  // ---------------------------------------------------------------- documents

  lemma {:induction false} ElemsInOrder(f: Field, es: Elems)
    requires WfElems(es)
    ensures InOrder(ElemsOut(f, es))
  {
    if es.Elem? {
      ElemsInOrder(f, es.before);
      ElemsFields(f, es.before);
      var a: seq<Emit>, b: seq<Emit> := ElemsOut(f, es.before), StrOut(f, Some(Count(es.before)), es.value);
      var out := a + b;
      forall i, j | 0 <= i < j < |out| && out[i].index.Some? && out[j].index.Some?
        ensures out[i].index.value <= out[j].index.value
      {
        if i < |a| {
          assert a[i] in a;
        }
      }
    }
  }

  lemma MemberInOrder(key: Text, v: Value)
    requires WfValue(v)
    ensures InOrder(MemberOut(key, v))
  {
    var f := FieldNamed(key);
    if f.Some? && !IsTextField(f.value) && v.Arr? {
      ElemsInOrder(f.value, v.elems);
    }
  }

  lemma {:induction false} MembersOutShape(ms: Members)
    requires WfMembers(ms)
    ensures TypedOut(MembersOut(ms)) && InOrder(MembersOut(ms))
    ensures forall e :: e in MembersOut(ms) ==> FieldName(e.field) in Keys(ms)
  {
    if ms.Member? {
      MembersOutShape(ms.before);
      MemberFields(Decoded(ms.key), ms.value);
      MemberInOrder(Decoded(ms.key), ms.value);
      var a, b := MembersOut(ms.before), MemberOut(Decoded(ms.key), ms.value);
      forall i, j | 0 <= i < |a| && 0 <= j < |b|
        ensures a[i].field != b[j].field
      {
        assert a[i] in a && b[j] in b;
      }
      ConcatShape(a, b);
    }
  }

  lemma ConcatShape(a: seq<Emit>, b: seq<Emit>)
    requires TypedOut(a) && InOrder(a) && InOrder(b)
    requires forall e :: e in b ==> (IsTextField(e.field) <==> e.index.None?)
    requires forall i, j :: 0 <= i < |a| && 0 <= j < |b| ==> a[i].field != b[j].field
    ensures TypedOut(a + b) && InOrder(a + b)
  {
    forall i | 0 <= i < |a + b|
      ensures IsTextField((a + b)[i].field) <==> (a + b)[i].index.None?
    {
      if i >= |a| {
        assert (a + b)[i] in b;
      }
    }
    forall i, j | 0 <= i < j < |a + b| && (a + b)[i].field == (a + b)[j].field
                  && (a + b)[i].index.Some? && (a + b)[j].index.Some?
      ensures (a + b)[i].index.value <= (a + b)[j].index.value
    {
    }
  }

  // In no list field of the document does a string with text follow an item without.
  ghost predicate SolidLists(d: Doc)
    requires d.root.Obj?
  {
    forall f, j: nat, k: nat :: j < k && RootString(d, (f, Some(k))) != [] ==> RootString(d, (f, Some(j))) != []
  }

  /**
   * The draft of a document exists, so that no delta is refused for its place, exactly when no
   * list item without text comes before one with text.
   */
  lemma DocumentDrawn(d: Doc)
    requires WfDoc(d)
    ensures TypedOut(DocOut(d))
    ensures Draw(DocOut(d)).Some? <==> SolidLists(d)
  {
    hide Draw;
    var out := DocOut(d);
    MembersOutShape(d.root.members);
    forall slot
      ensures SlotText(out, slot) == RootString(d, slot)
    {
      PublishedText(d, slot);
    }
    if Draw(out).None? {
      NoneGap(out);
    } else if !SolidLists(d) {
      var f, j: nat, k: nat :| j < k && RootString(d, (f, Some(k))) != [] && RootString(d, (f, Some(j))) == [];
      GapNone(out, f, j, k);
    }
  }

  /** A document's draft holds exactly the strings of the six root fields. */
  lemma DocumentDraft(d: Doc, slot: Slot)
    requires WfDoc(d) && Draw(DocOut(d)).Some?
    ensures var draft := Draw(DocOut(d)).value;
            && TypedDraft(draft)
            && SlotOf(draft, slot) == RootString(d, slot)
            && (slot.1.Some? ==> (slot.1.value < |LinesOf(draft, slot.0)| <==> RootString(d, slot) != []))
  {
    DocumentDrawn(d);
    DrawShows(DocOut(d));
    PublishedText(d, slot);
    SlotShown(Draw(DocOut(d)).value, DocOut(d), slot);
    if slot.1.Some? {
      LinesShown(Draw(DocOut(d)).value, DocOut(d), slot.0, slot.1.value);
    }
  }
}
