/**
 * The server's bookkeeping of a report draft: insertion-ordered parts, running lengths and two
 * running byte counts, against the draft that the parts stand for.
 */
module DraftLedger {
  import opened Wrappers
  import opened JsonText
  import opened JsonSyntax
  import opened ExecutionEvents
  import opened Replica

  // ---------------------------------------------------------------- parts

  // An entry of the insertion-ordered dictionary of writers
  datatype Part = Part(slot: Slot, text: Text)

  function AddPart(d: Draft, p: Part): Option<Draft> {
    var (f, index) := p.slot;
    match index
    case None => Some(d.(texts := d.texts[f := p.text]))
    case Some(i) =>
      if |LinesOf(d, f)| != i then None else Some(d.(lists := d.lists[f := LinesOf(d, f) + [p.text]]))
  }

  /** The draft that the parts stand for; `None` is the source's "list not contiguous" raise. */
  function Collect(parts: seq<Part>): Option<Draft> {
    if parts == [] then Some(EMPTY_DRAFT)
    else
      match Collect(parts[..|parts| - 1])
      case None => None
      case Some(d) => AddPart(d, parts[|parts| - 1])
  }

  ghost predicate Distinct(parts: seq<Part>) {
    forall i, j :: 0 <= i < j < |parts| ==> parts[i].slot != parts[j].slot
  }

  function SlotOf(d: Draft, slot: Slot): Text {
    match slot.1
    case None => TextOf(d, slot.0)
    case Some(i) => LineAt(LinesOf(d, slot.0), i)
  }

  predicate Present(d: Draft, slot: Slot) {
    match slot.1
    case None => slot.0 in d.texts
    case Some(i) => i < |LinesOf(d, slot.0)|
  }

  function SetSlot(d: Draft, slot: Slot, t: Text): Draft
    requires Present(d, slot)
  {
    match slot.1
    case None => d.(texts := d.texts[slot.0 := t])
    case Some(i) => d.(lists := d.lists[slot.0 := LinesOf(d, slot.0)[i := t]])
  }

  ghost predicate HasPart(parts: seq<Part>, slot: Slot, k: int) {
    0 <= k < |parts| && parts[k].slot == slot
  }

  lemma AddPresent(d: Draft, p: Part, slot: Slot)
    requires AddPart(d, p).Some?
    ensures Present(AddPart(d, p).value, slot) <==> (p.slot == slot || Present(d, slot))
    ensures p.slot != slot && Present(d, slot) ==> SlotOf(AddPart(d, p).value, slot) == SlotOf(d, slot)
    ensures p.slot == slot ==> SlotOf(AddPart(d, p).value, slot) == p.text
  {
  }

  // Each part is one slot of the draft, and the draft has no others.
  lemma {:induction false} CollectSlots(parts: seq<Part>, slot: Slot)
    requires Collect(parts).Some? && Distinct(parts)
    ensures Present(Collect(parts).value, slot) <==> exists k :: HasPart(parts, slot, k)
    ensures forall k :: HasPart(parts, slot, k) ==> SlotOf(Collect(parts).value, slot) == parts[k].text
  {
    if parts != [] {
      var n := |parts| - 1;
      var init, p := parts[..n], parts[n];
      CollectSlots(init, slot);
      AddPresent(Collect(init).value, p, slot);
      if p.slot == slot {
        assert HasPart(parts, slot, n);
      } else if Present(Collect(init).value, slot) {
        var k :| HasPart(init, slot, k);
        assert HasPart(parts, slot, k);
      }
      forall k | HasPart(parts, slot, k)
        ensures SlotOf(Collect(parts).value, slot) == parts[k].text
        ensures k < n ==> HasPart(init, slot, k)
      {
        if k < n {
          assert HasPart(init, slot, k);
        }
      }
    }
  }

  lemma SetTwice<K, V>(m: map<K, V>, k: K, v: V, v': V)
    ensures m[k := v][k := v'] == m[k := v']
  {
  }

  lemma SetThenAdd(d: Draft, slot: Slot, t: Text, p: Part)
    requires Present(d, slot) && p.slot != slot && AddPart(d, p).Some?
    ensures Present(AddPart(d, p).value, slot)
    ensures AddPart(SetSlot(d, slot, t), p) == Some(SetSlot(AddPart(d, p).value, slot, t))
  {
    var d' := AddPart(d, p).value;
    if p.slot.0 == slot.0 {
      match slot.1 {
        case None =>
        case Some(i) =>
          if p.slot.1.Some? {
            var lines, f := LinesOf(d, slot.0), slot.0;
            assert lines[i := t] + [p.text] == (lines + [p.text])[i := t];
            SetTwice(d.lists, f, lines[i := t], lines[i := t] + [p.text]);
            SetTwice(d.lists, f, lines + [p.text], lines[i := t] + [p.text]);
          }
      }
    } else {
      match slot.1 {
        case None =>
          assert d.texts[slot.0 := t][p.slot.0 := p.text] == d.texts[p.slot.0 := p.text][slot.0 := t];
        case Some(i) =>
          var lines := LinesOf(d, slot.0)[i := t];
          var more := LinesOf(d, p.slot.0) + [p.text];
          assert d.lists[slot.0 := lines][p.slot.0 := more] == d.lists[p.slot.0 := more][slot.0 := lines];
      }
    }
  }

  /** Appending to a writer changes that slot of the draft and nothing else. */
  lemma {:induction false} CollectUpdate(parts: seq<Part>, k: nat, t: Text)
    requires Collect(parts).Some? && Distinct(parts) && k < |parts|
    ensures Present(Collect(parts).value, parts[k].slot)
    ensures Collect(parts[k := parts[k].(text := t)]) == Some(SetSlot(Collect(parts).value, parts[k].slot, t))
  {
    var n := |parts| - 1;
    var init, p := parts[..n], parts[n];
    var parts' := parts[k := parts[k].(text := t)];
    if k == n {
      assert parts'[..n] == init;
      var d := Collect(init).value;
      match p.slot.1 {
        case None => SetTwice(d.texts, p.slot.0, p.text, t);
        case Some(i) =>
          var lines := LinesOf(d, p.slot.0);
          assert (lines + [p.text])[i := t] == lines + [t];
          SetTwice(d.lists, p.slot.0, lines + [p.text], lines + [t]);
      }
    } else {
      CollectUpdate(init, k, t);
      assert parts'[..n] == init[k := init[k].(text := t)];
      SetThenAdd(Collect(init).value, parts[k].slot, t, p);
    }
  }

  // ---------------------------------------------------------------- byte counts

  lemma {:induction false} TextBytesConcat(a: Text, b: Text)
    ensures TextBytes(a + b) == TextBytes(a) + TextBytes(b)
  {
    if b == [] {
      assert a + b == a;
    } else {
      TextBytesConcat(a, b[..|b| - 1]);
      assert (a + b)[..|a + b| - 1] == a + b[..|b| - 1];
    }
  }

  // The bytes of a JSON string's content under `json.dumps(..., ensure_ascii=False)`
  function CharJson(c: CodePoint): nat {
    if c == QUOTE || c == BACKSLASH || c == 0x08 || c == 0x09 || c == 0x0A || c == 0x0C || c == 0x0D then 2
    else if c < 0x20 then 6
    else Utf8Size(c)
  }

  function ContentJson(t: Text): nat {
    if t == [] then 0 else ContentJson(t[..|t| - 1]) + CharJson(t[|t| - 1])
  }

  lemma {:induction false} ContentJsonConcat(a: Text, b: Text)
    ensures ContentJson(a + b) == ContentJson(a) + ContentJson(b)
  {
    if b == [] {
      assert a + b == a;
    } else {
      ContentJsonConcat(a, b[..|b| - 1]);
      assert (a + b)[..|a + b| - 1] == a + b[..|b| - 1];
    }
  }

  function LinesJson(lines: seq<Text>): nat {
    if lines == [] then 0
    else LinesJson(lines[..|lines| - 1]) + (if |lines| > 1 then 1 else 0) + 2 + ContentJson(lines[|lines| - 1])
  }

  predicate HasField(d: Draft, f: Field) {
    f in d.texts || f in d.lists
  }

  // `"name":value` of one field, without its comma
  function FieldJson(d: Draft, f: Field): nat {
    if !HasField(d, f) then 0
    else |FieldName(f)| + 2 + 1 + 2
         + if f in d.texts then ContentJson(d.texts[f]) else LinesJson(LinesOf(d, f))
  }

  function Flag(b: bool): nat {
    if b then 1 else 0
  }

  function CountUpTo(d: Draft, k: nat): nat
    requires k <= 6
  {
    if k == 0 then 0 else CountUpTo(d, k - 1) + Flag(HasField(d, FieldAt(k - 1)))
  }

  function FieldCount(d: Draft): nat {
    CountUpTo(d, 6)
  }

  function JsonUpTo(d: Draft, k: nat): nat
    requires k <= 6
  {
    if k == 0 then 0 else JsonUpTo(d, k - 1) + FieldJson(d, FieldAt(k - 1))
  }

  /** The size of the draft as compact JSON, computed from scratch. */
  function JsonSize(d: Draft): nat {
    2 + JsonUpTo(d, 6) + if FieldCount(d) == 0 then 0 else FieldCount(d) - 1
  }

  /** The increment that the source adds for one delta. */
  function SnapshotIncrement(f: Field, index: Option<nat>, fieldExists: bool, anyField: bool,
                             listLength: nat, text: Text): nat
  {
    var content := ContentJson(text);
    if fieldExists then
      if index == Some(listLength) then content + Flag(listLength > 0) + 2 else content
    else content + |FieldName(f)| + 2 + 1 + (if index.None? then 2 else 4) + Flag(anyField)
  }

  lemma {:induction false} LinesGrow(lines: seq<Text>, i: nat, text: Text)
    requires i < |lines|
    ensures LinesBytes(lines[i := lines[i] + text]) == LinesBytes(lines) + TextBytes(text)
    ensures LinesJson(lines[i := lines[i] + text]) == LinesJson(lines) + ContentJson(text)
  {
    var n := |lines| - 1;
    var lines' := lines[i := lines[i] + text];
    if i == n {
      assert lines'[..n] == lines[..n];
      TextBytesConcat(lines[i], text);
      ContentJsonConcat(lines[i], text);
    } else {
      LinesGrow(lines[..n], i, text);
      assert lines'[..n] == lines[..n][i := lines[..n][i] + text];
    }
  }

  lemma LinesAppend(lines: seq<Text>, text: Text)
    ensures LinesBytes(lines + [text]) == LinesBytes(lines) + TextBytes(text)
    ensures LinesJson(lines + [text]) == LinesJson(lines) + Flag(lines != []) + 2 + ContentJson(text)
  {
    assert (lines + [text])[..|lines|] == lines;
  }

  ghost predicate NoEmptyLists(d: Draft) {
    forall f :: f in d.lists ==> d.lists[f] != []
  }

  // The other fields do not notice a delta.
  lemma GrowOther(d: Draft, f: Field, index: Option<nat>, offset: nat, text: Text, g: Field)
    requires Grow(d, f, index, offset, text).Some? && g != f
    ensures var d' := Grow(d, f, index, offset, text).value;
            && TextOf(d', g) == TextOf(d, g) && LinesOf(d', g) == LinesOf(d, g)
            && (g in d'.texts <==> g in d.texts) && (g in d'.lists <==> g in d.lists)
  {
  }

  lemma SameField(d: Draft, d': Draft, g: Field)
    requires TextOf(d', g) == TextOf(d, g) && LinesOf(d', g) == LinesOf(d, g)
    requires (g in d'.texts <==> g in d.texts) && (g in d'.lists <==> g in d.lists)
    ensures FieldBytes(d', g) == FieldBytes(d, g) && FieldJson(d', g) == FieldJson(d, g)
            && HasField(d', g) == HasField(d, g)
  {
  }

  lemma GrowTextField(d: Draft, f: Field, offset: nat, text: Text)
    requires Grow(d, f, None, offset, text).Some? && IsTextField(f) && TypedDraft(d)
    ensures var d' := Grow(d, f, None, offset, text).value;
            && FieldBytes(d', f) == FieldBytes(d, f) + TextBytes(text)
            && FieldJson(d', f) == FieldJson(d, f) + ContentJson(text)
               + if HasField(d, f) then 0 else |FieldName(f)| + 5
  {
    TextBytesConcat(TextOf(d, f), text);
    ContentJsonConcat(TextOf(d, f), text);
  }

  // Replacing the lines of a list field
  lemma SetLines(d: Draft, f: Field, lines: seq<Text>)
    requires !IsTextField(f) && TypedDraft(d)
    ensures var d' := d.(lists := d.lists[f := lines]);
            && FieldBytes(d', f) == LinesBytes(lines)
            && FieldJson(d', f) == |FieldName(f)| + 5 + LinesJson(lines)
    ensures FieldBytes(d, f) == LinesBytes(LinesOf(d, f))
    ensures FieldJson(d, f) == if f in d.lists then |FieldName(f)| + 5 + LinesJson(LinesOf(d, f)) else 0
    ensures HasField(d, f) <==> f in d.lists
  {
  }

  lemma GrowListField(d: Draft, f: Field, i: nat, offset: nat, text: Text)
    requires Grow(d, f, Some(i), offset, text).Some? && !IsTextField(f) && TypedDraft(d) && NoEmptyLists(d)
    ensures var d' := Grow(d, f, Some(i), offset, text).value;
            && FieldBytes(d', f) == FieldBytes(d, f) + TextBytes(text)
            && FieldJson(d', f) == FieldJson(d, f) + ContentJson(text)
               + (if HasField(d, f) then 0 else |FieldName(f)| + 5)
               + (if i == |LinesOf(d, f)| then Flag(i > 0) + 2 else 0)
  {
    var lines := LinesOf(d, f);
    var lines' := SetLine(lines, i, LineAt(lines, i) + text);
    SetLines(d, f, lines');
    LinesSet(lines, i, text);
  }

  lemma LinesSet(lines: seq<Text>, i: nat, text: Text)
    requires i <= |lines|
    ensures var lines' := SetLine(lines, i, LineAt(lines, i) + text);
            && LinesBytes(lines') == LinesBytes(lines) + TextBytes(text)
            && LinesJson(lines') == LinesJson(lines) + ContentJson(text)
               + (if i == |lines| then Flag(i > 0) + 2 else 0)
  {
    if i < |lines| {
      LinesGrow(lines, i, text);
    } else {
      LinesAppend(lines, text);
      assert [] + text == text;
    }
  }

  lemma GrowShape(d: Draft, f: Field, index: Option<nat>, offset: nat, text: Text)
    requires Grow(d, f, index, offset, text).Some? && TypedDraft(d) && NoEmptyLists(d)
    ensures var d' := Grow(d, f, index, offset, text).value;
            TypedDraft(d') && NoEmptyLists(d') && HasField(d', f)
  {
  }

  predicate HasAny(d: Draft) {
    FieldCount(d) > 0
  }

  // A sum over the fields changes by what its one changed field does.
  lemma {:induction false} SumBytes(d: Draft, d': Draft, f: Field, k: nat)
    requires k <= 6 && forall g :: g != f ==> FieldBytes(d', g) == FieldBytes(d, g)
    ensures BytesUpTo(d', k) + (if FieldIndex(f) < k then FieldBytes(d, f) else 0)
            == BytesUpTo(d, k) + (if FieldIndex(f) < k then FieldBytes(d', f) else 0)
  {
    hide FieldBytes;
    if k > 0 {
      SumBytes(d, d', f, k - 1);
    }
  }

  lemma {:induction false} SumCount(d: Draft, d': Draft, f: Field, k: nat)
    requires k <= 6 && HasField(d', f) && forall g :: g != f ==> HasField(d', g) == HasField(d, g)
    ensures CountUpTo(d', k) == CountUpTo(d, k) + (if FieldIndex(f) < k then Flag(!HasField(d, f)) else 0)
  {
    if k > 0 {
      SumCount(d, d', f, k - 1);
    }
  }

  lemma {:induction false} SumJson(d: Draft, d': Draft, f: Field, k: nat)
    requires k <= 6 && forall g :: g != f ==> FieldJson(d', g) == FieldJson(d, g)
    ensures JsonUpTo(d', k) + (if FieldIndex(f) < k then FieldJson(d, f) else 0)
            == JsonUpTo(d, k) + (if FieldIndex(f) < k then FieldJson(d', f) else 0)
  {
    hide FieldJson;
    if k > 0 {
      SumJson(d, d', f, k - 1);
    }
  }

  lemma {:induction false} CountPositive(d: Draft, k: nat)
    requires k <= 6
    ensures CountUpTo(d, k) > 0 <==> exists i :: 0 <= i < k && HasField(d, FieldAt(i))
  {
    if k > 0 {
      CountPositive(d, k - 1);
      if HasField(d, FieldAt(k - 1)) {
        assert 0 <= k - 1 < k;
      }
    }
  }

  lemma HasCounts(d: Draft, f: Field)
    requires HasField(d, f)
    ensures FieldCount(d) > 0
  {
    CountPositive(d, 6);
    assert HasField(d, FieldAt(FieldIndex(f)));
  }

  lemma GrowOthers(d: Draft, f: Field, index: Option<nat>, offset: nat, text: Text)
    requires Grow(d, f, index, offset, text).Some?
    ensures var d' := Grow(d, f, index, offset, text).value;
            && (forall g :: g != f ==> FieldBytes(d', g) == FieldBytes(d, g))
            && (forall g :: g != f ==> FieldJson(d', g) == FieldJson(d, g))
            && (forall g :: g != f ==> HasField(d', g) == HasField(d, g))
  {
    var d' := Grow(d, f, index, offset, text).value;
    forall g | g != f
      ensures FieldBytes(d', g) == FieldBytes(d, g) && FieldJson(d', g) == FieldJson(d, g)
              && HasField(d', g) == HasField(d, g)
    {
      GrowOther(d, f, index, offset, text, g);
      SameField(d, d', g);
    }
  }

  // The new size of one field in the JSON text
  lemma GrowFieldJson(d: Draft, f: Field, index: Option<nat>, offset: nat, text: Text)
    requires Grow(d, f, index, offset, text).Some? && TypedDraft(d) && NoEmptyLists(d)
    requires IsTextField(f) <==> index.None?
    ensures var d' := Grow(d, f, index, offset, text).value;
            var increment := SnapshotIncrement(f, index, HasField(d, f), HasAny(d), |LinesOf(d, f)|, text);
            && FieldBytes(d', f) == FieldBytes(d, f) + TextBytes(text)
            && FieldJson(d', f) + (if HasField(d, f) then 0 else Flag(HasAny(d))) == FieldJson(d, f) + increment
  {
    if index.None? {
      GrowTextField(d, f, offset, text);
    } else {
      GrowListField(d, f, index.value, offset, text);
    }
  }

  /** Both running counts agree with a count from scratch after every delta. */
  lemma GrowCounts(d: Draft, f: Field, index: Option<nat>, offset: nat, text: Text)
    requires Grow(d, f, index, offset, text).Some? && TypedDraft(d) && NoEmptyLists(d)
    requires IsTextField(f) <==> index.None?
    ensures var d' := Grow(d, f, index, offset, text).value;
            && DraftBytes(d') == DraftBytes(d) + TextBytes(text)
            && JsonSize(d') == JsonSize(d)
               + SnapshotIncrement(f, index, HasField(d, f), HasAny(d), |LinesOf(d, f)|, text)
  {
    var d' := Grow(d, f, index, offset, text).value;
    GrowShape(d, f, index, offset, text);
    GrowOthers(d, f, index, offset, text);
    GrowFieldJson(d, f, index, offset, text);
    SumBytes(d, d', f, 6);
    SumCount(d, d', f, 6);
    SumJson(d, d', f, 6);
    if HasField(d, f) {
      HasCounts(d, f);
    }
  }

  // ---------------------------------------------------------------- splitting a delta

  /** Splitting a delta in two, the second part at the advanced offset, grows the same draft. */
  lemma GrowSplit(d: Draft, f: Field, index: Option<nat>, offset: nat, a: Text, b: Text)
    requires Grow(d, f, index, offset, a + b).Some?
    ensures Grow(d, f, index, offset, a).Some?
    ensures Grow(Grow(d, f, index, offset, a).value, f, index, offset + |a|, b) == Grow(d, f, index, offset, a + b)
  {
    var d1 := Grow(d, f, index, offset, a).value;
    if IsTextField(f) {
      var t := TextOf(d, f);
      assert t + a + b == t + (a + b);
      assert d.texts[f := t + a][f := t + (a + b)] == d.texts[f := t + (a + b)];
    } else {
      var lines, i := LinesOf(d, f), index.value;
      var line := LineAt(lines, i);
      assert line + a + b == line + (a + b);
      assert SetLine(SetLine(lines, i, line + a), i, line + (a + b)) == SetLine(lines, i, line + (a + b));
      assert d.lists[f := SetLine(lines, i, line + a)][f := SetLine(lines, i, line + (a + b))]
          == d.lists[f := SetLine(lines, i, line + (a + b))];
    }
  }

  // ---------------------------------------------------------------- the ledger

  function LengthAt(lengths: map<Slot, nat>, slot: Slot): nat {
    if slot in lengths then lengths[slot] else 0
  }

  function ListLength(lengths: map<Field, nat>, f: Field): nat {
    if f in lengths then lengths[f] else 0
  }

  function FindPart(parts: seq<Part>, slot: Slot): (r: Option<nat>)
    ensures r.Some? ==> r.value < |parts| && parts[r.value].slot == slot
    ensures r.None? ==> forall i :: 0 <= i < |parts| ==> parts[i].slot != slot
  {
    if parts == [] then None
    else if parts[|parts| - 1].slot == slot then Some(|parts| - 1)
    else FindPart(parts[..|parts| - 1], slot)
  }

  // Writes to the slot's writer, which is created at the end when there is none.
  function WritePart(parts: seq<Part>, slot: Slot, text: Text): seq<Part> {
    match FindPart(parts, slot)
    case None => parts + [Part(slot, text)]
    case Some(k) => parts[k := Part(slot, parts[k].text + text)]
  }

  lemma WriteCollect(parts: seq<Part>, d: Draft, f: Field, index: Option<nat>, text: Text)
    requires Collect(parts) == Some(d) && Distinct(parts)
    requires IsTextField(f) <==> index.None?
    requires index.Some? ==> index.value <= |LinesOf(d, f)|
    ensures Distinct(WritePart(parts, (f, index), text))
    ensures Collect(WritePart(parts, (f, index), text)) == Grow(d, f, index, |SlotOf(d, (f, index))|, text)
  {
    var slot := (f, index);
    CollectSlots(parts, slot);
    match FindPart(parts, slot) {
      case Some(k) =>
        assert HasPart(parts, slot, k);
        CollectUpdate(parts, k, parts[k].text + text);
      case None =>
        var parts' := parts + [Part(slot, text)];
        assert parts'[..|parts|] == parts;
        assert [] + text == text;
    }
  }

  // The running values of the source, against the draft they describe
  datatype Ledger = Ledger(parts: seq<Part>, lengths: map<Slot, nat>, listLengths: map<Field, nat>,
                           fields: set<Field>, bytes: nat, jsonBytes: nat)

  const EMPTY_LEDGER := Ledger([], map[], map[], {}, 0, 2)

  ghost predicate Lengths(l: Ledger, d: Draft) {
    && (forall slot {:trigger LengthAt(l.lengths, slot)} :: LengthAt(l.lengths, slot) == |SlotOf(d, slot)|)
    && (forall f {:trigger ListLength(l.listLengths, f)} :: ListLength(l.listLengths, f) == |LinesOf(d, f)|)
    && (forall f {:trigger f in l.fields} :: f in l.fields <==> HasField(d, f))
  }

  ghost predicate Balanced(l: Ledger, d: Draft) {
    && Distinct(l.parts) && Collect(l.parts) == Some(d)
    && Lengths(l, d)
    && l.bytes == DraftBytes(d) && l.jsonBytes == JsonSize(d)
    && TypedDraft(d) && ScalarDraft(d) && NoEmptyLists(d)
    && l.bytes <= MAX_DRAFT_BYTES && l.jsonBytes <= MAX_DRAFT_BYTES
  }

  function Record(l: Ledger, f: Field, index: Option<nat>, text: Text): Ledger {
    var slot := (f, index);
    var increment := SnapshotIncrement(f, index, f in l.fields, l.fields != {}, ListLength(l.listLengths, f), text);
    Ledger(WritePart(l.parts, slot, text),
           l.lengths[slot := LengthAt(l.lengths, slot) + |text|],
           if index.Some? && index.value == ListLength(l.listLengths, f)
           then l.listLengths[f := index.value + 1] else l.listLengths,
           l.fields + {f},
           l.bytes + TextBytes(text),
           l.jsonBytes + increment)
  }

  lemma AnyField(l: Ledger, d: Draft)
    requires Lengths(l, d)
    ensures l.fields != {} <==> HasAny(d)
  {
    if f :| f in l.fields {
      HasCounts(d, f);
    }
    if HasAny(d) {
      CountPositive(d, 6);
      var i :| 0 <= i < 6 && HasField(d, FieldAt(i));
      assert FieldAt(i) in l.fields;
    }
  }

  ghost predicate Records(l: Ledger, d: Draft, f: Field, index: Option<nat>, text: Text, d': Draft) {
    && Lengths(l, d) && (IsTextField(f) <==> index.None?)
    && Grow(d, f, index, LengthAt(l.lengths, (f, index)), text) == Some(d')
  }

  lemma GrowSlots(d: Draft, f: Field, index: Option<nat>, offset: nat, text: Text, s: Slot)
    requires Grow(d, f, index, offset, text).Some? && (IsTextField(f) <==> index.None?)
    ensures var d' := Grow(d, f, index, offset, text).value;
            SlotOf(d', s) == if s == (f, index) then SlotOf(d, s) + text else SlotOf(d, s)
  {
    if s.0 == f && index.Some? && s.1.Some? {
      var lines := LinesOf(d, f);
      assert s.1.value != index.value ==>
          LineAt(SetLine(lines, index.value, LineAt(lines, index.value) + text), s.1.value) == LineAt(lines, s.1.value);
    }
  }

  lemma RecordSlots(l: Ledger, d: Draft, f: Field, index: Option<nat>, text: Text, d': Draft, s: Slot)
    requires Records(l, d, f, index, text, d')
    ensures LengthAt(Record(l, f, index, text).lengths, s) == |SlotOf(d', s)|
  {
    var slot := (f, index);
    assert LengthAt(l.lengths, s) == |SlotOf(d, s)|;
    GrowSlots(d, f, index, LengthAt(l.lengths, slot), text, s);
    assert Record(l, f, index, text).lengths == l.lengths[slot := LengthAt(l.lengths, slot) + |text|];
  }

  lemma RecordLists(l: Ledger, d: Draft, f: Field, index: Option<nat>, text: Text, d': Draft, g: Field)
    requires Records(l, d, f, index, text, d')
    ensures ListLength(Record(l, f, index, text).listLengths, g) == |LinesOf(d', g)|
  {
    assert ListLength(l.listLengths, g) == |LinesOf(d, g)|;
    assert ListLength(l.listLengths, f) == |LinesOf(d, f)|;
  }

  lemma RecordFields(l: Ledger, d: Draft, f: Field, index: Option<nat>, text: Text, d': Draft, g: Field)
    requires Records(l, d, f, index, text, d')
    ensures g in Record(l, f, index, text).fields <==> HasField(d', g)
  {
    assert g in l.fields <==> HasField(d, g);
  }

  lemma RecordLengths(l: Ledger, d: Draft, f: Field, index: Option<nat>, text: Text, d': Draft)
    requires Records(l, d, f, index, text, d')
    ensures Lengths(Record(l, f, index, text), d')
  {
    var l' := Record(l, f, index, text);
    forall s
      ensures LengthAt(l'.lengths, s) == |SlotOf(d', s)|
    {
      RecordSlots(l, d, f, index, text, d', s);
    }
    forall g
      ensures ListLength(l'.listLengths, g) == |LinesOf(d', g)| && (g in l'.fields <==> HasField(d', g))
    {
      RecordLists(l, d, f, index, text, d', g);
      RecordFields(l, d, f, index, text, d', g);
    }
  }

  lemma GrowScalar(d: Draft, f: Field, index: Option<nat>, offset: nat, text: Text)
    requires Grow(d, f, index, offset, text).Some? && ScalarDraft(d) && ScalarText(text)
    ensures ScalarDraft(Grow(d, f, index, offset, text).value)
  {
  }

  lemma RecordCounts(l: Ledger, d: Draft, f: Field, index: Option<nat>, text: Text, d': Draft)
    requires Records(l, d, f, index, text, d') && TypedDraft(d) && NoEmptyLists(d)
    requires l.bytes == DraftBytes(d) && l.jsonBytes == JsonSize(d)
    ensures Record(l, f, index, text).bytes == DraftBytes(d')
    ensures Record(l, f, index, text).jsonBytes == JsonSize(d')
  {
    IncrementArguments(l, d, f, index, text);
    GrowCounts(d, f, index, LengthAt(l.lengths, (f, index)), text);
  }

  lemma IncrementArguments(l: Ledger, d: Draft, f: Field, index: Option<nat>, text: Text)
    requires Lengths(l, d)
    ensures SnapshotIncrement(f, index, f in l.fields, l.fields != {}, ListLength(l.listLengths, f), text)
            == SnapshotIncrement(f, index, HasField(d, f), HasAny(d), |LinesOf(d, f)|, text)
  {
    assert ListLength(l.listLengths, f) == |LinesOf(d, f)|;
    assert f in l.fields <==> HasField(d, f);
    AnyField(l, d);
  }

  /** Recording a delta keeps every running value exact. */
  lemma RecordBalanced(l: Ledger, d: Draft, f: Field, index: Option<nat>, text: Text)
    requires Balanced(l, d) && ScalarText(text) && (IsTextField(f) <==> index.None?)
    requires index.Some? ==> index.value <= ListLength(l.listLengths, f)
    requires l.bytes + TextBytes(text) <= MAX_DRAFT_BYTES && Record(l, f, index, text).jsonBytes <= MAX_DRAFT_BYTES
    ensures var g := Grow(d, f, index, LengthAt(l.lengths, (f, index)), text);
            g.Some? && Balanced(Record(l, f, index, text), g.value)
  {
    var slot := (f, index);
    assert LengthAt(l.lengths, slot) == |SlotOf(d, slot)|;
    assert ListLength(l.listLengths, f) == |LinesOf(d, f)|;
    WriteCollect(l.parts, d, f, index, text);
    var g := Grow(d, f, index, LengthAt(l.lengths, slot), text);
    GrowShape(d, f, index, LengthAt(l.lengths, slot), text);
    GrowScalar(d, f, index, LengthAt(l.lengths, slot), text);
    RecordLengths(l, d, f, index, text, g.value);
    RecordCounts(l, d, f, index, text, g.value);
  }
}
