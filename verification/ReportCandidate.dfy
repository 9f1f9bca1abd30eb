/** The report that a finished stream yields, and why it is the draft that was shown. */
module ReportCandidate {
  import opened Wrappers
  import opened JsonText
  import opened JsonSyntax
  import opened ExecutionEvents
  import opened Replica
  import opened DraftLedger
  import opened DecoderLanguage
  import opened ReportDraft

  // ---------------------------------------------------------------- the parsed payload

  // The values of a parsed payload, as far as the report looks at them
  datatype Json = JString(text: Text) | JList(items: seq<Json>) | JOther

  ghost function JsonOf(v: Value): Json
    requires WfValue(v)
  {
    match v
    case Str(lit) => JString(JsonSyntax.Decoded(lit))
    case Arr(_, es) => JList(JsonItems(es))
    case _ => JOther
  }

  ghost function JsonItems(es: Elems): seq<Json>
    requires WfElems(es)
  {
    match es
    case NoElems => []
    case Elem(before, _, v, _) => JsonItems(before) + [JsonOf(v)]
  }

  /** What a JSON parser makes of the members of an object with distinct names. */
  ghost function Parsed(ms: Members): map<Text, Json>
    requires WfMembers(ms)
  {
    match ms
    case NoMembers => map[]
    case Member(before, _, key, _, _, v, _) => Parsed(before)[JsonSyntax.Decoded(key) := JsonOf(v)]
  }

  lemma {:induction false} ParsedLookup(ms: Members, name: Text)
    requires WfMembers(ms)
    ensures name in Parsed(ms) <==> Lookup(ms, name).Some?
    ensures name in Parsed(ms) ==>
              WfValue(Lookup(ms, name).value) && Parsed(ms)[name] == JsonOf(Lookup(ms, name).value)
  {
    if ms.Member? {
      ParsedLookup(ms.before, name);
    }
  }

  lemma {:induction false} ItemsLookup(es: Elems, j: nat)
    requires WfElems(es)
    ensures |JsonItems(es)| == Count(es)
    ensures j < Count(es) <==> Item(es, j).Some?
    ensures j < Count(es) ==> WfValue(Item(es, j).value) && JsonItems(es)[j] == JsonOf(Item(es, j).value)
  {
    if es.Elem? {
      ItemsLookup(es.before, j);
    }
  }

  // ---------------------------------------------------------------- the candidate

  // The characters that `str.strip` removes
  predicate IsSpace(c: CodePoint) {
    || 0x09 <= c <= 0x0D || 0x1C <= c <= 0x20 || c == 0x85 || c == 0xA0 || c == 0x1680
    || 0x2000 <= c <= 0x200A || c == 0x2028 || c == 0x2029 || c == 0x202F || c == 0x205F || c == 0x3000
  }

  function Strip(t: Text): Text {
    if t == [] then []
    else if IsSpace(t[0]) then Strip(t[1..])
    else if IsSpace(t[|t| - 1]) then Strip(t[..|t| - 1])
    else t
  }

  function StripAll(ts: seq<Text>): seq<Text> {
    seq(|ts|, i requires 0 <= i < |ts| => Strip(ts[i]))
  }

  const EVIDENCE := Ascii("evidence_task_ids")
  const INCOMPLETE := Ascii("incomplete_tasks")

  const TEXT_NAMES: seq<Text> := [FieldName(Title), FieldName(ExecutiveSummary), FieldName(TrendJudgment)]
  const LIST_NAMES: seq<Text> :=
    [FieldName(KeyFindings), FieldName(RootCauses), FieldName(ActionSuggestions), EVIDENCE, INCOMPLETE]

  const REPORT_NAMES: set<Text> := (set n | n in TEXT_NAMES) + (set n | n in LIST_NAMES)

  datatype Candidate = Candidate(texts: map<Text, Text>, lists: map<Text, seq<Text>>)

  datatype CandidateResult =
    | Passed(report: Candidate)
    | FieldsInvalid
    | TextInvalid(name: Text)
    | ListInvalid(name: Text)
    | ListDuplicate(name: Text)

  predicate TextFits(j: Json) {
    j.JString? && Strip(j.text) != []
  }

  predicate ItemsFit(j: Json) {
    j.JList? && forall i :: 0 <= i < |j.items| ==> TextFits(j.items[i])
  }

  // The stripped items of a list of strings
  function ItemTexts(items: seq<Json>): (r: seq<Text>)
    requires forall i :: 0 <= i < |items| ==> items[i].JString?
    ensures |r| == |items|
  {
    seq(|items|, i requires 0 <= i < |items| => Strip(items[i].text))
  }

  predicate NoDuplicates(ts: seq<Text>) {
    forall i, j :: 0 <= i < j < |ts| ==> ts[i] != ts[j]
  }

  predicate ListFits(j: Json) {
    ItemsFit(j) && NoDuplicates(ItemTexts(j.items))
  }

  predicate Reportable(payload: map<Text, Json>) {
    && payload.Keys == REPORT_NAMES
    && (forall n :: n in TEXT_NAMES ==> TextFits(payload[n]))
    && (forall n :: n in LIST_NAMES ==> ListFits(payload[n]))
  }

  predicate AllTextsFit(payload: map<Text, Json>, names: seq<Text>) {
    forall n :: n in names ==> n in payload && TextFits(payload[n])
  }

  predicate AllListsFit(payload: map<Text, Json>, names: seq<Text>) {
    forall n :: n in names ==> n in payload && ListFits(payload[n])
  }

  // The first of the names whose value is not a text
  ghost predicate FirstBadText(payload: map<Text, Json>, names: seq<Text>, name: Text) {
    exists i :: 0 <= i < |names| && names[i] == name && AllTextsFit(payload, names[..i])
                && name in payload && !TextFits(payload[name])
  }

  // The first of the names whose value is not a list of distinct texts, and what is wrong with it
  ghost predicate FirstBadList(payload: map<Text, Json>, names: seq<Text>, r: CandidateResult) {
    (r.ListInvalid? || r.ListDuplicate?)
    && exists i :: 0 <= i < |names| && names[i] == r.name && AllListsFit(payload, names[..i])
                   && r.name in payload && !ListFits(payload[r.name])
                   && (r.ListInvalid? <==> !ItemsFit(payload[r.name]))
  }

  /** The candidate report of a payload: accepted exactly when every field fits, else the first fault. */
  method ReportCandidate(payload: map<Text, Json>) returns (r: CandidateResult)
    ensures r.Passed? <==> Reportable(payload)
    ensures r.Passed? ==>
              && r.report.texts.Keys == (set n | n in TEXT_NAMES) && r.report.lists.Keys == (set n | n in LIST_NAMES)
              && (forall n :: n in TEXT_NAMES ==> r.report.texts[n] == Strip(payload[n].text))
              && (forall n :: n in LIST_NAMES ==> r.report.lists[n] == ItemTexts(payload[n].items))
    ensures r.FieldsInvalid? <==> payload.Keys != REPORT_NAMES
    ensures r.TextInvalid? ==> FirstBadText(payload, TEXT_NAMES, r.name)
    ensures r.ListInvalid? || r.ListDuplicate? ==>
              AllTextsFit(payload, TEXT_NAMES) && FirstBadList(payload, LIST_NAMES, r)
  {
    hide TextFits, ItemsFit, ListFits, ItemTexts;
    if payload.Keys != REPORT_NAMES {
      return FieldsInvalid;
    }
    var badText, texts := ReadTexts(payload, TEXT_NAMES);
    if badText.Some? {
      return TextInvalid(badText.value);
    }
    var badList, lists := ReadLists(payload, LIST_NAMES);
    if badList.Some? {
      return badList.value;
    }
    r := Passed(Candidate(texts, lists));
  }

  method ReadTexts(payload: map<Text, Json>, names: seq<Text>) returns (bad: Option<Text>, texts: map<Text, Text>)
    requires forall n :: n in names ==> n in payload
    ensures bad.None? <==> forall n :: n in names ==> TextFits(payload[n])
    ensures bad.Some? ==> FirstBadText(payload, names, bad.value)
    ensures bad.None? ==> texts.Keys == (set n | n in names) && forall n :: n in names ==>
              texts[n] == Strip(payload[n].text)
  {
    hide Strip;
    bad, texts := None, map[];
    for i := 0 to |names|
      invariant texts.Keys == set n | n in names[..i]
      invariant forall n :: n in names[..i] ==> TextFits(payload[n]) && texts[n] == Strip(payload[n].text)
    {
      var value := payload[names[i]];
      if !TextFits(value) {
        bad := Some(names[i]);
        return;
      }
      texts := texts[names[i] := Strip(value.text)];
      assert names[..i + 1] == names[..i] + [names[i]];
    }
    assert names[..|names|] == names;
  }

  method ReadLists(payload: map<Text, Json>, names: seq<Text>)
    returns (bad: Option<CandidateResult>, lists: map<Text, seq<Text>>)
    requires forall n :: n in names ==> n in payload
    ensures bad.None? <==> forall n :: n in names ==> ListFits(payload[n])
    ensures bad.Some? ==> FirstBadList(payload, names, bad.value)
    ensures bad.None? ==> lists.Keys == (set n | n in names) && forall n :: n in names ==>
              lists[n] == ItemTexts(payload[n].items)
  {
    hide Strip, NoDuplicates;
    bad, lists := None, map[];
    for i := 0 to |names|
      invariant lists.Keys == set n | n in names[..i]
      invariant forall n :: n in names[..i] ==> ListFits(payload[n]) && lists[n] == ItemTexts(payload[n].items)
    {
      var value := payload[names[i]];
      if !ItemsFit(value) {
        bad := Some(ListInvalid(names[i]));
        return;
      }
      var values := ItemTexts(value.items);
      if !NoDuplicates(values) {
        bad := Some(ListDuplicate(names[i]));
        return;
      }
      lists := lists[names[i] := values];
      assert names[..i + 1] == names[..i] + [names[i]];
    }
    assert names[..|names|] == names;
  }

  // ---------------------------------------------------------------- what the check asks for

  // The code points that Python counts as white space
  const SPACES: set<CodePoint> :=
    {0x09, 0x0A, 0x0B, 0x0C, 0x0D, 0x1C, 0x1D, 0x1E, 0x1F, 0x20, 0x85, 0xA0, 0x1680,
     0x2000, 0x2001, 0x2002, 0x2003, 0x2004, 0x2005, 0x2006, 0x2007, 0x2008, 0x2009, 0x200A,
     0x2028, 0x2029, 0x202F, 0x205F, 0x3000}

  lemma SpaceExact(c: CodePoint)
    ensures IsSpace(c) <==> c in SPACES
  {
  }

  ghost predicate Blank(t: Text) {
    forall i :: 0 <= i < |t| ==> t[i] in SPACES
  }

  // `r` is `t` without the white space around it.
  ghost predicate Trimmed(t: Text, r: Text, before: Text, after: Text) {
    && t == before + r + after && Blank(before) && Blank(after)
    && (r != [] ==> r[0] !in SPACES && r[|r| - 1] !in SPACES)
  }

  lemma TrimFront(t: Text, r: Text, before: Text, after: Text)
    requires t != [] && t[0] in SPACES && Trimmed(t[1..], r, before, after)
    ensures Trimmed(t, r, [t[0]] + before, after)
  {
    assert t == [t[0]] + t[1..];
  }

  lemma TrimBack(t: Text, r: Text, before: Text, after: Text)
    requires t != [] && t[|t| - 1] in SPACES && Trimmed(t[..|t| - 1], r, before, after)
    ensures Trimmed(t, r, before, after + [t[|t| - 1]])
  {
    assert t == t[..|t| - 1] + [t[|t| - 1]];
  }

  lemma {:induction false} StripTrims(t: Text) returns (before: Text, after: Text)
    ensures Trimmed(t, Strip(t), before, after)
    decreases |t|
  {
    hide IsSpace;
    before, after := [], [];
    if t != [] {
      SpaceExact(t[0]);
      SpaceExact(t[|t| - 1]);
      if IsSpace(t[0]) {
        before, after := StripTrims(t[1..]);
        TrimFront(t, Strip(t), before, after);
        before := [t[0]] + before;
      } else if IsSpace(t[|t| - 1]) {
        before, after := StripTrims(t[..|t| - 1]);
        TrimBack(t, Strip(t), before, after);
        after := after + [t[|t| - 1]];
      }
    }
  }

  lemma {:induction false} TrimStrips(t: Text, r: Text, before: Text, after: Text)
    requires Trimmed(t, r, before, after)
    ensures r == Strip(t)
    decreases |t|
  {
    hide IsSpace;
    if t != [] {
      SpaceExact(t[0]);
      SpaceExact(t[|t| - 1]);
      if before != [] {
        assert t[0] == before[0];
        assert t[1..] == before[1..] + r + after;
        TrimStrips(t[1..], r, before[1..], after);
      } else if after != [] {
        TrimEnd(t, r, after);
      } else {
        assert t == r;
      }
    }
  }

  lemma TrimEnd(t: Text, r: Text, after: Text)
    requires Trimmed(t, r, [], after) && after != []
    ensures r == Strip(t)
    decreases |t|, 0
  {
    hide IsSpace;
    SpaceExact(t[0]);
    SpaceExact(t[|t| - 1]);
    assert t == r + after;
    assert t[|t| - 1] == after[|after| - 1];
    assert t[..|t| - 1] == [] + r + after[..|after| - 1];
    if r == [] {
      assert t == after && t[0] == after[0] && t[1..] == after[1..] + [] + [];
      TrimStrips(t[1..], [], after[1..], []);
    } else {
      assert t[0] == r[0];
      TrimStrips(t[..|t| - 1], r, [], after[..|after| - 1]);
    }
  }

  /** Stripping removes the white space at both ends of a text, all of it, and nothing else. */
  lemma StripExact(t: Text, r: Text)
    ensures r == Strip(t) <==> exists before, after :: Trimmed(t, r, before, after)
  {
    var before, after := StripTrims(t);
    if x, y :| Trimmed(t, r, x, y) {
      TrimStrips(t, r, x, y);
    }
  }

  // A string with something else than white space in it
  ghost predicate Says(j: Json) {
    j.JString? && exists i :: 0 <= i < |j.text| && j.text[i] !in SPACES
  }

  lemma SaysFits(j: Json)
    ensures TextFits(j) <==> Says(j)
  {
    hide SPACES, Strip;
    if j.JString? {
      var before, after := StripTrims(j.text);
      var r := Strip(j.text);
      if r != [] {
        assert j.text[|before|] == r[0];
      } else {
        assert j.text == before + after;
      }
    }
  }

  ghost predicate ListSays(j: Json) {
    && j.JList? && (forall i :: 0 <= i < |j.items| ==> Says(j.items[i]))
    && forall a, b :: 0 <= a < b < |j.items| ==> Strip(j.items[a].text) != Strip(j.items[b].text)
  }

  lemma ListSaysFits(j: Json)
    ensures ListFits(j) <==> ListSays(j)
  {
    hide TextFits, Says, Strip, NoDuplicates;
    if j.JList? {
      forall i | 0 <= i < |j.items|
        ensures TextFits(j.items[i]) <==> Says(j.items[i])
        ensures TextFits(j.items[i]) ==> j.items[i].JString?
      {
        SaysFits(j.items[i]);
        FitsString(j.items[i]);
      }
      if ItemsFit(j) {
        DistinctItems(j.items);
      }
    }
  }

  lemma DistinctItems(items: seq<Json>)
    requires forall i :: 0 <= i < |items| ==> items[i].JString?
    ensures NoDuplicates(ItemTexts(items)) <==>
              forall a, b :: 0 <= a < b < |items| ==> Strip(items[a].text) != Strip(items[b].text)
  {
    hide Strip;
    assert forall i :: 0 <= i < |items| ==> ItemTexts(items)[i] == Strip(items[i].text);
  }

  lemma FitsString(j: Json)
    ensures TextFits(j) ==> j.JString?
  {
  }

  // The fields of a report
  const TEXTS: seq<Text> := [Ascii("title"), Ascii("executive_summary"), Ascii("trend_judgment")]
  const LISTS: seq<Text> :=
    [Ascii("key_findings"), Ascii("root_causes"), Ascii("action_suggestions"), Ascii("evidence_task_ids"),
     Ascii("incomplete_tasks")]

  lemma NamesAre()
    ensures TEXT_NAMES == TEXTS && LIST_NAMES == LISTS
  {
    hide Ascii;
  }

  /**
   * A report is accepted exactly when it has the eight fields and no other, its three texts say something, and its
   * five lists hold texts that say something and differ from each other, white space around them aside.
   */
  lemma ReportableExact(payload: map<Text, Json>)
    ensures Reportable(payload) <==>
              && payload.Keys == (set n | n in TEXTS) + (set n | n in LISTS)
              && (forall n :: n in TEXTS ==> Says(payload[n])) && forall n :: n in LISTS ==> ListSays(payload[n])
  {
    hide TextFits, ListFits, Says, ListSays, TEXT_NAMES, LIST_NAMES, TEXTS, LISTS;
    forall n | n in payload
      ensures (TextFits(payload[n]) <==> Says(payload[n])) && (ListFits(payload[n]) <==> ListSays(payload[n]))
    {
      SaysFits(payload[n]);
      ListSaysFits(payload[n]);
    }
    NamesAre();
  }

  // ---------------------------------------------------------------- the draft and the report

  lemma NameListed(f: Field)
    ensures if IsTextField(f) then FieldName(f) in TEXT_NAMES else FieldName(f) in LIST_NAMES
    ensures FieldName(f) in REPORT_NAMES
  {
    match f
    case Title => assert TEXT_NAMES[0] == FieldName(f);
    case ExecutiveSummary => assert TEXT_NAMES[1] == FieldName(f);
    case TrendJudgment => assert TEXT_NAMES[2] == FieldName(f);
    case KeyFindings => assert LIST_NAMES[0] == FieldName(f);
    case RootCauses => assert LIST_NAMES[1] == FieldName(f);
    case ActionSuggestions => assert LIST_NAMES[2] == FieldName(f);
  }

  // The strings of an accepted report, as the document holds them
  lemma ReportText(d: Doc, f: Field)
    requires WfDoc(d) && Reportable(Parsed(d.root.members)) && IsTextField(f)
    ensures var v := Parsed(d.root.members)[FieldName(f)];
            TextFits(v) && RootString(d, (f, None)) == v.text
  {
    NameListed(f);
    ParsedLookup(d.root.members, FieldName(f));
  }

  lemma ReportItem(d: Doc, f: Field, j: nat)
    requires WfDoc(d) && Reportable(Parsed(d.root.members)) && !IsTextField(f)
    ensures var v := Parsed(d.root.members)[FieldName(f)];
            && ListFits(v)
            && RootString(d, (f, Some(j))) == (if j < |v.items| then v.items[j].text else [])
            && (RootString(d, (f, Some(j))) != [] <==> j < |v.items|)
  {
    NameListed(f);
    ParsedLookup(d.root.members, FieldName(f));
    var v := Lookup(d.root.members, FieldName(f)).value;
    ItemsLookup(v.elems, j);
    if j < Count(v.elems) {
      assert TextFits(JsonItems(v.elems)[j]);
    }
  }

  /** A report that passes the candidate check never had a delta refused for its place. */
  lemma ReportableDrawn(d: Doc)
    requires WfDoc(d) && Reportable(Parsed(d.root.members))
    ensures Draw(DocOut(d)).Some?
  {
    hide Draw, Reportable, RootString;
    forall f, j: nat, k: nat | j < k && RootString(d, (f, Some(k))) != []
      ensures RootString(d, (f, Some(j))) != []
    {
      if IsTextField(f) {
        NoItems(d, f, k);
      } else {
        ReportItem(d, f, k);
        ReportItem(d, f, j);
      }
    }
    DocumentDrawn(d);
  }

  lemma NoItems(d: Doc, f: Field, j: nat)
    requires d.root.Obj? && IsTextField(f)
    ensures RootString(d, (f, Some(j))) == []
  {
  }

  // The report holds the strings of the draft, stripped.
  ghost predicate Reports(payload: map<Text, Json>, draft: Draft, f: Field) {
    && FieldName(f) in payload
    && var v := payload[FieldName(f)];
       if IsTextField(f) then v.JString? && Strip(v.text) == Strip(TextOf(draft, f))
       else ItemsFit(v) && ItemTexts(v.items) == StripAll(LinesOf(draft, f))
  }

  /** The report that is stored is the draft that was shown, field by field, stripped. */
  lemma ReportIsDraft(d: Doc, f: Field)
    requires WfDoc(d) && Reportable(Parsed(d.root.members))
    ensures Draw(DocOut(d)).Some? && Reports(Parsed(d.root.members), Draw(DocOut(d)).value, f)
  {
    hide Draw, Reportable, RootString, TextFits;
    ReportableDrawn(d);
    ReportNames(d, f);
    var draft := Draw(DocOut(d)).value;
    if IsTextField(f) {
      ReportText(d, f);
      DocumentDraft(d, (f, None));
      TextShape(Parsed(d.root.members)[FieldName(f)]);
    } else {
      ListReports(d, f);
    }
  }

  lemma ListReports(d: Doc, f: Field)
    requires WfDoc(d) && Reportable(Parsed(d.root.members)) && !IsTextField(f) && Draw(DocOut(d)).Some?
    requires FieldName(f) in Parsed(d.root.members)
    ensures Reports(Parsed(d.root.members), Draw(DocOut(d)).value, f)
  {
    hide Draw, Reportable, RootString, TextFits, NoDuplicates, Strip, TypedDraft;
    ReportItem(d, f, 0);
    var lines := LinesOf(Draw(DocOut(d)).value, f);
    var items := Parsed(d.root.members)[FieldName(f)].items;
    LineShown(d, f, |lines|);
    LineShown(d, f, |items|);
    forall j | 0 <= j < |lines|
      ensures items[j].JString? && lines[j] == items[j].text
    {
      LineShown(d, f, j);
    }
    assert ItemTexts(items) == StripAll(lines);
  }

  // One line of the draft, and the item of the report behind it
  lemma LineShown(d: Doc, f: Field, j: nat)
    requires WfDoc(d) && Reportable(Parsed(d.root.members)) && !IsTextField(f) && Draw(DocOut(d)).Some?
    requires FieldName(f) in Parsed(d.root.members)
    ensures var v := Parsed(d.root.members)[FieldName(f)];
            var lines := LinesOf(Draw(DocOut(d)).value, f);
            && ItemsFit(v)
            && (j < |lines| <==> j < |v.items|)
            && (j < |lines| ==> v.items[j].JString? && lines[j] == v.items[j].text)
  {
    hide Draw, Reportable, RootString, Strip;
    ReportItem(d, f, j);
    DocumentDraft(d, (f, Some(j)));
    var v := Parsed(d.root.members)[FieldName(f)];
    if j < |v.items| {
      assert TextFits(v.items[j]);
    }
  }

  lemma TextShape(j: Json)
    requires TextFits(j)
    ensures j.JString?
  {
  }

  lemma ReportNames(d: Doc, f: Field)
    requires WfDoc(d) && Reportable(Parsed(d.root.members))
    ensures FieldName(f) in Parsed(d.root.members)
  {
    NameListed(f);
  }
}
