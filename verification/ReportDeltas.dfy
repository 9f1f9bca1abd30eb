/** The deltas of the feeds: what they spell, and that merging undoes any cutting of the text. */
module ReportDeltas {
  import opened Wrappers
  import opened JsonText
  import opened JsonSyntax
  import opened DecoderMachine
  import opened DecoderComplete
  import opened DecoderLanguage
  import opened ReportStream

  // ---------------------------------------------------------------- what deltas spell

  // A character with its place
  datatype Placed = Placed(field: Field, index: Option<nat>, offset: nat, c: CodePoint)

  function Spell(x: Delta): seq<Placed> {
    seq(|x.text|, i requires 0 <= i < |x.text| => Placed(x.field, x.index, x.offset + i, x.text[i]))
  }

  /** The characters of the deltas one by one, each where its delta puts it. */
  function Flat(ds: seq<Delta>): seq<Placed> {
    if ds == [] then [] else Flat(ds[..|ds| - 1]) + Spell(ds[|ds| - 1])
  }

  // The published character at a position, behind the earlier characters of its slot
  function PlaceAt(out: seq<Emit>, k: nat): Placed
    requires k < |out|
  {
    var e := out[k];
    Placed(e.field, e.index, |SlotText(out[..k], (e.field, e.index))|, e.c)
  }

  /** The characters published from a position on, each with its place. */
  function Places(out: seq<Emit>, from: nat): seq<Placed>
    requires from <= |out|
  {
    seq(|out| - from, i requires 0 <= i < |out| - from => PlaceAt(out, from + i))
  }

  lemma FlatSnoc(ds: seq<Delta>, x: Delta)
    ensures Flat(ds + [x]) == Flat(ds) + Spell(x)
  {
    assert (ds + [x])[..|ds|] == ds;
  }

  lemma {:induction false} FlatConcat(a: seq<Delta>, b: seq<Delta>)
    ensures Flat(a + b) == Flat(a) + Flat(b)
  {
    if b == [] {
      assert a + b == a;
    } else {
      var init, x := b[..|b| - 1], b[|b| - 1];
      FlatConcat(a, init);
      FlatSnoc(a + init, x);
      assert a + b == (a + init) + [x];
      ConcatAssoc(Flat(a), Flat(init), Spell(x));
    }
  }

  lemma PlacesSnoc(out: seq<Emit>, from: nat)
    requires from < |out|
    ensures Places(out, from) == Places(out[..|out| - 1], from) + [PlaceAt(out, |out| - 1)]
  {
    var before := out[..|out| - 1];
    forall k: nat | k < |before|
      ensures PlaceAt(out, k) == PlaceAt(before, k)
    {
      assert before[..k] == out[..k];
    }
  }

  lemma PlacesSplit(out: seq<Emit>, from: nat, mid: nat)
    requires from <= mid <= |out|
    ensures Places(out, from) == Places(out[..mid], from) + Places(out, mid)
  {
    forall k: nat | k < mid
      ensures PlaceAt(out, k) == PlaceAt(out[..mid], k)
    {
      assert out[..mid][..k] == out[..k];
    }
  }

  // ---------------------------------------------------------------- merging

  // The second delta goes on where the first one ends.
  predicate Continues(x: Delta, y: Delta) {
    x.field == y.field && x.index == y.index && x.offset + |x.text| == y.offset
  }

  function Join(ds: seq<Delta>, x: Delta): seq<Delta> {
    if ds != [] && Continues(ds[|ds| - 1], x)
    then ds[..|ds| - 1] + [ds[|ds| - 1].(text := ds[|ds| - 1].text + x.text)]
    else ds + [x]
  }

  /** Adjacent deltas become one where the second continues the first. */
  function Merge(ds: seq<Delta>): seq<Delta> {
    if ds == [] then [] else Join(Merge(ds[..|ds| - 1]), ds[|ds| - 1])
  }

  // No two neighbours are left to be merged.
  predicate Apart(ds: seq<Delta>) {
    forall i :: 0 <= i < |ds| - 1 ==> !Continues(ds[i], ds[i + 1])
  }

  predicate Filled(ds: seq<Delta>) {
    forall i :: 0 <= i < |ds| ==> ds[i].text != []
  }

  // The deltas of placed characters, added one by one
  function Rebuild(ps: seq<Placed>): seq<Delta> {
    if ps == [] then []
    else
      var p := ps[|ps| - 1];
      AddChar(Rebuild(ps[..|ps| - 1]), Emit(p.field, p.index, p.c), p.offset)
  }

  lemma AddIsJoin(ds: seq<Delta>, e: Emit, offset: nat)
    ensures AddChar(ds, e, offset) == Join(ds, Delta(e.field, e.index, offset, [e.c]))
  {
  }

  lemma JoinSpells(ds: seq<Delta>, x: Delta)
    ensures Flat(Join(ds, x)) == Flat(ds) + Spell(x)
  {
    if ds != [] && Continues(ds[|ds| - 1], x) {
      var init, y := ds[..|ds| - 1], ds[|ds| - 1];
      var z := y.(text := y.text + x.text);
      FlatSnoc(init, z);
      assert Spell(z) == Spell(y) + Spell(x);
      ConcatAssoc(Flat(init), Spell(y), Spell(x));
    } else {
      FlatSnoc(ds, x);
    }
  }

  lemma JoinFilled(ds: seq<Delta>, x: Delta)
    requires Filled(ds) && x.text != []
    ensures Filled(Join(ds, x))
  {
  }

  lemma JoinApart(ds: seq<Delta>, x: Delta)
    requires Apart(ds)
    ensures Apart(Join(ds, x))
  {
    var r := Join(ds, x);
    forall i | 0 <= i < |r| - 1
      ensures !Continues(r[i], r[i + 1])
    {
      assert i < |ds| - 1 ==> !Continues(ds[i], ds[i + 1]);
    }
  }

  /** Merging keeps every character at its place and leaves nothing to be merged. */
  lemma {:induction false} MergeKeeps(ds: seq<Delta>)
    ensures Flat(Merge(ds)) == Flat(ds) && Apart(Merge(ds))
    ensures Filled(ds) ==> Filled(Merge(ds))
  {
    hide Join, Spell;
    if ds != [] {
      var init, x := ds[..|ds| - 1], ds[|ds| - 1];
      MergeKeeps(init);
      JoinSpells(Merge(init), x);
      JoinApart(Merge(init), x);
      if Filled(ds) {
        JoinFilled(Merge(init), x);
      }
    }
  }

  // A delta joins as its characters do, one by one.
  lemma {:induction false} RebuildJoin(ps: seq<Placed>, x: Delta)
    requires x.text != []
    ensures Rebuild(ps + Spell(x)) == Join(Rebuild(ps), x)
    decreases |x.text|
  {
    hide Spell, Join, AddChar;
    var n := |x.text| - 1;
    var y, q := x.(text := x.text[..n]), Placed(x.field, x.index, x.offset + n, x.text[n]);
    SpellSnoc(x);
    ConcatAssoc(ps, Spell(y), [q]);
    RebuildSnoc(ps + Spell(y), q);
    assert x == y.(text := y.text + [q.c]);
    if n == 0 {
      SpellOne(x);
      assert ps + Spell(y) == ps && x == Delta(q.field, q.index, q.offset, [q.c]);
      AddIsJoin(Rebuild(ps), Emit(q.field, q.index, q.c), q.offset);
    } else {
      RebuildJoin(ps, y);
      JoinMore(Rebuild(ps), y, q);
    }
  }

  lemma SpellSnoc(x: Delta)
    requires x.text != []
    ensures var n := |x.text| - 1;
            Spell(x) == Spell(x.(text := x.text[..n])) + [Placed(x.field, x.index, x.offset + n, x.text[n])]
  {
  }

  lemma RebuildSnoc(ps: seq<Placed>, p: Placed)
    ensures Rebuild(ps + [p]) == AddChar(Rebuild(ps), Emit(p.field, p.index, p.c), p.offset)
  {
    assert (ps + [p])[..|ps|] == ps;
  }

  lemma JoinMore(ds: seq<Delta>, y: Delta, q: Placed)
    requires q.field == y.field && q.index == y.index && q.offset == y.offset + |y.text|
    ensures AddChar(Join(ds, y), Emit(q.field, q.index, q.c), q.offset) == Join(ds, y.(text := y.text + [q.c]))
  {
    if ds != [] && Continues(ds[|ds| - 1], y) {
      ConcatAssoc(ds[|ds| - 1].text, y.text, [q.c]);
    }
  }

  /** What merging gives depends on the characters and their places only, not on how they were grouped. */
  lemma {:induction false} MergeExact(ds: seq<Delta>)
    requires Filled(ds)
    ensures Merge(ds) == Rebuild(Flat(ds))
  {
    hide Join, Spell;
    if ds != [] {
      MergeExact(ds[..|ds| - 1]);
      RebuildJoin(Flat(ds[..|ds| - 1]), ds[|ds| - 1]);
    }
  }

  // ---------------------------------------------------------------- one feed

  /**
   * The deltas of a feed spell exactly the characters that it publishes, in order, each at the length that its
   * slot had before it; none is empty, and no two neighbours could be one.
   */
  lemma {:induction false} FlatDeltas(out: seq<Emit>, from: nat)
    requires from <= |out|
    ensures Flat(DeltasOf(out, from)) == Places(out, from)
    ensures Filled(DeltasOf(out, from)) && Apart(DeltasOf(out, from))
  {
    hide SlotText, Spell, Join, AddChar;
    if from < |out| {
      var before, e := out[..|out| - 1], out[|out| - 1];
      var ds, offset := DeltasOf(before, from), |SlotText(before, (e.field, e.index))|;
      var x := Delta(e.field, e.index, offset, [e.c]);
      FlatDeltas(before, from);
      AddIsJoin(ds, e, offset);
      JoinSpells(ds, x);
      JoinFilled(ds, x);
      JoinApart(ds, x);
      PlacesSnoc(out, from);
      SpellOne(x);
    }
  }

  lemma SpellOne(x: Delta)
    requires |x.text| == 1
    ensures Spell(x) == [Placed(x.field, x.index, x.offset, x.text[0])]
  {
  }

  lemma {:induction false} RebuildPlaces(out: seq<Emit>, from: nat)
    requires from <= |out|
    ensures Rebuild(Places(out, from)) == DeltasOf(out, from)
  {
    hide SlotText, AddChar;
    if from < |out| {
      var before := out[..|out| - 1];
      RebuildPlaces(before, from);
      PlacesSnoc(out, from);
      RebuildSnoc(Places(before, from), PlaceAt(out, |out| - 1));
    }
  }

  // ---------------------------------------------------------------- any cutting into feeds

  lemma StepGrows(s: State, c: CodePoint)
    requires Step(s, c).Ok?
    ensures s.out <= Step(s, c).s.out
  {
    hide Step;
    StepExtends(s, c);
  }

  lemma {:induction false} RunGrows(s: State, t: Text)
    requires Run(Ok(s), t).Ok?
    ensures s.out <= Run(Ok(s), t).s.out
  {
    hide Step;
    if t != [] {
      RunGrows(s, t[..|t| - 1]);
      StepGrows(Run(Ok(s), t[..|t| - 1]).s, t[|t| - 1]);
    }
  }

  /** The deltas of all the feeds, in order; each feed gives the deltas of what it publishes. */
  ghost function FeedDeltas(s: State, chunks: seq<Text>): seq<Delta>
    requires RunChunks(Ok(s), chunks).Ok?
  {
    if chunks == [] then []
    else
      var init, last := chunks[..|chunks| - 1], chunks[|chunks| - 1];
      var before := RunChunks(Ok(s), init);
      RunError(before, last);
      RunGrows(before.s, last);
      FeedDeltas(s, init) + DeltasOf(Run(before, last).s.out, |before.s.out|)
  }

  lemma {:induction false} RunError(o: Outcome, t: Text)
    ensures o.Err? ==> Run(o, t) == o
  {
    if t != [] {
      RunError(o, t[..|t| - 1]);
    }
  }

  /**
   * Any cutting of a text: the deltas of its feeds spell what the whole text publishes, and merged across the
   * cuts they are the deltas of the whole text in one feed.
   */
  lemma {:induction false} CutDeltas(s: State, chunks: seq<Text>)
    requires RunChunks(Ok(s), chunks).Ok?
    ensures var r := Run(Ok(s), Concat(chunks));
            && r.Ok? && s.out <= r.s.out
            && Flat(FeedDeltas(s, chunks)) == Places(r.s.out, |s.out|)
            && Merge(FeedDeltas(s, chunks)) == DeltasOf(r.s.out, |s.out|)
  {
    CutSpells(s, chunks);
    ChunkIndependence(Ok(s), chunks);
    var out := Run(Ok(s), Concat(chunks)).s.out;
    MergeExact(FeedDeltas(s, chunks));
    RebuildPlaces(out, |s.out|);
  }

  lemma {:induction false} CutSpells(s: State, chunks: seq<Text>)
    requires RunChunks(Ok(s), chunks).Ok?
    ensures var out := RunChunks(Ok(s), chunks).s.out;
            s.out <= out && Flat(FeedDeltas(s, chunks)) == Places(out, |s.out|)
    ensures Filled(FeedDeltas(s, chunks))
  {
    hide Run, DeltasOf, Places, Spell;
    if chunks != [] {
      var init, last := chunks[..|chunks| - 1], chunks[|chunks| - 1];
      var before := RunChunks(Ok(s), init);
      RunError(before, last);
      RunGrows(before.s, last);
      CutSpells(s, init);
      var out, mid := Run(before, last).s.out, |before.s.out|;
      FlatDeltas(out, mid);
      FlatConcat(FeedDeltas(s, init), DeltasOf(out, mid));
      PlacesSplit(out, |s.out|, mid);
      assert out[..mid] == before.s.out;
    } else {
      PlacesNone(s.out);
    }
  }

  lemma PlacesNone(out: seq<Emit>)
    ensures Places(out, |out|) == []
  {
  }

  /** Two cuttings of one text fail alike, or their merged deltas are the same. */
  lemma SameDeltas(s: State, a: seq<Text>, b: seq<Text>)
    requires Concat(a) == Concat(b)
    ensures RunChunks(Ok(s), a) == RunChunks(Ok(s), b)
    ensures RunChunks(Ok(s), a).Ok? ==> Merge(FeedDeltas(s, a)) == Merge(FeedDeltas(s, b))
  {
    ChunkIndependence(Ok(s), a);
    ChunkIndependence(Ok(s), b);
    if RunChunks(Ok(s), a).Ok? {
      CutDeltas(s, a);
      CutDeltas(s, b);
    }
  }
}
