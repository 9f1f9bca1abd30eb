/** The check of audit details: an explicit-stack walk over dictionaries and lists that may be shared or cyclic. */
module AuditDetails {
  import opened Wrappers

  type Ref = nat  // the identity of a container

  datatype Key = Name(text: string) | OtherKey

  // A value is a container, a JSON scalar, or something else, such as a non-finite float or a tuple.
  datatype Value = Container(ref: Ref) | Scalar | Foreign

  datatype Node = Dict(entries: seq<(Key, Value)>) | List(items: seq<Value>)

  type Heap = map<Ref, Node>

  const MARKERS := ["password", "secret", "token", "hash", "sql", "result", "question"]

  predicate Occurs(marker: string, text: string) {
    exists i :: 0 <= i <= |text| && marker <= text[i..]
  }

  // `fold` is Unicode case folding.
  predicate AllowedKey(key: Key, fold: string -> string) {
    key.Name? && forall m :: m in MARKERS ==> !Occurs(m, fold(key.text))
  }

  ghost predicate Contains(text: string, word: string) {
    exists a, b :: text == a + word + b
  }

  /** A key is allowed exactly when it is a text in which, folded, none of the seven words stands anywhere. */
  lemma AllowedExact(key: Key, fold: string -> string)
    ensures AllowedKey(key, fold) <==>
              && key.Name?
              && forall word :: word in {"password", "secret", "token", "hash", "sql", "result", "question"} ==>
                   !Contains(fold(key.text), word)
  {
    hide Contains, Occurs, MARKERS;
    Words();
    if key.Name? {
      forall m
        ensures Occurs(m, fold(key.text)) <==> Contains(fold(key.text), m)
      {
        OccursExact(m, fold(key.text));
      }
    }
  }

  lemma Words()
    ensures forall m :: m in MARKERS <==> m in {"password", "secret", "token", "hash", "sql", "result", "question"}
  {
  }

  lemma OccursExact(m: string, text: string)
    ensures Occurs(m, text) <==> Contains(text, m)
  {
    if Occurs(m, text) {
      var i :| 0 <= i <= |text| && m <= text[i..];
      assert text == text[..i] + m + text[i..][|m|..];
    }
    if a, b :| text == a + m + b {
      assert text[|a|..] == m + b;
    }
  }

  function ItemsOf(n: Node): (items: seq<Value>)
    ensures |items| == match n case Dict(es) => |es| case List(vs) => |vs|
  {
    match n
    case Dict(entries) => seq(|entries|, i requires 0 <= i < |entries| => entries[i].1)
    case List(items) => items
  }

  predicate KeysAllowed(n: Node, fold: string -> string) {
    n.Dict? ==> forall i :: 0 <= i < |n.entries| ==> AllowedKey(n.entries[i].0, fold)
  }

  predicate Closed(heap: Heap) {
    forall r, v :: r in heap && v in ItemsOf(heap[r]) && v.Container? ==> v.ref in heap
  }

  // ---------------------------------------------------------------- what may be recorded

  // A path follows items from container to container.
  ghost predicate Path(heap: Heap, q: seq<Ref>) {
    && q != []
    && (forall i :: 0 <= i < |q| ==> q[i] in heap)
    && (forall i {:trigger q[i]} :: 0 <= i < |q| - 1 ==> Container(q[i + 1]) in ItemsOf(heap[q[i]]))
  }

  ghost predicate NoRepeat(q: seq<Ref>) {
    forall i, j :: 0 <= i < j < |q| ==> q[i] != q[j]
  }

  // The keys of a container are allowed, and what is not a container in it is a scalar.
  ghost predicate Plain(n: Node, fold: string -> string) {
    KeysAllowed(n, fold) && Foreign !in ItemsOf(n)
  }

  ghost predicate PathOk(heap: Heap, open: seq<Ref>, q: seq<Ref>, fold: string -> string)
    requires Path(heap, q)
  {
    NoRepeat(open + q) && Plain(heap[q[|q| - 1]], fold)
  }

  /** From a value inside the open containers: no path runs into a cycle, a forbidden key or a foreign value. */
  ghost predicate Clean(heap: Heap, open: seq<Ref>, v: Value, fold: string -> string) {
    || v.Scalar?
    || (v.Container? && forall q :: Path(heap, q) && q[0] == v.ref ==> PathOk(heap, open, q, fold))
  }

  // A container is clean when it is not open itself, is plain, and its items are clean inside it.
  ghost predicate CleanInside(heap: Heap, open: seq<Ref>, r: Ref, fold: string -> string)
    requires r in heap
  {
    r !in open && KeysAllowed(heap[r], fold) && forall w :: w in ItemsOf(heap[r]) ==> Clean(heap, open + [r], w, fold)
  }

  lemma CleanIn(heap: Heap, open: seq<Ref>, r: Ref, fold: string -> string)
    requires Closed(heap) && r in heap && Clean(heap, open, Container(r), fold)
    ensures CleanInside(heap, open, r, fold)
  {
    hide ItemsOf, AllowedKey;
    assert Path(heap, [r]);
    assert PathOk(heap, open, [r], fold);
    NotOpen(open, r);
    forall w | w in ItemsOf(heap[r])
      ensures Clean(heap, open + [r], w, fold)
    {
      if w.Container? {
        forall q | Path(heap, q) && q[0] == w.ref
          ensures PathOk(heap, open + [r], q, fold)
        {
          StepPath(heap, r, q);
          assert PathOk(heap, open, [r] + q, fold);
          assert open + ([r] + q) == open + [r] + q;
        }
      }
    }
  }

  lemma NotOpen(open: seq<Ref>, r: Ref)
    ensures NoRepeat(open + [r]) <==> NoRepeat(open) && r !in open
  {
    var all := open + [r];
    assert forall i :: 0 <= i < |open| ==> all[i] == open[i];
    if NoRepeat(all) {
      assert all[|open|] == r;
    }
  }

  lemma StepPath(heap: Heap, r: Ref, q: seq<Ref>)
    requires r in heap && Path(heap, q) && Container(q[0]) in ItemsOf(heap[r])
    ensures Path(heap, [r] + q) && ([r] + q)[0] == r
  {
    hide ItemsOf;
    var p := [r] + q;
    assert forall i :: 0 < i < |p| ==> p[i] == q[i - 1];
    forall i | 0 <= i < |p| - 1
      ensures Container(p[i + 1]) in ItemsOf(heap[p[i]])
    {
      if i > 0 {
        assert q[i - 1] in heap && Container(q[i]) in ItemsOf(heap[q[i - 1]]);
      }
    }
  }

  lemma CleanOut(heap: Heap, open: seq<Ref>, r: Ref, fold: string -> string)
    requires Closed(heap) && r in heap && NoRepeat(open) && CleanInside(heap, open, r, fold)
    ensures Clean(heap, open, Container(r), fold)
  {
    forall q | Path(heap, q) && q[0] == r
      ensures PathOk(heap, open, q, fold)
    {
      if |q| == 1 {
        assert q == [r];
      } else {
        LongerPath(heap, open, r, q, fold);
      }
    }
  }

  lemma LongerPath(heap: Heap, open: seq<Ref>, r: Ref, q: seq<Ref>, fold: string -> string)
    requires r in heap && CleanInside(heap, open, r, fold) && Path(heap, q) && q[0] == r && |q| > 1
    ensures PathOk(heap, open, q, fold)
  {
    hide Plain, ItemsOf, NoRepeat;
    var tail := q[1..];
    assert Path(heap, tail) && Container(q[1]) in ItemsOf(heap[q[0]]);
    assert Clean(heap, open + [r], Container(tail[0]), fold);
    assert PathOk(heap, open + [r], tail, fold);
    assert open + q == open + [r] + tail;
  }

  // ---------------------------------------------------------------- the stack

  // A value that is still to be looked at, or the mark at which a container is left
  datatype Entry = Visit(value: Value) | Leave(ref: Ref)

  // The containers that are marked for exit on the stack, in order
  function Opened(pending: seq<Entry>): seq<Ref> {
    if pending == [] then []
    else
      var last := pending[|pending| - 1];
      Opened(pending[..|pending| - 1]) + if last.Leave? then [last.ref] else []
  }

  // Everything that is still on the stack is clean in its place.
  ghost predicate AllClean(heap: Heap, pending: seq<Entry>, fold: string -> string) {
    pending != [] ==>
      var init, last := pending[..|pending| - 1], pending[|pending| - 1];
      AllClean(heap, init, fold) && (last.Visit? ==> Clean(heap, Opened(init), last.value, fold))
  }

  lemma PushOpened(pending: seq<Entry>, e: Entry)
    ensures Opened(pending + [e]) == Opened(pending) + if e.Leave? then [e.ref] else []
  {
    assert (pending + [e])[..|pending|] == pending;
  }

  lemma PushClean(heap: Heap, pending: seq<Entry>, e: Entry, fold: string -> string)
    ensures AllClean(heap, pending + [e], fold)
            <==> AllClean(heap, pending, fold) && (e.Visit? ==> Clean(heap, Opened(pending), e.value, fold))
  {
    assert (pending + [e])[..|pending|] == pending;
  }

  function Visits(items: seq<Value>): seq<Entry> {
    seq(|items|, i requires 0 <= i < |items| => Visit(items[i]))
  }

  lemma {:induction false} PushItems(heap: Heap, pending: seq<Entry>, items: seq<Value>, fold: string -> string)
    ensures Opened(pending + Visits(items)) == Opened(pending)
    ensures AllClean(heap, pending + Visits(items), fold)
            <==> AllClean(heap, pending, fold) && forall w :: w in items ==> Clean(heap, Opened(pending), w, fold)
  {
    hide Clean;
    if items == [] {
      assert pending + Visits(items) == pending;
    } else {
      var init, last := items[..|items| - 1], items[|items| - 1];
      PushItems(heap, pending, init, fold);
      assert pending + Visits(items) == (pending + Visits(init)) + [Visit(last)];
      PushOpened(pending + Visits(init), Visit(last));
      PushClean(heap, pending + Visits(init), Visit(last), fold);
      assert items == init + [last];
    }
  }

  // ---------------------------------------------------------------- termination

  // What a value can still put on the stack, when `budget` more containers can be open
  function Weight(budget: nat, width: nat): nat {
    if budget == 0 then 1 else 2 + width * Weight(budget - 1, width)
  }

  function Left(heap: Heap, open: seq<Ref>): nat {
    if |open| <= |heap| then |heap| - |open| else 0
  }

  function Load(heap: Heap, pending: seq<Entry>, width: nat): nat {
    if pending == [] then 0
    else
      var init, last := pending[..|pending| - 1], pending[|pending| - 1];
      Load(heap, init, width) + if last.Leave? then 1 else Weight(Left(heap, Opened(init)), width)
  }

  lemma PushLoad(heap: Heap, pending: seq<Entry>, e: Entry, width: nat)
    ensures Load(heap, pending + [e], width)
            == Load(heap, pending, width) + if e.Leave? then 1 else Weight(Left(heap, Opened(pending)), width)
  {
    assert (pending + [e])[..|pending|] == pending;
  }

  lemma {:induction false} ItemsLoad(heap: Heap, pending: seq<Entry>, items: seq<Value>, width: nat)
    ensures Load(heap, pending + Visits(items), width)
            == Load(heap, pending, width) + |items| * Weight(Left(heap, Opened(pending)), width)
  {
    hide Weight, Left;
    if items == [] {
      assert pending + Visits(items) == pending;
    } else {
      var init, last := items[..|items| - 1], items[|items| - 1];
      ItemsLoad(heap, pending, init, width);
      assert pending + Visits(items) == (pending + Visits(init)) + [Visit(last)];
      PushLoad(heap, pending + Visits(init), Visit(last), width);
      PushItems(heap, pending, init, s => s);
      Product(|init|, Weight(Left(heap, Opened(pending)), width));
    }
  }

  lemma Product(n: nat, w: nat)
    ensures (n + 1) * w == n * w + w
  {
  }

  lemma ProductMonotone(m: nat, n: nat, w: nat)
    requires m <= n
    ensures m * w <= n * w
  {
  }

  lemma WeightPositive(budget: nat, width: nat)
    ensures Weight(budget, width) >= 1
  {
  }

  // Distinct containers are at most as many as the heap has.
  lemma {:induction false} FewOpen(heap: Heap, open: seq<Ref>)
    requires NoRepeat(open) && forall r :: r in open ==> r in heap
    ensures |open| <= |heap|
  {
    SetOf(open);
    Subset(Elements(open), heap.Keys);
  }

  function Elements(q: seq<Ref>): set<Ref> {
    set r | r in q
  }

  lemma {:induction false} SetOf(q: seq<Ref>)
    requires NoRepeat(q)
    ensures |Elements(q)| == |q|
  {
    if q == [] {
      assert Elements(q) == {};
    } else {
      var init, last := q[..|q| - 1], q[|q| - 1];
      assert q == init + [last];
      NotOpen(init, last);
      SetOf(init);
      assert Elements(q) == Elements(init) + {last};
    }
  }

  lemma {:induction false} Subset(a: set<Ref>, b: set<Ref>)
    requires a <= b
    ensures |a| <= |b|
  {
    if a != {} {
      var x :| x in a;
      Subset(a - {x}, b - {x});
    }
  }

  ghost predicate WidthOk(heap: Heap, width: nat) {
    forall r :: r in heap ==> |ItemsOf(heap[r])| <= width
  }

  lemma {:induction false} SomeWidth(heap: Heap) returns (width: nat)
    ensures WidthOk(heap, width)
    decreases |heap|
  {
    if heap == map[] {
      width := 0;
    } else {
      var r :| r in heap;
      var rest := heap - {r};
      var w := SomeWidth(rest);
      var here := |ItemsOf(heap[r])|;
      width := if w > here then w else here;
      forall r' | r' in heap
        ensures |ItemsOf(heap[r'])| <= width
      {
        assert r' != r ==> r' in rest && rest[r'] == heap[r'];
      }
    }
  }

  // Opening a container takes less than the visit of it was worth.
  lemma OpenLoad(heap: Heap, pending: seq<Entry>, r: Ref, width: nat)
    requires r in heap && WidthOk(heap, width) && NoRepeat(Opened(pending)) && r !in Opened(pending)
    requires forall x :: x in Opened(pending) ==> x in heap
    ensures Load(heap, pending + [Leave(r)] + Visits(ItemsOf(heap[r])), width)
            < Load(heap, pending + [Visit(Container(r))], width)
  {
    hide Weight, ItemsOf, Opened, Load, NoRepeat;
    var open := Opened(pending);
    NotOpen(open, r);
    FewOpen(heap, open + [r]);
    OpenWeight(heap, open, width);
    PushLoad(heap, pending, Visit(Container(r)), width);
    PushLoad(heap, pending, Leave(r), width);
    PushOpened(pending, Leave(r));
    ItemsLoad(heap, pending + [Leave(r)], ItemsOf(heap[r]), width);
    ProductMonotone(|ItemsOf(heap[r])|, width, Weight(Left(heap, open + [r]), width));
  }

  lemma OpenWeight(heap: Heap, open: seq<Ref>, width: nat)
    requires |open| < |heap|
    ensures forall r :: Weight(Left(heap, open), width) == 2 + width * Weight(Left(heap, open + [r]), width)
  {
  }

  // ---------------------------------------------------------------- the walk

  // `active` is exactly the set of containers that are marked for exit.
  ghost predicate Tracks(heap: Heap, pending: seq<Entry>, active: set<Ref>) {
    && NoRepeat(Opened(pending))
    && (forall r :: r in active <==> r in Opened(pending))
    && (forall r :: r in active ==> r in heap)
    && (forall i :: 0 <= i < |pending| && pending[i].Visit? && pending[i].value.Container? ==>
        pending[i].value.ref in heap)
  }

  /**
   * Looks for anything that must not be recorded. Details may be recorded exactly when they are a
   * dictionary from which no cycle, no forbidden key and no foreign value can be reached.
   */
  method ContainsSensitiveDetails(heap: Heap, details: Value, fold: string -> string) returns (sensitive: bool)
    requires Closed(heap) && (details.Container? ==> details.ref in heap)
    ensures !sensitive <==> details.Container? && heap[details.ref].Dict? && Clean(heap, [], details, fold)
  {
    hide Clean, Opened, Load, NoRepeat, ItemsOf, AllClean;
    if !details.Container? || !heap[details.ref].Dict? {
      return true;
    }
    var pending := [Visit(details)];
    var active: set<Ref> := {};
    ghost var width := SomeWidth(heap);
    StartWalk(heap, details, fold);
    while pending != []
      invariant Tracks(heap, pending, active)
      invariant Clean(heap, [], details, fold) <==> AllClean(heap, pending, fold)
      decreases Load(heap, pending, width)
    {
      var top := pending[|pending| - 1];
      ghost var before := pending;
      pending := pending[..|pending| - 1];
      assert before == pending + [top];
      PushClean(heap, pending, top, fold);
      PushOpened(pending, top);
      PushLoad(heap, pending, top, width);
      WeightPositive(Left(heap, Opened(pending)), width);
      match top
      case Leave(r) =>
        LeaveTracks(heap, pending, r, active);
        active := active - {r};
      case Visit(value) =>
        VisitTracks(heap, pending, value, active);
        match value
        case Scalar =>
          ScalarClean(heap, Opened(pending), fold);
        case Foreign =>
          ForeignUnclean(heap, Opened(pending), fold);
          return true;
        case Container(r) =>
          if r in active {
            OpenUnclean(heap, Opened(pending), r, fold);
            return true;
          }
          var allowed := CheckKeys(heap[r], fold);
          ContainerClean(heap, Opened(pending), r, fold);
          if !allowed {
            return true;
          }
          OpenLoad(heap, pending, r, width);
          OpenTracks(heap, pending, r, active);
          PushOpened(pending, Leave(r));
          PushClean(heap, pending, Leave(r), fold);
          PushItems(heap, pending + [Leave(r)], ItemsOf(heap[r]), fold);
          active := active + {r};
          pending := pending + [Leave(r)] + Visits(ItemsOf(heap[r]));
    }
    NothingLeft(heap, fold);
    return false;
  }

  method CheckKeys(n: Node, fold: string -> string) returns (allowed: bool)
    ensures allowed <==> KeysAllowed(n, fold)
  {
    if n.Dict? {
      for i := 0 to |n.entries|
        invariant forall j :: 0 <= j < i ==> AllowedKey(n.entries[j].0, fold)
      {
        if !AllowedKey(n.entries[i].0, fold) {
          return false;
        }
      }
    }
    return true;
  }

  lemma StartWalk(heap: Heap, details: Value, fold: string -> string)
    requires details.Container? && details.ref in heap
    ensures Tracks(heap, [Visit(details)], {})
    ensures AllClean(heap, [Visit(details)], fold) <==> Clean(heap, [], details, fold)
  {
    hide Clean;
    assert [Visit(details)] == [] + [Visit(details)];
    PushClean(heap, [], Visit(details), fold);
    PushOpened([], Visit(details));
  }

  lemma NothingLeft(heap: Heap, fold: string -> string)
    ensures AllClean(heap, [], fold)
  {
  }

  lemma ScalarClean(heap: Heap, open: seq<Ref>, fold: string -> string)
    ensures Clean(heap, open, Scalar, fold)
  {
  }

  lemma ForeignUnclean(heap: Heap, open: seq<Ref>, fold: string -> string)
    ensures !Clean(heap, open, Foreign, fold)
  {
  }

  lemma ContainerClean(heap: Heap, open: seq<Ref>, r: Ref, fold: string -> string)
    requires Closed(heap) && r in heap && NoRepeat(open)
    ensures Clean(heap, open, Container(r), fold) <==> CleanInside(heap, open, r, fold)
  {
    hide Clean;
    if Clean(heap, open, Container(r), fold) {
      CleanIn(heap, open, r, fold);
    }
    if CleanInside(heap, open, r, fold) {
      CleanOut(heap, open, r, fold);
    }
  }

  lemma OpenUnclean(heap: Heap, open: seq<Ref>, r: Ref, fold: string -> string)
    requires Closed(heap) && r in heap && NoRepeat(open) && r in open
    ensures !Clean(heap, open, Container(r), fold)
  {
    hide Clean;
    ContainerClean(heap, open, r, fold);
  }

  lemma VisitTracks(heap: Heap, pending: seq<Entry>, v: Value, active: set<Ref>)
    requires Tracks(heap, pending + [Visit(v)], active)
    ensures Tracks(heap, pending, active) && (v.Container? ==> v.ref in heap)
    ensures forall r :: r in Opened(pending) ==> r in heap
  {
    hide Opened, NoRepeat;
    PushOpened(pending, Visit(v));
    assert forall i :: 0 <= i < |pending| ==> pending[i] == (pending + [Visit(v)])[i];
    assert (pending + [Visit(v)])[|pending|] == Visit(v);
    assert Opened(pending) + [] == Opened(pending);
  }

  lemma LeaveTracks(heap: Heap, pending: seq<Entry>, r: Ref, active: set<Ref>)
    requires Tracks(heap, pending + [Leave(r)], active)
    ensures r in active && Tracks(heap, pending, active - {r})
  {
    hide Opened;
    PushOpened(pending, Leave(r));
    NotOpen(Opened(pending), r);
    assert forall i :: 0 <= i < |pending| ==> pending[i] == (pending + [Leave(r)])[i];
  }

  lemma OpenTracks(heap: Heap, pending: seq<Entry>, r: Ref, active: set<Ref>)
    requires Closed(heap) && r in heap && Tracks(heap, pending, active) && r !in active
    ensures Tracks(heap, pending + [Leave(r)] + Visits(ItemsOf(heap[r])), active + {r})
  {
    hide Opened, NoRepeat;
    PushOpened(pending, Leave(r));
    NotOpen(Opened(pending), r);
    PushItems(heap, pending + [Leave(r)], ItemsOf(heap[r]), s => s);
    var items := ItemsOf(heap[r]);
    assert forall i :: 0 <= i < |items| ==> items[i] in ItemsOf(heap[r]);
  }
}
