/** Attribution of a change between two periods to products and factors, over exact numbers. */
module Attribution {
  import opened Wrappers
  import opened ProductTable

  const TOLERANCE: real := 0.000001

  function Abs(x: real): real {
    if x < 0.0 then -x else x
  }

  // ---------------------------------------------------------------- products of a period

  datatype Period = Period(netSales: real, quantity: real, salesCost: Option<real>)

  predicate ValidPeriod(p: Period, metric: Metric) {
    p.quantity > 0.0 && (p.salesCost.Some? <==> metric.GrossProfit?)
  }

  type Products = map<string, Period>

  ghost predicate ValidProducts(ps: Products, metric: Metric) {
    forall n :: n in ps ==> ValidPeriod(ps[n], metric)
  }

  function MetricOf(p: Period, metric: Metric): real {
    match metric
    case NetSales => p.netSales
    case GrossProfit => if p.salesCost.Some? then p.netSales - p.salesCost.value else 0.0
  }

  function MetricAt(ps: Products, name: string, metric: Metric): real {
    if name in ps then MetricOf(ps[name], metric) else 0.0
  }

  // ---------------------------------------------------------------- factors

  datatype Factor = Factor(name: string, amount: real)

  datatype Class = NewProduct | ExitedProduct | Continuing

  datatype Contribution = Contribution(product: string, change: real, kind: Class, factors: seq<Factor>)

  function FactorTotal(fs: seq<Factor>): real {
    if fs == [] then 0.0 else FactorTotal(fs[..|fs| - 1]) + fs[|fs| - 1].amount
  }

  function Factors(was: Period, now: Period, metric: Metric): seq<Factor>
    requires ValidPeriod(was, metric) && ValidPeriod(now, metric)
  {
    var oldPrice, newPrice := was.netSales / was.quantity, now.netSales / now.quantity;
    var mean := (was.quantity + now.quantity) / 2.0;
    match metric
    case NetSales =>
      [Factor("price", (newPrice - oldPrice) * mean),
       Factor("volume", (now.quantity - was.quantity) * (oldPrice + newPrice) / 2.0)]
    case GrossProfit =>
      var oldCost, newCost := was.salesCost.value / was.quantity, now.salesCost.value / now.quantity;
      [Factor("price", (newPrice - oldPrice) * mean),
       Factor("volume", (now.quantity - was.quantity) * ((oldPrice - oldCost) + (newPrice - newCost)) / 2.0),
       Factor("unit cost", -(newCost - oldCost) * mean)]
  }

  function ProductContribution(name: string, comparison: Option<Period>, current: Option<Period>,
                               metric: Metric): Result<Contribution>
    requires comparison.Some? || current.Some?
    requires comparison.Some? ==> ValidPeriod(comparison.value, metric)
    requires current.Some? ==> ValidPeriod(current.value, metric)
  {
    if comparison.None? then
      var change := MetricOf(current.value, metric);
      Ok(Contribution(name, change, NewProduct, [Factor("entry", change)]))
    else if current.None? then
      var change := -MetricOf(comparison.value, metric);
      Ok(Contribution(name, change, ExitedProduct, [Factor("exit", change)]))
    else
      var factors := Factors(comparison.value, current.value, metric);
      var change := MetricOf(current.value, metric) - MetricOf(comparison.value, metric);
      if Abs(FactorTotal(factors) - change) > TOLERANCE then Err(FactorMismatch)
      else Ok(Contribution(name, change, Continuing, factors))
  }

  // Price and volume split a change of a product of two numbers exactly.
  lemma SplitProduct(p0: real, p1: real, q0: real, q1: real)
    ensures (p1 - p0) * ((q0 + q1) / 2.0) + (q1 - q0) * (p0 + p1) / 2.0 == p1 * q1 - p0 * q0
  {
    var a := p1 * q1;
    var b := p0 * q0;
    var c := p1 * q0;
    var d := p0 * q1;
    assert (p1 - p0) * (q0 + q1) == c + a - b - d;
    assert (q1 - q0) * (p0 + p1) == d + a - b - c;
    assert (p1 - p0) * ((q0 + q1) / 2.0) == (p1 - p0) * (q0 + q1) / 2.0;
  }

  lemma DivideBack(n: real, q: real)
    requires q > 0.0
    ensures n / q * q == n
  {
  }

  lemma TotalOfTwo(a: Factor, b: Factor)
    ensures FactorTotal([a, b]) == a.amount + b.amount
  {
    assert [a, b][..1] == [a];
    assert [a][..0] == [];
    assert FactorTotal([a]) == a.amount;
  }

  lemma TotalOfThree(a: Factor, b: Factor, c: Factor)
    ensures FactorTotal([a, b, c]) == a.amount + b.amount + c.amount
  {
    assert [a, b, c][..2] == [a, b];
    TotalOfTwo(a, b);
  }

  /** The factors of a continuing product sum exactly to its change. */
  lemma FactorsExact(was: Period, now: Period, metric: Metric)
    requires ValidPeriod(was, metric) && ValidPeriod(now, metric)
    ensures FactorTotal(Factors(was, now, metric)) == MetricOf(now, metric) - MetricOf(was, metric)
  {
    var q0, q1 := was.quantity, now.quantity;
    var p0, p1 := was.netSales / q0, now.netSales / q1;
    var fs := Factors(was, now, metric);
    DivideBack(was.netSales, q0);
    DivideBack(now.netSales, q1);
    SplitProduct(p0, p1, q0, q1);
    match metric
    case NetSales => TotalOfTwo(fs[0], fs[1]);
    case GrossProfit =>
      var c0, c1 := was.salesCost.value / q0, now.salesCost.value / q1;
      DivideBack(was.salesCost.value, q0);
      DivideBack(now.salesCost.value, q1);
      SplitProduct(c0, c1, q0, q1);
      TotalOfThree(fs[0], fs[1], fs[2]);
      SplitVolume(p0, p1, c0, c1, q0, q1);
  }

  /**
   * The split is the symmetric one: read backwards, every factor changes its sign only; and a factor is nothing
   * when the quantity, the price or the unit cost that it stands for has not changed.
   */
  lemma FactorsSymmetric(was: Period, now: Period, metric: Metric)
    requires ValidPeriod(was, metric) && ValidPeriod(now, metric)
    ensures var fs, back := Factors(was, now, metric), Factors(now, was, metric);
            && |fs| == |back| == (if metric.GrossProfit? then 3 else 2)
            && fs[0].name == "price" && fs[1].name == "volume"
            && (metric.GrossProfit? ==> fs[2].name == "unit cost")
            && (forall i :: 0 <= i < |fs| ==> back[i].name == fs[i].name && back[i].amount == -fs[i].amount)
            && (was.netSales / was.quantity == now.netSales / now.quantity ==> fs[0].amount == 0.0)
            && (was.quantity == now.quantity ==> fs[1].amount == 0.0)
            && (metric.GrossProfit? && was.salesCost.value / was.quantity == now.salesCost.value / now.quantity ==>
                  fs[2].amount == 0.0)
  {
    var q0, q1 := was.quantity, now.quantity;
    var p0, p1 := was.netSales / q0, now.netSales / q1;
    var mean := (q0 + q1) / 2.0;
    assert (q1 + q0) / 2.0 == mean;
    Turned(p0, p1, mean);
    match metric
    case NetSales =>
      assert p1 + p0 == p0 + p1;
      TurnedVolume(q0, q1, p0 + p1);
    case GrossProfit =>
      var c0, c1 := was.salesCost.value / q0, now.salesCost.value / q1;
      assert (p1 - c1) + (p0 - c0) == (p0 - c0) + (p1 - c1);
      TurnedVolume(q0, q1, (p0 - c0) + (p1 - c1));
      Turned(c0, c1, mean);
  }

  // A difference that is turned round
  lemma Turned(a: real, b: real, m: real)
    ensures (a - b) * m == -((b - a) * m) && -(a - b) * m == -(-(b - a) * m)
    ensures a == b ==> (b - a) * m == 0.0 && -(b - a) * m == 0.0
  {
    var x := (b - a) * m;
    assert (a - b) * m == -x && -(b - a) * m == -x;
  }

  lemma TurnedVolume(a: real, b: real, x: real)
    ensures (a - b) * x / 2.0 == -((b - a) * x / 2.0)
    ensures a == b ==> (b - a) * x / 2.0 == 0.0
  {
    Turned(a, b, x);
  }

  lemma SplitVolume(p0: real, p1: real, c0: real, c1: real, q0: real, q1: real)
    ensures (q1 - q0) * ((p0 - c0) + (p1 - c1)) / 2.0 == (q1 - q0) * (p0 + p1) / 2.0 - (q1 - q0) * (c0 + c1) / 2.0
    ensures -(c1 - c0) * ((q0 + q1) / 2.0) == -((c1 - c0) * ((q0 + q1) / 2.0))
  {
    var q := q1 - q0;
    assert q * ((p0 - c0) + (p1 - c1)) == q * (p0 + p1) - q * (c0 + c1);
  }

  /** The check of a product's factors never fails, and every product contributes exactly its change. */
  lemma ContributionExact(name: string, comparison: Option<Period>, current: Option<Period>, metric: Metric)
    requires comparison.Some? || current.Some?
    requires comparison.Some? ==> ValidPeriod(comparison.value, metric)
    requires current.Some? ==> ValidPeriod(current.value, metric)
    ensures var r := ProductContribution(name, comparison, current, metric);
            && r.Ok? && r.value.product == name
            && r.value.change == (if current.Some? then MetricOf(current.value, metric) else 0.0)
                                 - (if comparison.Some? then MetricOf(comparison.value, metric) else 0.0)
            && FactorTotal(r.value.factors) == r.value.change
  {
    if comparison.Some? && current.Some? {
      FactorsExact(comparison.value, current.value, metric);
    } else {
      var f := ProductContribution(name, comparison, current, metric).value.factors[0];
      assert [f][..0] == [];
    }
  }

  // ---------------------------------------------------------------- the rows of a period

  // What is wrong with a row, in the order of the checks
  function RowFault(e: Entry, metric: Metric): Option<AttributionError> {
    if e.Misshapen? then Some(RowShapeInvalid)
    else if e.name.None? then Some(ProductNameInvalid)
    else if e.netSales.None? || e.quantity.None? || (metric.GrossProfit? && e.salesCost.None?) then Some(NumericInvalid)
    else if e.quantity.value <= 0.0 then Some(QuantityInvalid)
    else None
  }

  predicate EntryOk(e: Entry, metric: Metric) {
    RowFault(e, metric).None?
  }

  ghost predicate RowsOk(rows: seq<Entry>, metric: Metric) {
    forall i :: 0 <= i < |rows| ==> EntryOk(rows[i], metric)
  }

  ghost predicate FirstFault(rows: seq<Entry>, metric: Metric, e: AttributionError) {
    exists i :: 0 <= i < |rows| && RowFault(rows[i], metric) == Some(e) && RowsOk(rows[..i], metric)
  }

  function PeriodOf(e: Entry, metric: Metric): Period
    requires EntryOk(e, metric)
  {
    Period(e.netSales.value, e.quantity.value, if metric.GrossProfit? then e.salesCost else None)
  }

  function Combine(a: Period, b: Period): Period {
    Period(a.netSales + b.netSales, a.quantity + b.quantity,
           if a.salesCost.Some? && b.salesCost.Some? then Some(a.salesCost.value + b.salesCost.value) else None)
  }

  // What all rows contribute to the metric
  ghost function RowsTotal(rows: seq<Entry>, metric: Metric): real
    requires RowsOk(rows, metric)
  {
    if rows == [] then 0.0
    else RowsTotal(rows[..|rows| - 1], metric) + MetricOf(PeriodOf(rows[|rows| - 1], metric), metric)
  }

  datatype Part = SalesPart | QuantityPart | CostPart

  function PartOf(e: Entry, part: Part): real {
    match e
    case Misshapen => 0.0
    case Entry(_, sales, quantity, cost) =>
      match part
      case SalesPart => sales.GetOr(0.0)
      case QuantityPart => quantity.GetOr(0.0)
      case CostPart => cost.GetOr(0.0)
  }

  predicate Names(e: Entry, n: string) {
    e.Entry? && e.name == Some(n)
  }

  // The sum over the rows of one product
  function SumFor(rows: seq<Entry>, n: string, part: Part): real {
    if rows == [] then 0.0
    else
      var e := rows[|rows| - 1];
      SumFor(rows[..|rows| - 1], n, part) + if Names(e, n) then PartOf(e, part) else 0.0
  }

  function OwnSum(rows: seq<Entry>, n: string, metric: Metric): Period {
    Period(SumFor(rows, n, SalesPart), SumFor(rows, n, QuantityPart),
           if metric.GrossProfit? then Some(SumFor(rows, n, CostPart)) else None)
  }

  // Every product has the sums over its own rows.
  ghost predicate OwnSums(ps: Products, rows: seq<Entry>, metric: Metric) {
    forall n :: n in ps ==> ps[n] == OwnSum(rows, n, metric)
  }

  lemma {:induction false} SumAbsent(rows: seq<Entry>, n: string, part: Part)
    requires forall i :: 0 <= i < |rows| ==> !Names(rows[i], n)
    ensures SumFor(rows, n, part) == 0.0
  {
    if rows != [] {
      SumAbsent(rows[..|rows| - 1], n, part);
    }
  }

  lemma SumNext(rows: seq<Entry>, e: Entry, n: string, part: Part)
    ensures SumFor(rows + [e], n, part) == SumFor(rows, n, part) + if Names(e, n) then PartOf(e, part) else 0.0
  {
    assert (rows + [e])[..|rows|] == rows;
  }

  lemma OwnNext(ps: Products, rows: seq<Entry>, e: Entry, metric: Metric)
    requires OwnSums(ps, rows, metric) && EntryOk(e, metric) && RowsOk(rows, metric)
    requires forall n :: n in ps <==> exists i :: 0 <= i < |rows| && rows[i].name == Some(n)
    ensures var n, p := e.name.value, PeriodOf(e, metric);
            OwnSums(ps[n := if n in ps then Combine(ps[n], p) else p], rows + [e], metric)
  {
    hide SumFor;
    var m, p := e.name.value, PeriodOf(e, metric);
    var ps' := ps[m := if m in ps then Combine(ps[m], p) else p];
    forall n | n in ps'
      ensures ps'[n] == OwnSum(rows + [e], n, metric)
    {
      SumNext(rows, e, n, SalesPart);
      SumNext(rows, e, n, QuantityPart);
      SumNext(rows, e, n, CostPart);
      if n !in ps {
        SumAbsent(rows, n, SalesPart);
        SumAbsent(rows, n, QuantityPart);
        SumAbsent(rows, n, CostPart);
      }
    }
  }

  // What the rows of a table add up to, product by product and in total
  ghost predicate SumsUp(ps: Products, rows: seq<Entry>, metric: Metric) {
    && RowsOk(rows, metric) && ValidProducts(ps, metric)
    && (forall n :: n in ps <==> exists i :: 0 <= i < |rows| && rows[i].name == Some(n))
    && OwnSums(ps, rows, metric)
    && Total(ps, ps.Keys, metric) == RowsTotal(rows, metric)
  }

  /** The rows determine the products. */
  lemma OneSum(a: Products, b: Products, rows: seq<Entry>, metric: Metric)
    requires SumsUp(a, rows, metric) && SumsUp(b, rows, metric)
    ensures a == b
  {
    hide OwnSum, Total, RowsTotal, EntryOk, ValidPeriod;
    assert forall n :: n in a <==> n in b;
  }

  /** Rows of the same product are added up, each to its own product, and every quantity stays positive. */
  method AddRows(rows: seq<Entry>, metric: Metric) returns (r: Result<Products>)
    ensures r.Ok? <==> RowsOk(rows, metric)
    ensures r.Ok? ==> SumsUp(r.value, rows, metric)
    ensures r.Err? ==> FirstFault(rows, metric, r.error)
  {
    hide MetricOf, Total, ValidPeriod, OwnSum, Combine;
    var products: Products := map[];
    NothingYet(metric);
    assert products.Keys == {} && rows[..0] == [];
    for i := 0 to |rows|
      invariant RowsOk(rows[..i], metric)
      invariant ValidProducts(products, metric)
      invariant forall n :: n in products <==> exists k :: 0 <= k < i && rows[k].name == Some(n)
      invariant OwnSums(products, rows[..i], metric)
      invariant Total(products, products.Keys, metric) == RowsTotal(rows[..i], metric)
    {
      var e := rows[i];
      if e.Misshapen? {
        return Err(RowShapeInvalid);
      }
      if e.name.None? {
        return Err(ProductNameInvalid);
      }
      if e.netSales.None? || e.quantity.None? || (metric.GrossProfit? && e.salesCost.None?) {
        return Err(NumericInvalid);
      }
      if e.quantity.value <= 0.0 {
        return Err(QuantityInvalid);
      }
      var current := Period(e.netSales.value, e.quantity.value, if metric.GrossProfit? then e.salesCost else None);
      AddPeriod(products, e.name.value, current, metric);
      OwnNext(products, rows[..i], e, metric);
      assert rows[..i + 1] == rows[..i] + [e] && rows[..i + 1][..i] == rows[..i];
      products := products[e.name.value := if e.name.value in products then Combine(products[e.name.value], current)
                           else current];
    }
    assert rows[..|rows|] == rows;
    r := Ok(products);
  }

  ghost predicate TableOk(t: Table, naming: Naming, metric: Metric) {
    ColumnsOk(t.columns, naming, metric) && RowsOk(EntriesOf(t, naming, metric), metric)
  }

  ghost predicate TableFault(t: Table, naming: Naming, metric: Metric, e: AttributionError) {
    if ColumnsOk(t.columns, naming, metric) then FirstFault(EntriesOf(t, naming, metric), metric, e)
    else ColumnFault(t.columns, naming, metric, e)
  }

  /** The products of a table: its rows, read through the columns that its titles name. */
  method ProductValues(t: Table, naming: Naming, metric: Metric) returns (r: Result<Products>)
    ensures r.Ok? <==> TableOk(t, naming, metric)
    ensures r.Ok? ==> SumsUp(r.value, EntriesOf(t, naming, metric), metric)
    ensures r.Err? ==> TableFault(t, naming, metric, r.error)
  {
    hide SumsUp, FirstFault, RowsOk, ColumnFault, ColumnsOk, ColumnOf;
    var at := FindColumns(t.columns, naming, metric);
    if at.Err? {
      return Err(at.error);
    }
    assert at.value == Columns(t.columns, naming, metric);
    r := AddRows(EntriesAt(t, at.value), metric);
  }

  // ---------------------------------------------------------------- totals

  // The metric of the named products together
  ghost function Total(ps: Products, names: set<string>, metric: Metric): real {
    if names == {} then 0.0
    else
      var n :| n in names;
      Total(ps, names - {n}, metric) + MetricAt(ps, n, metric)
  }

  lemma {:induction false} TotalWithout(ps: Products, names: set<string>, metric: Metric, n: string)
    requires n in names
    ensures Total(ps, names, metric) == Total(ps, names - {n}, metric) + MetricAt(ps, n, metric)
  {
    hide MetricAt;
    var m :| m in names && Total(ps, names, metric) == Total(ps, names - {m}, metric) + MetricAt(ps, m, metric);
    if m != n {
      TotalWithout(ps, names - {m}, metric, n);
      TotalWithout(ps, names - {n}, metric, m);
      assert names - {m} - {n} == names - {n} - {m};
    }
  }

  lemma {:induction false} TotalSame(ps: Products, ps': Products, names: set<string>, metric: Metric)
    requires forall n :: n in names ==> MetricAt(ps', n, metric) == MetricAt(ps, n, metric)
    ensures Total(ps', names, metric) == Total(ps, names, metric)
  {
    hide MetricAt;
    if names != {} {
      var n :| n in names;
      TotalWithout(ps, names, metric, n);
      TotalWithout(ps', names, metric, n);
      TotalSame(ps, ps', names - {n}, metric);
    }
  }

  // Products that are not there add nothing.
  lemma {:induction false} TotalMore(ps: Products, names: set<string>, more: set<string>, metric: Metric)
    requires ps.Keys <= names
    ensures Total(ps, names + more, metric) == Total(ps, names, metric)
    decreases more
  {
    if more == {} {
      assert names + more == names;
    } else {
      var n :| n in more;
      TotalMore(ps, names, more - {n}, metric);
      if n in names {
        assert names + (more - {n}) == names + more;
      } else {
        TotalWithout(ps, names + more, metric, n);
        assert names + more - {n} == names + (more - {n});
      }
    }
  }

  lemma NothingYet(metric: Metric)
    ensures Total(map[], {}, metric) == 0.0
  {
  }

  lemma CombineMetric(a: Period, b: Period, metric: Metric)
    requires ValidPeriod(a, metric) && ValidPeriod(b, metric)
    ensures ValidPeriod(Combine(a, b), metric)
            && MetricOf(Combine(a, b), metric) == MetricOf(a, metric) + MetricOf(b, metric)
  {
  }

  lemma AddPeriod(ps: Products, n: string, p: Period, metric: Metric)
    requires ValidProducts(ps, metric) && p.quantity > 0.0 && (p.salesCost.Some? <==> metric.GrossProfit?)
    ensures var ps' := ps[n := if n in ps then Combine(ps[n], p) else p];
            && ValidProducts(ps', metric)
            && Total(ps', ps'.Keys, metric) == Total(ps, ps.Keys, metric) + MetricOf(p, metric)
  {
    hide MetricOf;
    var ps' := ps[n := if n in ps then Combine(ps[n], p) else p];
    if n in ps {
      CombineMetric(ps[n], p, metric);
      TotalWithout(ps, ps.Keys, metric, n);
    }
    TotalWithout(ps', ps'.Keys, metric, n);
    TotalSame(ps, ps', ps.Keys - {n}, metric);
    assert ps'.Keys - {n} == ps.Keys - {n};
    assert n !in ps ==> ps.Keys - {n} == ps.Keys;
  }

  // ---------------------------------------------------------------- order

  // Strings are compared code point by code point.
  predicate Less(a: string, b: string) {
    b != [] && (a == [] || a[0] < b[0] || (a[0] == b[0] && Less(a[1..], b[1..])))
  }

  // The texts agree up to there, and then the first one ends or has the smaller character.
  ghost predicate Splits(a: string, b: string, k: nat) {
    && k <= |a| && k < |b| && a[..k] == b[..k] && (k == |a| || a[k] < b[k])
  }

  /** The order of the names is the lexicographic one. */
  lemma {:induction false} LessExact(a: string, b: string)
    ensures Less(a, b) <==> exists k: nat :: Splits(a, b, k)
  {
    if Less(a, b) {
      if a != [] && a[0] == b[0] {
        LessExact(a[1..], b[1..]);
        var k: nat :| Splits(a[1..], b[1..], k);
        assert a[..k + 1] == [a[0]] + a[1..][..k] && b[..k + 1] == [b[0]] + b[1..][..k];
        assert Splits(a, b, k + 1);
      } else {
        assert Splits(a, b, 0);
      }
    }
    if k: nat :| Splits(a, b, k) {
      if k > 0 {
        assert a[0] == a[..k][0] == b[..k][0] == b[0];
        assert a[1..][..k - 1] == a[..k][1..] && b[1..][..k - 1] == b[..k][1..];
        assert Splits(a[1..], b[1..], k - 1);
        LessExact(a[1..], b[1..]);
      }
    }
  }

  lemma {:induction false} LessTotal(a: string, b: string)
    ensures a == b || Less(a, b) || Less(b, a)
    ensures !(Less(a, b) && Less(b, a)) && !Less(a, a)
  {
    if a != [] && b != [] && a[0] == b[0] {
      LessTotal(a[1..], b[1..]);
      assert a == [a[0]] + a[1..] && b == [b[0]] + b[1..];
    }
    if a != [] {
      LessTotal(a[1..], a[1..]);
    }
  }

  lemma {:induction false} LessTransitive(a: string, b: string, c: string)
    requires Less(a, b) && Less(b, c)
    ensures Less(a, c)
  {
    if a != [] && a[0] == b[0] && b[0] == c[0] {
      LessTransitive(a[1..], b[1..], c[1..]);
    }
  }

  ghost predicate SortedNames(names: seq<string>) {
    forall i, j :: 0 <= i < j < |names| ==> Less(names[i], names[j])
  }

  // Where a name belongs in a sorted list
  method Place(names: seq<string>, n: string) returns (at: nat)
    requires SortedNames(names) && n !in names
    ensures at <= |names| && SortedNames(names[..at] + [n] + names[at..])
  {
    at := 0;
    while at < |names| && Less(names[at], n)
      invariant at <= |names| && forall i :: 0 <= i < at ==> Less(names[i], n)
    {
      at := at + 1;
    }
    PlaceSorted(names, n, at);
  }

  lemma PlaceSorted(names: seq<string>, n: string, at: nat)
    requires SortedNames(names) && n !in names && at <= |names|
    requires (forall i :: 0 <= i < at ==> Less(names[i], n)) && (at < |names| ==> !Less(names[at], n))
    ensures SortedNames(names[..at] + [n] + names[at..])
  {
    var all := names[..at] + [n] + names[at..];
    forall i | at <= i < |names|
      ensures Less(n, names[i])
    {
      LessTotal(names[at], n);
      if at < i {
        LessTransitive(n, names[at], names[i]);
      }
    }
    forall i, j | 0 <= i < j < |all|
      ensures Less(all[i], all[j])
    {
      assert i < at ==> all[i] == names[i];
      assert i > at ==> all[i] == names[i - 1];
      assert j > at ==> all[j] == names[j - 1];
      assert j < at ==> all[j] == names[j];
    }
  }

  method Sorted(s: set<string>) returns (names: seq<string>)
    ensures SortedNames(names) && forall n :: n in names <==> n in s
  {
    names := [];
    var rest := s;
    while rest != {}
      invariant rest <= s && SortedNames(names) && forall n :: n in names <==> n in s && n !in rest
      decreases rest
    {
      var n :| n in rest;
      var at := Place(names, n);
      assert names == names[..at] + names[at..];
      names := names[..at] + [n] + names[at..];
      rest := rest - {n};
    }
  }

  // ---------------------------------------------------------------- contributions

  function ChangeTotal(cs: seq<Contribution>): real {
    if cs == [] then 0.0 else ChangeTotal(cs[..|cs| - 1]) + cs[|cs| - 1].change
  }

  // A product's change between the periods; a product that is missing in one counts as zero there.
  function ChangeAt(comparison: Products, current: Products, n: string, metric: Metric): real {
    MetricAt(current, n, metric) - MetricAt(comparison, n, metric)
  }

  ghost predicate Contributes(c: Contribution, comparison: Products, current: Products, n: string, metric: Metric) {
    && c.product == n && c.change == ChangeAt(comparison, current, n, metric)
    && FactorTotal(c.factors) == c.change
    && (c.kind.NewProduct? <==> n !in comparison) && (c.kind.ExitedProduct? <==> n !in current)
    && (c.kind.Continuing? ==>
          && ValidPeriod(comparison[n], metric) && ValidPeriod(current[n], metric)
          && c.factors == Factors(comparison[n], current[n], metric))
    && (!c.kind.Continuing? ==> |c.factors| == 1)
  }

  // One contribution for each product of either period, in the order of their names
  ghost predicate Contributions(cs: seq<Contribution>, comparison: Products, current: Products, metric: Metric) {
    && (forall i :: 0 <= i < |cs| ==> Contributes(cs[i], comparison, current, cs[i].product, metric))
    && (forall i, j :: 0 <= i < j < |cs| ==> Less(cs[i].product, cs[j].product))
    && (forall n :: n in comparison || n in current <==> exists i :: 0 <= i < |cs| && cs[i].product == n)
  }

  lemma NameOfContribution(comparison: Products, current: Products, n: string, metric: Metric)
    requires ValidProducts(comparison, metric) && ValidProducts(current, metric) && (n in comparison || n in current)
    ensures var a := if n in comparison then Some(comparison[n]) else None;
            var b := if n in current then Some(current[n]) else None;
            var r := ProductContribution(n, a, b, metric);
            r.Ok? && Contributes(r.value, comparison, current, n, metric)
  {
    hide MetricOf, Factors;
    var a := if n in comparison then Some(comparison[n]) else None;
    var b := if n in current then Some(current[n]) else None;
    ContributionExact(n, a, b, metric);
  }

  method Contribute(comparison: Products, current: Products, metric: Metric) returns (r: Result<seq<Contribution>>)
    requires ValidProducts(comparison, metric) && ValidProducts(current, metric)
    ensures r.Ok? && Contributions(r.value, comparison, current, metric)
  {
    hide Less, ProductContribution, Contributes;
    var names := Sorted(comparison.Keys + current.Keys);
    var cs: seq<Contribution> := [];
    for i := 0 to |names|
      invariant |cs| == i
      invariant forall k :: 0 <= k < i ==>
                  cs[k].product == names[k] && Contributes(cs[k], comparison, current, names[k], metric)
    {
      var n := names[i];
      assert n in names;
      NameOfContribution(comparison, current, n, metric);
      var c := ProductContribution(n, if n in comparison then Some(comparison[n]) else None,
                                   if n in current then Some(current[n]) else None, metric);
      ProductOf(c.value, comparison, current, n, metric);
      cs := cs + [c.value];
    }
    AllContributed(cs, names, comparison, current, metric);
    r := Ok(cs);
  }

  lemma AllContributed(cs: seq<Contribution>, names: seq<string>, comparison: Products, current: Products,
                       metric: Metric)
    requires SortedNames(names) && forall n :: n in names <==> n in comparison || n in current
    requires |cs| == |names|
    requires forall k :: 0 <= k < |cs| ==>
               cs[k].product == names[k] && Contributes(cs[k], comparison, current, names[k], metric)
    ensures Contributions(cs, comparison, current, metric)
  {
    hide Less, Contributes;
    forall n | n in comparison || n in current
      ensures exists i :: 0 <= i < |cs| && cs[i].product == n
    {
      assert n in names;
      var i :| 0 <= i < |names| && names[i] == n;
      assert cs[i].product == n;
    }
    forall i | 0 <= i < |cs|
      ensures cs[i].product in comparison || cs[i].product in current
    {
      assert names[i] in names;
    }
  }

  lemma ProductOf(c: Contribution, comparison: Products, current: Products, n: string, metric: Metric)
    requires Contributes(c, comparison, current, n, metric)
    ensures c.product == n
  {
  }

  // The names of a list of contributions
  function NamesOf(cs: seq<Contribution>): set<string> {
    set c | c in cs :: c.product
  }

  lemma {:induction false} ChangesSum(cs: seq<Contribution>, comparison: Products, current: Products, metric: Metric)
    requires forall i :: 0 <= i < |cs| ==> Contributes(cs[i], comparison, current, cs[i].product, metric)
    requires forall i, j :: 0 <= i < j < |cs| ==> cs[i].product != cs[j].product
    ensures ChangeTotal(cs) == Total(current, NamesOf(cs), metric) - Total(comparison, NamesOf(cs), metric)
  {
    hide MetricAt;
    if cs == [] {
      assert NamesOf(cs) == {};
    } else {
      var init, c := cs[..|cs| - 1], cs[|cs| - 1];
      ChangesSum(init, comparison, current, metric);
      assert cs == init + [c];
      assert NamesOf(cs) == NamesOf(init) + {c.product};
      assert c.product !in NamesOf(init);
      assert NamesOf(cs) - {c.product} == NamesOf(init);
      TotalWithout(current, NamesOf(cs), metric, c.product);
      TotalWithout(comparison, NamesOf(cs), metric, c.product);
    }
  }

  lemma NamesAll(cs: seq<Contribution>, comparison: Products, current: Products, metric: Metric)
    requires Contributions(cs, comparison, current, metric)
    ensures NamesOf(cs) == comparison.Keys + current.Keys
  {
    hide Less, Contributes;
    forall n
      ensures n in NamesOf(cs) <==> n in comparison || n in current
    {
      if n in NamesOf(cs) {
        var c :| c in cs && c.product == n;
        var i :| 0 <= i < |cs| && cs[i] == c;
        assert cs[i].product == n;
      }
      if n in comparison || n in current {
        var i :| 0 <= i < |cs| && cs[i].product == n;
        assert cs[i] in cs;
      }
    }
  }

  lemma NamesDistinct(cs: seq<Contribution>, comparison: Products, current: Products, metric: Metric)
    requires Contributions(cs, comparison, current, metric)
    ensures forall i, j :: 0 <= i < j < |cs| ==> cs[i].product != cs[j].product
    ensures forall i :: 0 <= i < |cs| ==> Contributes(cs[i], comparison, current, cs[i].product, metric)
  {
    hide Less, Contributes;
    forall i, j | 0 <= i < j < |cs|
      ensures cs[i].product != cs[j].product
    {
      LessTotal(cs[i].product, cs[j].product);
    }
  }

  /** Conservation: the contributions of all products sum exactly to the difference of the period totals. */
  lemma Conservation(cs: seq<Contribution>, comparison: Products, current: Products, metric: Metric)
    requires Contributions(cs, comparison, current, metric)
    ensures ChangeTotal(cs) == Total(current, current.Keys, metric) - Total(comparison, comparison.Keys, metric)
  {
    hide Contributions, Contributes, NamesOf, Total;
    NamesAll(cs, comparison, current, metric);
    NamesDistinct(cs, comparison, current, metric);
    ChangesSum(cs, comparison, current, metric);
    TotalMore(current, current.Keys, comparison.Keys, metric);
    TotalMore(comparison, comparison.Keys, current.Keys, metric);
    assert current.Keys + comparison.Keys == comparison.Keys + current.Keys;
  }

  // ---------------------------------------------------------------- the top list

  // Bigger changes first; equal ones by name
  predicate Ahead(a: Contribution, b: Contribution) {
    Abs(a.change) > Abs(b.change) || (Abs(a.change) == Abs(b.change) && Less(a.product, b.product))
  }

  lemma AheadOrder(a: Contribution, b: Contribution, c: Contribution)
    ensures a.product != b.product ==> Ahead(a, b) || Ahead(b, a)
    ensures !(Ahead(a, b) && Ahead(b, a))
    ensures Ahead(a, b) && Ahead(b, c) ==> Ahead(a, c)
  {
    LessTotal(a.product, b.product);
    if Less(a.product, b.product) && Less(b.product, c.product) {
      LessTransitive(a.product, b.product, c.product);
    }
  }

  // The change points the same way as the total.
  predicate Same(c: Contribution, total: real) {
    (total > 0.0 && c.change > 0.0) || (total < 0.0 && c.change < 0.0)
  }

  ghost predicate Ranked(cs: seq<Contribution>) {
    forall i, j :: 0 <= i < j < |cs| ==> Ahead(cs[i], cs[j])
  }

  lemma RankedInsert(cs: seq<Contribution>, c: Contribution, at: nat)
    requires Ranked(cs) && at <= |cs| && (forall i :: 0 <= i < |cs| ==> cs[i].product != c.product)
    requires (forall i :: 0 <= i < at ==> Ahead(cs[i], c)) && (at < |cs| ==> !Ahead(cs[at], c))
    ensures Ranked(cs[..at] + [c] + cs[at..])
  {
    hide Ahead;
    var all := cs[..at] + [c] + cs[at..];
    forall i | at <= i < |cs|
      ensures Ahead(c, cs[i])
    {
      AheadOrder(cs[at], c, c);
      if at < i {
        AheadOrder(c, cs[at], cs[i]);
      }
    }
    forall i, j | 0 <= i < j < |all|
      ensures Ahead(all[i], all[j])
    {
      assert i < at ==> all[i] == cs[i];
      assert i > at ==> all[i] == cs[i - 1];
      assert j > at ==> all[j] == cs[j - 1];
      assert j < at ==> all[j] == cs[j];
    }
  }

  method Rank(cs: seq<Contribution>, total: real) returns (ranked: seq<Contribution>)
    requires forall i, j :: 0 <= i < j < |cs| ==> cs[i].product != cs[j].product
    ensures Ranked(ranked) && forall c :: c in ranked <==> c in cs && Same(c, total)
  {
    hide Ahead, Same;
    ranked := [];
    for i := 0 to |cs|
      invariant Ranked(ranked) && forall c :: c in ranked <==> c in cs[..i] && Same(c, total)
    {
      assert cs[..i + 1] == cs[..i] + [cs[i]];
      if Same(cs[i], total) {
        var at := 0;
        while at < |ranked| && Ahead(ranked[at], cs[i])
          invariant at <= |ranked| && forall k :: 0 <= k < at ==> Ahead(ranked[k], cs[i])
        {
          at := at + 1;
        }
        forall k | 0 <= k < |ranked|
          ensures ranked[k].product != cs[i].product
        {
          assert ranked[k] in cs[..i];
          var j :| 0 <= j < i && cs[j] == ranked[k];
        }
        RankedInsert(ranked, cs[i], at);
        assert ranked == ranked[..at] + ranked[at..];
        ranked := ranked[..at] + [cs[i]] + ranked[at..];
      }
    }
    assert cs[..|cs|] == cs;
  }

  // The first three of the products that move with the total
  ghost predicate TopOf(top: seq<Contribution>, cs: seq<Contribution>, total: real) {
    && |top| <= 3 && Ranked(top)
    && (forall c :: c in top ==> c in cs && Same(c, total))
    && (forall c, d :: c in top && d in cs && d !in top && Same(d, total) ==> Ahead(c, d))
    && (|top| < 3 ==> forall d :: d in cs && Same(d, total) ==> d in top)
  }

  method TopProducts(cs: seq<Contribution>, total: real) returns (top: seq<Contribution>)
    requires forall i, j :: 0 <= i < j < |cs| ==> cs[i].product != cs[j].product
    ensures TopOf(top, cs, total)
  {
    hide Ahead, Same;
    var ranked := Rank(cs, total);
    top := if |ranked| > 3 then ranked[..3] else ranked;
    forall c, d | c in top && d in cs && d !in top && Same(d, total)
      ensures Ahead(c, d)
    {
      assert d in ranked;
      var i :| 0 <= i < |top| && top[i] == c;
      var j :| 0 <= j < |ranked| && ranked[j] == d;
      assert j >= |top|;
    }
  }

  /**
   * The main products are at most three, move the way the total does, stand in the order of the size of their change
   * and then of their names, and none of those left out comes before them.
   */
  lemma TopExact(top: seq<Contribution>, cs: seq<Contribution>, total: real)
    requires TopOf(top, cs, total)
    ensures forall c :: c in top ==> c in cs && if total > 0.0 then c.change > 0.0 else c.change < 0.0
    ensures total == 0.0 ==> top == []
    ensures forall i, j :: 0 <= i < j < |top| ==>
              if total > 0.0 then top[i].change >= top[j].change else top[i].change <= top[j].change
    ensures forall i, j :: 0 <= i < j < |top| && top[i].change == top[j].change ==>
              exists k: nat :: Splits(top[i].product, top[j].product, k)
    ensures forall c, d :: c in top && d in cs && d !in top && (d.change > 0.0 <==> total > 0.0) && d.change != 0.0 ==>
              if total > 0.0 then c.change >= d.change else c.change <= d.change
  {
    hide Less, Splits;
    forall a: string, b: string | Less(a, b)
      ensures exists k: nat :: Splits(a, b, k)
    {
      LessExact(a, b);
    }
    assert forall i :: 0 <= i < |top| ==> top[i] in top;
    assert top != [] ==> Same(top[0], total);
  }

  lemma {:induction false} SomeMoves(cs: seq<Contribution>, total: real)
    requires total != 0.0 && (if total > 0.0 then ChangeTotal(cs) > 0.0 else ChangeTotal(cs) < 0.0)
    ensures exists c :: c in cs && Same(c, total)
  {
    var init, last := cs[..|cs| - 1], cs[|cs| - 1];
    assert cs == init + [last];
    if !Same(last, total) {
      SomeMoves(init, total);
      var c :| c in init && Same(c, total);
      assert c in cs;
    }
  }

  // ---------------------------------------------------------------- the calculation

  datatype TaskId = ComparisonOverall | CurrentOverall | ComparisonProducts | CurrentProducts | OtherTask(name: string)

  // A task's result: the single value of an overall task, when it has that shape, and product rows
  datatype Evidence = Evidence(completed: bool, truncated: bool, overall: Option<Option<real>>, table: Table)

  datatype Report = Report(metric: Metric, comparisonValue: real, currentValue: real, totalChange: real,
                           products: seq<Contribution>, top: seq<Contribution>)

  function Overall(e: Evidence): Result<real> {
    match e.overall
    case None => Err(OverallShapeInvalid)
    case Some(None) => Err(NumericInvalid)
    case Some(Some(v)) => Ok(v)
  }

  const EXPECTED: set<TaskId> := {ComparisonOverall, CurrentOverall, ComparisonProducts, CurrentProducts}

  predicate Usable(tasks: map<TaskId, Evidence>) {
    forall id :: id in EXPECTED ==>
      id in tasks && tasks[id].completed && !tasks[id].truncated
  }

  // The sum over the rows of a table
  ghost function TableTotal(t: Table, naming: Naming, metric: Metric): real
    requires TableOk(t, naming, metric)
  {
    RowsTotal(EntriesOf(t, naming, metric), metric)
  }

  // The evidence is complete and readable.
  ghost predicate Readable(metric: Metric, naming: Naming, tasks: map<TaskId, Evidence>) {
    && Usable(tasks)
    && Overall(tasks[ComparisonOverall]).Ok? && Overall(tasks[CurrentOverall]).Ok?
    && TableOk(tasks[ComparisonProducts].table, naming, metric) && TableOk(tasks[CurrentProducts].table, naming, metric)
  }

  // By how much the products of a period miss its overall value
  ghost function GapBefore(metric: Metric, naming: Naming, tasks: map<TaskId, Evidence>): real
    requires Readable(metric, naming, tasks)
  {
    TableTotal(tasks[ComparisonProducts].table, naming, metric) - Overall(tasks[ComparisonOverall]).value
  }

  ghost function GapAfter(metric: Metric, naming: Naming, tasks: map<TaskId, Evidence>): real
    requires Readable(metric, naming, tasks)
  {
    TableTotal(tasks[CurrentProducts].table, naming, metric) - Overall(tasks[CurrentOverall]).value
  }

  /** Each period adds up within the tolerance, and so does the change between them. */
  ghost predicate Reconciled(metric: Metric, naming: Naming, tasks: map<TaskId, Evidence>) {
    && Readable(metric, naming, tasks)
    && Abs(GapBefore(metric, naming, tasks)) <= TOLERANCE && Abs(GapAfter(metric, naming, tasks)) <= TOLERANCE
    && Abs(GapAfter(metric, naming, tasks) - GapBefore(metric, naming, tasks)) <= TOLERANCE
  }

  // Both periods add up within the tolerance, but their two gaps together exceed it.
  ghost predicate Drifts(metric: Metric, naming: Naming, tasks: map<TaskId, Evidence>) {
    && Readable(metric, naming, tasks)
    && Abs(GapBefore(metric, naming, tasks)) <= TOLERANCE && Abs(GapAfter(metric, naming, tasks)) <= TOLERANCE
    && TOLERANCE < Abs(GapAfter(metric, naming, tasks) - GapBefore(metric, naming, tasks)) <= 2.0 * TOLERANCE
  }

  // What each refusal means
  ghost predicate Refused(e: AttributionError, metric: Metric, naming: Naming, tasks: seq<(TaskId, Evidence)>) {
    var results := Index(tasks);
    match e
    case TaskResultsIncomplete => |results| != |tasks| || exists id :: id in EXPECTED && id !in results
    case TaskResultIncomplete => EXPECTED <= results.Keys && !Usable(results)
    case TotalChangeMismatch => Drifts(metric, naming, results)
    case PeriodTotalMismatch =>
      && Readable(metric, naming, results)
      && (Abs(GapBefore(metric, naming, results)) > TOLERANCE || Abs(GapAfter(metric, naming, results)) > TOLERANCE)
    case FactorMismatch => false
    case CostMissing => false
    case _ => Usable(results) && Unreadable(metric, naming, results, e)
  }

  /**
   * The attribution of a change: every product of either period contributes exactly its own
   * change, split exactly into its factors, all contributions together are the difference of the
   * row totals, and the list of main products is led by the largest that move with the total.
   */
  method CalculateProductAttribution(metric: Metric, naming: Naming, tasks: seq<(TaskId, Evidence)>)
    returns (r: Result<Report>)
    ensures r.Ok? <==> |Index(tasks)| == |tasks| && Reconciled(metric, naming, Index(tasks))
    ensures r.Ok? ==> Attributed(r.value, metric, naming, Index(tasks))
    ensures r.Err? ==> Refused(r.error, metric, naming, tasks)
  {
    hide *;
    var results := Index(tasks);
    if |results| != |tasks| || ComparisonOverall !in results || CurrentOverall !in results
       || ComparisonProducts !in results || CurrentProducts !in results
    {
      TasksMissing(metric, naming, tasks);
      return Err(TaskResultsIncomplete);
    }
    TasksPresent(results);
    if !Usable(results) {
      TasksUnusable(metric, naming, tasks);
      return Err(TaskResultIncomplete);
    }
    var comparisonValue := Overall(results[ComparisonOverall]);
    if comparisonValue.Err? {
      UnreadableIs(metric, naming, results, comparisonValue.error);
      TasksUnreadable(metric, naming, tasks, comparisonValue.error);
      return Err(comparisonValue.error);
    }
    var currentValue := Overall(results[CurrentOverall]);
    if currentValue.Err? {
      UnreadableIs(metric, naming, results, currentValue.error);
      TasksUnreadable(metric, naming, tasks, currentValue.error);
      return Err(currentValue.error);
    }
    var comparison := ProductValues(results[ComparisonProducts].table, naming, metric);
    if comparison.Err? {
      UnreadableIs(metric, naming, results, comparison.error);
      TasksUnreadable(metric, naming, tasks, comparison.error);
      return Err(comparison.error);
    }
    var current := ProductValues(results[CurrentProducts].table, naming, metric);
    if current.Err? {
      UnreadableIs(metric, naming, results, current.error);
      TasksUnreadable(metric, naming, tasks, current.error);
      return Err(current.error);
    }
    var before := SumValues(comparison.value, metric);
    var after := SumValues(current.value, metric);
    Gaps(metric, naming, tasks, comparison.value, current.value);
    if !Close(before, comparisonValue.value) || !Close(after, currentValue.value) {
      return Err(PeriodTotalMismatch);
    }
    var contributions := Contribute(comparison.value, current.value, metric);
    var products := contributions.value;
    Conservation(products, comparison.value, current.value, metric);
    NamesDistinct(products, comparison.value, current.value, metric);
    var totalChange := currentValue.value - comparisonValue.value;
    var productsChange := SumChanges(products);
    if !Close(productsChange, totalChange) {
      return Err(TotalChangeMismatch);
    }
    var top := TopProducts(products, totalChange);
    TopNotEmpty(top, products, totalChange);
    r := Ok(Report(metric, comparisonValue.value, currentValue.value, totalChange, products, top));
    AttributedIntro(r.value, comparison.value, current.value, metric, naming, results);
  }

  // The reconciliation of two amounts
  predicate Close(a: real, b: real) {
    Abs(a - b) <= TOLERANCE
  }

  lemma TasksMissing(metric: Metric, naming: Naming, tasks: seq<(TaskId, Evidence)>)
    requires var results := Index(tasks);
             || |results| != |tasks| || ComparisonOverall !in results || CurrentOverall !in results
             || ComparisonProducts !in results || CurrentProducts !in results
    ensures Refused(TaskResultsIncomplete, metric, naming, tasks)
    ensures !(|Index(tasks)| == |tasks| && Reconciled(metric, naming, Index(tasks)))
  {
    hide TableOk, GapBefore, GapAfter, Index;
    assert ComparisonOverall in EXPECTED && CurrentOverall in EXPECTED && ComparisonProducts in EXPECTED
      && CurrentProducts in EXPECTED;
  }

  lemma TasksPresent(results: map<TaskId, Evidence>)
    ensures ComparisonOverall in results && CurrentOverall in results && ComparisonProducts in results
            && CurrentProducts in results
            <==> EXPECTED <= results.Keys
    ensures Usable(results) ==> EXPECTED <= results.Keys
  {
  }

  lemma TasksUnusable(metric: Metric, naming: Naming, tasks: seq<(TaskId, Evidence)>)
    requires EXPECTED <= Index(tasks).Keys && !Usable(Index(tasks))
    ensures Refused(TaskResultIncomplete, metric, naming, tasks) && !Reconciled(metric, naming, Index(tasks))
  {
    hide TableOk, GapBefore, GapAfter, Index;
  }

  // The first of the overall values and tables that cannot be read, in the order in which they are
  ghost predicate Unreadable(metric: Metric, naming: Naming, tasks: map<TaskId, Evidence>, e: AttributionError)
    requires Usable(tasks)
  {
    if Overall(tasks[ComparisonOverall]).Err? then Overall(tasks[ComparisonOverall]) == Err(e)
    else if Overall(tasks[CurrentOverall]).Err? then Overall(tasks[CurrentOverall]) == Err(e)
    else if !TableOk(tasks[ComparisonProducts].table, naming, metric) then
      TableFault(tasks[ComparisonProducts].table, naming, metric, e)
    else TableFault(tasks[CurrentProducts].table, naming, metric, e)
  }

  lemma UnreadableIs(metric: Metric, naming: Naming, tasks: map<TaskId, Evidence>, e: AttributionError)
    requires Usable(tasks)
    ensures var a, b := Overall(tasks[ComparisonOverall]), Overall(tasks[CurrentOverall]);
            var x, y := tasks[ComparisonProducts].table, tasks[CurrentProducts].table;
            && (a == Err(e) ==> Unreadable(metric, naming, tasks, e))
            && (a.Ok? && b == Err(e) ==> Unreadable(metric, naming, tasks, e))
            && (a.Ok? && b.Ok? && !TableOk(x, naming, metric) && TableFault(x, naming, metric, e) ==>
                  Unreadable(metric, naming, tasks, e))
            && (a.Ok? && b.Ok? && TableOk(x, naming, metric) && TableFault(y, naming, metric, e) ==>
                  Unreadable(metric, naming, tasks, e))
  {
    hide TableOk, TableFault;
  }

  lemma TasksUnreadable(metric: Metric, naming: Naming, tasks: seq<(TaskId, Evidence)>, e: AttributionError)
    requires Usable(Index(tasks)) && Unreadable(metric, naming, Index(tasks), e)
    ensures Refused(e, metric, naming, tasks) && !Reconciled(metric, naming, Index(tasks))
  {
    hide TableOk, TableFault, GapBefore, GapAfter, Index;
    var results := Index(tasks);
    FaultyTable(results[ComparisonProducts].table, naming, metric, e);
    FaultyTable(results[CurrentProducts].table, naming, metric, e);
  }

  lemma FaultyTable(t: Table, naming: Naming, metric: Metric, e: AttributionError)
    ensures TableFault(t, naming, metric, e) ==>
              && !TableOk(t, naming, metric)
              && e in {ProductColumnAmbiguous, MetricColumnAmbiguous, ColumnsInvalid, RowShapeInvalid,
                       ProductNameInvalid, NumericInvalid, QuantityInvalid}
  {
    if TableFault(t, naming, metric, e) {
      FaultKinds(t, naming, metric, e);
      if ColumnsOk(t.columns, naming, metric) {
        FaultyRows(EntriesOf(t, naming, metric), metric, e);
      }
    }
  }

  lemma FaultyRows(rows: seq<Entry>, metric: Metric, e: AttributionError)
    requires FirstFault(rows, metric, e)
    ensures !RowsOk(rows, metric)
  {
    var i :| 0 <= i < |rows| && RowFault(rows[i], metric) == Some(e) && RowsOk(rows[..i], metric);
    assert !EntryOk(rows[i], metric);
  }

  // What the three checks of the totals compare
  lemma Gaps(metric: Metric, naming: Naming, tasks: seq<(TaskId, Evidence)>, comparison: Products, current: Products)
    requires Usable(Index(tasks))
    requires var results := Index(tasks);
             && Overall(results[ComparisonOverall]).Ok? && Overall(results[CurrentOverall]).Ok?
             && TableOk(results[ComparisonProducts].table, naming, metric)
             && TableOk(results[CurrentProducts].table, naming, metric)
             && SumsUp(comparison, EntriesOf(results[ComparisonProducts].table, naming, metric), metric)
             && SumsUp(current, EntriesOf(results[CurrentProducts].table, naming, metric), metric)
    ensures var results := Index(tasks);
            var was, now := Overall(results[ComparisonOverall]).value, Overall(results[CurrentOverall]).value;
            var before, after := Total(comparison, comparison.Keys, metric), Total(current, current.Keys, metric);
            && Readable(metric, naming, results)
            && (Reconciled(metric, naming, results) <==>
                Close(before, was) && Close(after, now) && Close(after - before, now - was))
            && (!(Close(before, was) && Close(after, now)) ==> Refused(PeriodTotalMismatch, metric, naming, tasks))
            && (Close(before, was) && Close(after, now) && !Close(after - before, now - was) ==>
                  Refused(TotalChangeMismatch, metric, naming, tasks))
            && before == TableTotal(results[ComparisonProducts].table, naming, metric)
            && after == TableTotal(results[CurrentProducts].table, naming, metric)
            && ValidProducts(comparison, metric) && ValidProducts(current, metric)
  {
    hide TableOk, TableFault, TableTotal, SumsUp, Total, Index, ValidProducts, EntriesOf, ColumnsOk, Abs;
    var results := Index(tasks);
    SumsTo(comparison, results[ComparisonProducts].table, naming, metric);
    SumsTo(current, results[CurrentProducts].table, naming, metric);
    TwoGaps(GapBefore(metric, naming, results), GapAfter(metric, naming, results));
  }

  lemma TwoGaps(a: real, b: real)
    ensures Abs(a) <= TOLERANCE && Abs(b) <= TOLERANCE ==> Abs(b - a) <= 2.0 * TOLERANCE
  {
  }

  // What a report says about its evidence
  ghost predicate Attributed(r: Report, metric: Metric, naming: Naming, tasks: map<TaskId, Evidence>) {
    && r.metric == metric && Readable(metric, naming, tasks)
    && r.comparisonValue == Overall(tasks[ComparisonOverall]).value
    && r.currentValue == Overall(tasks[CurrentOverall]).value
    && r.totalChange == r.currentValue - r.comparisonValue
    && ChangeTotal(r.products) == TableTotal(tasks[CurrentProducts].table, naming, metric)
                                  - TableTotal(tasks[ComparisonProducts].table, naming, metric)
    && (exists comparison, current ::
          && SumsUp(comparison, EntriesOf(tasks[ComparisonProducts].table, naming, metric), metric)
          && SumsUp(current, EntriesOf(tasks[CurrentProducts].table, naming, metric), metric)
          && Contributions(r.products, comparison, current, metric))
    && TopOf(r.top, r.products, r.totalChange)
    && (Abs(r.totalChange) > TOLERANCE ==> r.top != [])
  }

  lemma AttributedIntro(r: Report, comparison: Products, current: Products, metric: Metric, naming: Naming,
                        tasks: map<TaskId, Evidence>)
    requires r.metric == metric && Readable(metric, naming, tasks)
    requires r.comparisonValue == Overall(tasks[ComparisonOverall]).value
    requires r.currentValue == Overall(tasks[CurrentOverall]).value
    requires r.totalChange == r.currentValue - r.comparisonValue
    requires ChangeTotal(r.products) == TableTotal(tasks[CurrentProducts].table, naming, metric)
                                        - TableTotal(tasks[ComparisonProducts].table, naming, metric)
    requires SumsUp(comparison, EntriesOf(tasks[ComparisonProducts].table, naming, metric), metric)
    requires SumsUp(current, EntriesOf(tasks[CurrentProducts].table, naming, metric), metric)
    requires Contributions(r.products, comparison, current, metric)
    requires TopOf(r.top, r.products, r.totalChange) && (Abs(r.totalChange) > TOLERANCE ==> r.top != [])
    ensures Attributed(r, metric, naming, tasks)
  {
    hide Readable, SumsUp, Contributions, TopOf, TableTotal;
  }

  lemma SumsTo(ps: Products, t: Table, naming: Naming, metric: Metric)
    requires TableOk(t, naming, metric) && SumsUp(ps, EntriesOf(t, naming, metric), metric)
    ensures ValidProducts(ps, metric) && Total(ps, ps.Keys, metric) == TableTotal(t, naming, metric)
  {
  }

  // The faults of a table are its own.
  lemma FaultKinds(t: Table, naming: Naming, metric: Metric, e: AttributionError)
    requires TableFault(t, naming, metric, e)
    ensures e in {ProductColumnAmbiguous, MetricColumnAmbiguous, ColumnsInvalid, RowShapeInvalid, ProductNameInvalid,
                  NumericInvalid, QuantityInvalid}
  {
  }

  function Index(tasks: seq<(TaskId, Evidence)>): map<TaskId, Evidence> {
    if tasks == [] then map[] else Index(tasks[..|tasks| - 1])[tasks[|tasks| - 1].0 := tasks[|tasks| - 1].1]
  }

  method SumValues(ps: Products, metric: Metric) returns (total: real)
    ensures total == Total(ps, ps.Keys, metric)
  {
    hide MetricAt;
    total := 0.0;
    var rest := ps.Keys;
    while rest != {}
      invariant rest <= ps.Keys && total + Total(ps, rest, metric) == Total(ps, ps.Keys, metric)
      decreases rest
    {
      var n :| n in rest;
      TotalWithout(ps, rest, metric, n);
      total := total + MetricAt(ps, n, metric);
      rest := rest - {n};
    }
  }

  method SumChanges(cs: seq<Contribution>) returns (total: real)
    ensures total == ChangeTotal(cs)
  {
    total := 0.0;
    for i := 0 to |cs|
      invariant total == ChangeTotal(cs[..i])
    {
      assert cs[..i + 1][..i] == cs[..i];
      total := total + cs[i].change;
    }
    assert cs[..|cs|] == cs;
  }

  lemma TopNotEmpty(top: seq<Contribution>, cs: seq<Contribution>, total: real)
    requires TopOf(top, cs, total) && Close(ChangeTotal(cs), total)
    ensures Abs(total) > TOLERANCE ==> top != []
  {
    hide Ahead, Same;
    if Abs(total) > TOLERANCE {
      SomeMoves(cs, total);
      var c :| c in cs && Same(c, total);
      assert |top| < 3 ==> c in top;
    }
  }

  // Two periods without products, whose totals are off by less than the tolerance in opposite directions
  function DriftTasks(columns: seq<string>): map<TaskId, Evidence> {
    map[ComparisonOverall := Evidence(true, false, Some(Some(0.0000008)), Table([], [])),
        CurrentOverall := Evidence(true, false, Some(Some(-0.0000008)), Table([], [])),
        ComparisonProducts := Evidence(true, false, None, Table(columns, [])),
        CurrentProducts := Evidence(true, false, None, Table(columns, []))]
  }

  /** Both periods can pass their own check while the total change fails: the gaps add up. */
  lemma DriftHappens(metric: Metric, naming: Naming, columns: seq<string>)
    requires ColumnsOk(columns, naming, metric)
    ensures Drifts(metric, naming, DriftTasks(columns))
  {
    hide ColumnsOk;
  }
}
