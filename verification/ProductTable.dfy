/** The columns of a product task's result: which of them hold the product and the numbers. */
module ProductTable {
  import opened Wrappers

  datatype Metric = GrossProfit | NetSales

  datatype AttributionError =
    | TaskResultsIncomplete | TaskResultIncomplete | OverallShapeInvalid | NumericInvalid
    | ProductColumnAmbiguous | MetricColumnAmbiguous | ColumnsInvalid | RowShapeInvalid
    | ProductNameInvalid | QuantityInvalid | PeriodTotalMismatch | CostMissing
    | FactorMismatch | TotalChangeMismatch

  datatype Result<+T> = Ok(value: T) | Err(error: AttributionError)

  // What a column can stand for
  datatype Role = ProductRole | SalesRole | QuantityRole | CostRole

  // A cell by its two readings: a text that is not blank, stripped; a finite number
  datatype Cell = Cell(name: Option<string>, number: Option<real>)

  datatype Table = Table(columns: seq<string>, rows: seq<seq<Cell>>)

  // The roles whose names a column title matches, once both are normalized
  type Naming = string -> set<Role>

  function Metrics(metric: Metric): set<Role> {
    if metric.GrossProfit? then {SalesRole, QuantityRole, CostRole} else {SalesRole, QuantityRole}
  }

  function Needed(metric: Metric): set<Role> {
    {ProductRole} + Metrics(metric)
  }

  predicate Holds(columns: seq<string>, naming: Naming, role: Role, i: int) {
    0 <= i < |columns| && role in naming(columns[i])
  }

  ghost predicate Twice(columns: seq<string>, naming: Naming, role: Role) {
    exists i, j :: i < j && Holds(columns, naming, role, i) && Holds(columns, naming, role, j)
  }

  ghost predicate Missing(columns: seq<string>, naming: Naming, role: Role) {
    forall i :: !Holds(columns, naming, role, i)
  }

  /** Every needed role has exactly one column. */
  ghost predicate ColumnsOk(columns: seq<string>, naming: Naming, metric: Metric) {
    forall role :: role in Needed(metric) ==>
      !Twice(columns, naming, role) && !Missing(columns, naming, role)
  }

  ghost function ColumnOf(columns: seq<string>, naming: Naming, role: Role): (i: nat)
    requires !Missing(columns, naming, role)
    ensures Holds(columns, naming, role, i)
  {
    var i :| Holds(columns, naming, role, i);
    i
  }

  // What is known of a role after the first `n` columns
  ghost predicate Found(found: map<Role, nat>, columns: seq<string>, naming: Naming, role: Role, n: nat) {
    && (role in found ==> found[role] < n && Holds(columns, naming, role, found[role]))
    && forall j :: j < n && Holds(columns, naming, role, j) ==> role in found && found[role] == j
  }

  method Visit(found: map<Role, nat>, columns: seq<string>, naming: Naming, role: Role, i: nat)
    returns (ambiguous: bool, found': map<Role, nat>)
    requires i < |columns| && Found(found, columns, naming, role, i)
    ensures ambiguous ==> Twice(columns, naming, role)
    ensures !ambiguous ==> Found(found', columns, naming, role, i + 1) && found'.Keys <= found.Keys + {role}
    ensures forall other :: other != role ==>
              (other in found' <==> other in found) && (other in found ==> found'[other] == found[other])
  {
    found' := found;
    ambiguous := false;
    assert role in naming(columns[i]) <==> Holds(columns, naming, role, i);
    if role in naming(columns[i]) {
      if role in found {
        assert Holds(columns, naming, role, found[role]);
        return true, found;
      }
      found' := found[role := i];
    }
  }

  function InOrder(metric: Metric): (r: seq<Role>)
    ensures forall role :: role in r <==> role in Metrics(metric)
    ensures |r| == if metric.GrossProfit? then 3 else 2
    ensures forall i, j :: 0 <= i < j < |r| ==> r[i] != r[j]
  {
    if metric.GrossProfit? then [SalesRole, QuantityRole, CostRole] else [SalesRole, QuantityRole]
  }

  lemma FoundElsewhere(a: map<Role, nat>, b: map<Role, nat>, columns: seq<string>, naming: Naming, role: Role, n: nat)
    requires Found(a, columns, naming, role, n)
    requires (role in b <==> role in a) && (role in a ==> b[role] == a[role])
    ensures Found(b, columns, naming, role, n)
  {
  }

  // All metrics of one column
  method VisitMetrics(found: map<Role, nat>, columns: seq<string>, naming: Naming, metric: Metric, i: nat)
    returns (ambiguous: bool, found': map<Role, nat>)
    requires i < |columns| && ProductRole !in Metrics(metric)
    requires forall role :: role in Metrics(metric) ==> Found(found, columns, naming, role, i)
    ensures ambiguous ==> exists role :: role in Metrics(metric) && Twice(columns, naming, role)
    ensures !ambiguous ==> forall role :: role in Metrics(metric) ==> Found(found', columns, naming, role, i + 1)
    ensures (ProductRole in found' <==> ProductRole in found)
            && (ProductRole in found ==> found'[ProductRole] == found[ProductRole])
    ensures found'.Keys <= found.Keys + Metrics(metric)
  {
    hide Found, Twice, Metrics, InOrder;
    var order := InOrder(metric);
    found' := found;
    for k := 0 to |order|
      invariant forall l :: 0 <= l < k ==> Found(found', columns, naming, order[l], i + 1)
      invariant forall l :: k <= l < |order| ==> Found(found', columns, naming, order[l], i)
      invariant (ProductRole in found' <==> ProductRole in found)
                && (ProductRole in found ==> found'[ProductRole] == found[ProductRole])
      invariant found'.Keys <= found.Keys + Metrics(metric)
    {
      var before := found';
      var again, next := Visit(before, columns, naming, order[k], i);
      if again {
        return true, found;
      }
      forall l | 0 <= l < |order| && l != k
        ensures Found(next, columns, naming, order[l], if l < k then i + 1 else i)
      {
        FoundElsewhere(before, next, columns, naming, order[l], if l < k then i + 1 else i);
      }
      found' := next;
    }
    ambiguous := false;
    forall role | role in Metrics(metric)
      ensures Found(found', columns, naming, role, i + 1)
    {
      var l :| 0 <= l < |order| && order[l] == role;
    }
  }

  lemma FoundAll(found: map<Role, nat>, columns: seq<string>, naming: Naming, role: Role)
    requires Found(found, columns, naming, role, |columns|)
    ensures !Twice(columns, naming, role)
    ensures role in found <==> !Missing(columns, naming, role)
    ensures role in found ==> found[role] == ColumnOf(columns, naming, role)
  {
  }

  // What is known of the needed roles after the first `n` columns
  ghost predicate Scanned(found: map<Role, nat>, columns: seq<string>, naming: Naming, metric: Metric, n: nat) {
    found.Keys <= Needed(metric) && forall role :: role in Needed(metric) ==> Found(found, columns, naming, role, n)
  }

  method VisitColumn(found: map<Role, nat>, columns: seq<string>, naming: Naming, metric: Metric, i: nat)
    returns (fault: Option<AttributionError>, found': map<Role, nat>)
    requires i < |columns| && Scanned(found, columns, naming, metric, i)
    ensures fault.None? ==> Scanned(found', columns, naming, metric, i + 1)
    ensures fault.Some? ==> ColumnFault(columns, naming, metric, fault.value) && fault.value != ColumnsInvalid
  {
    assert ProductRole !in Metrics(metric);
    hide Found, Twice, Missing, Metrics;
    var again, next := Visit(found, columns, naming, ProductRole, i);
    if again {
      return Some(ProductColumnAmbiguous), found;
    }
    forall role | role in Metrics(metric)
      ensures Found(next, columns, naming, role, i)
    {
      FoundElsewhere(found, next, columns, naming, role, i);
    }
    var unclear, all := VisitMetrics(next, columns, naming, metric, i);
    if unclear {
      return Some(MetricColumnAmbiguous), found;
    }
    FoundElsewhere(next, all, columns, naming, ProductRole, i + 1);
    return None, all;
  }

  lemma AmbiguousColumn(columns: seq<string>, naming: Naming, metric: Metric, e: AttributionError)
    requires ColumnFault(columns, naming, metric, e)
    ensures !ColumnsOk(columns, naming, metric)
  {
    hide Twice, Missing;
  }

  lemma AllScanned(found: map<Role, nat>, columns: seq<string>, naming: Naming, metric: Metric)
    requires Scanned(found, columns, naming, metric, |columns|)
    ensures found.Keys == Needed(metric) <==> ColumnsOk(columns, naming, metric)
    ensures found.Keys == Needed(metric) ==>
              forall role :: role in found ==>
                  !Missing(columns, naming, role) && found[role] == ColumnOf(columns, naming, role)
    ensures found.Keys != Needed(metric) ==> ColumnFault(columns, naming, metric, ColumnsInvalid)
  {
    hide Found, Twice, Missing, Metrics, ColumnOf;
    forall role | role in Needed(metric)
      ensures !Twice(columns, naming, role) && (role in found <==> !Missing(columns, naming, role))
      ensures role in found ==> found[role] == ColumnOf(columns, naming, role)
    {
      FoundAll(found, columns, naming, role);
    }
    if found.Keys != Needed(metric) {
      assert exists role :: role in Needed(metric) && role !in found;
    }
  }

  lemma NoneScanned(columns: seq<string>, naming: Naming, metric: Metric)
    ensures Scanned(map[], columns, naming, metric, 0)
  {
  }

  /** The columns of the needed roles: one each, or the fault. */
  method FindColumns(columns: seq<string>, naming: Naming, metric: Metric) returns (r: Result<map<Role, nat>>)
    ensures r.Ok? <==> ColumnsOk(columns, naming, metric)
    ensures r.Ok? ==>
              && r.value.Keys == Needed(metric)
              && forall role :: role in r.value ==>
                  !Missing(columns, naming, role) && r.value[role] == ColumnOf(columns, naming, role)
    ensures r.Err? ==> ColumnFault(columns, naming, metric, r.error)
  {
    hide *;
    var found: map<Role, nat> := map[];
    NoneScanned(columns, naming, metric);
    for i := 0 to |columns|
      invariant Scanned(found, columns, naming, metric, i)
    {
      var fault, next := VisitColumn(found, columns, naming, metric, i);
      if fault.Some? {
        AmbiguousColumn(columns, naming, metric, fault.value);
        return Err(fault.value);
      }
      found := next;
    }
    AllScanned(found, columns, naming, metric);
    if found.Keys != Needed(metric) {
      return Err(ColumnsInvalid);
    }
    r := Ok(found);
  }

  ghost predicate ColumnFault(columns: seq<string>, naming: Naming, metric: Metric, e: AttributionError) {
    match e
    case ProductColumnAmbiguous => Twice(columns, naming, ProductRole)
    case MetricColumnAmbiguous => exists role :: role in Metrics(metric) && Twice(columns, naming, role)
    case ColumnsInvalid =>
      && (forall role :: role in Needed(metric) ==> !Twice(columns, naming, role))
      && exists role :: role in Needed(metric) && Missing(columns, naming, role)
    case _ => false
  }

  // ---------------------------------------------------------------- rows

  // A row of a product task, read through its columns; a number is absent when the cell is not one.
  datatype Entry =
    | Misshapen
    | Entry(name: Option<string>, netSales: Option<real>, quantity: Option<real>, salesCost: Option<real>)

  function EntryOf(row: seq<Cell>, width: nat, at: map<Role, nat>): Entry
    requires {ProductRole, SalesRole, QuantityRole} <= at.Keys && forall role :: role in at ==> at[role] < width
  {
    if |row| != width then Misshapen
    else Entry(row[at[ProductRole]].name, row[at[SalesRole]].number, row[at[QuantityRole]].number,
               if CostRole in at then row[at[CostRole]].number else None)
  }

  function EntriesAt(t: Table, at: map<Role, nat>): (r: seq<Entry>)
    requires {ProductRole, SalesRole, QuantityRole} <= at.Keys && forall role :: role in at ==> at[role] < |t.columns|
    ensures |r| == |t.rows|
  {
    seq(|t.rows|, i requires 0 <= i < |t.rows| => EntryOf(t.rows[i], |t.columns|, at))
  }

  ghost function Columns(columns: seq<string>, naming: Naming, metric: Metric): (at: map<Role, nat>)
    requires ColumnsOk(columns, naming, metric)
    ensures at.Keys == Needed(metric) && forall role :: role in at ==> at[role] < |columns|
  {
    map role | role in Needed(metric) :: ColumnOf(columns, naming, role)
  }

  // The rows as the one column of each role shows them
  ghost function EntriesOf(t: Table, naming: Naming, metric: Metric): seq<Entry>
    requires ColumnsOk(t.columns, naming, metric)
  {
    EntriesAt(t, Columns(t.columns, naming, metric))
  }

  /** Each row is read through its columns: the number of a role stands in the one column whose title names it. */
  lemma EntryExact(t: Table, naming: Naming, metric: Metric, i: nat, role: Role, c: nat)
    requires ColumnsOk(t.columns, naming, metric) && i < |t.rows| && c < |t.columns| && role in naming(t.columns[c])
    requires role in Needed(metric)
    ensures var e, row := EntriesOf(t, naming, metric)[i], t.rows[i];
            && (e.Misshapen? <==> |row| != |t.columns|)
            && (e.Entry? ==>
                  match role
                  case ProductRole => e.name == row[c].name
                  case SalesRole => e.netSales == row[c].number
                  case QuantityRole => e.quantity == row[c].number
                  case CostRole => e.salesCost == row[c].number)
  {
    var k := ColumnOf(t.columns, naming, role);
    assert Holds(t.columns, naming, role, c) && Holds(t.columns, naming, role, k);
    assert k < c ==> Twice(t.columns, naming, role);
    assert c < k ==> Twice(t.columns, naming, role);
  }
}
