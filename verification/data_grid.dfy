/**
 * The deliveries table: the order in which it shows a tab's rows, and the
 * row-edit callback that writes the edited customer and address back.
 */
module DataGrid {
  import opened Values
  import opened Records
  import opened PrintService
  import DeliveryActions

  /**
   * The table's comparator: only `=== null` goes last; an undefined sort
   * order turns the difference into NaN, which `sort` reads as 0.
   */
  function GridCompare(a: Delivery, b: Delivery): (r: int)
    ensures Defined(a) && Defined(b) ==> r == PrintCompare(a, b)
    ensures a.sortOrder.NullOrder? && !b.sortOrder.NullOrder? ==> r > 0
    ensures !a.sortOrder.NullOrder? && !b.sortOrder.NullOrder? && !(Defined(a) && Defined(b)) ==> r == 0
  {
    if a.sortOrder.NullOrder? && b.sortOrder.NullOrder? then 0
    else if a.sortOrder.NullOrder? then 1
    else if b.sortOrder.NullOrder? then -1
    else if a.sortOrder.Order? && b.sortOrder.Order? then a.sortOrder.position - b.sortOrder.position
    else 0
  }

  /** `sortedRows`: a permutation of the rows, in print order while every sort order is defined. */
  function SortedRows(rows: seq<Delivery>): (r: seq<Delivery>)
    ensures multiset(r) == multiset(rows)
    ensures AllDefined(rows) ==> r == SortDeliveriesForPrint(rows)
  {
    SortByPermutes(GridCompare, rows);
    if AllDefined(rows) then TableOrderIsPrintOrder(rows); SortBy(GridCompare, rows)
    else SortBy(GridCompare, rows)
  }

  predicate Defined(d: Delivery) {
    !d.sortOrder.UndefinedOrder?
  }

  predicate AllDefined(s: seq<Delivery>) {
    forall i :: 0 <= i < |s| ==> Defined(s[i])
  }

  /** Without undefined sort orders the table's comparator is the print comparator. */
  lemma GridCompareIsPrintCompare(a: Delivery, b: Delivery)
    requires Defined(a) && Defined(b)
    ensures GridCompare(a, b) == PrintCompare(a, b)
  {
  }

  /** With an undefined sort order the comparator is inconsistent: 1 ~ undefined ~ 2, yet 1 < 2. */
  lemma UndefinedBreaksComparator(a: Delivery, u: Delivery, c: Delivery)
    requires a.sortOrder == Order(1) && u.sortOrder == UndefinedOrder && c.sortOrder == Order(2)
    ensures GridCompare(a, u) == 0 && GridCompare(u, c) == 0 && GridCompare(a, c) < 0
  {
  }

  lemma {:induction false} InsertAgrees(xs: seq<Delivery>, x: Delivery)
    requires Defined(x) && AllDefined(xs)
    ensures InsertBy(GridCompare, xs, x) == InsertBy(PrintCompare, xs, x)
    decreases |xs|
  {
    if |xs| > 0 {
      GridCompareIsPrintCompare(x, xs[0]);
      InsertAgrees(xs[1..], x);
    }
  }

  lemma {:induction false} AllDefinedPermutation(s: seq<Delivery>, t: seq<Delivery>)
    requires AllDefined(s) && multiset(t) == multiset(s)
    ensures AllDefined(t)
  {
    forall i | 0 <= i < |t| ensures Defined(t[i]) {
      assert t[i] in multiset(t);
    }
  }

  /**
   * As long as no row has an undefined sort order, the table shows the rows
   * in exactly the order they are printed.
   */
  lemma {:induction false} TableOrderIsPrintOrder(rows: seq<Delivery>)
    requires AllDefined(rows)
    ensures SortBy(GridCompare, rows) == SortBy(PrintCompare, rows)
    decreases |rows|
  {
    if |rows| > 0 {
      var n := |rows| - 1;
      TableOrderIsPrintOrder(rows[..n]);
      SortByPermutes(PrintCompare, rows[..n]);
      AllDefinedPermutation(rows[..n], SortBy(PrintCompare, rows[..n]));
      InsertAgrees(SortBy(PrintCompare, rows[..n]), rows[n]);
    }
  }

  /**
   * `handleProcessRowUpdate`: the edited row's customer, then its address,
   * are written to every record of the tab with its id; the row is returned
   * as edited.
   */
  function ProcessRowUpdate(b: Buckets, tab: string, newRow: Delivery): (r: (Buckets, Delivery))
    requires tab in b
    ensures r.1 == newRow
    ensures r.0.Keys == b.Keys
    ensures forall k :: k in b && k != tab ==> r.0[k] == b[k]
    ensures |r.0[tab]| == |b[tab]|
    ensures forall i :: 0 <= i < |b[tab]| && b[tab][i].id != newRow.id ==> r.0[tab][i] == b[tab][i]
    ensures forall i :: 0 <= i < |b[tab]| && b[tab][i].id == newRow.id ==>
              r.0[tab][i] == b[tab][i].(customer := newRow.customer, address := newRow.address)
  {
    var once := DeliveryActions.UpdateRow(b, newRow.id, tab, DeliveryActions.CustomerField, newRow.customer);
    (DeliveryActions.UpdateRow(once, newRow.id, tab, DeliveryActions.AddressField, newRow.address), newRow)
  }
}
