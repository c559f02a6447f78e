/**
 * The dashboard's print service: the stable sort that puts the deliveries in
 * route order before printing, and `openPrintWindow`, which asks the
 * background worker to print a list of ids.
 */
module PrintService {
  import opened Seqs
  import opened Values
  import opened Records
  import opened Messages

  /** A comparator in the sense of `Array.prototype.sort`: negative puts the first argument first. */
  type Comparator = (Delivery, Delivery) -> int

  /** The comparator of `sortDeliveriesForPrint`: `== null` (null or undefined) last, otherwise by difference. */
  function PrintCompare(a: Delivery, b: Delivery): int {
    if a.sortOrder.Order? then
      if b.sortOrder.Order? then a.sortOrder.position - b.sortOrder.position else -1
    else
      if b.sortOrder.Order? then 1 else 0
  }

  /**
   * Insert `x` before the first element that must come after it, that is
   * after every element it compares equal to.
   */
  function InsertBy(cmp: Comparator, xs: seq<Delivery>, x: Delivery): (r: seq<Delivery>)
    ensures |r| == |xs| + 1
  {
    if |xs| == 0 then [x]
    else if cmp(x, xs[0]) < 0 then [x] + xs
    else [xs[0]] + InsertBy(cmp, xs[1..], x)
  }

  /**
   * A stable sort by `cmp`: each element in turn is inserted behind the
   * equal elements already placed (ES2019 requires `sort` to be stable).
   */
  function SortBy(cmp: Comparator, s: seq<Delivery>): (r: seq<Delivery>)
    ensures |r| == |s|
  {
    if |s| == 0 then []
    else InsertBy(cmp, SortBy(cmp, s[..|s| - 1]), s[|s| - 1])
  }

  /**
   * `sortDeliveriesForPrint`: a sorted copy; the input is not touched. The
   * copy is a permutation ordered by rank in which records of equal rank keep
   * their input order.
   */
  function SortDeliveriesForPrint(deliveries: seq<Delivery>): (r: seq<Delivery>)
    ensures PrintSorted(r)
    ensures multiset(r) == multiset(deliveries)
    ensures forall rank :: Filter(r, HasRank(rank)) == Filter(deliveries, HasRank(rank))
  {
    PrintSortSorted(deliveries);
    SortByPermutes(PrintCompare, deliveries);
    assert forall rank :: Filter(SortBy(PrintCompare, deliveries), HasRank(rank)) == Filter(deliveries, HasRank(rank)) by {
      forall rank ensures Filter(SortBy(PrintCompare, deliveries), HasRank(rank)) == Filter(deliveries, HasRank(rank)) {
        PrintSortStable(deliveries, rank);
      }
    }
    SortBy(PrintCompare, deliveries)
  }

  /** Where a delivery goes in print order: at its position, or after every positioned one. */
  datatype Rank = At(position: int) | Unranked

  function RankOf(d: Delivery): Rank {
    if d.sortOrder.Order? then At(d.sortOrder.position) else Unranked
  }

  /** The total preorder the comparator implements. */
  predicate RankLe(a: Rank, b: Rank) {
    b.Unranked? || (a.At? && a.position <= b.position)
  }

  /** The comparator's sign is the rank order: it is consistent, so the sorted result is unique. */
  lemma CompareIsRankOrder(a: Delivery, b: Delivery)
    ensures PrintCompare(a, b) <= 0 <==> RankLe(RankOf(a), RankOf(b))
    ensures PrintCompare(a, b) < 0 <==> !RankLe(RankOf(b), RankOf(a))
  {
  }

  /** In print order: ranks never decrease. */
  predicate PrintSorted(s: seq<Delivery>) {
    forall i, j :: 0 <= i < j < |s| ==> RankLe(RankOf(s[i]), RankOf(s[j]))
  }

  function HasRank(r: Rank): Delivery -> bool {
    (d: Delivery) => RankOf(d) == r
  }

  /** Where `InsertBy` puts `x`: behind every element it does not precede, before the first one it does. */
  function InsertionPoint(cmp: Comparator, xs: seq<Delivery>, x: Delivery): (k: nat)
    ensures k <= |xs|
    ensures forall i :: 0 <= i < k ==> cmp(x, xs[i]) >= 0
    ensures k < |xs| ==> cmp(x, xs[k]) < 0
  {
    if |xs| == 0 || cmp(x, xs[0]) < 0 then 0
    else
      var j := InsertionPoint(cmp, xs[1..], x);
      assert forall i :: 1 <= i < j + 1 ==> xs[i] == xs[1..][i - 1];
      j + 1
  }

  /** `InsertBy` splices `x` in at its insertion point. */
  lemma {:induction false} InsertAt(cmp: Comparator, xs: seq<Delivery>, x: Delivery)
    ensures var k := InsertionPoint(cmp, xs, x);
            InsertBy(cmp, xs, x) == xs[..k] + [x] + xs[k..]
    decreases |xs|
  {
    if |xs| > 0 && cmp(x, xs[0]) >= 0 {
      var tail := xs[1..];
      var j := InsertionPoint(cmp, tail, x);
      InsertAt(cmp, tail, x);
      assert xs[..j + 1] == [xs[0]] + tail[..j];
      assert xs[j + 1..] == tail[j..];
    }
  }

  lemma {:induction false} InsertPermutes(cmp: Comparator, xs: seq<Delivery>, x: Delivery)
    ensures multiset(InsertBy(cmp, xs, x)) == multiset(xs) + multiset{x}
  {
    var k := InsertionPoint(cmp, xs, x);
    InsertAt(cmp, xs, x);
    assert xs == xs[..k] + xs[k..];
    assert multiset(xs[..k] + [x] + xs[k..]) == multiset(xs[..k]) + multiset{x} + multiset(xs[k..]);
  }

  lemma {:induction false} SortByPermutes(cmp: Comparator, s: seq<Delivery>)
    ensures multiset(SortBy(cmp, s)) == multiset(s)
    decreases |s|
  {
    if |s| > 0 {
      var n := |s| - 1;
      SortByPermutes(cmp, s[..n]);
      InsertPermutes(cmp, SortBy(cmp, s[..n]), s[n]);
      assert s == s[..n] + [s[n]];
    }
  }

  /** In a sorted list, everything from the insertion point on ranks strictly after `x`. */
  lemma {:induction false} GreaterBehind(xs: seq<Delivery>, x: Delivery)
    requires PrintSorted(xs)
    ensures var k := InsertionPoint(PrintCompare, xs, x);
            forall i :: k <= i < |xs| ==> !RankLe(RankOf(xs[i]), RankOf(x))
  {
    var k := InsertionPoint(PrintCompare, xs, x);
    if k < |xs| {
      CompareIsRankOrder(x, xs[k]);
    }
    forall i | k <= i < |xs| ensures !RankLe(RankOf(xs[i]), RankOf(x)) {
      assert RankLe(RankOf(xs[k]), RankOf(xs[i]));
    }
  }

  lemma {:induction false} MapSnoc<U>(f: Delivery -> U, s: seq<Delivery>, x: Delivery)
    ensures multiset(Map(f, s + [x])) == multiset(Map(f, s)) + multiset{f(x)}
  {
    MapAppend(f, s, [x]);
  }

  lemma {:induction false} InsertMapPermutes<U>(cmp: Comparator, f: Delivery -> U, xs: seq<Delivery>, x: Delivery)
    ensures multiset(Map(f, InsertBy(cmp, xs, x))) == multiset(Map(f, xs)) + multiset{f(x)}
  {
    var k := InsertionPoint(cmp, xs, x);
    InsertAt(cmp, xs, x);
    var a, b := xs[..k], xs[k..];
    MapAppend(f, a + [x], b);
    MapSnoc(f, a, x);
    MapAppend(f, a, b);
    assert a + b == xs;
  }

  /** Any projection of the sorted list, such as the ids, holds the same values as that of the input. */
  lemma {:induction false} SortByMapPermutes<U>(cmp: Comparator, f: Delivery -> U, s: seq<Delivery>)
    ensures multiset(Map(f, SortBy(cmp, s))) == multiset(Map(f, s))
    decreases |s|
  {
    if |s| > 0 {
      var n := |s| - 1;
      SortByMapPermutes(cmp, f, s[..n]);
      InsertMapPermutes(cmp, f, SortBy(cmp, s[..n]), s[n]);
      MapSnoc(f, s[..n], s[n]);
      assert s[..n] + [s[n]] == s;
    }
  }

  /** Inserting into a sorted list by the print comparator keeps it sorted. */
  lemma {:induction false} InsertSorted(xs: seq<Delivery>, x: Delivery)
    requires PrintSorted(xs)
    ensures PrintSorted(InsertBy(PrintCompare, xs, x))
  {
    var k := InsertionPoint(PrintCompare, xs, x);
    var r := InsertBy(PrintCompare, xs, x);
    InsertAt(PrintCompare, xs, x);
    forall i | 0 <= i < k ensures RankLe(RankOf(xs[i]), RankOf(x)) {
      CompareIsRankOrder(x, xs[i]);
    }
    GreaterBehind(xs, x);
    forall i, j | 0 <= i < j < |r| ensures RankLe(RankOf(r[i]), RankOf(r[j])) {
      if j < k || i > k {
      } else if i == k {
        assert r[j] == xs[j - 1];
      } else if j == k {
        assert r[i] == xs[i];
      } else {
        assert r[i] == xs[i] && r[j] == xs[j - 1];
      }
    }
  }

  lemma {:induction false} PrintSortSorted(s: seq<Delivery>)
    ensures PrintSorted(SortBy(PrintCompare, s))
    decreases |s|
  {
    if |s| > 0 {
      PrintSortSorted(s[..|s| - 1]);
      InsertSorted(SortBy(PrintCompare, s[..|s| - 1]), s[|s| - 1]);
    }
  }

  lemma {:induction false} FilterNone(s: seq<Delivery>, p: Delivery -> bool)
    requires forall i :: 0 <= i < |s| ==> !p(s[i])
    ensures Filter(s, p) == []
    decreases |s|
  {
    if |s| > 0 {
      FilterNone(s[1..], p);
    }
  }

  lemma {:induction false} FilterAround(a: seq<Delivery>, x: Delivery, b: seq<Delivery>, p: Delivery -> bool)
    requires p(x) ==> Filter(b, p) == []
    ensures Filter(a + [x] + b, p) == Filter(a + b, p) + Filter([x], p)
  {
    FilterAppend(a + [x], b, p);
    FilterAppend(a, [x], p);
    FilterAppend(a, b, p);
    FilterSingle(x, p);
  }

  /** Inserting by the print comparator puts `x` behind every element of its rank. */
  lemma {:induction false} InsertStable(xs: seq<Delivery>, x: Delivery, rank: Rank)
    requires PrintSorted(xs)
    ensures Filter(InsertBy(PrintCompare, xs, x), HasRank(rank)) == Filter(xs, HasRank(rank)) + Filter([x], HasRank(rank))
  {
    var p := HasRank(rank);
    GreaterBehind(xs, x);
    var k := InsertionPoint(PrintCompare, xs, x);
    InsertAt(PrintCompare, xs, x);
    if p(x) {
      FilterNone(xs[k..], p);
    }
    FilterAround(xs[..k], x, xs[k..], p);
    assert xs[..k] + xs[k..] == xs;
  }

  /** Stability: deliveries of equal rank keep their input order. */
  lemma {:induction false} PrintSortStable(s: seq<Delivery>, rank: Rank)
    ensures Filter(SortBy(PrintCompare, s), HasRank(rank)) == Filter(s, HasRank(rank))
    decreases |s|
  {
    if |s| > 0 {
      var n := |s| - 1;
      PrintSortStable(s[..n], rank);
      PrintSortSorted(s[..n]);
      InsertStable(SortBy(PrintCompare, s[..n]), s[n], rank);
      assert s == s[..n] + [s[n]];
      FilterAppend(s[..n], [s[n]], HasRank(rank));
    }
  }

  /** The result of `openPrintWindow`, the message it sends and the alert it shows. */
  datatype PrintCall = PrintCall(ok: bool, sent: Option<RuntimeMessage>, alert: Option<string>)

  const NoDeliveriesAlert := "No deliveries to print"
  const NeedsExtensionAlert := "Chrome extension is required for printing. Please install the extension."

  /**
   * `openPrintWindow`: refuses a missing or empty id list, then a page
   * without the extension API, then reports a `sendMessage` that throws;
   * otherwise sends `PRINT_ROUTE` with the ids unchanged and returns true
   * before any reply arrives.
   */
  function OpenPrintWindow(ids: Option<seq<JsId>>, tabName: string, hasRuntime: bool, sendThrows: Option<string>): (c: PrintCall)
    ensures c.ok <==> c.sent.Some?
    ensures c.ok <==> ids.Some? && |ids.value| > 0 && hasRuntime && sendThrows.None?
    ensures c.ok ==> c.sent.value == PrintRoute(PrintRequest(tabName, ids)) && c.alert.None?
    ensures !c.ok ==> c.alert.Some?
    ensures (ids.None? || ids == Some([])) ==> c.alert == Some(NoDeliveriesAlert)
  {
    if ids.None? || |ids.value| == 0 then PrintCall(false, None, Some(NoDeliveriesAlert))
    else if !hasRuntime then PrintCall(false, None, Some(NeedsExtensionAlert))
    else if sendThrows.Some? then PrintCall(false, None, Some("Failed to print: " + sendThrows.value))
    else PrintCall(true, Some(PrintRoute(PrintRequest(tabName, ids))), None)
  }

  /** The alert the reply callback shows: the runtime error, or the reply's error (or "Unknown error"). */
  function ReplyAlert(lastError: Option<string>, reply: Option<Response>): (a: Option<string>)
    ensures a.None? <==> lastError.None? && reply.Some? && Succeeded(reply.value)
  {
    if lastError.Some? then Some("Failed to open print window: " + lastError.value)
    else if reply.None? || !Succeeded(reply.value) then
      var error := if reply.Some? && reply.value.error != "" then reply.value.error else "Unknown error";
      Some("Failed to open print window: " + error)
    else None
  }
}
