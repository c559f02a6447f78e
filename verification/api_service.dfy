/**
 * The content script's API filter: keep the API list elements whose
 * normalised id is one of the ids scraped from the table.
 */
module ApiService {
  import opened Text
  import opened Seqs
  import opened Values
  import opened DeliveryExtractor

  /**
   * `Number(String(id).replace(/\D/g, ''))`: the digits of the rendered id,
   * read in base 10; an id without digits reads as `Number('')`, which is 0.
   */
  function ApiIdValue(id: JsId): nat {
    ParseDecimal(DigitsOf(IdString(id)))
  }

  /** The keep test for one element: a delivery is present, its id is defined, and its value was scraped. */
  predicate KeepsItem(ids: set<nat>, item: ApiItem) {
    item.delivery.Some? && item.delivery.value.id != Undefined && ApiIdValue(item.delivery.value.id) in ids
  }

  function Keeps(ids: set<nat>): ApiItem -> bool {
    item => KeepsItem(ids, item)
  }

  /** `filterDeliveriesByIds`: `allDeliveries.filter(...)` with the keep test. */
  function FilterDeliveriesByIds(items: seq<ApiItem>, ids: set<nat>): (r: seq<ApiItem>)
    ensures |r| <= |items|
    ensures forall i :: 0 <= i < |r| ==> KeepsItem(ids, r[i])
  {
    Filter(items, Keeps(ids))
  }

  /** An element is in the output exactly when it is in the input and passes the keep test. */
  lemma {:induction false} FilterKeepsExactly(items: seq<ApiItem>, ids: set<nat>, x: ApiItem)
    ensures x in FilterDeliveriesByIds(items, ids) <==> x in items && KeepsItem(ids, x)
  {
    FilterMembers(items, Keeps(ids), x);
  }

  /** Elements without a delivery, or with an undefined id, are never kept. */
  lemma {:induction false} MissingIdDropped(items: seq<ApiItem>, ids: set<nat>, x: ApiItem)
    requires x.delivery.None? || x.delivery.value.id == Undefined
    ensures x !in FilterDeliveriesByIds(items, ids)
  {
    FilterKeepsExactly(items, ids, x);
  }

  /** The output is the input with elements deleted: order kept, nothing added. */
  lemma {:induction false} FilterIsSubsequence(items: seq<ApiItem>, ids: set<nat>)
    ensures IsSubsequence(FilterDeliveriesByIds(items, ids), items)
  {
    FilterSubsequence(items, Keeps(ids));
  }

  /** The decision for each element is local: filtering a concatenation filters each part. */
  lemma {:induction false} FilterConcat(a: seq<ApiItem>, b: seq<ApiItem>, ids: set<nat>)
    ensures FilterDeliveriesByIds(a + b, ids) == FilterDeliveriesByIds(a, ids) + FilterDeliveriesByIds(b, ids)
  {
    FilterAppend(a, b, Keeps(ids));
  }

  /** Reordering the input reorders the output and keeps the same elements. */
  lemma {:induction false} FilterOrderIndependent(a: seq<ApiItem>, b: seq<ApiItem>, ids: set<nat>)
    requires multiset(a) == multiset(b)
    ensures multiset(FilterDeliveriesByIds(a, ids)) == multiset(FilterDeliveriesByIds(b, ids))
  {
    FilterPermutation(a, b, Keeps(ids));
  }

  /** Filtering the result again with the same ids changes nothing. */
  lemma {:induction false} FilterDeliveriesIdempotent(items: seq<ApiItem>, ids: set<nat>)
    ensures FilterDeliveriesByIds(FilterDeliveriesByIds(items, ids), ids) == FilterDeliveriesByIds(items, ids)
  {
    FilterIdempotent(items, Keeps(ids));
  }

  /** An id without digits normalises to 0, so its element is kept exactly when 0 was scraped. */
  lemma {:induction false} DigitlessIdIsZero(id: JsId)
    requires DigitsOf(IdString(id)) == ""
    ensures ApiIdValue(id) == 0
  {
  }

  /** A `null` id renders as "null", which has no digits. */
  lemma {:induction false} NullIdIsZero()
    ensures ApiIdValue(Null) == 0
  {
    assert forall i :: 0 <= i < 4 ==> !IsDigit("null"[i]);
    assert DigitsOf("null") == "";
  }

  /** A numeric id normalises to its absolute value; the sign is a non-digit and is dropped. */
  lemma {:induction false} NumericIdValue(n: int)
    ensures ApiIdValue(Num(n)) == if n >= 0 then n else -n
  {
    var m: nat := if n >= 0 then n else -n;
    DigitsOfDigits(DecimalString(m));
    if n < 0 {
      assert IdString(Num(n)) == "-" + DecimalString(m);
      DigitsOfAppend("-", DecimalString(m));
      assert DigitsOf("-") == "";
    } else {
      assert IdString(Num(n)) == DecimalString(m);
    }
    assert DigitsOf(IdString(Num(n))) == DecimalString(m);
    ParseDecimalString(m);
  }

  /** A scraped table id matches the API element carrying the same non-negative number. */
  lemma {:induction false} ScrapedIdMatchesNumericId(linkText: string, n: nat, item: ApiItem, ids: set<nat>)
    requires ScrapedId(linkText) == Some(n) && n in ids
    requires item.delivery == Some(ApiDelivery(Num(n), "", "", "", "", "", ""))
    ensures KeepsItem(ids, item)
  {
    NumericIdValue(n);
  }

  /** A string id keeps only its digits: "101-A" reads as 101. */
  lemma {:induction false} StringIdValue()
    ensures ApiIdValue(Str("101-A")) == 101
  {
    assert DigitsOf("101-A") == "101";
    assert "101"[..2] == "10" && "10"[..1] == "1" && "1"[..0] == "";
  }

  function ItemWithId(id: JsId): ApiItem {
    ApiItem(Some(ApiDelivery(id, "", "", "", "", "", "")), "")
  }

  lemma {:induction false} KeepsFirstTwo(a: ApiItem, b: ApiItem, c: ApiItem, ids: set<nat>)
    requires KeepsItem(ids, a) && KeepsItem(ids, b) && !KeepsItem(ids, c)
    ensures FilterDeliveriesByIds([a, b, c], ids) == [a, b]
  {
    assert [a, b, c] == [a] + [b] + [c];
    FilterConcat([a] + [b], [c], ids);
    FilterConcat([a], [b], ids);
    FilterSingle(a, Keeps(ids));
    FilterSingle(b, Keeps(ids));
    FilterSingle(c, Keeps(ids));
  }

  /** Mixed id kinds: "101-A" and 102 are kept for the ids {101, 102}; 999 is dropped. */
  lemma {:induction false} MixedIdsExample(a: ApiItem, b: ApiItem, c: ApiItem)
    requires a == ItemWithId(Str("101-A")) && b == ItemWithId(Num(102)) && c == ItemWithId(Num(999))
    ensures FilterDeliveriesByIds([a, b, c], {101, 102}) == [a, b]
  {
    var ids: set<nat> := {101, 102};
    StringIdValue();
    NumericIdValue(102);
    NumericIdValue(999);
    KeepsFirstTwo(a, b, c, ids);
  }
}
