/**
 * The content script's extraction logic: normalising the ids scraped from the
 * deliveries table, the place-name denylist, the joined address, and sorting
 * the API records into the `ky` / `mcm` / `other` buckets.
 */
module DeliveryExtractor {
  import opened Text
  import opened Seqs
  import opened Values
  import opened Records

  /** The `delivery` object of one API list element. */
  datatype ApiDelivery = ApiDelivery(
    id: JsId,
    orderId: string,
    location: string,
    address: string,
    city1: string,
    state1: string,
    zip1: string)

  /** One element of the API list, `{delivery, customers}`; `delivery` may be missing. */
  datatype ApiItem = ApiItem(delivery: Option<ApiDelivery>, customers: string)

  /** Place names whose appearance in the city or the address forces the `other` bucket. */
  const ExcludedCities: seq<string> :=
    ["brooklyn", "linden", "staten island", "montreal", "canada", "toronto", "quebec"]

  /** The id one table link contributes: trim, drop non-digits, skip if nothing is left. */
  function ScrapedId(linkText: string): (r: Option<nat>)
    ensures r.None? <==> DigitsOf(linkText) == ""
    ensures r.Some? ==> r.value == ParseDecimal(DigitsOf(linkText))
  {
    var cleaned := DigitsOf(Trim(linkText));
    DigitsOfTrim(linkText);
    if cleaned == "" then None else Some(ParseDecimal(cleaned))
  }

  /** Some element of `xs` is mapped to `Some(n)` by `f`. */
  predicate Yields<T>(f: T -> Option<nat>, xs: seq<T>, n: nat) {
    exists i :: 0 <= i < |xs| && f(xs[i]) == Some(n)
  }

  lemma {:induction false} YieldsLast<T>(f: T -> Option<nat>, xs: seq<T>, n: nat)
    requires |xs| > 0
    ensures var k := |xs| - 1;
            Yields(f, xs, n) <==> Yields(f, xs[..k], n) || f(xs[k]) == Some(n)
  {
    var k := |xs| - 1;
    if Yields(f, xs[..k], n) {
      var i :| 0 <= i < k && f(xs[..k][i]) == Some(n);
      assert xs[..k][i] == xs[i];
    }
    if Yields(f, xs, n) {
      var i :| 0 <= i < |xs| && f(xs[i]) == Some(n);
      if i < k {
        assert xs[..k][i] == xs[i];
      }
    }
  }

  /** Some link text of the table yields `n`. */
  predicate IdScraped(linkTexts: seq<string>, n: nat) {
    Yields(ScrapedId, linkTexts, n)
  }

  /** The deduplicated id set of `extractDeliveryIdsFromTable`, one entry per table link text. */
  function ExtractDeliveryIds(linkTexts: seq<string>): (ids: set<nat>)
    ensures forall n :: n in ids <==> IdScraped(linkTexts, n)
    ensures |ids| <= |linkTexts|
    decreases |linkTexts|
  {
    if |linkTexts| == 0 then {}
    else
      var k := |linkTexts| - 1;
      var rest := ExtractDeliveryIds(linkTexts[..k]);
      var r := match ScrapedId(linkTexts[k])
        case None => rest
        case Some(n) => rest + {n};
      assert forall n :: n in r <==> IdScraped(linkTexts, n) by {
        forall n ensures n in r <==> IdScraped(linkTexts, n) {
          YieldsLast(ScrapedId, linkTexts, n);
        }
      }
      r
  }

  /** `item.delivery || {}`: a missing delivery reads as an object with no fields. */
  function DeliveryOf(item: ApiItem): ApiDelivery {
    match item.delivery
    case Some(d) => d
    case None => ApiDelivery(Undefined, "", "", "", "", "", "")
  }

  /** `entries.some(e => text.includes(e))`. */
  function SomeContained(entries: seq<string>, text: string): (r: bool)
    ensures r <==> exists i :: 0 <= i < |entries| && Contains(text, entries[i])
  {
    if |entries| == 0 then false
    else if Contains(text, entries[0]) then true
    else
      var r := SomeContained(entries[1..], text);
      assert forall i :: 1 <= i < |entries| ==> entries[i] == entries[1..][i - 1];
      r
  }

  /** A denylist entry occurs in the lower-cased city or the lower-cased address. */
  function ShouldExcludeDelivery(d: ApiDelivery): (r: bool)
    ensures r <==> exists i :: 0 <= i < |ExcludedCities|
                     && (Contains(Lower(d.city1), ExcludedCities[i]) || Contains(Lower(d.address), ExcludedCities[i]))
  {
    SomeContained(ExcludedCities, Lower(d.city1)) || SomeContained(ExcludedCities, Lower(d.address))
  }

  predicate NonEmpty(s: string) {
    s != ""
  }

  /** The present parts of address, city, state and zip, joined by ", ". */
  function BuildAddress(d: ApiDelivery): (r: string)
    ensures r == Join(Present(d.address) + Present(d.city1) + Present(d.state1) + Present(d.zip1), ", ")
  {
    FilterParts(d.address, d.city1, d.state1, d.zip1);
    Join(Filter([d.address, d.city1, d.state1, d.zip1], NonEmpty), ", ")
  }

  /**
   * The dashboard record made from one API element: the delivery's fields,
   * the joined address, the customer label with the order id, and no
   * position. An element without a delivery gives an undefined id and empty
   * text.
   */
  function Transform(item: ApiItem): (r: Delivery)
    ensures r.id == DeliveryOf(item).id && r.sortOrder == NullOrder
    ensures r.address == "" <==> DeliveryOf(item).address == "" && DeliveryOf(item).city1 == ""
                                 && DeliveryOf(item).state1 == "" && DeliveryOf(item).zip1 == ""
    ensures r.customer == "(" + item.customers + ") #" + r.orderId
    ensures item.delivery.None? ==>
              r.id == Undefined && r.orderId == "" && r.address == "" && r.customer == "(" + item.customers + ") #"
    ensures var d := DeliveryOf(item);
            r.orderId == d.orderId && r.location == d.location && r.city1 == d.city1
            && r.state1 == d.state1 && r.zip1 == d.zip1 && r.address == BuildAddress(d)
  {
    var d := DeliveryOf(item);
    BuildAddressEmpty(d);
    Delivery(
      d.id, d.orderId, d.location, BuildAddress(d), d.city1, d.state1, d.zip1,
      "(" + item.customers + ") #" + d.orderId,
      NullOrder)
  }

  /** The bucket an element lands in: the denylist first, then the lower-cased location. */
  function BucketOf(item: ApiItem): (k: string)
    ensures k in {Ky, Mcm, OtherBucket}
    ensures k == Ky <==> !ShouldExcludeDelivery(DeliveryOf(item)) && Lower(DeliveryOf(item).location) == "ky"
    ensures k == Mcm <==> !ShouldExcludeDelivery(DeliveryOf(item)) && Lower(DeliveryOf(item).location) == "mcm"
  {
    var d := DeliveryOf(item);
    if ShouldExcludeDelivery(d) then OtherBucket
    else
      var location := Lower(d.location);
      if location == "ky" then Ky
      else if location == "mcm" then Mcm
      else OtherBucket
  }

  /** Reference contents of bucket `k`: the transformed elements that belong to it, in input order. */
  function BucketContents(items: seq<ApiItem>, k: string): seq<Delivery> {
    Map(Transform, Filter(items, KeyIs(BucketOf, k)))
  }

  /**
   * `categorizeDeliveries`: each element, in order, is transformed and pushed
   * onto the bucket `BucketOf` picks; each bucket ends up holding exactly the
   * reference contents, and no other key appears.
   */
  function CategorizeDeliveries(items: seq<ApiItem>): (r: Buckets)
    ensures r.Keys == {Ky, Mcm, OtherBucket}
    ensures forall k :: k in r ==> r[k] == BucketContents(items, k)
  {
    PushAll(EmptyBuckets(), items, BucketOf, Transform)
  }

  /** Every element lands in exactly one bucket: the bucket sizes add up to the input length. */
  lemma {:induction false} BucketSizesSum(items: seq<ApiItem>)
    ensures var r := CategorizeDeliveries(items);
            |r[Ky]| + |r[Mcm]| + |r[OtherBucket]| == |items|
  {
    PartitionSizes(items, BucketOf, Ky, Mcm, OtherBucket);
  }

  /** A denylisted element goes to `other`, whatever its declared location. */
  lemma {:induction false} ExcludedGoesToOther(items: seq<ApiItem>, i: nat)
    requires i < |items|
    requires ShouldExcludeDelivery(DeliveryOf(items[i]))
    ensures Transform(items[i]) in CategorizeDeliveries(items)[OtherBucket]
    ensures BucketOf(items[i]) == OtherBucket
  {
    KeptImage(items, BucketOf, Transform, i, OtherBucket);
  }

  /** With no city and no address text, nothing is denylisted. */
  lemma {:induction false} NoTextNotExcluded(d: ApiDelivery)
    requires d.city1 == "" && d.address == ""
    ensures !ShouldExcludeDelivery(d)
  {
    forall i | 0 <= i < |ExcludedCities| ensures !Contains("", ExcludedCities[i]) {
    }
  }

  /** Location matching ignores case: "KY" goes to `ky`. */
  lemma {:induction false} UpperCaseLocation()
    ensures BucketOf(ApiItem(Some(ApiDelivery(Num(1), "", "KY", "", "", "", "")), "")) == Ky
  {
    NoTextNotExcluded(ApiDelivery(Num(1), "", "KY", "", "", "", ""));
    assert Lower("KY") == "ky";
  }

  /** Location matching is exact otherwise: " ky" and "" go to `other`. */
  lemma {:induction false} InexactLocation()
    ensures BucketOf(ApiItem(Some(ApiDelivery(Num(1), "", " ky", "", "", "", "")), "")) == OtherBucket
    ensures BucketOf(ApiItem(Some(ApiDelivery(Num(1), "", "", "", "", "", "")), "")) == OtherBucket
  {
    NoTextNotExcluded(ApiDelivery(Num(1), "", " ky", "", "", "", ""));
    NoTextNotExcluded(ApiDelivery(Num(1), "", "", "", "", "", ""));
    assert Lower(" ky")[0] == ' ';
  }

  /** Substring matching: a city called "Lindenhurst" is caught by "linden". */
  lemma LindenhurstIsExcluded()
    ensures ShouldExcludeDelivery(ApiDelivery(Num(1), "", "ky", "", "Lindenhurst", "NY", ""))
  {
    assert Lower("Lindenhurst") == "lindenhurst";
    assert "linden" <= "lindenhurst"[0..];
    assert Contains(Lower("Lindenhurst"), ExcludedCities[1]);
  }

  function Present(s: string): seq<string> {
    if s == "" then [] else [s]
  }

  lemma {:induction false} FilterParts(a: string, b: string, c: string, d: string)
    ensures Filter([a, b, c, d], NonEmpty) == Present(a) + Present(b) + Present(c) + Present(d)
  {
    assert [a, b, c, d] == [a] + [b] + [c] + [d];
    FilterAppend([a] + [b] + [c], [d], NonEmpty);
    FilterAppend([a] + [b], [c], NonEmpty);
    FilterAppend([a], [b], NonEmpty);
    FilterSingle(a, NonEmpty);
    FilterSingle(b, NonEmpty);
    FilterSingle(c, NonEmpty);
    FilterSingle(d, NonEmpty);
  }

  /** The joined address is empty exactly when all four parts are. */
  lemma {:induction false} BuildAddressEmpty(d: ApiDelivery)
    ensures BuildAddress(d) == "" <==> d.address == "" && d.city1 == "" && d.state1 == "" && d.zip1 == ""
  {
    FilterParts(d.address, d.city1, d.state1, d.zip1);
    var kept := Present(d.address) + Present(d.city1) + Present(d.state1) + Present(d.zip1);
    if |kept| > 0 {
      assert kept[0] != "";
      if |kept| > 1 {
        assert Join(kept, ", ") == kept[0] + ", " + Join(kept[1..], ", ");
      }
    }
  }

  /** With every part present the address reads "address, city, state, zip". */
  lemma {:induction false} BuildAddressAllParts(d: ApiDelivery)
    requires d.address != "" && d.city1 != "" && d.state1 != "" && d.zip1 != ""
    ensures BuildAddress(d) == d.address + ", " + d.city1 + ", " + d.state1 + ", " + d.zip1
  {
    FilterParts(d.address, d.city1, d.state1, d.zip1);
    var parts := [d.address, d.city1, d.state1, d.zip1];
    assert Present(d.address) + Present(d.city1) + Present(d.state1) + Present(d.zip1) == parts;
    assert parts[1..] == [d.city1, d.state1, d.zip1];
    assert parts[1..][1..] == [d.state1, d.zip1];
    assert parts[1..][1..][1..] == [d.zip1];
    assert Join(parts[1..][1..], ", ") == d.state1 + ", " + d.zip1;
    assert Join(parts[1..], ", ") == d.city1 + ", " + d.state1 + ", " + d.zip1;
  }

  /** A missing part leaves no empty slot between commas. */
  lemma BuildAddressSkipsMissing()
    ensures BuildAddress(ApiDelivery(Num(7), "", "", "12 Elm St", "", "NY", "11201")) == "12 Elm St, NY, 11201"
  {
    FilterParts("12 Elm St", "", "NY", "11201");
    var kept := ["12 Elm St", "NY", "11201"];
    assert Present("12 Elm St") + Present("") + Present("NY") + Present("11201") == kept;
    assert kept[1..] == ["NY", "11201"];
    assert kept[1..][1..] == ["11201"];
  }
}
