/**
 * The dashboard's edits to the bucket map: delete, move between buckets,
 * append, bulk address change, single-field row edit, and writing route
 * positions. Each rebuilds one or two buckets and leaves the rest alone.
 */
module DeliveryActions {
  import opened Seqs
  import opened Values
  import opened Records
  import RouteParser

  /** `!ids.includes(d.id)`. */
  function NotListed(ids: seq<JsId>): Delivery -> bool {
    (d: Delivery) => d.id !in ids
  }

  /** `ids.includes(d.id)`. */
  function Listed(ids: seq<JsId>): Delivery -> bool {
    (d: Delivery) => d.id in ids
  }

  function IdOf(d: Delivery): JsId {
    d.id
  }

  /**
   * `handleDelete`: the bucket keeps the records whose id is not listed, in
   * order, and its selection is cleared. Indexing a missing bucket throws in
   * the source, so the bucket must exist.
   */
  function Delete(b: Buckets, sel: Selection, ids: seq<JsId>, tab: string): (r: (Buckets, Selection))
    requires tab in b
    ensures r.0.Keys == b.Keys
    ensures forall k :: k in b && k != tab ==> r.0[k] == b[k]
    ensures forall i :: 0 <= i < |r.0[tab]| ==> r.0[tab][i].id !in ids
    ensures IsSubsequence(r.0[tab], b[tab])
    ensures forall d :: multiset(r.0[tab])[d] == if d.id in ids then 0 else multiset(b[tab])[d]
    ensures r.1 == sel[tab := []]
  {
    var kept := Filter(b[tab], NotListed(ids));
    FilterSubsequence(b[tab], NotListed(ids));
    assert forall d :: multiset(kept)[d] == if d.id in ids then 0 else multiset(b[tab])[d] by {
      forall d ensures multiset(kept)[d] == if d.id in ids then 0 else multiset(b[tab])[d] {
        FilterMultiplicity(b[tab], NotListed(ids), d);
      }
    }
    (b[tab := kept], sel[tab := []])
  }

  /** A record survives a delete exactly when it was in the bucket and its id is not listed. */
  lemma {:induction false} DeleteMembers(b: Buckets, sel: Selection, ids: seq<JsId>, tab: string, d: Delivery)
    requires tab in b
    ensures d in Delete(b, sel, ids, tab).0[tab] <==> d in b[tab] && d.id !in ids
  {
    FilterMembers(b[tab], NotListed(ids), d);
  }

  /**
   * `handleMove`: the listed records leave `from` and are appended to `to` in
   * their order in `from`. Both updates are computed from the map before the
   * move, and when `from == to` the second wins.
   */
  function Move(b: Buckets, sel: Selection, ids: seq<JsId>, from: string, to: string): (r: (Buckets, Selection))
    requires from in b && to in b
    ensures r.0.Keys == b.Keys
    ensures forall k :: k in b && k != from && k != to ==> r.0[k] == b[k]
    ensures r.0[to] == b[to] + Filter(b[from], Listed(ids))
    ensures from != to ==> r.0[from] == Filter(b[from], NotListed(ids))
    ensures r.1 == sel[from := []]
  {
    var moved := Filter(b[from], Listed(ids));
    (b[from := Filter(b[from], NotListed(ids))][to := b[to] + moved], sel[from := []])
  }

  /** Between two different buckets a move loses and duplicates nothing: the two buckets hold the same records as before. */
  lemma {:induction false} MovePreservesRecords(b: Buckets, sel: Selection, ids: seq<JsId>, from: string, to: string)
    requires from in b && to in b && from != to
    ensures var r := Move(b, sel, ids, from, to).0;
            && multiset(r[from]) + multiset(r[to]) == multiset(b[from]) + multiset(b[to])
            && |r[from]| + |r[to]| == |b[from]| + |b[to]|
  {
    FilterSplitMultiset(b[from], Listed(ids), NotListed(ids));
    var r := Move(b, sel, ids, from, to).0;
    assert multiset(r[to]) == multiset(b[to]) + multiset(Filter(b[from], Listed(ids)));
    assert |multiset(r[from]) + multiset(r[to])| == |multiset(b[from]) + multiset(b[to])|;
  }

  /** Moving a bucket onto itself keeps every record and appends the listed ones again. */
  lemma {:induction false} MoveOntoItselfDuplicates(b: Buckets, sel: Selection, ids: seq<JsId>, tab: string)
    requires tab in b
    ensures Move(b, sel, ids, tab, tab).0[tab] == b[tab] + Filter(b[tab], Listed(ids))
  {
  }

  /** `handleAddCustom`: the record is appended, whatever its id. */
  function AddCustom(b: Buckets, tab: string, d: Delivery): (r: Buckets)
    requires tab in b
    ensures r.Keys == b.Keys
    ensures forall k :: k in b && k != tab ==> r[k] == b[k]
    ensures |r[tab]| == |b[tab]| + 1 && r[tab][..|b[tab]|] == b[tab] && r[tab][|b[tab]|] == d
  {
    b[tab := b[tab] + [d]]
  }

  function WithAddress(ids: seq<JsId>, address: string): Delivery -> Delivery {
    (d: Delivery) => if d.id in ids then d.(address := address) else d
  }

  /** `handleBulkUpdateAddress`: listed records get the new address; nothing else changes. */
  function BulkUpdateAddress(b: Buckets, ids: seq<JsId>, tab: string, address: string): (r: Buckets)
    requires tab in b
    ensures r.Keys == b.Keys
    ensures forall k :: k in b && k != tab ==> r[k] == b[k]
    ensures |r[tab]| == |b[tab]|
    ensures forall i :: 0 <= i < |b[tab]| ==>
              r[tab][i] == (if b[tab][i].id in ids then b[tab][i].(address := address) else b[tab][i])
  {
    b[tab := Map(WithAddress(ids, address), b[tab])]
  }

  /** The fields a row edit can name: the grid's two editable columns. */
  datatype EditableField = CustomerField | AddressField

  function SetField(d: Delivery, field: EditableField, value: string): Delivery {
    match field
    case CustomerField => d.(customer := value)
    case AddressField => d.(address := value)
  }

  function WithField(id: JsId, field: EditableField, value: string): Delivery -> Delivery {
    (d: Delivery) => if d.id == id then SetField(d, field, value) else d
  }

  /** `handleUpdateRow`: records with the given id get the field set; nothing else changes. */
  function UpdateRow(b: Buckets, id: JsId, tab: string, field: EditableField, value: string): (r: Buckets)
    requires tab in b
    ensures r.Keys == b.Keys
    ensures forall k :: k in b && k != tab ==> r[k] == b[k]
    ensures |r[tab]| == |b[tab]|
    ensures forall i :: 0 <= i < |b[tab]| && b[tab][i].id != id ==> r[tab][i] == b[tab][i]
    ensures forall i :: 0 <= i < |b[tab]| && b[tab][i].id == id ==>
              r[tab][i] == SetField(b[tab][i], field, value)
  {
    b[tab := Map(WithField(id, field, value), b[tab])]
  }

  /** `handleApplySortOrder`: the bucket's records get their positions from the map, or null. */
  function ApplySortOrder(b: Buckets, tab: string, orders: map<nat, int>): (r: Buckets)
    requires tab in b
    ensures r.Keys == b.Keys
    ensures forall k :: k in b && k != tab ==> r[k] == b[k]
    ensures |r[tab]| == |b[tab]|
    ensures forall i :: 0 <= i < |b[tab]| ==> r[tab][i].sortOrder == RouteParser.SortFor(orders, b[tab][i].id)
    ensures forall i :: 0 <= i < |b[tab]| ==> r[tab][i].(sortOrder := b[tab][i].sortOrder) == b[tab][i]
  {
    b[tab := RouteParser.ApplySortOrder(b[tab], orders)]
  }

  lemma {:induction false} SameIds(s: seq<Delivery>, t: seq<Delivery>)
    requires |s| == |t| && forall i :: 0 <= i < |s| ==> s[i].id == t[i].id
    ensures Map(IdOf, s) == Map(IdOf, t)
  {
  }

  /** The edits in place (bulk address, row edit, sort order) keep every bucket's id sequence. */
  lemma {:induction false} InPlaceEditsKeepIds(b: Buckets, tab: string, ids: seq<JsId>, address: string,
                                                id: JsId, field: EditableField, value: string, orders: map<nat, int>)
    requires tab in b
    ensures Map(IdOf, BulkUpdateAddress(b, ids, tab, address)[tab]) == Map(IdOf, b[tab])
    ensures Map(IdOf, UpdateRow(b, id, tab, field, value)[tab]) == Map(IdOf, b[tab])
    ensures Map(IdOf, ApplySortOrder(b, tab, orders)[tab]) == Map(IdOf, b[tab])
  {
    SameIds(BulkUpdateAddress(b, ids, tab, address)[tab], b[tab]);
    SameIds(UpdateRow(b, id, tab, field, value)[tab], b[tab]);
    var r := ApplySortOrder(b, tab, orders)[tab];
    forall i | 0 <= i < |r| ensures r[i].id == b[tab][i].id {
      assert r[i].(sortOrder := b[tab][i].sortOrder) == b[tab][i];
    }
    SameIds(r, b[tab]);
  }

  /** A bulk address change on ids that were then deleted leaves no trace: delete after update equals delete alone, address aside. */
  lemma {:induction false} DeleteAfterBulkUpdate(b: Buckets, sel: Selection, ids: seq<JsId>, tab: string, address: string)
    requires tab in b
    ensures Delete(BulkUpdateAddress(b, ids, tab, address), sel, ids, tab) == Delete(b, sel, ids, tab)
  {
    var s := b[tab];
    var u := Map(WithAddress(ids, address), s);
    BulkThenFilter(s, ids, address);
    assert BulkUpdateAddress(b, ids, tab, address)[tab := Filter(u, NotListed(ids))] == b[tab := Filter(s, NotListed(ids))];
  }

  lemma {:induction false} BulkThenFilter(s: seq<Delivery>, ids: seq<JsId>, address: string)
    ensures Filter(Map(WithAddress(ids, address), s), NotListed(ids)) == Filter(s, NotListed(ids))
    decreases |s|
  {
    if |s| > 0 {
      var u := Map(WithAddress(ids, address), s);
      assert u[1..] == Map(WithAddress(ids, address), s[1..]);
      BulkThenFilter(s[1..], ids, address);
    }
  }
}
