/**
 * The delivery record, the bucket map the dashboard and the storage share,
 * and the persisted envelope.
 */
module Records {
  import opened Values

  /**
   * One delivery. Text fields use "" for a missing value. The extractor
   * defaults location, city, state and zip with `|| ''` but copies `orderId`
   * as it comes, so an order id the API leaves out, `undefined` in the code,
   * is "" here as well. Records made on the dashboard carry only id,
   * customer, address and sortOrder; their other fields are "".
   */
  datatype Delivery = Delivery(
    id: JsId,
    orderId: string,
    location: string,
    address: string,
    city1: string,
    state1: string,
    zip1: string,
    customer: string,
    sortOrder: SortOrder)

  /** Bucket key to the bucket's records, in display order. */
  type Buckets = map<string, seq<Delivery>>

  /** Per-bucket selected ids of the grid. */
  type Selection = map<string, seq<JsId>>

  const Ky := "ky"
  const Mcm := "mcm"
  const OtherBucket := "other"

  /** The extension's three buckets, all empty. */
  function EmptyBuckets(): (b: Buckets)
    ensures b.Keys == {Ky, Mcm, OtherBucket}
    ensures forall k :: k in b ==> b[k] == []
  {
    map[Ky := [], Mcm := [], OtherBucket := []]
  }

  const StorageVersion := 1

  /** The persisted record: schema version, ISO timestamp, buckets. */
  datatype Envelope = Envelope(version: int, timestamp: string, deliveries: Buckets)

  /** Every envelope the system writes has the current schema version. */
  function NewEnvelope(timestamp: string, deliveries: Buckets): (e: Envelope)
    ensures e.version == StorageVersion
    ensures e.timestamp == timestamp && e.deliveries == deliveries
  {
    Envelope(StorageVersion, timestamp, deliveries)
  }
}
