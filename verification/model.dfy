/**
  The state the handlers work on and what they hand back: the object store
  (bucket contents by key), the metadata table (items by `image_id`), the
  record of store requests a handler made, and the HTTP response.
 */
module Model {
  import opened Base

  type Bytes = seq<bv8>

  /** An object in the bucket: its payload and the `ContentType` it was
      written with. */
  datatype StoredObject = StoredObject(body: Bytes, contentType: string)

  /** One item of the metadata table. Only the partition key `image_id` is
      always present; every other attribute may be missing from an item. */
  datatype Record = Record(
    imageId: string,
    userId: Option<string>,
    description: Option<string>,
    tags: Option<seq<string>>,
    imageUrl: Option<string>,
    uploadedAt: Option<string>,
    s3Key: Option<string>)

  /** The two backing stores. */
  datatype Stores = Stores(objects: map<string, StoredObject>, table: map<string, Record>)

  /** Every item sits under its own `image_id`, as the table's key schema
      requires. */
  ghost predicate WellKeyed(table: map<string, Record>) {
    forall id :: id in table ==> table[id].imageId == id
  }

  /** `m2` agrees with `m` on every key except possibly `k`. */
  ghost predicate SameExcept<V>(m: map<string, V>, m2: map<string, V>, k: string) {
    forall x :: x != k ==> (x in m <==> x in m2) && (x in m ==> m[x] == m2[x])
  }

  /** A scan filter expression: `Attr("user_id").eq(u)`,
      `Attr("tags").contains(t)`, and their conjunction `&`. */
  datatype Condition =
    | UserIdEquals(userId: string)
    | TagsContain(tag: string)
    | Both(left: Condition, right: Condition)

  /** How the table evaluates a filter on one item. An item lacking the
      attribute does not satisfy the comparison on it; `tags` is a list, so
      `contains` is list membership. */
  predicate Holds(c: Condition, r: Record) {
    match c
    case UserIdEquals(u) => r.userId == Some(u)
    case TagsContain(t) => r.tags.Some? && t in r.tags.value
    case Both(a, b) => Holds(a, r) && Holds(b, r)
  }

  /** One request sent to a backing store. */
  datatype Call =
    | PutObject(key: string)
    | PutItem(imageId: string)
    | GetItem(imageId: string)
    | Presign(key: string, expiresIn: int)
    | DeleteObject(key: string)
    | DeleteItem(imageId: string)
    | Scan(startKey: Option<string>, filter: Option<Condition>)

  /** JSON bodies of the responses. */
  datatype Body =
    | Uploaded(message: string, imageId: string, imageUrl: string, metadata: Record)
    | ImageList(images: seq<Record>)
    | ImageLink(imageId: string, userId: Option<string>, downloadUrl: string, expiresIn: int)
    | Deleted(message: string, imageId: string)
    | Detail(detail: string)

  datatype Response = Response(status: int, body: Body)

  /** What one handler invocation leaves behind. */
  datatype Outcome = Outcome(stores: Stores, response: Response, calls: seq<Call>)

  /** An `HTTPException(status_code=status, detail=detail)`. */
  function Error(status: int, detail: string): Response {
    Response(status, Detail(detail))
  }
}
