/**
  The service class that wraps the object store and the metadata table:
  object-key derivation, the stable reference URL, the thin adapters around
  each store request with their exception wrapping, and the filtered,
  paginated table scan behind the listing endpoint.

  Store requests do not reach a network: each adapter takes the store's
  current contents and a `CallOutcome` (or, for presigning and scanning, the
  store's reply) supplied from outside.
 */
module AwsService {
  import opened Base
  import opened Model
  import Text

  /** The configuration the service reads at start-up. `endpointUrl` is the
      optional endpoint override (a local emulator, say). */
  datatype Settings = Settings(endpointUrl: Option<string>, bucket: string, region: string)

  /** Python truthiness of the endpoint override: set and non-empty. */
  predicate HasEndpoint(cfg: Settings) {
    cfg.endpointUrl.Some? && cfg.endpointUrl.value != ""
  }

  const KeyPrefix: string := "uploads/"

  /** Default lifetime, in seconds, of a presigned download URL. */
  const DefaultExpiry: int := 3600

  const UploadErrorPrefix: string := "Failed to upload image to S3: "
  const SaveErrorPrefix: string := "Failed to save metadata to DynamoDB: "
  const QueryErrorPrefix: string := "Error querying DynamoDB: "
  const FetchErrorPrefix: string := "Error fetching image metadata: "
  const PresignErrorPrefix: string := "Error generating presigned URL: "
  const DeleteObjectErrorPrefix: string := "Failed to delete image from S3: "
  const DeleteItemErrorPrefix: string := "Failed to delete metadata from DynamoDB: "

  // ---------------------------------------------------------------------
  // Object keys and reference URLs
  // ---------------------------------------------------------------------

  /** `filename.split(".")[-1]`: the text after the last dot. A name without
      a dot is its own extension; a name ending in a dot has an empty one. */
  function Extension(filename: string): (ext: string)
    ensures '.' !in ext
    ensures |ext| <= |filename| && filename[|filename| - |ext|..] == ext
    ensures |ext| < |filename| ==> filename[|filename| - |ext| - 1] == '.'
    ensures '.' !in filename ==> ext == filename
    ensures |filename| > 0 && filename[|filename| - 1] == '.' ==> ext == ""
  {
    Text.LastPartAfterLastSep(filename, '.');
    Text.LastPart(filename, '.')
  }

  datatype ImageKey = ImageKey(key: string, imageId: string)

  /** The parts a well-formed object key carries besides its owner. */
  datatype KeyParts = KeyParts(imageId: string, ext: string)

  /** The folder that holds every object of one user. */
  function UserFolder(userId: string): string {
    KeyPrefix + userId + "/"
  }

  /** `generate_image_key`: the object key `uploads/{user}/{id}.{ext}` and the
      image id embedded in it. The id is the freshly generated UUID, passed in. */
  function GenerateImageKey(userId: string, filename: string, uuid: string): (k: ImageKey)
    ensures k.imageId == uuid
    ensures k.key == UserFolder(userId) + k.imageId + "." + Extension(filename)
  {
    ImageKey(UserFolder(userId) + uuid + "." + Extension(filename), uuid)
  }

  /** Reads an object key of user `userId` back into image id and extension;
      `None` when the key is not in that user's folder. */
  function ParseImageKey(userId: string, key: string): Option<KeyParts> {
    var folder := UserFolder(userId);
    var ext := Extension(key);
    if |folder| + |ext| + 1 <= |key| && key[..|folder|] == folder then
      Some(KeyParts(key[|folder|..|key| - |ext| - 1], ext))
    else
      None
  }

  /** A generated key can be read back: it lies in the user's folder, and it
      yields the generated image id and the file's extension. */
  lemma ImageKeyRoundTrip(userId: string, filename: string, uuid: string)
    ensures var k := GenerateImageKey(userId, filename, uuid);
      && ParseImageKey(userId, k.key) == Some(KeyParts(uuid, Extension(filename)))
      && Extension(k.key) == Extension(filename)
  {
    var k := GenerateImageKey(userId, filename, uuid);
    var folder := UserFolder(userId);
    var ext := Extension(filename);
    assert k.key == (folder + uuid) + ['.'] + ext;
    Text.LastPartOfSuffix(folder + uuid, ext, '.');
    assert Extension(k.key) == ext;
    assert k.key[..|folder|] == folder;
    assert k.key[|folder|..|k.key| - |ext| - 1] == uuid;
  }

  /** Everything of a reference URL that precedes the key. */
  function UrlBase(cfg: Settings): string {
    if HasEndpoint(cfg) then cfg.endpointUrl.value + "/" + cfg.bucket + "/"
    else "https://" + cfg.bucket + ".s3." + cfg.region + ".amazonaws.com/"
  }

  /** The key a reference URL points at, when it is one of this service's. */
  function KeyOfUrl(cfg: Settings, url: string): Option<string> {
    var base := UrlBase(cfg);
    if |base| <= |url| && url[..|base|] == base then Some(url[|base|..]) else None
  }

  /** `get_image_url`: path-style under the endpoint override when one is
      set, virtual-hosted AWS style otherwise; either way the URL ends in
      `"/" + key` and the key can be read back from it. */
  function GetImageUrl(cfg: Settings, key: string): (url: string)
    ensures HasEndpoint(cfg) ==> url == cfg.endpointUrl.value + "/" + cfg.bucket + "/" + key
    ensures !HasEndpoint(cfg) ==>
      url == "https://" + cfg.bucket + ".s3." + cfg.region + ".amazonaws.com/" + key
    ensures |url| > |key| && url[|url| - |key| - 1..] == "/" + key
    ensures KeyOfUrl(cfg, url) == Some(key)
  {
    var base := UrlBase(cfg);
    assert base[|base| - 1] == '/';
    base + key
  }

  /** Distinct keys get distinct reference URLs. */
  lemma ImageUrlInjective(cfg: Settings, k1: string, k2: string)
    requires GetImageUrl(cfg, k1) == GetImageUrl(cfg, k2)
    ensures k1 == k2
  {
  }

  // ---------------------------------------------------------------------
  // Store adapters
  // ---------------------------------------------------------------------

  /** `except ClientError as e: raise RuntimeError(prefix + str(e))`; any
      other exception passes through unchanged. */
  function WrapClientError(prefix: string, e: Exc): Exc {
    if e.kind == ClientError then Exc(RuntimeError, prefix + e.message) else e
  }

  /** `except Exception as e: raise Exception(prefix + str(e))`. */
  function WrapAny(prefix: string, e: Exc): Exc {
    Exc(Exception, prefix + e.message)
  }

  /** `upload_image_to_s3`: writes the payload under `key`, replacing what was
      there and touching no other key. */
  function UploadImageToS3(objects: map<string, StoredObject>, key: string, body: Bytes,
                           contentType: string, o: CallOutcome): (r: Result<map<string, StoredObject>>)
    ensures r.Ok? <==> o.Succeeds?
    ensures r.Ok? ==> key in r.value && r.value[key] == StoredObject(body, contentType)
    ensures r.Ok? ==> SameExcept(objects, r.value, key)
    ensures r.Raised? && o.exc.kind == ClientError ==>
      r.exc == Exc(RuntimeError, UploadErrorPrefix + o.exc.message)
    ensures r.Raised? && o.exc.kind != ClientError ==> r.exc == o.exc
  {
    match o
    case Succeeds => Ok(objects[key := StoredObject(body, contentType)])
    case Fails(e) => Raised(WrapClientError(UploadErrorPrefix, e))
  }

  /** `save_image_metadata`: an unconditional put, keyed by the item's
      `image_id`. */
  function SaveImageMetadata(table: map<string, Record>, item: Record, o: CallOutcome): (r: Result<map<string, Record>>)
    ensures r.Ok? <==> o.Succeeds?
    ensures r.Ok? ==> item.imageId in r.value && r.value[item.imageId] == item
    ensures r.Ok? ==> SameExcept(table, r.value, item.imageId)
    ensures r.Ok? && WellKeyed(table) ==> WellKeyed(r.value)
    ensures r.Raised? && o.exc.kind == ClientError ==>
      r.exc == Exc(RuntimeError, SaveErrorPrefix + o.exc.message)
    ensures r.Raised? && o.exc.kind != ClientError ==> r.exc == o.exc
  {
    match o
    case Succeeds => Ok(table[item.imageId := item])
    case Fails(e) => Raised(WrapClientError(SaveErrorPrefix, e))
  }

  /** `get_image_metadata`: a missing item is absence, not an error. */
  function GetImageMetadata(table: map<string, Record>, imageId: string, o: CallOutcome): (r: Result<Option<Record>>)
    ensures o.Succeeds? ==> r.Ok? && (r.value.Some? <==> imageId in table)
    ensures o.Succeeds? && imageId in table ==> r.value.value == table[imageId]
    ensures o.Fails? ==> r == Raised(Exc(Exception, FetchErrorPrefix + o.exc.message))
  {
    match o
    case Succeeds => Ok(if imageId in table then Some(table[imageId]) else None)
    case Fails(e) => Raised(WrapAny(FetchErrorPrefix, e))
  }

  /** `generate_presigned_url`: the URL is opaque and comes from `signer`,
      which stands for the store client; only its failure is wrapped. */
  function GeneratePresignedUrl(key: string, expiresIn: int, signer: Result<string>): (r: Result<string>)
    ensures signer.Ok? ==> r == signer
    ensures signer.Raised? ==> r == Raised(Exc(Exception, PresignErrorPrefix + signer.exc.message))
  {
    match signer
    case Ok(url) => Ok(url)
    case Raised(e) => Raised(WrapAny(PresignErrorPrefix, e))
  }

  /** `delete_image_from_s3`: removes `key` and nothing else; removing an
      absent key succeeds the same way. */
  function DeleteImageFromS3(objects: map<string, StoredObject>, key: string, o: CallOutcome): (r: Result<map<string, StoredObject>>)
    ensures r.Ok? <==> o.Succeeds?
    ensures r.Ok? ==> key !in r.value && SameExcept(objects, r.value, key)
    ensures r.Raised? ==> r.exc == Exc(Exception, DeleteObjectErrorPrefix + o.exc.message)
  {
    match o
    case Succeeds => Ok(objects - {key})
    case Fails(e) => Raised(WrapAny(DeleteObjectErrorPrefix, e))
  }

  /** `delete_metadata_from_dynamo`: removes the item keyed `imageId` and
      nothing else. */
  function DeleteMetadataFromDynamo(table: map<string, Record>, imageId: string, o: CallOutcome): (r: Result<map<string, Record>>)
    ensures r.Ok? <==> o.Succeeds?
    ensures r.Ok? ==> imageId !in r.value && SameExcept(table, r.value, imageId)
    ensures r.Ok? && WellKeyed(table) ==> WellKeyed(r.value)
    ensures r.Raised? ==> r.exc == Exc(Exception, DeleteItemErrorPrefix + o.exc.message)
  {
    match o
    case Succeeds => Ok(table - {imageId})
    case Fails(e) => Raised(WrapAny(DeleteItemErrorPrefix, e))
  }

  // ---------------------------------------------------------------------
  // Filtered, paginated scan
  // ---------------------------------------------------------------------

  /** The keys present in the `filters` dict of `query_images`. */
  datatype Filters = Filters(userId: Option<string>, tag: Option<string>)

  /** The intended meaning of a filter set: every filter present holds of
      the item. */
  predicate Matches(f: Filters, r: Record) {
    && (f.userId.None? || r.userId == f.userId)
    && (f.tag.None? || (r.tags.Some? && f.tag.value in r.tags.value))
  }

  /** The `FilterExpression` `query_images` builds; `None` when it sends
      none. The expression holds of an item exactly when the filters match. */
  function BuildCondition(f: Filters): (c: Option<Condition>)
    ensures c.None? <==> f.userId.None? && f.tag.None?
    ensures c.Some? ==> forall r :: Holds(c.value, r) <==> Matches(f, r)
  {
    var byUser := if f.userId.Some? then Some(UserIdEquals(f.userId.value)) else None;
    if f.tag.Some? then
      var byTag := TagsContain(f.tag.value);
      Some(if byUser.None? then byTag else Both(byUser.value, byTag))
    else
      byUser
  }

  /** The table's reply to one `scan` request: the page of items it examined
      (`None` when the reply has no `Items`) and the continuation token, or
      the exception the request raised. */
  datatype ScanReply =
    | Page(scanned: Option<seq<Record>>, lastEvaluatedKey: Option<string>)
    | ScanFails(exc: Exc)

  /** A reply after which `query_images` sends no further request. */
  predicate Stops(r: ScanReply) {
    r.ScanFails? || r.lastEvaluatedKey.None?
  }

  /** The table eventually ends the pagination: some reply stops the loop. */
  predicate Drains(replies: seq<ScanReply>)
    decreases |replies|
  {
    |replies| > 0 && (Stops(replies[0]) || Drains(replies[1..]))
  }

  /** The position of the reply that ends the loop: the first one that
      stops it. */
  function StopIndex(replies: seq<ScanReply>): (i: nat)
    requires Drains(replies)
    ensures i < |replies| && Stops(replies[i])
    ensures forall j :: 0 <= j < i ==> !Stops(replies[j])
    decreases |replies|
  {
    if Stops(replies[0]) then 0 else 1 + StopIndex(replies[1..])
  }

  /** The replies `query_images` actually receives. */
  function Consumed(replies: seq<ScanReply>): seq<ScanReply>
    requires Drains(replies)
  {
    replies[..StopIndex(replies) + 1]
  }

  /** The scan ends on a page rather than on an exception. */
  predicate ScanSucceeds(replies: seq<ScanReply>)
    requires Drains(replies)
  {
    replies[StopIndex(replies)].Page?
  }

  /** The items one reply examined. */
  function ScannedOf(r: ScanReply): seq<Record> {
    if r.Page? && r.scanned.Some? then r.scanned.value else []
  }

  /** The items a sequence of replies examined, in order. */
  function ScannedItems(rs: seq<ScanReply>): seq<Record>
    decreases |rs|
  {
    if |rs| == 0 then [] else ScannedOf(rs[0]) + ScannedItems(rs[1..])
  }

  /** The table's side of a filtered scan: of the examined items, those the
      expression holds of, in order. */
  function Select(c: Option<Condition>, items: seq<Record>): (out: seq<Record>)
    ensures forall r :: r in out <==> r in items && (c.None? || Holds(c.value, r))
    decreases |items|
  {
    if |items| == 0 then []
    else
      var rest := Select(c, items[1..]);
      if c.None? || Holds(c.value, items[0]) then [items[0]] + rest else rest
  }

  /** Reference definition: the items matching the filters, in order. */
  function MatchingOf(f: Filters, items: seq<Record>): (out: seq<Record>)
    ensures forall r :: r in out <==> r in items && Matches(f, r)
    decreases |items|
  {
    if |items| == 0 then []
    else if Matches(f, items[0]) then [items[0]] + MatchingOf(f, items[1..])
    else MatchingOf(f, items[1..])
  }

  /** The items of one page's reply: `response.get("Items", [])`. */
  function PageItems(c: Option<Condition>, r: ScanReply): seq<Record>
    requires r.Page?
  {
    if r.scanned.Some? then Select(c, r.scanned.value) else []
  }

  /** The scan loop: take each page's items and follow `LastEvaluatedKey`
      until a reply lacks it; an exception ends the loop. */
  function ScanAll(c: Option<Condition>, replies: seq<ScanReply>): Result<seq<Record>>
    requires Drains(replies)
    decreases |replies|
  {
    match replies[0]
    case ScanFails(e) => Raised(e)
    case Page(_, lastKey) =>
      var items := PageItems(c, replies[0]);
      if lastKey.None? then Ok(items)
      else
        match ScanAll(c, replies[1..])
        case Ok(more) => Ok(items + more)
        case Raised(e) => Raised(e)
  }

  /** The `scan` requests the loop sends: the first from `start`, each later
      one from the previous reply's `LastEvaluatedKey`, all with the same
      filter expression. */
  function ScanCalls(c: Option<Condition>, replies: seq<ScanReply>, start: Option<string>): (calls: seq<Call>)
    requires Drains(replies)
    ensures |calls| == StopIndex(replies) + 1
    ensures calls[0] == Scan(start, c)
    ensures forall i :: 0 < i < |calls| ==> calls[i] == Scan(replies[i - 1].lastEvaluatedKey, c)
    ensures forall i :: 0 < i < |calls| ==> calls[i].startKey.Some?
    decreases |replies|
  {
    if Stops(replies[0]) then [Scan(start, c)]
    else
      var rest := ScanCalls(c, replies[1..], replies[0].lastEvaluatedKey);
      [Scan(start, c)] + rest
  }

  /** `query_images`: scans the whole table with the filters' expression and
      returns every page's items; every failure, a `ValueError` included,
      comes back as a plain exception with a fixed prefix. */
  function QueryImages(f: Filters, replies: seq<ScanReply>): (r: Result<seq<Record>>)
    requires Drains(replies)
    ensures r.Ok? <==> ScanSucceeds(replies)
    ensures r.Ok? ==> forall x :: x in r.value <==> x in ScannedItems(Consumed(replies)) && Matches(f, x)
    ensures r.Raised? ==>
      r.exc == Exc(Exception, QueryErrorPrefix + replies[StopIndex(replies)].exc.message)
  {
    QueryImagesIsReference(f, replies);
    match ScanAll(BuildCondition(f), replies)
    case Ok(items) => Ok(items)
    case Raised(e) => Raised(WrapAny(QueryErrorPrefix, e))
  }

  /** A filtered scan of a concatenation is the concatenation of the scans. */
  lemma {:induction false} SelectAppend(c: Option<Condition>, a: seq<Record>, b: seq<Record>)
    ensures Select(c, a + b) == Select(c, a) + Select(c, b)
    decreases |a|
  {
    if |a| == 0 {
      assert a + b == b;
    } else {
      assert (a + b)[0] == a[0];
      assert (a + b)[1..] == a[1..] + b;
      SelectAppend(c, a[1..], b);
    }
  }

  /** The table's filtering with the built expression is the reference
      filtering, order included. */
  lemma {:induction false} SelectIsMatching(f: Filters, items: seq<Record>)
    ensures Select(BuildCondition(f), items) == MatchingOf(f, items)
    decreases |items|
  {
    if |items| > 0 {
      SelectIsMatching(f, items[1..]);
    }
  }

  /** The loop's result is the filtered concatenation of every consumed
      page, or the exception that ended it. */
  lemma {:induction false} ScanAllIsFilteredConcat(c: Option<Condition>, replies: seq<ScanReply>)
    requires Drains(replies)
    ensures ScanSucceeds(replies) ==>
      ScanAll(c, replies) == Ok(Select(c, ScannedItems(Consumed(replies))))
    ensures !ScanSucceeds(replies) ==>
      ScanAll(c, replies) == Raised(replies[StopIndex(replies)].exc)
    decreases |replies|
  {
    var used := Consumed(replies);
    if Stops(replies[0]) {
      assert used == [replies[0]];
      assert ScannedItems(used) == ScannedOf(replies[0]) + ScannedItems([]);
      assert ScannedItems(used) == ScannedOf(replies[0]);
    } else {
      var tail := replies[1..];
      ScanAllIsFilteredConcat(c, tail);
      assert used[1..] == Consumed(tail);
      assert replies[StopIndex(replies)] == tail[StopIndex(tail)];
      SelectAppend(c, ScannedOf(replies[0]), ScannedItems(Consumed(tail)));
    }
  }

  /** `query_images` in one line: the items of the consumed pages that match
      the filters, in scan order, or the prefixed exception of the failing
      request. */
  lemma QueryImagesIsReference(f: Filters, replies: seq<ScanReply>)
    requires Drains(replies)
    ensures ScanSucceeds(replies) ==>
      ScanAll(BuildCondition(f), replies) == Ok(MatchingOf(f, ScannedItems(Consumed(replies))))
    ensures !ScanSucceeds(replies) ==>
      ScanAll(BuildCondition(f), replies) == Raised(replies[StopIndex(replies)].exc)
  {
    ScanAllIsFilteredConcat(BuildCondition(f), replies);
    SelectIsMatching(f, ScannedItems(Consumed(replies)));
  }

  /** Without filters no expression is sent and every examined item is
      returned. */
  lemma UnfilteredQueryReturnsAll(replies: seq<ScanReply>)
    requires Drains(replies) && ScanSucceeds(replies)
    ensures BuildCondition(Filters(None, None)).None?
    ensures QueryImages(Filters(None, None), replies) == Ok(ScannedItems(Consumed(replies)))
  {
    ScanAllIsFilteredConcat(None, replies);
    SelectNone(ScannedItems(Consumed(replies)));
  }

  /** Scanning without an expression keeps every item. */
  lemma {:induction false} SelectNone(items: seq<Record>)
    ensures Select(None, items) == items
    decreases |items|
  {
    if |items| > 0 {
      SelectNone(items[1..]);
      assert [items[0]] + items[1..] == items;
    }
  }
}
