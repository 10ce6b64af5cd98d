/**
  The `/images` handlers: listing with optional filters, fetching one image as
  a presigned download link, and deleting one image from both stores.
 */
module ImageRoutes {
  import opened Base
  import opened Model
  import opened AwsService

  const NotFoundDetail: string := "Image not found"
  const MissingKeyDetail: string := "S3 key not found in metadata"
  const DeletedMessage: string := "Image deleted successfully"
  const ListErrorPrefix: string := "Failed to fetch images: "
  const FetchImageErrorPrefix: string := "Error fetching image: "
  const DeleteErrorPrefix: string := "Failed to delete image: "

  /** `str(KeyError("s3_key"))`: what `metadata["s3_key"]` raises on an item
      without that attribute. */
  const MissingS3KeyError: Exc := Exc(KeyError, "'s3_key'")

  // ---------------------------------------------------------------------
  // GET /images
  // ---------------------------------------------------------------------

  /** The filters `list_images` passes on: a query parameter becomes a filter
      only when it is present and non-empty. */
  function RequestFilters(userId: Option<string>, tag: Option<string>): (f: Filters)
    ensures f.userId.Some? <==> userId.Some? && userId.value != ""
    ensures f.userId.Some? ==> f.userId == userId
    ensures f.tag.Some? <==> tag.Some? && tag.value != ""
    ensures f.tag.Some? ==> f.tag == tag
  {
    Filters(
      if userId.Some? && userId.value != "" then userId else None,
      if tag.Some? && tag.value != "" then tag else None)
  }

  /** How `list_images` answers an exception: 400 with its text for a
      `ValueError`, 500 with a prefix for anything else. */
  function ListError(e: Exc): (resp: Response)
    ensures e.kind == ValueError ==> resp == Error(400, e.message)
    ensures e.kind != ValueError ==> resp == Error(500, ListErrorPrefix + e.message)
  {
    if e.kind == ValueError then Error(400, e.message) else Error(500, ListErrorPrefix + e.message)
  }

  /** `list_images`. It changes nothing; it answers 200 with the query's
      items, unchanged, exactly when the scan ends on a page. Because the
      query turns every exception, `ValueError` included, into a plain one,
      the 400 answer never happens. */
  function ListImages(st: Stores, userId: Option<string>, tag: Option<string>,
                      replies: seq<ScanReply>): (out: Outcome)
    requires Drains(replies)
    ensures out.stores == st
    ensures out.calls == ScanCalls(BuildCondition(RequestFilters(userId, tag)), replies, None)
    ensures out.response.status == 200 <==> ScanSucceeds(replies)
    ensures out.response.status == 200 ==>
      out.response.body == ImageList(QueryImages(RequestFilters(userId, tag), replies).value)
    ensures out.response.status != 200 ==>
      out.response == Error(500, ListErrorPrefix + (QueryErrorPrefix + replies[StopIndex(replies)].exc.message))
    ensures out.response.status != 400
  {
    var f := RequestFilters(userId, tag);
    var calls := ScanCalls(BuildCondition(f), replies, None);
    match QueryImages(f, replies)
    case Ok(items) => Outcome(st, Response(200, ImageList(items)), calls)
    case Raised(e) => Outcome(st, ListError(e), calls)
  }

  /** The scan covers the table: the pages it consumed examined exactly the
      table's items. */
  ghost predicate Covers(replies: seq<ScanReply>, table: map<string, Record>)
    requires Drains(replies)
  {
    forall r :: r in ScannedItems(Consumed(replies)) <==> r in table.Values
  }

  /** A successful listing over a scan that covers the table returns exactly
      the table's items that match the request's filters: all of them without
      filters, those of user `U` for `user_id=U`, those tagged `T` for
      `tag=T`. */
  lemma ListReturnsExactlyMatching(st: Stores, userId: Option<string>, tag: Option<string>,
                                   replies: seq<ScanReply>)
    requires Drains(replies) && ScanSucceeds(replies) && Covers(replies, st.table)
    ensures var out := ListImages(st, userId, tag, replies);
      && out.response.status == 200
      && out.response.body.ImageList?
      && forall r :: r in out.response.body.images <==>
           && r in st.table.Values
           && (userId.None? || userId.value == "" || r.userId == userId)
           && (tag.None? || tag.value == "" || (r.tags.Some? && tag.value in r.tags.value))
  {
  }

  // ---------------------------------------------------------------------
  // GET /images/{image_id}
  // ---------------------------------------------------------------------

  /** How the two store requests of `get_image` end. */
  datatype GetEnv = GetEnv(getItem: CallOutcome, signer: Result<string>)

  /** `get_image`. It changes nothing. An absent item gives 404 and no URL is
      requested. An item without `s3_key` fails on the lookup of that
      attribute, a 500. Otherwise a URL for the item's `s3_key` is requested
      with the default lifetime, and the answer carries the path's id, the
      item's `user_id`, that URL and a 3600-second expiry. */
  function GetImage(st: Stores, imageId: string, env: GetEnv): (out: Outcome)
    ensures out.stores == st
    ensures |out.calls| >= 1 && out.calls[0] == GetItem(imageId)
    ensures env.getItem.Fails? ==>
      out.response == Error(500, FetchImageErrorPrefix + (FetchErrorPrefix + env.getItem.exc.message))
    ensures env.getItem.Succeeds? && imageId !in st.table ==>
      out.response == Error(404, NotFoundDetail) && out.calls == [GetItem(imageId)]
    ensures env.getItem.Succeeds? && imageId in st.table && st.table[imageId].s3Key.None? ==>
      out.response == Error(500, FetchImageErrorPrefix + MissingS3KeyError.message)
      && out.calls == [GetItem(imageId)]
    ensures env.getItem.Succeeds? && imageId in st.table && st.table[imageId].s3Key.Some? ==>
      out.calls == [GetItem(imageId), Presign(st.table[imageId].s3Key.value, DefaultExpiry)]
    ensures env.getItem.Succeeds? && imageId in st.table && st.table[imageId].s3Key.Some? && env.signer.Raised? ==>
      out.response == Error(500, FetchImageErrorPrefix + (PresignErrorPrefix + env.signer.exc.message))
    ensures out.response.status == 200 <==>
      env.getItem.Succeeds? && imageId in st.table && st.table[imageId].s3Key.Some? && env.signer.Ok?
    ensures out.response.status == 200 ==>
      out.response.body == ImageLink(imageId, st.table[imageId].userId, env.signer.value, 3600)
    ensures out.response.status in {200, 404, 500}
  {
    match GetImageMetadata(st.table, imageId, env.getItem)
    case Raised(e) => Outcome(st, Error(500, FetchImageErrorPrefix + e.message), [GetItem(imageId)])
    case Ok(None) => Outcome(st, Error(404, NotFoundDetail), [GetItem(imageId)])
    case Ok(Some(rec)) =>
      if rec.s3Key.None? then
        Outcome(st, Error(500, FetchImageErrorPrefix + MissingS3KeyError.message), [GetItem(imageId)])
      else
        var calls := [GetItem(imageId), Presign(rec.s3Key.value, DefaultExpiry)];
        match GeneratePresignedUrl(rec.s3Key.value, DefaultExpiry, env.signer)
        case Raised(e) => Outcome(st, Error(500, FetchImageErrorPrefix + e.message), calls)
        case Ok(url) => Outcome(st, Response(200, ImageLink(imageId, rec.userId, url, DefaultExpiry)), calls)
  }

  // ---------------------------------------------------------------------
  // DELETE /images/{image_id}
  // ---------------------------------------------------------------------

  /** How the three store requests of `delete_image` end. */
  datatype DeleteEnv = DeleteEnv(getItem: CallOutcome, deleteObject: CallOutcome, deleteItem: CallOutcome)

  /** The item's `s3_key` is present and non-empty. */
  predicate HasObjectKey(r: Record) {
    r.s3Key.Some? && r.s3Key.value != ""
  }

  /** `delete_image`. Lookup, key check, object delete, item delete, in that
      order, stopping at the first failure. A missing item (404) or a missing
      or empty `s3_key` (400) leaves both stores alone and deletes nothing. A
      failed object delete leaves both stores alone (500). A failed item
      delete leaves the item without its object (500). Success removes both
      and nothing else. */
  function DeleteImage(st: Stores, imageId: string, env: DeleteEnv): (out: Outcome)
    ensures |out.calls| >= 1 && out.calls[0] == GetItem(imageId)
    ensures env.getItem.Fails? ==>
      out.stores == st
      && out.response == Error(500, DeleteErrorPrefix + (FetchErrorPrefix + env.getItem.exc.message))
    ensures env.getItem.Succeeds? && imageId !in st.table ==>
      out.stores == st && out.response == Error(404, NotFoundDetail) && out.calls == [GetItem(imageId)]
    ensures env.getItem.Succeeds? && imageId in st.table && !HasObjectKey(st.table[imageId]) ==>
      out.stores == st && out.response == Error(400, MissingKeyDetail) && out.calls == [GetItem(imageId)]
    ensures env.getItem.Succeeds? && imageId in st.table && HasObjectKey(st.table[imageId]) ==>
      var key := st.table[imageId].s3Key.value;
      && |out.calls| >= 2 && out.calls[1] == DeleteObject(key)
      && (env.deleteObject.Fails? ==>
            && out.stores == st
            && out.calls == [GetItem(imageId), DeleteObject(key)]
            && out.response == Error(500, DeleteErrorPrefix + (DeleteObjectErrorPrefix + env.deleteObject.exc.message)))
      && (env.deleteObject.Succeeds? ==>
            && key !in out.stores.objects
            && SameExcept(st.objects, out.stores.objects, key)
            && out.calls == [GetItem(imageId), DeleteObject(key), DeleteItem(imageId)])
      && (env.deleteObject.Succeeds? && env.deleteItem.Fails? ==>
            && out.stores.table == st.table
            && out.response == Error(500, DeleteErrorPrefix + (DeleteItemErrorPrefix + env.deleteItem.exc.message)))
      && (env.deleteObject.Succeeds? && env.deleteItem.Succeeds? ==>
            && imageId !in out.stores.table
            && SameExcept(st.table, out.stores.table, imageId)
            && out.response == Response(200, Deleted(DeletedMessage, imageId)))
    ensures out.response.status == 200 ==> imageId !in out.stores.table
    ensures WellKeyed(st.table) ==> WellKeyed(out.stores.table)
  {
    match GetImageMetadata(st.table, imageId, env.getItem)
    case Raised(e) => Outcome(st, Error(500, DeleteErrorPrefix + e.message), [GetItem(imageId)])
    case Ok(None) => Outcome(st, Error(404, NotFoundDetail), [GetItem(imageId)])
    case Ok(Some(rec)) =>
      if !HasObjectKey(rec) then Outcome(st, Error(400, MissingKeyDetail), [GetItem(imageId)])
      else
        var key := rec.s3Key.value;
        match DeleteImageFromS3(st.objects, key, env.deleteObject)
        case Raised(e) =>
          Outcome(st, Error(500, DeleteErrorPrefix + e.message), [GetItem(imageId), DeleteObject(key)])
        case Ok(objects) =>
          var calls := [GetItem(imageId), DeleteObject(key), DeleteItem(imageId)];
          match DeleteMetadataFromDynamo(st.table, imageId, env.deleteItem)
          case Raised(e) => Outcome(Stores(objects, st.table), Error(500, DeleteErrorPrefix + e.message), calls)
          case Ok(table) => Outcome(Stores(objects, table), Response(200, Deleted(DeletedMessage, imageId)), calls)
  }
}
