/**
  What the handlers do to each other: an image uploaded through this API
  can be listed but neither fetched nor deleted (its item has no `s3_key`),
  and a deleted image is gone for fetching and for deleting again.
 */
module Lifecycle {
  import opened Base
  import opened Model
  import opened AwsService
  import opened UploadRoute
  import opened ImageRoutes

  /** Fetching an image right after its upload succeeded fails with 500 on
      the missing `s3_key`, and no download URL is ever requested. */
  lemma UploadedImageCannotBeFetched(cfg: Settings, st: Stores, form: UploadForm, env: UploadEnv, get: GetEnv)
    requires env.putObject.Succeeds? && env.putItem.Succeeds?
    requires get.getItem.Succeeds?
    ensures var up := UploadImage(cfg, st, form, env);
      var out := GetImage(up.stores, up.response.body.imageId, get);
      && out.response == Error(500, "Error fetching image: 's3_key'")
      && out.calls == [GetItem(env.uuid)]
      && out.stores == up.stores
  {
    var up := UploadImage(cfg, st, form, env);
    assert up.response.body.imageId == env.uuid;
    assert up.stores.table[env.uuid].s3Key.None?;
    assert FetchImageErrorPrefix + MissingS3KeyError.message == "Error fetching image: 's3_key'";
  }

  /** Deleting an image right after its upload succeeded is refused with 400,
      nothing is deleted, and the object and its item both stay. */
  lemma UploadedImageCannotBeDeleted(cfg: Settings, st: Stores, form: UploadForm, env: UploadEnv, del: DeleteEnv)
    requires env.putObject.Succeeds? && env.putItem.Succeeds?
    requires del.getItem.Succeeds?
    ensures var up := UploadImage(cfg, st, form, env);
      var out := DeleteImage(up.stores, up.response.body.imageId, del);
      && out.response == Error(400, "S3 key not found in metadata")
      && out.calls == [GetItem(env.uuid)]
      && out.stores == up.stores
      && env.uuid in out.stores.table
      && UploadKey(form, env).key in out.stores.objects
  {
  }

  /** A failed item write after a successful object write leaves an orphaned
      object: it is in the bucket, yet no item of the table refers to the new
      id. */
  lemma FailedSaveOrphansObject(cfg: Settings, st: Stores, form: UploadForm, env: UploadEnv)
    requires env.putObject.Succeeds? && env.putItem.Fails?
    requires env.uuid !in st.table
    ensures var up := UploadImage(cfg, st, form, env);
      && up.response.status == 500
      && UploadKey(form, env).key in up.stores.objects
      && env.uuid !in up.stores.table
  {
  }

  /** After a successful delete, fetching the same id answers 404 without
      requesting a URL. */
  lemma DeletedImageIsGone(st: Stores, imageId: string, del: DeleteEnv, get: GetEnv)
    requires del.getItem.Succeeds? && del.deleteObject.Succeeds? && del.deleteItem.Succeeds?
    requires imageId in st.table && HasObjectKey(st.table[imageId])
    requires get.getItem.Succeeds?
    ensures DeleteImage(st, imageId, del).response.status == 200
    ensures var gone := DeleteImage(st, imageId, del).stores;
      && GetImage(gone, imageId, get).response == Error(404, "Image not found")
      && GetImage(gone, imageId, get).calls == [GetItem(imageId)]
  {
  }

  /** Deleting the same id twice: the second attempt is a 404, not a delete
      failure, and changes nothing. */
  lemma SecondDeleteIsNotFound(st: Stores, imageId: string, del1: DeleteEnv, del2: DeleteEnv)
    requires del1.getItem.Succeeds? && del1.deleteObject.Succeeds? && del1.deleteItem.Succeeds?
    requires del2.getItem.Succeeds?
    requires imageId in st.table && HasObjectKey(st.table[imageId])
    ensures var once := DeleteImage(st, imageId, del1).stores;
      var twice := DeleteImage(once, imageId, del2);
      && twice.response == Error(404, "Image not found")
      && twice.stores == once
  {
  }

  /** An image uploaded with success is listed by any scan that covers the
      table afterwards (the old table plus the new item), whether unfiltered, filtered by its uploader, or
      filtered by one of its tags. */
  lemma UploadedImageIsListed(cfg: Settings, st: Stores, form: UploadForm, env: UploadEnv,
                              userId: Option<string>, tag: Option<string>, replies: seq<ScanReply>)
    requires env.putObject.Succeeds? && env.putItem.Succeeds?
    requires Drains(replies) && ScanSucceeds(replies)
    requires Covers(replies, st.table[env.uuid := UploadRecord(cfg, form, env)])
    requires userId.None? || userId == Some("") || userId == Some(form.userId)
    requires tag.None? || tag == Some("") || tag.value in ParseTags(form.tags)
    ensures var up := UploadImage(cfg, st, form, env);
      var out := ListImages(up.stores, userId, tag, replies);
      && out.response.status == 200
      && up.response.body.metadata in out.response.body.images
  {
  }
}
