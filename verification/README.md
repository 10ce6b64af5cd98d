# Image upload service: coordination layer model

A Dafny model of the part of the image service that coordinates an object
store (the S3 bucket holding image bytes) and a metadata table (the DynamoDB
table holding one item per image). It covers these parts:

- object-key derivation and the stable reference URL;
- the store adapters and how they wrap exceptions;
- the filtered, paginated table scan;
- the four HTTP handlers: upload, list, fetch and delete.

The two stores are plain maps, `map<string, StoredObject>` and
`map<string, Record>`. Each request to a store gets its outcome from the
caller of the model: success, or the exception it raises. The presigned URL
and the scan replies are also supplied from outside. A handler is a pure
function from (stores, request, outcomes) to an `Outcome`. An `Outcome`
holds the new stores, the HTTP response, and the list of store requests
made, in order.

Files:

- `base.dfy`: `Option`, `Exc` (exception class and `str(e)`), `Result`, `CallOutcome`.
- `text.dfy`: `str.split`/`str.join` on one character, with the round-trip lemmas.
- `model.dfy`: table items, stores, filter conditions, store requests, responses.
- `aws_service.dfy`: the service class.
- `upload_route.dfy`: `POST /upload`.
- `image_routes.dfy`: `GET /images`, `GET /images/{id}`, `DELETE /images/{id}`.
- `lifecycle.dfy`: lemmas that chain handlers.

The model follows the code, including where the code departs from what the
service evidently intends:

- **Tags are not trimmed.** `tags.split(",")` keeps spaces and empty
  segments, so `"a, b ,c"` gives `["a", " b ", "c"]`.
- **No image uploaded through the API can be fetched or deleted.** Upload
  stores an item without an `s3_key` attribute. Fetch reads
  `metadata["s3_key"]`, which raises `KeyError`, so it answers 500
  `Error fetching image: 's3_key'`. Delete answers 400
  `S3 key not found in metadata`. The model reproduces this and proves it
  (`Lifecycle.UploadedImageCannotBeFetched`,
  `Lifecycle.UploadedImageCannotBeDeleted`).
- **The listing's 400 answer cannot happen.** `query_images` turns every
  exception, including `ValueError`, into a plain `Exception`, so the
  `ValueError` branch of `list_images` is never taken. `ImageRoutes.ListError`
  models that branch, and `ImageRoutes.ListImages` proves the handler never
  answers 400.
- **Failed uploads are not all reported the same way.** The upload and save
  adapters wrap only `ClientError`; any other exception reaches the handler
  with its own text.

## Model

| member | source | states |
|---|---|---|
| `Text.SplitJoin` | services/aws_service.py:38 | Joining the segments of `s.split(sep)` with `sep` gives back `s`. |
| `Text.JoinSplit` | api/routes/upload.py:78 | Splitting undoes joining when no part contains the separator. Together with `SplitJoin`, split and join are inverse. |
| `Text.SplitCount` | api/routes/upload.py:78 | `s.split(sep)` has one more segment than `s` has separators. Empty segments are kept. |
| `Text.SplitPartsFree` | api/routes/upload.py:78 | No segment of a split contains the separator. |
| `Text.LastPartAfterLastSep` | services/aws_service.py:38 | `s.split(sep)[-1]` is the separator-free suffix of `s`. It is preceded by the separator unless it is all of `s`, and it is `s` itself when `s` holds no separator. |
| `AwsService.Extension` | services/aws_service.py:38 | The extension contains no dot and is the text after the last dot. A dotless name is its own extension. A name ending in `.` has the empty extension. |
| `AwsService.GenerateImageKey` | services/aws_service.py:36-41 | The returned id is the generated UUID. The key is `uploads/` + user + `/` + that id + `.` + extension. |
| `AwsService.ImageKeyRoundTrip` | services/aws_service.py:36-41 | A generated key parses back into the user's folder, the generated id and the file's extension. The key's own extension is the file's. |
| `AwsService.GetImageUrl` | services/aws_service.py:44-47 | With a non-empty endpoint override the URL is `endpoint/bucket/key`; otherwise it is `https://bucket.s3.region.amazonaws.com/key`. It always ends in `/key`, and the key can be read back from it. |
| `AwsService.ImageUrlInjective` | services/aws_service.py:44-47 | Distinct keys get distinct reference URLs. |
| `AwsService.UploadImageToS3` | services/aws_service.py:50-60 | On success the object is stored under the key and no other key changes. A `ClientError` becomes a `RuntimeError` with the upload prefix. Other exceptions pass through unchanged. |
| `AwsService.SaveImageMetadata` | services/aws_service.py:63-68 | On success the item is put under its `image_id` and no other key changes, so keying is preserved. A `ClientError` gets the save prefix. Other exceptions pass through. |
| `AwsService.GetImageMetadata` | services/aws_service.py:107-113 | A missing id gives absence, not an error. A present id gives its item. A failure becomes an `Exception` with the fetch prefix. |
| `AwsService.GeneratePresignedUrl` | services/aws_service.py:116-126 | The signer's URL is returned unchanged. A failure becomes an `Exception` with the presign prefix. |
| `AwsService.DeleteImageFromS3` | services/aws_service.py:128-133 | On success the key is gone and nothing else changes; an absent key also succeeds. A failure gets the S3-delete prefix. |
| `AwsService.DeleteMetadataFromDynamo` | services/aws_service.py:135-140 | On success the id is gone and nothing else changes. A failure gets the table-delete prefix. |
| `AwsService.BuildCondition` | services/aws_service.py:80-91 | No filter expression is sent exactly when neither `user_id` nor `tag` is given. When one is sent, it holds of an item exactly when every given filter matches: `user_id` equal, and `tag` a member of `tags`. |
| `AwsService.StopIndex` | services/aws_service.py:96-97 | The scan loop ends at the first reply that lacks `LastEvaluatedKey` or raises. |
| `AwsService.ScanCalls` | services/aws_service.py:93-98 | The loop sends one scan per consumed reply. The first starts from nothing; each later one starts from the previous reply's `LastEvaluatedKey`. All carry the same filter expression. |
| `AwsService.Select` | services/aws_service.py:91-94 | The table returns exactly the examined items the expression holds of. |
| `AwsService.ScanAllIsFilteredConcat` | services/aws_service.py:93-100 | The loop returns the concatenation, in order, of the filtered items of every consumed page. A page without `Items` contributes nothing. Otherwise the loop ends with the failing request's exception. |
| `AwsService.QueryImagesIsReference` | services/aws_service.py:71-100 | Per-page filtering and concatenation equal the reference: the items of the consumed pages that match the filters, in scan order. |
| `AwsService.QueryImages` | services/aws_service.py:71-103 | An item is returned exactly when some consumed page examined it and it matches the filters. Every failure, `ValueError` included, becomes an `Exception` prefixed `Error querying DynamoDB: `. |
| `AwsService.UnfilteredQueryReturnsAll` | services/aws_service.py:80-93 | With neither filter, no expression is sent and every examined item is returned. |
| `UploadRoute.ParseTags` | api/routes/upload.py:78 | A missing or empty field gives no tags. Otherwise there are commas + 1 tags, none containing a comma, and joining them with `,` gives the field back. |
| `UploadRoute.ParseTagsOfJoin` | api/routes/upload.py:78 | Parsing a comma-joined list of comma-free tags gives the list back. |
| `UploadRoute.ParseTagsTravelSunset` | api/routes/upload.py:78 | `"travel,sunset"` parses to `["travel", "sunset"]`. |
| `UploadRoute.ParseTagsKeepsSpacesAndEmpties` | api/routes/upload.py:78 | Tags are not trimmed (`"a, b ,c"`), and empty segments are kept (`"a,,b"`). |
| `UploadRoute.UploadRecordShape` | api/routes/upload.py:61-81 | The stored item holds the generated id, the uploader, the description (`""` when missing), the parsed tags, the timestamp, and the reference URL of the key the object was written under. It has no `s3_key`. |
| `UploadRoute.UploadImage` | api/routes/upload.py:59-97 | The object write comes first. If it fails, neither store changes, no item write is attempted, and the answer is 500 `str(e)`. If the item write then fails, the object stays and the table is unchanged (500). On success exactly one item is put, under the generated id, and the answer is 201 repeating that item's id, URL and metadata. |
| `UploadRoute.UploadAddsOneRecord` | api/routes/upload.py:74-84 | With a fresh id, a successful upload adds exactly one table key, and the bucket's keys become the old ones plus the object key. |
| `ImageRoutes.RequestFilters` | api/routes/image.py:48-52 | A query parameter becomes a filter only when it is present and non-empty. |
| `ImageRoutes.ListError` | api/routes/image.py:57-66 | A `ValueError` maps to 400 with its text. Any other exception maps to 500 prefixed `Failed to fetch images: `. |
| `ImageRoutes.ListImages` | api/routes/image.py:42-66 | Listing changes nothing. It answers 200 with the query's items, unchanged, exactly when the scan ends on a page; otherwise it answers 500 with both prefixes. It never answers 400. |
| `ImageRoutes.ListReturnsExactlyMatching` | api/routes/image.py:47-55 | Over a scan that covers the table, the listing returns exactly the table's items that match the given user and tag. |
| `ImageRoutes.GetImage` | api/routes/image.py:94-122 | Fetching changes nothing. An absent item gives 404 `Image not found` and no URL is requested. An item without `s3_key` gives 500 `Error fetching image: 's3_key'`. Otherwise a URL is requested for that key with a 3600 s lifetime. Success answers with the path id, the item's `user_id`, that URL and `expires_in` 3600. Every failure is a 500 with the fetch prefix. |
| `ImageRoutes.DeleteImage` | api/routes/image.py:145-175 | The order is lookup, key check, object delete, item delete. 404 for an absent item and 400 for a missing or empty `s3_key`, with no delete attempted and no store changed. A failed object delete changes nothing (500). A failed item delete leaves the item without its object (500). Success removes both, and nothing else. |
| `Lifecycle.UploadedImageCannotBeFetched` | api/routes/image.py:107 | Right after a successful upload, fetching that image answers 500 `Error fetching image: 's3_key'`, and no URL is requested. |
| `Lifecycle.UploadedImageCannotBeDeleted` | api/routes/image.py:157-162 | Right after a successful upload, deleting that image answers 400, and the object and the item both stay. |
| `Lifecycle.FailedSaveOrphansObject` | api/routes/upload.py:64-84 | A failed item write after a successful object write leaves the object in the bucket with no item for its id. |
| `Lifecycle.DeletedImageIsGone` | api/routes/image.py:164-167 | After a successful delete, fetching the same id answers 404 without requesting a URL. |
| `Lifecycle.SecondDeleteIsNotFound` | api/routes/image.py:150-155 | Deleting an already-deleted id answers 404, not a delete failure, and changes nothing. |
| `Lifecycle.UploadedImageIsListed` | api/routes/image.py:47-55 | After a successful upload, the image is listed by a covering scan that is unfiltered, filtered by its uploader, or filtered by one of its tags. |

## Left out

- Construction of the S3 client and the DynamoDB resource, and their fixed credentials (services/aws_service.py:15-33). These are foreign library calls; the stores are maps and each request takes a given outcome.
- UUID and timestamp generation (utils/common.py). They are nondeterministic, so they are inputs to the upload handler.
- Presigned URL contents. The URL is an opaque value supplied by the caller; the model records only the key and lifetime it was requested for.
- DynamoDB's substring semantics for `contains` on a string attribute. The upload handler always stores `tags` as a list, so `contains` is modelled as list membership.
- Configuration loading (utils/config.py), logging (services/logger.py), the FastAPI application, CORS and the health check (main.py). These are environment and framework plumbing. A `None` setting, which Python would format as the text `None`, is not modelled.
- Multipart parsing, file streams and async execution. The payload is an opaque byte sequence, and each handler runs atomically against the stores.
- A missing file name on the upload form, which would make `filename.split` raise. The model takes the file name as a string.
- The continuation token's contents and the items each scan request examines. These come from a given sequence of scan replies, which must eventually end the pagination (`Drains`). A table that never ends the pagination is not modelled.
- `ImageRoutes.ListReturnsExactlyMatching`: relates the listing to the table only for a scan whose consumed pages examined exactly the table's items (`Covers`). The connection between the scan replies and the table is an assumption, not derived.
- Empty items. The guard `if not metadata` would also reject an item with no attributes, but every item holds at least its `image_id`, so absence is the only case modelled.
