/**
  The `POST /upload` handler: write the payload to the object store, then the
  metadata item to the table, and answer 201 with both ids, or 500 with the
  exception text at the first failure.
 */
module UploadRoute {
  import opened Base
  import opened Model
  import Text
  import opened AwsService

  /** The multipart form: `user_id`, optional `description` and `tags`, and
      the file part (its name, content type and bytes). */
  datatype UploadForm = UploadForm(
    userId: string,
    description: Option<string>,
    tags: Option<string>,
    filename: string,
    contentType: string,
    body: Bytes)

  /** What the handler takes from outside: the generated UUID, the clock
      reading, and how the object write and the item write end. */
  datatype UploadEnv = UploadEnv(uuid: string, timestamp: string, putObject: CallOutcome, putItem: CallOutcome)

  const UploadedMessage: string := "Image uploaded successfully"

  /** `tags.split(",") if tags else []`: no tags for a missing or empty
      field; otherwise one tag per comma-separated segment, untrimmed and with
      empty segments kept, so that joining them with commas gives the field
      back. */
  function ParseTags(tags: Option<string>): (r: seq<string>)
    ensures tags.None? || tags == Some("") ==> r == []
    ensures tags.Some? && tags.value != "" ==> |r| == Text.Count(tags.value, ',') + 1
    ensures tags.Some? && tags.value != "" ==> Text.Join(r, ',') == tags.value
    ensures forall i :: 0 <= i < |r| ==> ',' !in r[i]
  {
    if tags.None? || tags.value == "" then []
    else
      Text.SplitJoin(tags.value, ',');
      Text.SplitCount(tags.value, ',');
      Text.SplitPartsFree(tags.value, ',');
      Text.Split(tags.value, ',')
  }

  /** Tags are parsed by splitting alone: a list of comma-free tags, joined
      and parsed again, comes back unchanged. */
  lemma ParseTagsOfJoin(tags: seq<string>)
    requires |tags| >= 1 && Text.Join(tags, ',') != ""
    requires forall i :: 0 <= i < |tags| ==> ',' !in tags[i]
    ensures ParseTags(Some(Text.Join(tags, ','))) == tags
  {
    Text.JoinSplit(tags, ',');
  }

  /** The form value `"travel,sunset"` gives the two tags of the upload
      example. */
  lemma ParseTagsTravelSunset()
    ensures ParseTags(Some("travel,sunset")) == ["travel", "sunset"]
  {
    var tags := ["travel", "sunset"];
    assert Text.Join(tags[1..], ',') == "sunset";
    assert Text.Join(tags, ',') == "travel,sunset";
    ParseTagsOfJoin(tags);
  }

  /** Spaces around commas are kept and empty segments are tags too. */
  lemma ParseTagsKeepsSpacesAndEmpties()
    ensures ParseTags(Some("a, b ,c")) == ["a", " b ", "c"]
    ensures ParseTags(Some("a,,b")) == ["a", "", "b"]
  {
    var spaced := ["a", " b ", "c"];
    assert Text.Join(spaced[2..], ',') == "c";
    assert Text.Join(spaced[1..], ',') == " b ,c";
    assert Text.Join(spaced, ',') == "a, b ,c";
    ParseTagsOfJoin(spaced);
    var gap := ["a", "", "b"];
    assert Text.Join(gap[2..], ',') == "b";
    assert Text.Join(gap[1..], ',') == ",b";
    assert Text.Join(gap, ',') == "a,,b";
    ParseTagsOfJoin(gap);
  }

  /** The key and image id the handler generates for this form. */
  function UploadKey(form: UploadForm, env: UploadEnv): ImageKey {
    GenerateImageKey(form.userId, form.filename, env.uuid)
  }

  /** The metadata item the handler assembles. It has no `s3_key`
      attribute. */
  function UploadRecord(cfg: Settings, form: UploadForm, env: UploadEnv): Record {
    var k := UploadKey(form, env);
    Record(
      k.imageId,
      Some(form.userId),
      Some(form.description.GetOr("")),
      Some(ParseTags(form.tags)),
      Some(GetImageUrl(cfg, k.key)),
      Some(env.timestamp),
      None)
  }

  /** The item a successful upload stores describes the form exactly:
      generated id, uploader, description (empty when missing), parsed tags,
      the reference URL of the object's key, the clock reading, and no
      object key. */
  lemma UploadRecordShape(cfg: Settings, form: UploadForm, env: UploadEnv)
    ensures var rec := UploadRecord(cfg, form, env);
      && rec.imageId == env.uuid
      && rec.userId == Some(form.userId)
      && rec.description == Some(if form.description.Some? then form.description.value else "")
      && rec.tags == Some(ParseTags(form.tags))
      && rec.uploadedAt == Some(env.timestamp)
      && rec.s3Key.None?
      && rec.imageUrl.Some?
      && KeyOfUrl(cfg, rec.imageUrl.value) == Some(UploadKey(form, env).key)
      && ParseImageKey(form.userId, UploadKey(form, env).key)
         == Some(KeyParts(env.uuid, Extension(form.filename)))
  {
    ImageKeyRoundTrip(form.userId, form.filename, env.uuid);
  }

  /** `upload_image`. The object write comes first; if it fails nothing else
      is attempted and neither store changes. If the item write then fails the
      object stays behind without metadata. On success exactly one item is
      put, under the generated id, and the response repeats it. */
  function UploadImage(cfg: Settings, st: Stores, form: UploadForm, env: UploadEnv): (out: Outcome)
    ensures var key := UploadKey(form, env).key;
      && |out.calls| >= 1 && out.calls[0] == PutObject(key)
      && (env.putObject.Fails? ==>
            && out.stores == st
            && out.calls == [PutObject(key)]
            && out.response == Error(500, UploadImageToS3(st.objects, key, form.body, form.contentType, env.putObject).exc.message))
      && (env.putObject.Succeeds? ==>
            && key in out.stores.objects
            && out.stores.objects[key] == StoredObject(form.body, form.contentType)
            && SameExcept(st.objects, out.stores.objects, key)
            && out.calls == [PutObject(key), PutItem(env.uuid)])
      && (env.putObject.Succeeds? && env.putItem.Fails? ==>
            && out.stores.table == st.table
            && out.response == Error(500, SaveImageMetadata(st.table, UploadRecord(cfg, form, env), env.putItem).exc.message))
      && (env.putObject.Succeeds? && env.putItem.Succeeds? ==>
            && env.uuid in out.stores.table
            && out.stores.table[env.uuid] == UploadRecord(cfg, form, env)
            && SameExcept(st.table, out.stores.table, env.uuid)
            && out.response.status == 201
            && out.response.body == Uploaded(UploadedMessage, env.uuid,
                                             out.stores.table[env.uuid].imageUrl.value,
                                             out.stores.table[env.uuid]))
    ensures WellKeyed(st.table) ==> WellKeyed(out.stores.table)
  {
    var k := UploadKey(form, env);
    match UploadImageToS3(st.objects, k.key, form.body, form.contentType, env.putObject)
    case Raised(e) => Outcome(st, Error(500, e.message), [PutObject(k.key)])
    case Ok(objects) =>
      var url := GetImageUrl(cfg, k.key);
      var rec := UploadRecord(cfg, form, env);
      var calls := [PutObject(k.key), PutItem(k.imageId)];
      match SaveImageMetadata(st.table, rec, env.putItem)
      case Raised(e) => Outcome(Stores(objects, st.table), Error(500, e.message), calls)
      case Ok(table) =>
        Outcome(Stores(objects, table), Response(201, Uploaded(UploadedMessage, k.imageId, url, rec)), calls)
  }

  /** With a fresh id, a successful upload grows the table by one item and
      the bucket holds the object key afterwards. */
  lemma UploadAddsOneRecord(cfg: Settings, st: Stores, form: UploadForm, env: UploadEnv)
    requires env.putObject.Succeeds? && env.putItem.Succeeds?
    requires env.uuid !in st.table
    ensures var out := UploadImage(cfg, st, form, env);
      && out.stores.table.Keys == st.table.Keys + {env.uuid}
      && |out.stores.table| == |st.table| + 1
      && out.stores.objects.Keys == st.objects.Keys + {UploadKey(form, env).key}
  {
  }
}
