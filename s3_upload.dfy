/**
 * The pre-signed upload route: validate the file metadata, name the object
 * `prefix + "-" + fileName`, build the put command and ask the signer for a
 * URL valid for 360 seconds. The signer and the prefix generator are
 * foreign: the signer is a function parameter (None when it throws) and the
 * prefix is an argument, assumed neither random nor unique.
 */
module S3Upload {

  import opened Wrappers
  import opened Json
  import opened Http

  /** The fields of `fileUploadSchema`. */
  datatype UploadRequest = UploadRequest(fileName: string, fileType: string, fileSize: real, isImage: bool)

  /** `fileUploadSchema.safeParse`: an object with two non-empty strings, a number of at least 1 and a boolean. */
  function ParseUpload(v: Value): (r: Option<UploadRequest>)
    ensures r.Some? ==> v.Obj?
    ensures r.Some? ==> StringAt(v.fields, "fileName") == Some(r.value.fileName) && r.value.fileName != ""
    ensures r.Some? ==> StringAt(v.fields, "fileType") == Some(r.value.fileType) && r.value.fileType != ""
    ensures r.Some? ==> NumberAt(v.fields, "fileSize") == Some(r.value.fileSize) && r.value.fileSize >= 1.0
    ensures r.Some? ==> BoolAt(v.fields, "isImage") == Some(r.value.isImage)
    ensures v.Obj? && StringAt(v.fields, "fileName").Some? && StringAt(v.fields, "fileType").Some?
            && NumberAt(v.fields, "fileSize").Some? && BoolAt(v.fields, "isImage").Some? ==>
              (r.Some? <==> v.fields["fileName"].s != "" && v.fields["fileType"].s != "" && v.fields["fileSize"].n >= 1.0)
  {
    if !v.Obj? then None
    else
      var m := v.fields;
      var name, kind, size, image := StringAt(m, "fileName"), StringAt(m, "fileType"), NumberAt(m, "fileSize"), BoolAt(m, "isImage");
      if name.Some? && kind.Some? && size.Some? && image.Some?
         && |name.value| >= 1 && |kind.value| >= 1 && size.value >= 1.0
      then Some(UploadRequest(name.value, kind.value, size.value, image.value))
      else None
  }

  /** The JSON object a client sends for a request. */
  function EncodeUpload(u: UploadRequest): (v: Value)
    ensures v.Obj?
  {
    Obj(map["fileName" := Str(u.fileName), "fileType" := Str(u.fileType),
            "fileSize" := Num(u.fileSize), "isImage" := Bool(u.isImage)])
  }

  /** Exactly the requests with non-empty name and type and size at least 1 are accepted, unchanged. */
  lemma ParseEncodeUpload(u: UploadRequest)
    ensures ParseUpload(EncodeUpload(u)) ==
              if u.fileName != "" && u.fileType != "" && u.fileSize >= 1.0 then Some(u) else None
  {
    var m := EncodeUpload(u).fields;
    assert StringAt(m, "fileName") == Some(u.fileName);
    assert StringAt(m, "fileType") == Some(u.fileType);
    assert NumberAt(m, "fileSize") == Some(u.fileSize);
    assert BoolAt(m, "isImage") == Some(u.isImage);
  }

  /** An `isImage` that is missing or not a boolean is rejected, whatever the other fields hold. */
  lemma NonBooleanIsImageRejected(v: Value)
    requires v.Obj? && ("isImage" !in v.fields || !v.fields["isImage"].Bool?)
    ensures ParseUpload(v) == None
  {
  }

  /** The object key: the prefix, a hyphen, then the file name as given. */
  function UniqueFileName(prefix: string, fileName: string): (key: string)
    ensures |key| == |prefix| + 1 + |fileName|
    ensures key[..|prefix|] == prefix && key[|prefix|] == '-'
    ensures key[|prefix| + 1..] == fileName
  {
    prefix + "-" + fileName
  }

  /** The key ends with `"-" + fileName`. */
  lemma KeyEndsWithName(prefix: string, fileName: string)
    ensures var key := UniqueFileName(prefix, fileName);
            |key| > |fileName| && key[|key| - |fileName| - 1..] == "-" + fileName
  {
    var key := UniqueFileName(prefix, fileName);
    assert key[|key| - |fileName| - 1..] == key[|prefix|..];
    assert key[|prefix|..] == [key[|prefix|]] + key[|prefix| + 1..];
  }

  /** For one prefix, different file names give different keys. */
  lemma KeyInjectiveInName(prefix: string, a: string, b: string)
    requires a != b
    ensures UniqueFileName(prefix, a) != UniqueFileName(prefix, b)
  {
    assert UniqueFileName(prefix, a)[|prefix| + 1..] == a;
    assert UniqueFileName(prefix, b)[|prefix| + 1..] == b;
  }

  /** Across prefixes keys can collide: prefix "a-b" with name "c" and prefix "a" with name "b-c" both give "a-b-c". */
  lemma KeysCollideAcrossPrefixes()
    ensures UniqueFileName("a-b", "c") == UniqueFileName("a", "b-c")
  {
  }

  /** The fields of the put command. */
  datatype PutCommand = PutCommand(bucket: string, contentType: string, contentLength: real, key: string)

  /** What is handed to the signer: the command and the expiry in seconds. */
  datatype SignRequest = SignRequest(command: PutCommand, expiresIn: nat)

  const ExpirySeconds: nat := 360

  /** The route's result together with the signer call it made, if any. */
  datatype Handled = Handled(response: Response, signed: Option<SignRequest>)

  const InvalidRequest := Response(400, ErrorBody("Invalid request data"))
  const SigningFailed := Response(500, ErrorBody("Failed to generate pre-signed URL"))

  /**
   * `POST`. `body` is None when `request.json()` throws; `presign` gives
   * None when signing throws. Both throws end in the catch block's 500.
   */
  function Post(body: Option<Value>, bucket: string, prefix: string, presign: SignRequest -> Option<string>): (h: Handled)
    ensures h.response.status in {200, 400, 500}
    ensures h.response.status == 400 <==> body.Some? && ParseUpload(body.value).None?
    ensures h.response.status == 400 ==> h.response == InvalidRequest
    ensures h.signed.Some? <==> body.Some? && ParseUpload(body.value).Some?
    ensures h.signed.Some? ==> h.signed.value.expiresIn == ExpirySeconds && h.signed.value.command.bucket == bucket
    ensures h.response.status == 200 <==> h.signed.Some? && presign(h.signed.value).Some?
    ensures h.response.status == 500 ==> h.response == SigningFailed
    ensures h.response.status == 200 ==>
              h.response.body == PresignedBody(presign(h.signed.value).value, h.signed.value.command.key)
  {
    if body.None? then Handled(SigningFailed, None)
    else
      var validation := ParseUpload(body.value);
      if validation.None? then Handled(InvalidRequest, None)
      else
        var u := validation.value;
        var key := UniqueFileName(prefix, u.fileName);
        var request := SignRequest(PutCommand(bucket, u.fileType, u.fileSize, key), ExpirySeconds);
        match presign(request)
        case None => Handled(SigningFailed, Some(request))
        case Some(url) => Handled(Response(200, PresignedBody(url, key)), Some(request))
  }

  /** For a valid request the command carries the request's type, size and the derived key, and a 200 returns that key. */
  lemma PostCommandFields(body: Value, bucket: string, prefix: string, presign: SignRequest -> Option<string>)
    requires ParseUpload(body).Some?
    ensures var u := ParseUpload(body).value;
            var h := Post(Some(body), bucket, prefix, presign);
            && h.signed == Some(SignRequest(PutCommand(bucket, u.fileType, u.fileSize, UniqueFileName(prefix, u.fileName)), 360))
            && (h.response.status == 200 ==> h.response.body.key == UniqueFileName(prefix, u.fileName))
  {
  }

  /** `isImage` is validated but unused: two requests differing only in it get the same command and response. */
  lemma IsImageIgnored(m: map<string, Value>, a: bool, b: bool, bucket: string, prefix: string, presign: SignRequest -> Option<string>)
    ensures Post(Some(Obj(m["isImage" := Bool(a)])), bucket, prefix, presign)
         == Post(Some(Obj(m["isImage" := Bool(b)])), bucket, prefix, presign)
  {
    var ma, mb := m["isImage" := Bool(a)], m["isImage" := Bool(b)];
    assert StringAt(ma, "fileName") == StringAt(mb, "fileName");
    assert StringAt(ma, "fileType") == StringAt(mb, "fileType");
    assert NumberAt(ma, "fileSize") == NumberAt(mb, "fileSize");
  }
}
