/** The S3 upload client: its configuration, the object key and the result of
    an upload. The storage service is an input: whether `put_object` succeeds. */
module S3 {
  import opened Wrappers
  import opened Strings
  import opened Filenames

  /** The client's settings, read once from the environment. */
  datatype Settings = Settings(
    bucketName: Option<string>,
    regionName: string,
    endpointUrl: Option<string>,
    accessKey: Option<string>,
    secretKey: Option<string>,
    path: string,
    filenameTemplate: string)

  const DefaultRegion: string := "us-east-1"
  const DefaultFilename: string := "news_%Y%m%d_%H%M%S.%EXT%"

  function Get(env: map<string, string>, name: string): Option<string>
  {
    if name in env then Some(env[name]) else None
  }

  function GetOr(env: map<string, string>, name: string, default: string): string
  {
    if name in env then env[name] else default
  }

  /** `os.getenv('S3_PATH', '').strip('/')`. */
  function NormalisePath(raw: string): string
  {
    StripChar(raw, '/')
  }

  /** `__init__` (the boto3 client it creates is not modelled). */
  function FromEnvironment(env: map<string, string>): Settings
  {
    Settings(
      Get(env, "S3_BUCKET_NAME"),
      GetOr(env, "S3_REGION_NAME", DefaultRegion),
      Get(env, "S3_ENDPOINT_URL"),
      Get(env, "S3_ACCESS_KEY"),
      Get(env, "S3_SECRET_KEY"),
      NormalisePath(GetOr(env, "S3_PATH", "")),
      GetOr(env, "S3_FILENAME", DefaultFilename))
  }

  /** `f"{self.path}/{file_key}" if self.path else file_key`. */
  function ObjectKey(path: string, fileKey: string): string
  {
    if path != "" then path + "/" + fileKey else fileKey
  }

  /** The arguments of the one `put_object` call. */
  datatype PutObject = PutObject(bucket: Option<string>, key: string, body: seq<bv8>, contentType: string)

  function UploadRequest(s: Settings, fileContent: seq<bv8>, fileKey: string, contentType: string): PutObject
  {
    PutObject(s.bucketName, ObjectKey(s.path, fileKey), fileContent, contentType)
  }

  /** What the `put_object` call did: stored the object, raised a Boto or
      client error, or raised any other exception. */
  datatype PutOutcome = Stored | ServiceError | OtherError(error: string)

  /** `upload_file`: `True` when the object was stored, `False` for a Boto
      or client error; any other exception propagates as `Failure`. */
  function UploadFile(s: Settings, fileContent: seq<bv8>, fileKey: string, contentType: string,
                      put: PutObject -> PutOutcome): Result<bool, string>
  {
    match put(UploadRequest(s, fileContent, fileKey, contentType))
    case Stored => Success(true)
    case ServiceError => Success(false)
    case OtherError(e) => Failure(e)
  }

  /** `format_filename` as written: the module never imports `datetime`, so
      its first line raises `NameError` whatever the arguments. */
  function FormatFilenameAsWritten(template: string, extension: string): Result<string, string>
  {
    Failure("NameError")
  }

  /** `format_filename` with the clock reading it was meant to take; the
      replacements are those of the AzuraCast client. */
  function FormatFilenameIntended(template: string, t: DateTime, extension: string): string
  {
    FormatFilename(template, t, extension)
  }

  // ---------------------------------------------------------------------------
  // Properties
  // ---------------------------------------------------------------------------

  /** The configured path is the raw value with the runs of `/` at both ends
      removed: a slice of it, with nothing but `/` around it and no `/` at its
      own ends. */
  lemma NormalisePathSpec(raw: string)
    ensures var p := NormalisePath(raw);
            && (p == [] || (p[0] != '/' && p[|p| - 1] != '/'))
            && exists lo :: 0 <= lo <= |raw| && StartsWith(raw[lo..], p)
                            && (forall i :: 0 <= i < lo ==> raw[i] == '/')
                            && (forall i :: lo + |p| <= i < |raw| ==> raw[i] == '/')
  {
    StripCharSpec(raw, '/');
    var l := LStripChar(raw, '/');
    LStripCharSpec(raw, '/');
    RStripCharSpec(l, '/');
    var p := RStripChar(l, '/');
    var lo := |raw| - |l|;
    assert StartsWith(raw[lo..], p) by {
      assert l == raw[lo..];
      assert p == l[..|p|];
    }
    assert forall i :: lo + |p| <= i < |raw| ==> raw[i] == '/' by {
      forall i | lo + |p| <= i < |raw| ensures raw[i] == '/' {
        assert raw[i] == l[i - lo];
      }
    }
  }

  /** A path that is already normalised stays as it is. */
  lemma NormalisePathIdempotent(raw: string)
    ensures NormalisePath(NormalisePath(raw)) == NormalisePath(raw)
  {
    StripCharSpec(raw, '/');
    var p := NormalisePath(raw);
    assert LStripChar(p, '/') == p;
    assert RStripChar(p, '/') == p;
  }

  /** With a path the key is `<path>/<key>`, without one it is the key; with
      a normalised path exactly one `/` separates the two. */
  lemma ObjectKeyShape(s: Settings, fileKey: string)
    requires s.path == NormalisePath(s.path)
    ensures s.path == "" ==> ObjectKey(s.path, fileKey) == fileKey
    ensures s.path != "" ==>
              var k := ObjectKey(s.path, fileKey);
              && k == s.path + "/" + fileKey
              && k[|s.path|] == '/'
              && k[|s.path| - 1] != '/'
              && k[0] != '/'
  {
    StripCharSpec(s.path, '/');
  }

  /** The client reports `True` exactly when the storage service stored the
      object under the prefixed key, `False` exactly for a Boto or client
      error, and lets every other exception through unchanged. */
  lemma UploadReportsPut(s: Settings, fileContent: seq<bv8>, fileKey: string, contentType: string,
                         put: PutObject -> PutOutcome)
    ensures var sent := PutObject(s.bucketName, ObjectKey(s.path, fileKey), fileContent, contentType);
            var r := UploadFile(s, fileContent, fileKey, contentType, put);
            && (r == Success(true) <==> put(sent) == Stored)
            && (r == Success(false) <==> put(sent) == ServiceError)
            && (r.Failure? <==> put(sent).OtherError?)
            && (r.Failure? ==> r.error == put(sent).error)
    ensures UploadRequest(s, fileContent, fileKey, contentType).key == ObjectKey(s.path, fileKey)
  {
  }

  /** The S3 defaults: region `us-east-1`, no path, the timestamped
      template. */
  lemma Defaults(env: map<string, string>)
    requires "S3_REGION_NAME" !in env && "S3_PATH" !in env && "S3_FILENAME" !in env
    ensures FromEnvironment(env).regionName == "us-east-1"
    ensures FromEnvironment(env).path == ""
    ensures FromEnvironment(env).filenameTemplate == "news_%Y%m%d_%H%M%S.%EXT%"
  {
  }

  /** As written, formatting a file name fails for every template. */
  lemma FormatFilenameAlwaysRaises(template: string, extension: string)
    ensures FormatFilenameAsWritten(template, extension) == Failure("NameError")
  {
  }

  /** The intended formatting gives the default name its timestamp. */
  lemma IntendedDefaultName(t: DateTime, extension: string)
    ensures FormatFilenameIntended(DefaultFilename, t, extension)
         == "news_" + YearText(t) + TwoDigits(t.month) + TwoDigits(t.day) + "_"
            + TwoDigits(t.hour) + TwoDigits(t.minute) + TwoDigits(t.second) + "." + extension
  {
    DefaultS3Name(t, extension);
  }
}
