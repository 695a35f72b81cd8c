/** The AzuraCast client: its configuration, the bounded retry of API
    requests, the playlist lookup and the upload flow. Every HTTP exchange is
    an input: a responder tells, for each attempt, what the server answered. */
module AzuraCast {
  import opened Wrappers
  import opened Strings
  import opened Skeleton

  /** `RETRY_COUNT`: the number of attempts of one request. */
  const RetryCount: nat := 5

  /** `BACKOFF_FACTOR` of 0.3 seconds, in milliseconds. */
  const BackoffFactorMs: nat := 300

  /** The statuses that are worth another attempt. */
  const RetryStatuses: set<int> := {500, 502, 503, 504}

  /** The client's settings, read once from the environment. */
  datatype Settings = Settings(
    host: Option<string>,
    apiKey: Option<string>,
    stationId: int,
    path: Option<string>,
    playlistName: Option<string>,
    filenameTemplate: string)

  /** The default upload file name. */
  const DefaultFilename: string := "news.%EXT%"

  function Get(env: map<string, string>, name: string): Option<string>
  {
    if name in env then Some(env[name]) else None
  }

  /** `__init__`: the station id defaults to `0`; a value `int()` cannot read
      raises `ValueError`. */
  function FromEnvironment(env: map<string, string>): Result<Settings, string>
  {
    var stationText := if "AZURACAST_STATIONID" in env then env["AZURACAST_STATIONID"] else "0";
    match ParseInt(stationText)
    case None => Failure("ValueError")
    case Some(id) =>
      Success(Settings(
        Get(env, "AZURACAST_HOST"),
        Get(env, "AZURACAST_API_KEY"),
        id,
        Get(env, "AZURACAST_PATH"),
        Get(env, "AZURACAST_PLAYLIST"),
        if "AZURACAST_FILENAME" in env then env["AZURACAST_FILENAME"] else DefaultFilename))
  }

  /** Python truth of an optional string: set and not empty. */
  predicate Truthy(s: Option<string>)
  {
    s.Some? && s.value != ""
  }

  /** `all([self.host, self.api_key, self.station_id])`. */
  predicate Configured(s: Settings)
  {
    Truthy(s.host) && Truthy(s.apiKey) && s.stationId != 0
  }

  /** `f"{self.path}/{file_key}" if self.path else file_key`. */
  function UploadKey(path: Option<string>, fileKey: string): string
  {
    if Truthy(path) then path.value + "/" + fileKey else fileKey
  }

  // ---------------------------------------------------------------------------
  // _perform_request: bounded retry with exponential backoff
  // ---------------------------------------------------------------------------

  /** What one attempt gave: the decoded JSON body, or a failure with the
      response's status code when there was one. */
  datatype Outcome<B> = Responded(body: B) | Failed(status: Option<int>)

  predicate Retryable(status: Option<int>)
  {
    status.Some? && status.value in RetryStatuses
  }

  function Pow2(k: nat): nat
  {
    if k == 0 then 1 else 2 * Pow2(k - 1)
  }

  /** `BACKOFF_FACTOR * (2 ** attempt)`, in milliseconds. */
  function BackoffMs(attempt: nat): nat
  {
    BackoffFactorMs * Pow2(attempt)
  }

  /** The waits before the second, third, ... attempt when `n` attempts were
      made after the first. */
  function Backoffs(n: nat): (r: seq<nat>)
    ensures |r| == n
    ensures forall k :: 0 <= k < n ==> r[k] == BackoffMs(k)
  {
    if n == 0 then [] else Backoffs(n - 1) + [BackoffMs(n - 1)]
  }

  /** Whether attempt `k` ends the request: it answered, it failed in a way
      not worth retrying, or it was the last allowed attempt. */
  predicate EndsAt<B>(respond: nat -> Outcome<B>, k: nat)
  {
    k == RetryCount - 1 || respond(k).Responded? || !Retryable(respond(k).status)
  }

  function LastAttemptFrom<B>(respond: nat -> Outcome<B>, k: nat): nat
    requires k < RetryCount
    decreases RetryCount - k
  {
    if EndsAt(respond, k) then k else LastAttemptFrom(respond, k + 1)
  }

  /** The index of the attempt whose outcome decides the request. */
  function LastAttempt<B>(respond: nat -> Outcome<B>): nat
  {
    LastAttemptFrom(respond, 0)
  }

  /** The value `_perform_request` returns, or the failure it re-raises. */
  function RequestResult<B>(respond: nat -> Outcome<B>): Result<B, Option<int>>
  {
    match respond(LastAttempt(respond))
    case Responded(body) => Success(body)
    case Failed(status) => Failure(status)
  }

  /** `_perform_request`. Returns the body or the failure, and the waits it
      slept between attempts. */
  method PerformRequest<B>(respond: nat -> Outcome<B>) returns (result: Result<B, Option<int>>, sleeps: seq<nat>)
    ensures result == RequestResult(respond)
    ensures sleeps == Backoffs(LastAttempt(respond))
  {
    sleeps := [];
    for attempt := 0 to RetryCount
      invariant sleeps == Backoffs(attempt)
      invariant attempt < RetryCount
      invariant LastAttempt(respond) == LastAttemptFrom(respond, attempt)
    {
      match respond(attempt)
      case Responded(body) =>
        return Success(body), sleeps;
      case Failed(status) =>
        if status.Some? && status.value in RetryStatuses {
          if attempt < RetryCount - 1 {
            sleeps := sleeps + [BackoffMs(attempt)];
          } else {
            return Failure(status), sleeps;
          }
        } else {
          return Failure(status), sleeps;
        }
    }
    assert false;
  }

  /** The attempt that decides a request is one of the five, every earlier
      one failed with a retryable status, and the deciding one either
      answered, failed otherwise, or was the fifth. */
  lemma {:induction false} LastAttemptFromSpec<B>(respond: nat -> Outcome<B>, k: nat)
    requires k < RetryCount
    ensures var n := LastAttemptFrom(respond, k);
            && k <= n < RetryCount
            && EndsAt(respond, n)
            && forall j :: k <= j < n ==> respond(j).Failed? && Retryable(respond(j).status)
    decreases RetryCount - k
  {
    if !EndsAt(respond, k) {
      LastAttemptFromSpec(respond, k + 1);
    }
  }

  lemma LastAttemptSpec<B>(respond: nat -> Outcome<B>)
    ensures var n := LastAttempt(respond);
            && n < RetryCount
            && (respond(n).Responded? || !Retryable(respond(n).status) || n == RetryCount - 1)
            && forall j :: 0 <= j < n ==> respond(j).Failed? && Retryable(respond(j).status)
  {
    LastAttemptFromSpec(respond, 0);
  }

  /** A failure without a retryable status, on the first attempt, is
      re-raised at once without any wait. */
  lemma NoRetryOnOtherFailures<B>(respond: nat -> Outcome<B>)
    requires respond(0).Failed? && !Retryable(respond(0).status)
    ensures RequestResult(respond) == Failure(respond(0).status)
    ensures Backoffs(LastAttempt(respond)) == []
  {
  }

  /** A server that keeps failing with a retryable status is tried five
      times, with four waits of 0.3, 0.6, 1.2 and 2.4 seconds, and its last
      failure is re-raised. */
  lemma PersistentServerErrorExhaustsRetries<B>(respond: nat -> Outcome<B>, status: int)
    requires status in RetryStatuses
    requires forall k :: respond(k) == Failed(Some(status))
    ensures LastAttempt(respond) == RetryCount - 1
    ensures RequestResult(respond) == Failure(Some(status))
    ensures Backoffs(LastAttempt(respond)) == [300, 600, 1200, 2400]
  {
    LastAttemptSpec(respond);
  }

  /** Each wait is twice the one before. */
  lemma BackoffDoubles(attempt: nat)
    ensures BackoffMs(attempt + 1) == 2 * BackoffMs(attempt)
  {
  }

  /** The status as the exception handler reads it, as written:
      `e.response.status_code if e.response else None`. A response object is
      false when its status is 400 to 599, the range `raise_for_status`
      raises for, so the status of every error reply is lost. */
  function SeenStatusAsWritten(status: Option<int>): Option<int>
  {
    if status.Some? && !(400 <= status.value < 600) then status else None
  }

  /** The attempts as the retry loop sees them, as written. */
  function AttemptsAsWritten<B>(respond: nat -> Outcome<B>): nat -> Outcome<B>
  {
    (k: nat) => match respond(k)
         case Responded(body) => Responded(body)
         case Failed(status) => Failed(SeenStatusAsWritten(status))
  }

  /** As written, a server error is never retried: the first failing reply
      ends the request with no status and no wait, whatever the status. */
  lemma ServerErrorNotRetriedAsWritten<B>(respond: nat -> Outcome<B>, status: int)
    requires status in RetryStatuses
    requires forall k :: respond(k) == Failed(Some(status))
    ensures LastAttempt(AttemptsAsWritten(respond)) == 0
    ensures RequestResult(AttemptsAsWritten(respond)) == Failure(None)
    ensures Backoffs(LastAttempt(AttemptsAsWritten(respond))) == []
  {
    assert AttemptsAsWritten(respond)(0) == Failed(None);
  }

  // ---------------------------------------------------------------------------
  // get_playlist_id
  // ---------------------------------------------------------------------------

  /** One entry of the station's playlist listing. */
  datatype Playlist = Playlist(name: string, id: int)

  /** The id of the first playlist with the given name. */
  function FirstPlaylistId(playlists: seq<Playlist>, name: string): Option<int>
  {
    if playlists == [] then None
    else if playlists[0].name == name then Some(playlists[0].id)
    else FirstPlaylistId(playlists[1..], name)
  }

  /** `get_playlist_id` over the listing the server returned. */
  method GetPlaylistId(playlists: seq<Playlist>, playlistName: string) returns (id: Option<int>)
    ensures id == FirstPlaylistId(playlists, playlistName)
  {
    for i := 0 to |playlists|
      invariant FirstPlaylistId(playlists, playlistName) == FirstPlaylistId(playlists[i..], playlistName)
    {
      assert playlists[i..][1..] == playlists[i + 1..];
      if playlists[i].name == playlistName {
        return Some(playlists[i].id);
      }
    }
    return None;
  }

  /** The lookup finds a playlist exactly when one has that name, and then
      its id is that of the first one with the name. */
  lemma {:induction false} FirstPlaylistIdSpec(playlists: seq<Playlist>, name: string)
    ensures FirstPlaylistId(playlists, name).None? <==> forall i :: 0 <= i < |playlists| ==> playlists[i].name != name
    ensures FirstPlaylistId(playlists, name).Some? ==>
              exists i :: 0 <= i < |playlists| && playlists[i].name == name
                          && FirstPlaylistId(playlists, name).value == playlists[i].id
                          && forall j :: 0 <= j < i ==> playlists[j].name != name
  {
    if playlists != [] && playlists[0].name != name {
      FirstPlaylistIdSpec(playlists[1..], name);
      var r := FirstPlaylistId(playlists, name);
      if r.Some? {
        var i :| 0 <= i < |playlists[1..]| && playlists[1..][i].name == name
                 && r.value == playlists[1..][i].id
                 && forall j :: 0 <= j < i ==> playlists[1..][j].name != name;
        assert playlists[i + 1].name == name;
        assert forall j :: 0 <= j < i + 1 ==> playlists[j].name != name by {
          forall j | 0 <= j < i + 1 ensures playlists[j].name != name {
            if j > 0 {
              assert playlists[j] == playlists[1..][j - 1];
            }
          }
        }
      }
      if forall i :: 0 <= i < |playlists[1..]| ==> playlists[1..][i].name != name {
        forall i | 0 <= i < |playlists| ensures playlists[i].name != name {
          if i > 0 {
            assert playlists[i] == playlists[1..][i - 1];
          }
        }
      }
    }
  }

  // ---------------------------------------------------------------------------
  // upload_file and update_track_metadata
  // ---------------------------------------------------------------------------

  /** The API calls the client issues, in the order it issues them. */
  datatype Request =
    | Upload(key: string)
    | ListPlaylists
    | EmptyPlaylist(playlistId: int)
    | AddToPlaylist(fileId: Value, playlistId: int)
    | UpdateMetadata(trackId: int)

  /** `isinstance(file_id, int)`, which Python's `bool` also passes. */
  function AsInt(v: Value): Option<int>
  {
    match v
    case Int(i) => Some(i)
    case Bool(b) => Some(if b then 1 else 0)
    case _ => None
  }

  /** `upload_file`. The upload reply is the value under `id`, `None` when the
      reply has no `id` (Python's `KeyError`, which is not caught and becomes
      `Failure`). Any failed request ends the flow with `None`. */
  method UploadFile(s: Settings, fileKey: string,
                    upload: nat -> Outcome<Option<Value>>,
                    listing: nat -> Outcome<seq<Playlist>>,
                    emptying: nat -> Outcome<()>,
                    adding: nat -> Outcome<()>)
    returns (result: Result<Option<int>, string>, issued: seq<Request>)
    ensures !Configured(s) ==> result == Success(None) && issued == []
    ensures Configured(s) ==> |issued| >= 1 && issued[0] == Upload(UploadKey(s.path, fileKey))
    ensures result.Failure? <==> Configured(s) && RequestResult(upload) == Success(None)
    ensures result.Success? && result.value.Some? ==>
              Configured(s) && RequestResult(upload).Success? && RequestResult(upload).value.Some?
              && result.value == AsInt(RequestResult(upload).value.value)
    ensures ListPlaylists in issued ==> Truthy(s.playlistName)
    ensures forall r | r in issued && r.EmptyPlaylist? ::
              Truthy(s.playlistName) && r.playlistId != 0 && RequestResult(listing).Success?
              && FirstPlaylistId(RequestResult(listing).value, s.playlistName.value) == Some(r.playlistId)
    // Branch by branch, for a configured client: the upload alone when it
    // fails or its reply has no `id`; then, with a playlist name, the
    // listing, and for a first match with a non-zero id the emptying and the
    // adding; any failed request ends the flow with no id.
    ensures Configured(s) && RequestResult(upload).Failure? ==>
              result == Success(None) && issued == [Upload(UploadKey(s.path, fileKey))]
    ensures Configured(s) && RequestResult(upload) == Success(None) ==>
              result == Failure("KeyError") && issued == [Upload(UploadKey(s.path, fileKey))]
    ensures Configured(s) && RequestResult(upload).Success? && RequestResult(upload).value.Some? ==>
              var fileId, key := RequestResult(upload).value.value, UploadKey(s.path, fileKey);
              if !Truthy(s.playlistName) then
                result == Success(AsInt(fileId)) && issued == [Upload(key)]
              else if RequestResult(listing).Failure? then
                result == Success(None) && issued == [Upload(key), ListPlaylists]
              else
                var p := FirstPlaylistId(RequestResult(listing).value, s.playlistName.value);
                if p.None? || p.value == 0 then
                  result == Success(AsInt(fileId)) && issued == [Upload(key), ListPlaylists]
                else if RequestResult(emptying).Failure? then
                  result == Success(None) && issued == [Upload(key), ListPlaylists, EmptyPlaylist(p.value)]
                else
                  && issued == [Upload(key), ListPlaylists, EmptyPlaylist(p.value), AddToPlaylist(fileId, p.value)]
                  && result == (if RequestResult(adding).Failure? then Success(None) else Success(AsInt(fileId)))
  {
    if !Configured(s) {
      return Success(None), [];
    }
    var key := UploadKey(s.path, fileKey);
    issued := [Upload(key)];
    var reply, _ := PerformRequest(upload);
    if reply.Failure? {
      return Success(None), issued;
    }
    if reply.value.None? {
      return Failure("KeyError"), issued;
    }
    var fileId := reply.value.value;
    if Truthy(s.playlistName) {
      issued := issued + [ListPlaylists];
      var found, _ := PerformRequest(listing);
      if found.Failure? {
        return Success(None), issued;
      }
      var playlistId := GetPlaylistId(found.value, s.playlistName.value);
      if playlistId.Some? && playlistId.value != 0 {
        issued := issued + [EmptyPlaylist(playlistId.value)];
        var emptied, _ := PerformRequest(emptying);
        if emptied.Failure? {
          return Success(None), issued;
        }
        issued := issued + [AddToPlaylist(fileId, playlistId.value)];
        var added, _ := PerformRequest(adding);
        if added.Failure? {
          return Success(None), issued;
        }
      }
    }
    return Success(AsInt(fileId)), issued;
  }

  /** `update_track_metadata`: nothing is sent unless the client is
      configured; otherwise one update is sent and its failure propagates. */
  method UpdateTrackMetadata(s: Settings, trackId: int, respond: nat -> Outcome<Value>)
    returns (result: Option<Result<Value, Option<int>>>, issued: seq<Request>)
    ensures !Configured(s) ==> result == None && issued == []
    ensures Configured(s) ==> result == Some(RequestResult(respond)) && issued == [UpdateMetadata(trackId)]
  {
    if !Configured(s) {
      return None, [];
    }
    issued := [UpdateMetadata(trackId)];
    var r, _ := PerformRequest(respond);
    result := Some(r);
  }

  // ---------------------------------------------------------------------------
  // Properties of the configuration and the keys
  // ---------------------------------------------------------------------------

  /** Without `AZURACAST_STATIONID` the station id is 0, so the client never
      counts as configured. */
  lemma UnsetStationIdSkips(env: map<string, string>)
    requires "AZURACAST_STATIONID" !in env
    ensures FromEnvironment(env).Success?
    ensures FromEnvironment(env).value.stationId == 0 && !Configured(FromEnvironment(env).value)
  {
    assert ParseInt("0") == Some(0) by {
      ParseIntRoundTrip(0);
      assert IntToString(0) == "0";
    }
  }

  /** A station id written as `str(i)` is read back as `i`; the template
      default is `news.%EXT%`. */
  lemma StationIdRoundTrip(env: map<string, string>, i: int)
    requires "AZURACAST_STATIONID" in env && env["AZURACAST_STATIONID"] == IntToString(i)
    ensures FromEnvironment(env).Success? && FromEnvironment(env).value.stationId == i
    ensures "AZURACAST_FILENAME" !in env ==> FromEnvironment(env).value.filenameTemplate == "news.%EXT%"
  {
    ParseIntRoundTrip(i);
  }

  /** The key gets the `<path>/` prefix exactly when a non-empty path is set,
      and it always ends with the given key. */
  lemma UploadKeyPrefix(path: Option<string>, fileKey: string)
    ensures Truthy(path) ==> UploadKey(path, fileKey) == path.value + "/" + fileKey
    ensures !Truthy(path) ==> UploadKey(path, fileKey) == fileKey
    ensures var k := UploadKey(path, fileKey);
            |k| >= |fileKey| && k[|k| - |fileKey|..] == fileKey
  {
  }
}
