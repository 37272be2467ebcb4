/**
 * The `YoutubeExtra` object: the state it keeps between calls (`page_info`,
 * `videoId`, `snippet`, and the client's deferred-request flag) and the
 * operations that change it. Calls into the parent class and the API client
 * are inputs: the outcome of `handleAccessToken()`, the outcome of
 * `exists()`, the reply of the remote call, and the upload session. A ghost
 * trace records, in order, the calls into the parent class, the service and
 * the media upload; `setDefer` shows in the `defer` field instead, and file
 * reads are not recorded.
 */
module Youtube {
  import opened Wrappers
  import opened Php
  import opened VideoResource
  import opened ListDecoder
  import opened ChunkedUpload

  /** An external call made by an operation. */
  datatype Call =
    | HandleAccessToken
    | Exists(id: Value)
    | Insert(part: string, video: Video, deferred: bool)
    | OpenMediaUpload(mimeType: string, resumable: bool, chunkSize: nat)
    | SetFileSize(size: nat)
    | NextChunk(chunk: Chunk)
    | UpdateCall(part: string, video: Video)
    | ListPlaylistItems(part: string, maxResults: Value, playlistId: Value, pageToken: Value)

  /** The `nextChunk` calls that submit `sent`, in order. */
  function ChunkCalls(sent: seq<Chunk>): (calls: seq<Call>)
    ensures |calls| == |sent|
    ensures forall k :: 0 <= k < |sent| ==> calls[k] == NextChunk(sent[k])
    decreases |sent|
  {
    if |sent| == 0 then [] else [NextChunk(sent[0])] + ChunkCalls(sent[1..])
  }

  /** The calls of the upload proper: the deferred insert request, the media upload, the chunks. */
  function TransferCalls(data: map<string, Value>, file: seq<bv8>, sent: seq<Chunk>): seq<Call> {
    [Insert(VideoPart, GetVideo(data, Null), true), OpenMediaUpload("video/*", true, ChunkSize), SetFileSize(|file|)]
    + ChunkCalls(sent)
  }

  /** The calls of an upload whose file exists and whose token is handled. */
  function UploadCalls(data: map<string, Value>, file: seq<bv8>, sent: seq<Chunk>): seq<Call> {
    [HandleAccessToken] + TransferCalls(data, file, sent)
  }

  /** The parts written by the insert and update calls. */
  const VideoPart := "status,snippet"

  /**
   * The list call `getPlaylistItemsByPlaylistId` makes; the page token, the
   * page size and the parts have the method's defaults.
   */
  function ListRequest(playlistId: Value, pageToken: Value := Str(DefaultPageToken),
                       maxResults: Value := Int(DefaultMaxResults),
                       part: seq<string> := DefaultPart): Call
  {
    ListPlaylistItems(Implode(", ", part), maxResults, playlistId, pageToken)
  }

  /**
   * A call that gives only the playlist asks for the first page of 50
   * items with the id, snippet, content details and status of each.
   */
  lemma DefaultListRequest(playlistId: Value)
    ensures ListRequest(playlistId)
         == ListPlaylistItems("id" + ", " + "snippet" + ", " + "contentDetails" + ", " + "status",
                              Int(50), playlistId, Str(""))
  {
  }

  /** The message thrown for an upload from a missing file. */
  function MissingFileMessage(path: string): string {
    "Video file does not exist at path: \"" + path
    + "\". Provide a full path to the file before attempting to upload."
  }

  /** The message thrown when the video to update does not exist. */
  function NotFoundMessage(id: Value): string {
    "A video matching id \"" + ToPhpString(id) + "\" could not be found."
  }

  /** `$status['id']`: the id of the finished video, null when `$status` is still `false`. */
  function FinalId(status: ChunkReply): Value {
    if status.Done? then status.video.id else Null
  }

  /** `$status['snippet']`: likewise for the snippet. */
  function FinalSnippet(status: ChunkReply): Value {
    if status.Done? then status.video.snippet else Null
  }

  /**
   * How an upload whose chunk loop ended with `status` leaves the object:
   * a chunk exception is rethrown with its message, the deferred flag stays
   * set and the fields keep their values `videoId0`/`snippet0`; otherwise
   * the call returns normally, the flag is cleared and the fields come from
   * the final status.
   */
  predicate UploadFinished(status: ChunkReply, r: Outcome, defer: bool, videoId: Value, snippet: Value,
                           videoId0: Value, snippet0: Value)
  {
    && (status.Raised? ==>
          r == Fail(status.message) && defer && videoId == videoId0 && snippet == snippet0)
    && (!status.Raised? ==>
          r == Pass && !defer && videoId == FinalId(status) && snippet == FinalSnippet(status))
  }

  class YoutubeExtra {
    /** `$this->videoId`: the id of the last uploaded or updated video. */
    var videoId: Value
    /** `$this->snippet`: the snippet of the last uploaded or updated video. */
    var snippet: Value
    /** `$this->page_info`: the page information of the last successful list call. */
    var pageInfo: map<string, Value>
    /** The API client's deferred-request flag (`$this->client->setDefer`). */
    var defer: bool
    /** The external calls made so far. */
    ghost var trace: seq<Call>

    constructor ()
      ensures videoId == Null && snippet == Null && pageInfo == map[] && !defer
      ensures trace == []
    {
      videoId := Null;
      snippet := Null;
      pageInfo := map[];
      defer := false;
      trace := [];
    }

    /**
     * `uploadVideo($path, $data)`. A missing file throws before anything
     * else is called. Otherwise the token is handled, and a failure there
     * propagates; then the upload itself runs (`UploadChunks`).
     */
    method UploadVideo(path: string, fileExists: bool, file: seq<bv8>, data: map<string, Value>,
                       access: Outcome, next: Session) returns (r: Outcome)
      modifies this
      ensures pageInfo == old(pageInfo)
      ensures !fileExists ==>
        && r == Fail(MissingFileMessage(path))
        && trace == old(trace)
        && videoId == old(videoId) && snippet == old(snippet) && defer == old(defer)
      ensures fileExists && access.Fail? ==>
        && r == access
        && trace == old(trace) + [HandleAccessToken]
        && videoId == old(videoId) && snippet == old(snippet) && defer == old(defer)
      ensures fileExists && access.Pass? ==>
        var sent := Sent(file, next);
        var status := next(sent);
        && trace == old(trace) + UploadCalls(data, file, sent)
        && UploadFinished(status, r, defer, videoId, snippet, old(videoId), old(snippet))
    {
      if !fileExists {
        return Fail(MissingFileMessage(path));
      }
      trace := trace + [HandleAccessToken];
      if access.Fail? {
        return access;
      }
      ghost var handled := trace;
      r := UploadChunks(file, data, next);
      assert handled + TransferCalls(data, file, Sent(file, next))
          == old(trace) + UploadCalls(data, file, Sent(file, next));
    }

    /**
     * The `try` block of `uploadVideo`: with the deferred flag set, the
     * insert request is built from `getVideo($data)`, the media upload
     * opened with 1 MiB chunks and the file size declared, and the chunk
     * loop run. When the loop ends without an exception the flag is cleared
     * and `videoId`/`snippet` are taken from its final status (null when the
     * session never finished); an exception from a chunk is rethrown with
     * its message and leaves the flag set and the fields as they were.
     */
    method UploadChunks(file: seq<bv8>, data: map<string, Value>, next: Session) returns (r: Outcome)
      modifies this
      ensures pageInfo == old(pageInfo)
      ensures
        var sent := Sent(file, next);
        var status := next(sent);
        && trace == old(trace) + TransferCalls(data, file, sent)
        && UploadFinished(status, r, defer, videoId, snippet, old(videoId), old(snippet))
    {
      var video := GetVideo(data, Null);
      defer := true;
      ghost var setup := [Insert(VideoPart, video, defer), OpenMediaUpload("video/*", true, ChunkSize), SetFileSize(|file|)];
      var status, sent := ChunkLoop(file, next);
      trace := trace + (setup + ChunkCalls(sent));
      if status.Raised? {
        return Fail(status.message);
      }
      defer := false;
      videoId := FinalId(status);
      snippet := FinalSnippet(status);
      r := Pass;
    }

    /**
     * `updateVideo($id, $data)`. The token is handled first; then an
     * exception from `exists()` propagates as it is, and a video that does
     * not exist throws not-found before the record is built or the update
     * sent. Otherwise the update is sent with `getVideo($data, $id)`
     * and, when it succeeds, `videoId`/`snippet` are taken from its reply;
     * an exception is rethrown with its message and the fields kept.
     */
    method UpdateVideo(id: Value, data: map<string, Value>, access: Outcome, found: Result<bool, string>,
                       reply: Result<RemoteVideo, string>) returns (r: Outcome)
      modifies this
      ensures pageInfo == old(pageInfo) && defer == old(defer)
      ensures access.Fail? ==>
        r == access && trace == old(trace) + [HandleAccessToken]
        && videoId == old(videoId) && snippet == old(snippet)
      ensures access.Pass? && found.Failure? ==>
        r == Fail(found.error) && trace == old(trace) + [HandleAccessToken, Exists(id)]
        && videoId == old(videoId) && snippet == old(snippet)
      ensures access.Pass? && found == Success(false) ==>
        r == Fail(NotFoundMessage(id)) && trace == old(trace) + [HandleAccessToken, Exists(id)]
        && videoId == old(videoId) && snippet == old(snippet)
      ensures access.Pass? && found == Success(true) ==>
        && trace == old(trace) + [HandleAccessToken, Exists(id), UpdateCall(VideoPart, GetVideo(data, id))]
        && (reply.Failure? ==> r == Fail(reply.error) && videoId == old(videoId) && snippet == old(snippet))
        && (reply.Success? ==> r == Pass && videoId == reply.value.id && snippet == reply.value.snippet)
    {
      trace := trace + [HandleAccessToken];
      if access.Fail? {
        return access;
      }
      trace := trace + [Exists(id)];
      if found.Failure? {
        return Fail(found.error);
      }
      if !found.value {
        return Fail(NotFoundMessage(id));
      }
      var video := GetVideo(data, id);
      trace := trace + [UpdateCall(VideoPart, video)];
      if reply.Failure? {
        return Fail(reply.error);
      }
      videoId := reply.value.id;
      snippet := reply.value.snippet;
      r := Pass;
    }

    /**
     * `decodeList($apiData)`. An error response throws its message and leaves
     * `page_info` as it was. Otherwise `page_info` is replaced by the page
     * information of the response (tokens null unless the response sets
     * them) and the items, or `false`, are returned.
     */
    method DecodeList(response: Response) returns (r: Result<ListResults, string>)
      modifies this`pageInfo
      ensures response.error.Some? ==>
        r == Failure(ErrorMessage(response.error.value)) && pageInfo == old(pageInfo)
      ensures response.error.None? ==>
        pageInfo == PageInfoOf(response) && r == Success(ItemsOrFalse(response.items))
    {
      if response.error.Some? {
        return Failure(ErrorMessage(response.error.value));
      }
      pageInfo := map[ResultsPerPageKey := response.pageInfo.resultsPerPage,
                       TotalResultsKey := response.pageInfo.totalResults,
                       KindKey := response.kind,
                       EtagKey := response.etag,
                       PrevPageTokenKey := Null,
                       NextPageTokenKey := Null];
      if Isset(response.prevPageToken) {
        pageInfo := pageInfo[PrevPageTokenKey := response.prevPageToken];
      }
      if Isset(response.nextPageToken) {
        pageInfo := pageInfo[NextPageTokenKey := response.nextPageToken];
      }
      var items := response.items;
      if !IsArray(items) || Count(items) == 0 {
        r := Success(NoItems);
      } else {
        r := Success(Items(items));
      }
    }

    /**
     * `getPlaylistItemsByPlaylistId($playlistId, $pageToken, $maxResults, $part)`.
     * The token is handled, the list call made with the parts joined by
     * `", "`; an exception from it, or an error response, is thrown with its
     * message. Otherwise the listing holds the decoded results and the info
     * built from the page information the decode recorded.
     */
    method GetPlaylistItemsByPlaylistId(playlistId: Value, access: Outcome,
                                        reply: Result<Response, string>,
                                        pageToken: Value := Str(DefaultPageToken),
                                        maxResults: Value := Int(DefaultMaxResults),
                                        part: seq<string> := DefaultPart)
      returns (r: Result<Listing, string>)
      modifies this
      ensures videoId == old(videoId) && snippet == old(snippet) && defer == old(defer)
      ensures access.Fail? ==>
        r == Failure(access.message) && trace == old(trace) + [HandleAccessToken]
        && pageInfo == old(pageInfo)
      ensures access.Pass? ==>
        trace == old(trace) + [HandleAccessToken, ListRequest(playlistId, pageToken, maxResults, part)]
      ensures access.Pass? && reply.Failure? ==>
        r == Failure(reply.error) && pageInfo == old(pageInfo)
      ensures access.Pass? && reply.Success? && reply.value.error.Some? ==>
        r == Failure(ErrorMessage(reply.value.error.value)) && pageInfo == old(pageInfo)
      ensures access.Pass? && reply.Success? && reply.value.error.None? ==>
        && pageInfo == PageInfoOf(reply.value)
        && r == Success(Listing(ItemsOrFalse(reply.value.items), PlaylistInfo(pageInfo)))
        && r.value.info == Info(OrDefault(reply.value.pageInfo.totalResults, Int(0)),
                                OrDefault(reply.value.nextPageToken, Bool(false)),
                                OrDefault(reply.value.prevPageToken, Bool(false)))
    {
      trace := trace + [HandleAccessToken];
      if access.Fail? {
        return Failure(access.message);
      }
      trace := trace + [ListRequest(playlistId, pageToken, maxResults, part)];
      if reply.Failure? {
        return Failure(reply.error);
      }
      var results := DecodeList(reply.value);
      if results.Failure? {
        return Failure(results.error);
      }
      InfoFromResponse(reply.value);
      r := Success(Listing(results.value, PlaylistInfo(pageInfo)));
    }
  }
}
