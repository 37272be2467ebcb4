/**
 * The pure part of the list decoder (`decodeList`) and of the result shaping
 * in `getPlaylistItemsByPlaylistId`: the message of an API error, the page
 * information recorded from a successful response, the items-or-false
 * result, and the `info` record built from the recorded page information.
 */
module ListDecoder {
  import opened Wrappers
  import opened Php

  const ResultsPerPageKey := "resultsPerPage"
  const TotalResultsKey := "totalResults"
  const KindKey := "kind"
  const EtagKey := "etag"
  const PrevPageTokenKey := "prevPageToken"
  const NextPageTokenKey := "nextPageToken"

  /** The keys of the page information recorded by a successful decode. */
  const PageInfoKeys: set<string> :=
    {ResultsPerPageKey, TotalResultsKey, KindKey, EtagKey, PrevPageTokenKey, NextPageTokenKey}

  /** One entry of `error->errors`. */
  datatype SubError = SubError(reason: Value)

  /** The `error` object of a failed response. */
  datatype ApiError = ApiError(code: Value, message: Value, errors: seq<SubError>)

  /** The `pageInfo` object of a response. */
  datatype ResponsePageInfo = ResponsePageInfo(resultsPerPage: Value, totalResults: Value)

  /**
   * A decoded list response. `error` is `None` when the property is unset or
   * null; the other properties read as `Null` when absent.
   */
  datatype Response = Response(
    error: Option<ApiError>,
    pageInfo: ResponsePageInfo,
    kind: Value,
    etag: Value,
    prevPageToken: Value,
    nextPageToken: Value,
    items: Value)

  /** What `decodeList` returns: the sentinel `false` or the items array. */
  datatype ListResults = NoItems | Items(items: Value)

  /** The `info` part of the playlist listing. */
  datatype Info = Info(totalResults: Value, nextPageToken: Value, prevPageToken: Value)

  /** The listing `getPlaylistItemsByPlaylistId` returns: `['results' => …, 'info' => …]`. */
  datatype Listing = Listing(results: ListResults, info: Info)

  /** `"Error " . code . " " . message`, the part of the message that is always there. */
  function ErrorHead(e: ApiError): string {
    "Error " + ToPhpString(e.code) + " " + ToPhpString(e.message)
  }

  /**
   * The message `decodeList` throws for an error response: the head, followed
   * by `" : "` and the first sub-error's reason exactly when a first
   * sub-error exists.
   */
  function ErrorMessage(e: ApiError): (msg: string)
    ensures ErrorHead(e) <= msg
    ensures |msg| > |ErrorHead(e)| <==> |e.errors| > 0
    ensures |e.errors| > 0 ==> msg[|ErrorHead(e)|..] == " : " + ToPhpString(e.errors[0].reason)
  {
    var head := ErrorHead(e);
    if |e.errors| > 0 then head + " : " + ToPhpString(e.errors[0].reason) else head
  }

  /** The message of a quota error names the code, the message and the first reason. */
  lemma QuotaErrorMessage()
    ensures ErrorMessage(ApiError(Int(403), Str("quotaExceeded"), [SubError(Str("dailyLimitExceeded"))]))
         == "Error " + "403" + " " + "quotaExceeded" + " : " + "dailyLimitExceeded"
  {
  }

  /**
   * The page information recorded from a successful response: exactly the
   * six keys, counts, kind and etag from the response, and each page token
   * null unless the response sets it, in which case it is the response's.
   */
  function PageInfoOf(r: Response): (p: map<string, Value>)
    ensures p.Keys == PageInfoKeys
    ensures p[ResultsPerPageKey] == r.pageInfo.resultsPerPage
    ensures p[TotalResultsKey] == r.pageInfo.totalResults
    ensures p[KindKey] == r.kind && p[EtagKey] == r.etag
    ensures Isset(r.prevPageToken) ==> p[PrevPageTokenKey] == r.prevPageToken
    ensures !Isset(r.prevPageToken) ==> p[PrevPageTokenKey] == Null
    ensures Isset(r.nextPageToken) ==> p[NextPageTokenKey] == r.nextPageToken
    ensures !Isset(r.nextPageToken) ==> p[NextPageTokenKey] == Null
  {
    map[ResultsPerPageKey := r.pageInfo.resultsPerPage,
        TotalResultsKey := r.pageInfo.totalResults,
        KindKey := r.kind,
        EtagKey := r.etag,
        PrevPageTokenKey := r.prevPageToken,
        NextPageTokenKey := r.nextPageToken]
  }

  /**
   * The result of a successful decode: `false` when the items are not an
   * array or are an empty one, otherwise the items unchanged.
   */
  function ItemsOrFalse(items: Value): (r: ListResults)
    ensures r.NoItems? <==> !IsArray(items) || Count(items) == 0
    ensures r.Items? ==> r.items == items
  {
    if !IsArray(items) || Count(items) == 0 then NoItems else Items(items)
  }

  /** The empty list is the sentinel, not an error. */
  lemma EmptyItemsAreFalse(r: Response)
    requires r.error.None? && r.items == List([])
    ensures ItemsOrFalse(r.items) == NoItems
  {
  }

  /**
   * The `info` record built from the recorded page information: each field
   * is the recorded value when that is set and not null, and otherwise its
   * default: `0` for the total, `false` for the tokens. No field is null.
   */
  function PlaylistInfo(p: map<string, Value>): (info: Info)
    ensures IssetKey(p, TotalResultsKey) ==> info.totalResults == p[TotalResultsKey]
    ensures !IssetKey(p, TotalResultsKey) ==> info.totalResults == Int(0)
    ensures IssetKey(p, NextPageTokenKey) ==> info.nextPageToken == p[NextPageTokenKey]
    ensures !IssetKey(p, NextPageTokenKey) ==> info.nextPageToken == Bool(false)
    ensures IssetKey(p, PrevPageTokenKey) ==> info.prevPageToken == p[PrevPageTokenKey]
    ensures !IssetKey(p, PrevPageTokenKey) ==> info.prevPageToken == Bool(false)
    ensures Isset(info.totalResults) && Isset(info.nextPageToken) && Isset(info.prevPageToken)
  {
    Info(
      if IssetKey(p, TotalResultsKey) then p[TotalResultsKey] else Int(0),
      if IssetKey(p, NextPageTokenKey) then p[NextPageTokenKey] else Bool(false),
      if IssetKey(p, PrevPageTokenKey) then p[PrevPageTokenKey] else Bool(false))
  }

  /** A value with a PHP default for null. */
  function OrDefault(v: Value, default: Value): Value {
    if Isset(v) then v else default
  }

  /**
   * After a successful decode, the info fields are read straight off the
   * response: a total or token that the response leaves unset or null
   * becomes its default, any other is passed through.
   */
  lemma InfoFromResponse(r: Response)
    ensures PlaylistInfo(PageInfoOf(r)) ==
      Info(OrDefault(r.pageInfo.totalResults, Int(0)),
           OrDefault(r.nextPageToken, Bool(false)),
           OrDefault(r.prevPageToken, Bool(false)))
  {
  }

  /** PHP's `implode($sep, $parts)`. */
  function Implode(sep: string, parts: seq<string>): string
    decreases |parts|
  {
    if |parts| == 0 then ""
    else if |parts| == 1 then parts[0]
    else parts[0] + sep + Implode(sep, parts[1..])
  }

  /** The parts requested by default. */
  const DefaultPart: seq<string> := ["id", "snippet", "contentDetails", "status"]
  const DefaultMaxResults := 50
  const DefaultPageToken := ""
}
