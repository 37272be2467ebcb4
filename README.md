# YoutubeExtra, modelled in Dafny

This project models `YoutubeExtra`, the PHP class of a YouTube integration layer. It adds four pieces of
logic on top of the Google API client:

- **The video resource builder** (`getVideo`). It maps the caller's nested attribute array to the video
  record sent to the API. A field is set only when its key is present, and it is then a verbatim copy of the
  input value. The id is set only from a truthy id argument.
- **The list decoder** (`decodeList`) and the result shaping in `getPlaylistItemsByPlaylistId`. An error
  response becomes the message `Error <code> <message>[ : <reason>]`. A successful response replaces the
  object's `page_info`, and the items are returned, or `false` when there are none. The `info` record falls
  back to `0` / `false` / `false`.
- **The chunked upload loop** of `uploadVideo`. The file is read with `fread` in 1 MiB pieces and each piece
  is passed to the resumable upload session. The loop stops at the first answer other than `false`, or at
  end of file.
- **The state updates and guards** of `uploadVideo` and `updateVideo`. A missing file throws before the
  token is touched, and a missing video throws before the update is built. The client's deferred-request
  flag is toggled around the upload, and `videoId` / `snippet` are taken from the final status.

Modules, in dependency order:

- `Wrappers`: `Option`, `Result` and `Outcome`. `Outcome` is "returned normally, or threw with this message".
- `Php`: PHP values, truthiness, `isset`, `is_array`/`count`, and the string conversion done by `.`. Integers
  print in decimal.
- `VideoResource`: the video record and `GetVideo`.
- `ListDecoder`: the error message, the recorded page information, the items-or-false result, and the `info`
  record.
- `ChunkedUpload`: the chunks PHP's read loop produces, the chunk loop as a method, and the lemmas about it.
- `Youtube`: the class `YoutubeExtra`. Its fields are `videoId`, `snippet`, `pageInfo` (`$this->page_info`)
  and `defer` (the client's deferred flag). A ghost `trace` records, in order, the calls an operation makes
  into the parent class (`handleAccessToken`, `exists`), the service (`videos->insert` and `videos->update`
  with their `status,snippet` parts, `playlistItems->listPlaylistItems` with its arguments) and the media
  upload (its construction, `setFileSize`, each `nextChunk`). The calls to `setDefer` are not in the trace;
  they show in the `defer` field. The file operations (`file_exists`, `filesize`, `fopen`, `fread`,
  `fclose`) are not recorded either. Its methods are `UploadVideo` (with `UploadChunks`, its `try` block),
  `UpdateVideo`, `DecodeList` and `GetPlaylistItemsByPlaylistId`. The last one keeps PHP's defaults for the
  page token (`''`), the page size (`50`) and the parts (`id`, `snippet`, `contentDetails`, `status`).

Everything outside this class is an input to the model:

- the outcome of `handleAccessToken()`;
- the outcome of `exists()`: its answer, or the exception it throws, which propagates as it is;
- the reply of the remote update and list calls;
- the resumable upload session. It is a function from the chunks submitted so far to its answer to the
  latest one: `false`, the finished video, or an exception.
- the file, as its existence and its bytes.

Points where the behaviour depends on PHP's exact semantics:

- **`feof` for plain files.** `fread` on a plain file keeps reading until it has the requested length or a
  read returns nothing. The end-of-file flag is raised only by a read that returns nothing. So `feof` turns
  true exactly after an `fread` that returned fewer bytes than requested. A file whose length is a multiple
  of 1 MiB is therefore followed by one empty chunk, which is submitted only if the session has not
  finished by then. `OneChunkFile` shows that a 1 MiB file is submitted in one piece when the session
  finishes on it.
- **A loop that ends at end of file while the status is still `false`.** `$status['id']` then reads null,
  so `videoId` and `snippet` become null.
- **Absent and null properties.** An absent object property reads as null, just like a null one, and
  `isset` is false for both. So a page token that is absent or null is recorded as null.
- **A non-array value under `snippet` or `status`.** If `$data['snippet']` is not an array,
  `array_key_exists` finds no keys in it. This is PHP 7's behaviour, which warns and answers null. The
  snippet is then set but empty.

Points where the code does less cleanup, or reports less, than one might expect:

- **An exception from a chunk.** The message is rethrown, but `setDefer(false)` is never reached, so the
  client is left in deferred mode (`defer` stays true). The file handle is not closed on that path either.
  No cleanup runs.
- **An upload that reaches end of file without completion.** It is not an error. The call returns
  normally and nulls `videoId` / `snippet`.
- **The decoder's own exception.** It is not caught by `getPlaylistItemsByPlaylistId`. It propagates with
  its own message and leaves `page_info` as it was.

## Model

| member | source | states |
|---|---|---|
| `Php.NatToString` | src/YoutubeExtra.php:246 | the decimal notation of a number in an error message is a non-empty run of digits with no leading zero |
| `Php.NatToStringRoundTrip` | src/YoutubeExtra.php:246 | reading those digits back gives the number, so the message names the error code exactly |
| `VideoResource.BuildSnippet` | src/YoutubeExtra.php:47-62 | each of title, description, tags and categoryId is set exactly when its key is present, and is then the input value |
| `VideoResource.BuildStatus` | src/YoutubeExtra.php:68-77 | privacyStatus and embeddable are each set exactly when their key is present, and are then the input value |
| `VideoResource.GetVideo` | src/YoutubeExtra.php:36-83 | the id is set exactly when the id argument is truthy, and is then that argument; the snippet is present exactly when key `snippet` is, the status exactly when key `status` is, and every field inside them is copied exactly when its key exists, with absent keys left unset |
| `VideoResource.BuildFromAttributes` | src/YoutubeExtra.php:45-79 | building from the attribute array that describes a record gives that record back: no field is lost and no default is added |
| `VideoResource.BuildIdempotent` | src/YoutubeExtra.php:36-83 | rebuilding a built record from its own attributes changes nothing |
| `VideoResource.SnippetAndStatusIndependent` | src/YoutubeExtra.php:45-79 | the snippet depends only on `$data['snippet']` and the status only on `$data['status']` |
| `ListDecoder.ErrorMessage` | src/YoutubeExtra.php:245-250 | the message starts with `Error <code> <message>`, and is followed by ` : <reason of the first sub-error>` exactly when a first sub-error exists |
| `ListDecoder.QuotaErrorMessage` | src/YoutubeExtra.php:245-250 | the quota error 403 / quotaExceeded / dailyLimitExceeded gives `Error 403 quotaExceeded : dailyLimitExceeded` |
| `ListDecoder.PageInfoOf` | src/YoutubeExtra.php:252-265 | the recorded page information has exactly the six keys; the counts, kind and etag come from the response; each page token is null unless the response sets it, and is then the response's value |
| `ListDecoder.ItemsOrFalse` | src/YoutubeExtra.php:266-271 | the result is `false` exactly when the items are not an array or are an empty one; otherwise it is the items unchanged |
| `ListDecoder.EmptyItemsAreFalse` | src/YoutubeExtra.php:266-268 | a response with an empty item list and no error yields the `false` sentinel, not an error |
| `ListDecoder.PlaylistInfo` | src/YoutubeExtra.php:227-230 | each info field is the recorded value when that is set and not null; otherwise it is `0` for the total and `false` for the tokens; no field is ever null |
| `ListDecoder.InfoFromResponse` | src/YoutubeExtra.php:227-230 | after a successful decode, a total or token that the response leaves unset or null becomes its default, and any other is passed through |
| `Youtube.DefaultListRequest` | src/YoutubeExtra.php:196-215 | a call that passes only the playlist asks for the page with token `''`, at most `50` results, and the parts `id, snippet, contentDetails, status` |
| `ChunkedUpload.ReadFrom` | src/YoutubeExtra.php:126-127 | reading from any position up to end of file takes at least one `fread` |
| `ChunkedUpload.ReadFromShape` | src/YoutubeExtra.php:126-127 | the pieces read from a position are full 1 MiB pieces except the last, which is short (possibly empty), and together they are the rest of the file |
| `ChunkedUpload.ReadChunksShape` | src/YoutubeExtra.php:101-127 | the pieces of a whole file are at most 1 MiB each, full but for the last, and concatenate to the file |
| `ChunkedUpload.SentIsLoopRun` | src/YoutubeExtra.php:123-129 | the submitted chunks are a non-empty prefix of the file's pieces; every chunk but the last was answered `false`; the last was answered otherwise, or the file was exhausted |
| `ChunkedUpload.LoopRunIsSent` | src/YoutubeExtra.php:123-129 | any sequence of submissions that meets that description is exactly the one the loop makes, so the file and the session determine the run |
| `ChunkedUpload.LoopRunFacts` | src/YoutubeExtra.php:101-129 | in a run, every submitted chunk is at most 1 MiB and all but the last are exactly 1 MiB; the chunks in submission order form a prefix of the file; when the last answer is still `false` they form the whole file |
| `ChunkedUpload.OneChunkFile` | src/YoutubeExtra.php:101-129 | a file of exactly 1 MiB is submitted as one chunk when the session finishes on it |
| `ChunkedUpload.ChunkLoop` | src/YoutubeExtra.php:123-131 | the loop submits exactly `Sent(file, session)`; its final status is the session's answer to the last chunk; every chunk is at most 1 MiB, the chunks form a prefix of the file, and all of it when the status is still `false` |
| `Youtube.YoutubeExtra.constructor` | src/YoutubeExtra.php:20-29 | a new object has null `videoId` and `snippet`, an empty `page_info`, and the client not deferred |
| `Youtube.YoutubeExtra.UploadVideo` | src/YoutubeExtra.php:89-148 | a missing file throws the path message and makes no call at all; otherwise the token is handled first and a token failure stops there; then come the insert request built from `getVideo($data)` with the deferred flag already set, the upload opened with 1 MiB chunks and the file size declared, and the loop's chunks in order; after a normal end the flag is cleared and `videoId` / `snippet` are the final status's (null if the session never finished); a chunk exception is rethrown with its message and leaves the flag set and the fields unchanged; `page_info` is never touched |
| `Youtube.YoutubeExtra.UploadChunks` | src/YoutubeExtra.php:97-145 | the `try` block alone: the calls it makes are the deferred `status,snippet` insert of `getVideo($data)`, the media upload with 1 MiB chunks, the declared file size, then a `nextChunk` for each chunk of `Sent(file, session)` in order; the flag and the fields end as described for `UploadVideo` |
| `Youtube.YoutubeExtra.UpdateVideo` | src/YoutubeExtra.php:154-184 | the token is handled first; an exception from `exists()` propagates with its message; a video that does not exist throws the not-found message before the record is built or the update sent; otherwise the update is sent with `getVideo($data, $id)`, and its reply sets `videoId` / `snippet`, or its exception is rethrown with the fields kept |
| `Youtube.YoutubeExtra.DecodeList` | src/YoutubeExtra.php:242-273 | an error response throws its message and leaves `page_info` unchanged; any other response replaces `page_info` wholesale with its page information and returns the items, or `false` |
| `Youtube.YoutubeExtra.GetPlaylistItemsByPlaylistId` | src/YoutubeExtra.php:196-233 | the token is handled, then the list call is made with the given or default page token, page size and parts, the parts joined by `, `; its exception or an error response is thrown with its message, leaving `page_info` unchanged; otherwise the listing holds the decoded results and an info record read off the response with the `0` / `false` / `false` defaults |

## Left out

- The Google API client (`Google_Service_YouTube_*`, `videos->insert/update`, `playlistItems->listPlaylistItems`, `Google_Http_MediaFileUpload`): it is a foreign library. Its objects are the `Video` and `Response` records, its calls are inputs, and the upload session is a function from the submitted chunks to its answer.
- The remote insert request and the media upload constructor are modelled as never throwing. In the code either of them could throw, and the message would be rethrown in the same way as for a chunk.
- File I/O (`file_exists`, `fopen`, `fread`, `feof`, `fclose`, `filesize`): not modelled as I/O. The file is a boolean for its existence plus its bytes, and `fread`/`feof` follow PHP's plain-file behaviour described above. A failing `fopen` on an existing file is not modelled. Closing the handle is not modelled.
- `handleAccessToken` and `exists`: they live in the parent class `Youtube`, which is not part of this model. They do OAuth and network work. `handleAccessToken` is an `Outcome` input, and `exists` is a `Result` input: its answer or its exception's message.
- Later calls after a stuck deferred flag: once a chunk exception has left `defer` true, the real client would return unsent requests from later `update` and `list` calls (the one inside `exists()` included). The model takes the replies of later calls as inputs that do not depend on the flag.
- Exception classes: the rethrow of `Google_Service_Exception` / `Google_Exception` as `Exception` keeps only the message, and so does the model.
- The `upload` / `update` aliases and their unused `$privacyStatus` argument are pass-throughs. The fluent `return $this` is modelled as `Pass`.
- PHP floats, and objects other than the response records, are not among the modelled values. The response's `pageInfo` object is always present in the model.
- Concurrency between calls sharing `page_info`: the model is sequential.
- The account registry, session manager and credential storage around this class belong to the parent class and the configuration layer. They are not part of this model.
