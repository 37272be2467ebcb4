/**
 * The video resource builder (`getVideo`): a presence-driven mapping from the
 * caller's nested attribute array to the video record sent to the API.
 * A field of the record is set only when its key is present in the input,
 * and is then a verbatim copy of the input's value.
 */
module VideoResource {
  import opened Wrappers
  import opened Php

  const SnippetKey := "snippet"
  const StatusKey := "status"
  const TitleKey := "title"
  const DescriptionKey := "description"
  const TagsKey := "tags"
  const CategoryIdKey := "categoryId"
  const PrivacyStatusKey := "privacyStatus"
  const EmbeddableKey := "embeddable"

  /** The snippet part of a video record; `None` is a field never set. */
  datatype Snippet = Snippet(
    title: Option<Value>,
    description: Option<Value>,
    tags: Option<Value>,
    categoryId: Option<Value>)

  /** The status part of a video record. */
  datatype VideoStatus = VideoStatus(privacyStatus: Option<Value>, embeddable: Option<Value>)

  /** The video record handed to the remote insert and update calls. */
  datatype Video = Video(id: Option<Value>, snippet: Option<Snippet>, status: Option<VideoStatus>)

  /**
   * The video the service returns from an insert or update; the code reads
   * only `$status['id']` and `$status['snippet']` of it.
   */
  datatype RemoteVideo = RemoteVideo(id: Value, snippet: Value)

  /** The field `o` was set from key `k` of `m` exactly when `k` is present, and is then its value. */
  predicate CopiedFrom(m: map<string, Value>, k: string, o: Option<Value>) {
    (o.Some? <==> k in m) && (o.Some? ==> o.value == m[k])
  }

  /** The value under `k`, if `array_key_exists` finds `k`. */
  function Lookup(m: map<string, Value>, k: string): Option<Value> {
    if k in m then Some(m[k]) else None
  }

  /** The snippet built from the entries of `$data['snippet']`. */
  function BuildSnippet(fields: map<string, Value>): (s: Snippet)
    ensures CopiedFrom(fields, TitleKey, s.title)
    ensures CopiedFrom(fields, DescriptionKey, s.description)
    ensures CopiedFrom(fields, TagsKey, s.tags)
    ensures CopiedFrom(fields, CategoryIdKey, s.categoryId)
  {
    Snippet(Lookup(fields, TitleKey), Lookup(fields, DescriptionKey),
            Lookup(fields, TagsKey), Lookup(fields, CategoryIdKey))
  }

  /** The status built from the entries of `$data['status']`. */
  function BuildStatus(fields: map<string, Value>): (s: VideoStatus)
    ensures CopiedFrom(fields, PrivacyStatusKey, s.privacyStatus)
    ensures CopiedFrom(fields, EmbeddableKey, s.embeddable)
  {
    VideoStatus(Lookup(fields, PrivacyStatusKey), Lookup(fields, EmbeddableKey))
  }

  /**
   * `getVideo($data, $id)`: the id is set only from a truthy id argument
   * (`Null` stands for the omitted argument); the snippet and the status are
   * present exactly when their keys are, and each of their fields is copied
   * exactly when its key is present.
   */
  function GetVideo(data: map<string, Value>, id: Value): (v: Video)
    ensures v.id.Some? <==> Truthy(id)
    ensures v.id.Some? ==> v.id.value == id
    ensures v.snippet.Some? <==> SnippetKey in data
    ensures v.status.Some? <==> StatusKey in data
    ensures SnippetKey in data ==>
      var fields := Entries(data[SnippetKey]);
      && CopiedFrom(fields, TitleKey, v.snippet.value.title)
      && CopiedFrom(fields, DescriptionKey, v.snippet.value.description)
      && CopiedFrom(fields, TagsKey, v.snippet.value.tags)
      && CopiedFrom(fields, CategoryIdKey, v.snippet.value.categoryId)
    ensures StatusKey in data ==>
      var fields := Entries(data[StatusKey]);
      && CopiedFrom(fields, PrivacyStatusKey, v.status.value.privacyStatus)
      && CopiedFrom(fields, EmbeddableKey, v.status.value.embeddable)
  {
    Video(
      if Truthy(id) then Some(id) else None,
      if SnippetKey in data then Some(BuildSnippet(Entries(data[SnippetKey]))) else None,
      if StatusKey in data then Some(BuildStatus(Entries(data[StatusKey]))) else None)
  }

  /** Adds `k` to `m` when the field `o` is set. */
  function Put(m: map<string, Value>, k: string, o: Option<Value>): map<string, Value> {
    if o.Some? then m[k := o.value] else m
  }

  /** The attribute entries that describe a snippet. */
  function SnippetEntries(s: Snippet): map<string, Value> {
    Put(Put(Put(Put(map[], TitleKey, s.title), DescriptionKey, s.description),
            TagsKey, s.tags), CategoryIdKey, s.categoryId)
  }

  /** The attribute entries that describe a status. */
  function StatusEntries(s: VideoStatus): map<string, Value> {
    Put(Put(map[], PrivacyStatusKey, s.privacyStatus), EmbeddableKey, s.embeddable)
  }

  /** The attribute array a caller would pass to describe the snippet and status of `v`. */
  function Attributes(v: Video): map<string, Value> {
    var withSnippet := if v.snippet.Some? then map[SnippetKey := Arr(SnippetEntries(v.snippet.value))] else map[];
    if v.status.Some? then withSnippet[StatusKey := Arr(StatusEntries(v.status.value))] else withSnippet
  }

  /**
   * Building from the attributes of a record gives the record back: the
   * builder loses nothing of the snippet and status it is given, and adds
   * nothing (no defaults).
   */
  lemma BuildFromAttributes(v: Video, id: Value)
    ensures GetVideo(Attributes(v), id) == v.(id := if Truthy(id) then Some(id) else None)
  {
  }

  /** Rebuilding a built record changes nothing. */
  lemma BuildIdempotent(data: map<string, Value>, id: Value)
    ensures GetVideo(Attributes(GetVideo(data, id)), id) == GetVideo(data, id)
  {
  }

  /** The snippet depends only on `$data['snippet']`, the status only on `$data['status']`. */
  lemma SnippetAndStatusIndependent(data: map<string, Value>, data': map<string, Value>, id: Value)
    ensures (SnippetKey in data <==> SnippetKey in data') &&
            (SnippetKey in data ==> data[SnippetKey] == data'[SnippetKey]) ==>
            GetVideo(data, id).snippet == GetVideo(data', id).snippet
    ensures (StatusKey in data <==> StatusKey in data') &&
            (StatusKey in data ==> data[StatusKey] == data'[StatusKey]) ==>
            GetVideo(data, id).status == GetVideo(data', id).status
  {
  }
}
