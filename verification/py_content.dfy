/** The content module of the Python protocol package: content items with an ID derived
    from their data, constructors for text, pictures, videos and files, a tag list that
    is changed in place, the JSON field mapping and the one-line summary. */
module PyContent {
  import opened Outcomes
  import opened Text
  import opened Crypto
  import opened Json
  import opened ContentData

  /** `ContentType.value`. */
  function TypeValue(t: ContentType): (v: string)
    ensures TypeFromValue(v) == Some(t)
  {
    match t
    case Text => "text"
    case Picture => "picture"
    case Video => "video"
    case File => "file"
  }

  /** `ContentType(v)`: the member whose value is `v`; anything else raises. */
  function TypeFromValue(v: string): Option<ContentType>
  {
    if v == "text" then Some(Text)
    else if v == "picture" then Some(Picture)
    else if v == "video" then Some(Video)
    else if v == "file" then Some(File)
    else None
  }

  /** Looking a type up by value and reading a type's value are inverse to each other. */
  lemma TypeValueRoundTrip(v: string, t: ContentType)
    ensures TypeFromValue(v) == Some(t) <==> v == TypeValue(t)
  {
  }

  lemma TypeLookup(t: ContentType)
    ensures TypeFromValue(TypeValue(t)) == Some(t)
  {
    match t
    case Text =>
    case Picture =>
    case Video =>
    case File =>
  }

  /** The record `Content.new` builds; the clock reading is the parameter `now`. An
      empty or missing tag list both give `[]` (`tags or []`). */
  function NewRecord(s: Suite, contentType: ContentType, data: string, title: string,
                     description: string, filename: Option<string>, mimeType: Option<string>,
                     tags: Option<seq<string>>, now: int): (r: ContentRecord)
    ensures r.size == |data| && r.createdAt == now
    ensures r.id == ContentId(s, data, now)
    ensures r.tags == (if tags.Some? then tags.value else [])
    ensures r.contentType == contentType && r.data == data && r.title == title
    ensures r.description == description && r.filename == filename && r.mimeType == mimeType
  {
    ContentRecord(ContentId(s, data, now), contentType, title, description, data, filename,
                  mimeType, |data|, now, if tags.Some? && tags.value != [] then tags.value else [])
  }

  /** The name of the file at `path`: `path.split("/")[-1]`. */
  function FileName(path: string): (name: string)
    ensures EndsWith(path, name) && '/' !in name
    ensures |name| < |path| ==> path[|path| - |name| - 1] == '/'
  {
    LastSegment(path, '/')
  }

  /** MIME type a picture gets from its file name, matched on the lower-cased suffix. */
  function PictureMime(filename: string): (mime: string)
    ensures var lower := ToLower(filename);
            && (mime == "image/png" <==> EndsWith(lower, ".png"))
            && (mime == "image/jpeg" <==> (EndsWith(lower, ".jpg") || EndsWith(lower, ".jpeg")))
            && (mime == "image/gif" <==> EndsWith(lower, ".gif"))
            && (mime == "image/unknown" <==>
                 (!EndsWith(lower, ".png") && !EndsWith(lower, ".jpg") && !EndsWith(lower, ".jpeg") && !EndsWith(lower, ".gif")))
  {
    var lower := ToLower(filename);
    SuffixesExclusive(lower, ".png", ".jpg", 1);
    SuffixesExclusive(lower, ".png", ".jpeg", 1);
    SuffixesExclusive(lower, ".png", ".gif", 0);
    SuffixesExclusive(lower, ".jpg", ".gif", 0);
    SuffixesExclusive(lower, ".jpeg", ".gif", 0);
    if EndsWith(lower, ".png") then "image/png"
    else if EndsWith(lower, ".jpg") || EndsWith(lower, ".jpeg") then "image/jpeg"
    else if EndsWith(lower, ".gif") then "image/gif"
    else "image/unknown"
  }

  /** MIME type a video gets from its file name, matched on the lower-cased suffix. */
  function VideoMime(filename: string): (mime: string)
    ensures var lower := ToLower(filename);
            && (mime == "video/mp4" <==> EndsWith(lower, ".mp4"))
            && (mime == "video/webm" <==> EndsWith(lower, ".webm"))
            && (mime == "video/avi" <==> EndsWith(lower, ".avi"))
            && (mime == "video/unknown" <==>
                 (!EndsWith(lower, ".mp4") && !EndsWith(lower, ".webm") && !EndsWith(lower, ".avi")))
  {
    var lower := ToLower(filename);
    SuffixesExclusive(lower, ".mp4", ".webm", 0);
    SuffixesExclusive(lower, ".mp4", ".avi", 0);
    SuffixesExclusive(lower, ".webm", ".avi", 0);
    if EndsWith(lower, ".mp4") then "video/mp4"
    else if EndsWith(lower, ".webm") then "video/webm"
    else if EndsWith(lower, ".avi") then "video/avi"
    else "video/unknown"
  }

  /** Two suffixes that differ `k` characters from their ends cannot both end one string. */
  lemma SuffixesExclusive(s: string, a: string, b: string, k: nat)
    requires k < |a| && k < |b| && a[|a| - 1 - k] != b[|b| - 1 - k]
    ensures EndsWith(s, a) ==> !EndsWith(s, b)
  {
    if EndsWith(s, a) && |b| <= |s| {
      assert s[|s| - |a|..][|a| - 1 - k] == a[|a| - 1 - k];
      assert s[|s| - |b|..][|b| - 1 - k] == s[|s| - 1 - k];
    }
  }

  /** The preview in `summary`: the whole data up to 50 characters, otherwise the first
      50 followed by an ellipsis. */
  function Preview(data: string): (p: string)
    ensures |data| <= 50 ==> p == data
    ensures |data| > 50 ==> |p| == 53 && StartsWith(p, data[..50]) && EndsWith(p, "...")
  {
    if |data| > 50 then data[..50] + "..." else data
  }

  function Summary(r: ContentRecord): (line: string)
    ensures StartsWith(line, "[" + TypeValue(r.contentType) + "] " + r.title + " - ")
    ensures |line| <= |TypeValue(r.contentType)| + |r.title| + 6 + 53
    ensures line == "[" + TypeValue(r.contentType) + "] " + r.title + " - " + Preview(r.data)
  {
    var head := "[" + TypeValue(r.contentType) + "] " + r.title + " - ";
    assert (head + Preview(r.data))[..|head|] == head;
    head + Preview(r.data)
  }

  /** `to_json` as a document value: every field under its own key. */
  function ToJson(r: ContentRecord): (j: Json)
    ensures j.JObj? && "content_type" in j.fields && j.fields["content_type"].JStr? && TypeFromValue(j.fields["content_type"].s) == Some(r.contentType)
  {
    JObj(map[
      "id" := JStr(r.id),
      "content_type" := JStr(TypeValue(r.contentType)),
      "title" := JStr(r.title),
      "description" := JStr(r.description),
      "data" := JStr(r.data),
      "filename" := OptStr(r.filename),
      "mime_type" := OptStr(r.mimeType),
      "size" := JInt(r.size),
      "created_at" := JInt(r.createdAt),
      "tags" := StrArray(r.tags)
    ])
  }

  /** `from_json` on a document value. `tags`, `filename` and `mime_type` may be missing
      (defaults `[]`, none, none); the other keys are required and an unknown content
      type value is rejected. */
  function FromJson(j: Json): (r: Result<ContentRecord, DecodeError>)
    ensures r.Ok? ==> j.JObj? && "id" in j.fields && "size" in j.fields && "created_at" in j.fields
    ensures r.Ok? ==> ("tags" !in j.fields ==> r.value.tags == [])
  {
    if !j.JObj? then Err(NotAnObject)
    else
      var o := j.fields;
      var id :- GetStr(o, "id");
      var typeValue :- GetStr(o, "content_type");
      var contentType :- if TypeFromValue(typeValue).Some? then Ok(TypeFromValue(typeValue).value)
                         else Err(BadValue("content_type"));
      var title :- GetStr(o, "title");
      var description :- GetStr(o, "description");
      var data :- GetStr(o, "data");
      var filename :- GetOptStr(o, "filename");
      var mimeType :- GetOptStr(o, "mime_type");
      var size :- GetInt(o, "size");
      var createdAt :- GetInt(o, "created_at");
      var tags :- if "tags" !in o then Ok([])
                  else if o["tags"].JArr? then StrsOf(o["tags"].items, "tags")
                  else Err(WrongType("tags"));
      Ok(ContentRecord(id, contentType, title, description, data, filename, mimeType, size, createdAt, tags))
  }

  /** `from_json` succeeds with `r` on any object that holds `r`'s fields. */
  lemma FromJsonFields(o: map<string, Json>, r: ContentRecord)
    requires "id" in o && o["id"] == JStr(r.id)
    requires "content_type" in o && o["content_type"] == JStr(TypeValue(r.contentType))
    requires "title" in o && o["title"] == JStr(r.title)
    requires "description" in o && o["description"] == JStr(r.description)
    requires "data" in o && o["data"] == JStr(r.data)
    requires ("filename" !in o && r.filename.None?) || ("filename" in o && o["filename"] == OptStr(r.filename))
    requires ("mime_type" !in o && r.mimeType.None?) || ("mime_type" in o && o["mime_type"] == OptStr(r.mimeType))
    requires "size" in o && o["size"] == JInt(r.size)
    requires "created_at" in o && o["created_at"] == JInt(r.createdAt)
    requires ("tags" !in o && r.tags == []) || ("tags" in o && o["tags"] == StrArray(r.tags))
    ensures FromJson(JObj(o)) == Ok(r)
  {
    TypeLookup(r.contentType);
    StrArrayRoundTrip(r.tags, "tags");
  }

  /** Reading back what `to_json` wrote reproduces every field. */
  lemma JsonRoundTrip(r: ContentRecord)
    ensures FromJson(ToJson(r)) == Ok(r)
  {
    FromJsonFields(ToJson(r).fields, r);
  }

  /** A document without `tags`, `filename` and `mime_type` reads back with the defaults. */
  lemma JsonDefaults(r: ContentRecord)
    ensures var o := ToJson(r).fields - {"tags", "filename", "mime_type"};
            FromJson(JObj(o)) == Ok(r.(tags := [], filename := None, mimeType := None))
  {
    FromJsonFields(ToJson(r).fields - {"tags", "filename", "mime_type"}, r.(tags := [], filename := None, mimeType := None));
  }

  /** A content item. The fields are those of the record; `add_tag` and `remove_tag`
      change the tag list in place. */
  class Content {
    var id: string
    var contentType: ContentType
    var title: string
    var description: string
    var data: string
    var filename: Option<string>
    var mimeType: Option<string>
    var size: int
    var createdAt: int
    var tags: seq<string>

    function Record(): ContentRecord
      reads this
    {
      ContentRecord(id, contentType, title, description, data, filename, mimeType, size, createdAt, tags)
    }

    /** The dataclass constructor, as `from_json` uses it. */
    constructor FromRecord(r: ContentRecord)
      ensures Record() == r
    {
      id, contentType, title, description, data := r.id, r.contentType, r.title, r.description, r.data;
      filename, mimeType, size, createdAt, tags := r.filename, r.mimeType, r.size, r.createdAt, r.tags;
    }

    /** `Content.new`. */
    constructor New(s: Suite, contentType: ContentType, data: string, title: string, description: string,
                    filename: Option<string>, mimeType: Option<string>, tags: Option<seq<string>>, now: int)
      ensures Record() == NewRecord(s, contentType, data, title, description, filename, mimeType, tags, now)
    {
      var r := NewRecord(s, contentType, data, title, description, filename, mimeType, tags, now);
      this.id, this.contentType, this.title, this.description, this.data := r.id, r.contentType, r.title, r.description, r.data;
      this.filename, this.mimeType, this.size, this.createdAt, this.tags := r.filename, r.mimeType, r.size, r.createdAt, r.tags;
    }

    /** `Content.text`: plain text, no file name. */
    static method TextContent(s: Suite, title: string, description: string, text: string, now: int)
      returns (c: Content)
      ensures fresh(c)
      ensures c.Record() == NewRecord(s, Text, text, title, description, None, Some("text/plain"), None, now)
    {
      c := new Content.New(s, Text, text, title, description, None, Some("text/plain"), None, now);
    }

    /** `Content.picture`; `encoded` stands for the base64 text of the file's bytes. */
    static method PictureContent(s: Suite, title: string, description: string, path: string,
                                 encoded: string, now: int)
      returns (c: Content)
      ensures fresh(c)
      ensures c.Record() == NewRecord(s, Picture, encoded, title, description, Some(FileName(path)),
                                      Some(PictureMime(FileName(path))), None, now)
    {
      var name := FileName(path);
      c := new Content.New(s, Picture, encoded, title, description, Some(name), Some(PictureMime(name)), None, now);
    }

    /** `Content.video`; `encoded` stands for the base64 text of the file's bytes. */
    static method VideoContent(s: Suite, title: string, description: string, path: string,
                               encoded: string, now: int)
      returns (c: Content)
      ensures fresh(c)
      ensures c.Record() == NewRecord(s, Video, encoded, title, description, Some(FileName(path)),
                                      Some(VideoMime(FileName(path))), None, now)
    {
      var name := FileName(path);
      c := new Content.New(s, Video, encoded, title, description, Some(name), Some(VideoMime(name)), None, now);
    }

    /** `Content.file`: a file name and no MIME type. */
    static method FileContent(s: Suite, title: string, description: string, path: string,
                              encoded: string, now: int)
      returns (c: Content)
      ensures fresh(c)
      ensures c.Record() == NewRecord(s, File, encoded, title, description, Some(FileName(path)), None, None, now)
    {
      c := new Content.New(s, File, encoded, title, description, Some(FileName(path)), None, None, now);
    }

    method AddTag(tag: string)
      modifies this
      ensures tags == WithTag(old(tags), tag)
      ensures NoDuplicates(old(tags)) ==> NoDuplicates(tags)
      ensures Record() == old(Record()).(tags := tags)
    {
      if NoDuplicates(tags) {
        WithTagNoDuplicates(tags, tag);
      }
      if tag !in tags {
        tags := tags + [tag];
      }
    }

    method RemoveTag(tag: string)
      modifies this
      ensures tags == RemoveFirst(old(tags), tag)
      ensures multiset(tags) == multiset(old(tags)) - multiset{tag}
      ensures Record() == old(Record()).(tags := tags)
    {
      RemoveFirstCount(tags, tag);
      if tag in tags {
        tags := RemoveFirst(tags, tag);
      }
    }

    function ToJsonDocument(): (j: Json)
      reads this
      ensures FromJson(j) == Ok(Record())
    {
      JsonRoundTrip(Record());
      ToJson(Record())
    }
  }
}
