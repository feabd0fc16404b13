/** The content module of the Rust protocol crate. Differences from the Python module:
    `size` counts UTF-8 bytes, MIME guesses are case-sensitive and may be overridden by
    the caller, `remove_tag` drops every copy of a tag, and the serde mapping writes the
    type's variant name and requires the tag list. */
module RsContent {
  import opened Outcomes
  import opened Text
  import opened Json
  import opened ContentData
  import opened Crypto
  import PyContent

  const U64Limit: int := 0x1_0000_0000_0000_0000
  const I64Min: int := -0x8000_0000_0000_0000
  const I64Limit: int := 0x8000_0000_0000_0000

  /** `__str__`, and also the derived `Debug` text that `summary` prints. */
  function TypeName(t: ContentType): (name: string)
    ensures VariantOf(name) == Some(t)
  {
    match t
    case Text => "Text"
    case Picture => "Picture"
    case Video => "Video"
    case File => "File"
  }

  /** `ContentType::from_str`: case-insensitive, with "image" as an alias of "picture".
      Lower-casing is written for ASCII letters; no other character lower-cases into a
      letter of the accepted words, so the outcome is the same. */
  function TypeFromStr(s: string): (r: Result<ContentType, string>)
    ensures r.Err? ==> r.error == "Unknown content type: " + s
  {
    var lower := ToLower(s);
    if lower == "text" then Ok(Text)
    else if lower == "picture" || lower == "image" then Ok(Picture)
    else if lower == "video" then Ok(Video)
    else if lower == "file" then Ok(File)
    else Err("Unknown content type: " + s)
  }

  /** The accepted names, in lower case. */
  lemma TypeFromStrAccepts(s: string)
    ensures TypeFromStr(s).Ok? <==> ToLower(s) in ["text", "picture", "image", "video", "file"]
    ensures TypeFromStr(s) == Ok(Text) <==> ToLower(s) == "text"
    ensures TypeFromStr(s) == Ok(Picture) <==> ToLower(s) == "picture" || ToLower(s) == "image"
    ensures TypeFromStr(s) == Ok(Video) <==> ToLower(s) == "video"
    ensures TypeFromStr(s) == Ok(File) <==> ToLower(s) == "file"
  {
  }

  /** Parsing a type's own name gives the type back. */
  lemma TypeNameRoundTrip(t: ContentType)
    ensures TypeFromStr(TypeName(t)) == Ok(t)
  {
    var name := TypeName(t);
    match t
    case Text => assert ToLower(name) == "text";
    case Picture => assert ToLower(name) == "picture";
    case Video => assert ToLower(name) == "video";
    case File => assert ToLower(name) == "file";
  }

  /** The record `Content::new` builds; `now` is the clock reading. */
  function NewRecord(s: Suite, contentType: ContentType, data: string, title: string,
                     description: string, filename: Option<string>, mimeType: Option<string>,
                     tags: Option<seq<string>>, now: int): (r: ContentRecord)
    ensures r.size == Utf8Length(data) && r.size >= |data| && r.createdAt == now
    ensures r.id == ContentId(s, data, now)
    ensures r.tags == (if tags.Some? then tags.value else [])
    ensures r.contentType == contentType && r.data == data && r.title == title
    ensures r.description == description && r.filename == filename && r.mimeType == mimeType
  {
    ContentRecord(ContentId(s, data, now), contentType, title, description, data, filename,
                  mimeType, Utf8Length(data), now, if tags.Some? then tags.value else [])
  }

  /** The case-sensitive suffix match `picture` falls back on. */
  function GuessPictureMime(filename: string): (mime: string)
    ensures mime == "image/png" <==> EndsWith(filename, ".png")
    ensures mime == "image/jpeg" <==> (EndsWith(filename, ".jpg") || EndsWith(filename, ".jpeg"))
    ensures mime == "image/gif" <==> EndsWith(filename, ".gif")
    ensures mime == "image/unknown" <==>
              (!EndsWith(filename, ".png") && !EndsWith(filename, ".jpg") && !EndsWith(filename, ".jpeg")
               && !EndsWith(filename, ".gif"))
  {
    PyContent.SuffixesExclusive(filename, ".png", ".jpg", 1);
    PyContent.SuffixesExclusive(filename, ".png", ".jpeg", 1);
    PyContent.SuffixesExclusive(filename, ".png", ".gif", 0);
    PyContent.SuffixesExclusive(filename, ".jpg", ".gif", 0);
    PyContent.SuffixesExclusive(filename, ".jpeg", ".gif", 0);
    if EndsWith(filename, ".png") then "image/png"
    else if EndsWith(filename, ".jpg") || EndsWith(filename, ".jpeg") then "image/jpeg"
    else if EndsWith(filename, ".gif") then "image/gif"
    else "image/unknown"
  }

  /** The case-sensitive suffix match `video` falls back on. */
  function GuessVideoMime(filename: string): (mime: string)
    ensures mime == "video/mp4" <==> EndsWith(filename, ".mp4")
    ensures mime == "video/webm" <==> EndsWith(filename, ".webm")
    ensures mime == "video/avi" <==> EndsWith(filename, ".avi")
    ensures mime == "video/unknown" <==>
              (!EndsWith(filename, ".mp4") && !EndsWith(filename, ".webm") && !EndsWith(filename, ".avi"))
  {
    PyContent.SuffixesExclusive(filename, ".mp4", ".webm", 0);
    PyContent.SuffixesExclusive(filename, ".mp4", ".avi", 0);
    PyContent.SuffixesExclusive(filename, ".webm", ".avi", 0);
    if EndsWith(filename, ".mp4") then "video/mp4"
    else if EndsWith(filename, ".webm") then "video/webm"
    else if EndsWith(filename, ".avi") then "video/avi"
    else "video/unknown"
  }

  /** MIME type of a picture: the caller's choice if given, otherwise the guess. */
  function PictureMime(filename: string, supplied: Option<string>): (mime: string)
    ensures supplied.Some? ==> mime == supplied.value
    ensures supplied.None? ==> mime == GuessPictureMime(filename)
  {
    if supplied.Some? then supplied.value else GuessPictureMime(filename)
  }

  /** MIME type of a video: the caller's choice if given, otherwise the guess. */
  function VideoMime(filename: string, supplied: Option<string>): (mime: string)
    ensures supplied.Some? ==> mime == supplied.value
    ensures supplied.None? ==> mime == GuessVideoMime(filename)
  {
    if supplied.Some? then supplied.value else GuessVideoMime(filename)
  }

  /** A suffix written in lower case that ends a string also ends its lower-cased form. */
  lemma LowerKeepsSuffix(s: string, suffix: string)
    requires ToLower(suffix) == suffix && EndsWith(s, suffix)
    ensures EndsWith(ToLower(s), suffix)
  {
    var lower := ToLower(s);
    forall i | 0 <= i < |suffix| ensures lower[|s| - |suffix|..][i] == suffix[i] {
      assert lower[|s| - |suffix| + i] == LowerChar(s[|s| - |suffix| + i]);
      assert s[|s| - |suffix| + i] == suffix[i];
      assert ToLower(suffix)[i] == LowerChar(suffix[i]);
    }
  }

  /** Where the Rust guess recognises a picture suffix the Python guess agrees; on
      lower-case names the two guesses are the same. */
  lemma PictureGuessesAgree(filename: string)
    ensures GuessPictureMime(filename) == PyContent.PictureMime(filename)
            || GuessPictureMime(filename) == "image/unknown"
    ensures ToLower(filename) == filename ==> GuessPictureMime(filename) == PyContent.PictureMime(filename)
  {
    if EndsWith(filename, ".png") { LowerKeepsSuffix(filename, ".png"); }
    if EndsWith(filename, ".jpg") { LowerKeepsSuffix(filename, ".jpg"); }
    if EndsWith(filename, ".jpeg") { LowerKeepsSuffix(filename, ".jpeg"); }
    if EndsWith(filename, ".gif") { LowerKeepsSuffix(filename, ".gif"); }
  }

  /** The same for videos. */
  lemma VideoGuessesAgree(filename: string)
    ensures GuessVideoMime(filename) == PyContent.VideoMime(filename)
            || GuessVideoMime(filename) == "video/unknown"
    ensures ToLower(filename) == filename ==> GuessVideoMime(filename) == PyContent.VideoMime(filename)
  {
    if EndsWith(filename, ".mp4") { LowerKeepsSuffix(filename, ".mp4"); }
    if EndsWith(filename, ".webm") { LowerKeepsSuffix(filename, ".webm"); }
    if EndsWith(filename, ".avi") { LowerKeepsSuffix(filename, ".avi"); }
  }

  /** An upper-case suffix is recognised by the Python guess and not by the Rust one. */
  lemma MimeCaseDiffers()
    ensures PictureMime("SUNSET.JPG", None) == "image/unknown"
    ensures PyContent.PictureMime("SUNSET.JPG") == "image/jpeg"
  {
    assert ToLower("SUNSET.JPG") == "sunset.jpg";
    assert !EndsWith("SUNSET.JPG", ".jpg");
    assert !EndsWith("SUNSET.JPG", ".jpeg");
  }

  /** `summary` as written: when the data is longer than 50 bytes it slices the string at
      byte 50, which panics (`None` here) unless byte 50 starts a character. */
  function SummaryAsWritten(r: ContentRecord): (line: Option<string>)
    ensures line.None? <==> Utf8Length(r.data) > 50 && !IsCharBoundary(r.data, 50)
  {
    BoundaryAtLimit(r.data, 50);
    var head := "[" + TypeName(r.contentType) + "] " + r.title + " - ";
    if Utf8Length(r.data) <= 50 then Some(head + r.data)
    else
      var k := CharsWithin(r.data, 50);
      if Utf8Length(r.data[..k]) == 50 then Some(head + r.data[..k] + "...") else None
  }

  /** Forty-nine one-byte characters followed by a two-byte one: byte 50 falls inside the
      last character, so the slice panics. */
  lemma SplitCharacterPanics(r: ContentRecord)
    requires |r.data| == 50 && Utf8Width(r.data[49]) == 2
    requires forall i :: 0 <= i < 49 ==> r.data[i] as int < 0x80
    ensures SummaryAsWritten(r).None?
  {
    var d := r.data;
    AsciiLength(d[..49]);
    PrefixBytesGrow(d, 49, 50);
    assert Utf8Length(d[49..50]) == 2 by {
      assert d[49..50][1..] == [];
    }
    assert d[..50] == d;
    forall k | 0 <= k <= |d| ensures Utf8Length(d[..k]) != 50 {
      if k < 50 {
        AsciiLength(d[..k]);
      }
    }
  }

  /** For example forty-nine letters 'a' and an 'é'. */
  lemma SummaryPanicsOnSplitCharacter(r: ContentRecord)
    requires r.data == Repeat('a', 49) + ['é']
    ensures SummaryAsWritten(r).None?
  {
    SplitCharacterPanics(r);
  }

  /** An ASCII string has one byte per character. */
  lemma {:induction false} AsciiLength(s: string)
    requires forall i :: 0 <= i < |s| ==> s[i] as int < 0x80
    ensures Utf8Length(s) == |s|
  {
    if s != [] {
      AsciiLength(s[1..]);
    }
  }

  /** `summary` with the slice moved back to the last character boundary at or before
      byte 50: it never panics and keeps the preview within 50 bytes of data. */
  function SummaryLine(r: ContentRecord): (line: string)
    ensures SummaryAsWritten(r).Some? ==> line == SummaryAsWritten(r).value
    ensures var head := "[" + TypeName(r.contentType) + "] " + r.title + " - ";
            StartsWith(line, head) && |line| <= |head| + |r.data| + 3
  {
    var head := "[" + TypeName(r.contentType) + "] " + r.title + " - ";
    var preview := if Utf8Length(r.data) <= 50 then r.data else r.data[..CharsWithin(r.data, 50)] + "...";
    assert (head + preview)[..|head|] == head;
    head + preview
  }

  /** The preview `SummaryLine` uses is a prefix of the data of at most 50 bytes, and is
      the whole data whenever that fits. */
  lemma SummaryPreview(r: ContentRecord)
    ensures Utf8Length(r.data) <= 50 ==> SummaryLine(r) == "[" + TypeName(r.contentType) + "] " + r.title + " - " + r.data
    ensures Utf8Length(r.data) > 50 ==>
              var k := CharsWithin(r.data, 50);
              SummaryLine(r) == "[" + TypeName(r.contentType) + "] " + r.title + " - " + r.data[..k] + "..."
              && Utf8Length(r.data[..k]) <= 50 && k < |r.data|
  {
    assert r.data[..|r.data|] == r.data;
  }

  /** The field ranges of the Rust struct: `size` is a `u64`, `created_at` an `i64`. */
  predicate InRange(r: ContentRecord) {
    0 <= r.size < U64Limit && I64Min <= r.createdAt < I64Limit
  }

  /** The serde document: the type as its variant name. */
  function ToJson(r: ContentRecord): (j: Json)
    ensures j.JObj? && "content_type" in j.fields && j.fields["content_type"].JStr? && VariantOf(j.fields["content_type"].s) == Some(r.contentType)
  {
    JObj(map[
      "id" := JStr(r.id),
      "content_type" := JStr(TypeName(r.contentType)),
      "title" := JStr(r.title),
      "description" := JStr(r.description),
      "data" := JStr(r.data),
      "filename" := OptStr(r.filename),
      "mime_type" := OptStr(r.mimeType),
      "size" := JInt(r.size),
      "created_at" := JInt(r.createdAt),
      "tags" := StrArray(r.tags)
    ])
  }

  /** The variant named exactly `name`, as serde's derived enum reader matches it. */
  function VariantOf(name: string): Option<ContentType>
  {
    if name == "Text" then Some(Text)
    else if name == "Picture" then Some(Picture)
    else if name == "Video" then Some(Video)
    else if name == "File" then Some(File)
    else None
  }

  /** serde's derived reader: `Option` fields may be missing or null, every other field
      is required, the integers must fit their Rust types and the variant name must match
      exactly. */
  function FromJson(j: Json): (r: Result<ContentRecord, DecodeError>)
    ensures r.Ok? ==> InRange(r.value)
    ensures r.Ok? ==> j.JObj? && "tags" in j.fields && "content_type" in j.fields
    ensures r.Ok? ==> j.fields["content_type"] == JStr(TypeName(r.value.contentType))
  {
    if !j.JObj? then Err(NotAnObject)
    else
      var o := j.fields;
      var id :- GetStr(o, "id");
      var name :- GetStr(o, "content_type");
      var contentType :- if VariantOf(name).Some? then Ok(VariantOf(name).value) else Err(BadValue("content_type"));
      assert TypeName(contentType) == name;
      var title :- GetStr(o, "title");
      var description :- GetStr(o, "description");
      var data :- GetStr(o, "data");
      var filename :- GetOptStr(o, "filename");
      var mimeType :- GetOptStr(o, "mime_type");
      var size :- GetInt(o, "size");
      var _ :- if 0 <= size < U64Limit then Ok(()) else Err(BadValue("size"));
      var createdAt :- GetInt(o, "created_at");
      var _ :- if I64Min <= createdAt < I64Limit then Ok(()) else Err(BadValue("created_at"));
      var tags :- if "tags" !in o then Err(MissingKey("tags"))
                  else if o["tags"].JArr? then StrsOf(o["tags"].items, "tags")
                  else Err(WrongType("tags"));
      Ok(ContentRecord(id, contentType, title, description, data, filename, mimeType, size, createdAt, tags))
  }

  lemma VariantLookup(t: ContentType)
    ensures VariantOf(TypeName(t)) == Some(t)
  {
    match t
    case Text =>
    case Picture =>
    case Video =>
    case File =>
  }

  /** serde's reader succeeds with `r` on any object that holds `r`'s in-range fields. */
  lemma FromJsonFields(o: map<string, Json>, r: ContentRecord)
    requires InRange(r)
    requires "id" in o && o["id"] == JStr(r.id)
    requires "content_type" in o && o["content_type"] == JStr(TypeName(r.contentType))
    requires "title" in o && o["title"] == JStr(r.title)
    requires "description" in o && o["description"] == JStr(r.description)
    requires "data" in o && o["data"] == JStr(r.data)
    requires ("filename" !in o && r.filename.None?) || ("filename" in o && o["filename"] == OptStr(r.filename))
    requires ("mime_type" !in o && r.mimeType.None?) || ("mime_type" in o && o["mime_type"] == OptStr(r.mimeType))
    requires "size" in o && o["size"] == JInt(r.size)
    requires "created_at" in o && o["created_at"] == JInt(r.createdAt)
    requires "tags" in o && o["tags"] == StrArray(r.tags)
    ensures FromJson(JObj(o)) == Ok(r)
  {
    VariantLookup(r.contentType);
    StrArrayRoundTrip(r.tags, "tags");
  }

  /** Every in-range record survives writing and reading back. */
  lemma JsonRoundTrip(r: ContentRecord)
    requires InRange(r)
    ensures FromJson(ToJson(r)) == Ok(r)
  {
    FromJsonFields(ToJson(r).fields, r);
  }

  /** The Python module's documents do not read here: their type value is lower case. */
  lemma PythonDocumentRejected(r: ContentRecord)
    ensures FromJson(PyContent.ToJson(r)) == Err(BadValue("content_type"))
  {
    assert VariantOf(PyContent.TypeValue(r.contentType)) == None;
  }

  /** A content item; `add_tag` and `remove_tag` change its tag list in place. */
  class Content {
    var id: string
    var contentType: ContentType
    var title: string
    var description: string
    var data: string
    var filename: Option<string>
    var mimeType: Option<string>
    var size: int
    var createdAt: int
    var tags: seq<string>

    function Record(): ContentRecord
      reads this
    {
      ContentRecord(id, contentType, title, description, data, filename, mimeType, size, createdAt, tags)
    }

    /** `Content::new`. */
    constructor (s: Suite, contentType: ContentType, data: string, title: string, description: string,
                 filename: Option<string>, mimeType: Option<string>, tags: Option<seq<string>>, now: int)
      ensures Record() == NewRecord(s, contentType, data, title, description, filename, mimeType, tags, now)
    {
      var r := NewRecord(s, contentType, data, title, description, filename, mimeType, tags, now);
      this.id, this.contentType, this.title, this.description, this.data := r.id, r.contentType, r.title, r.description, r.data;
      this.filename, this.mimeType, this.size, this.createdAt, this.tags := r.filename, r.mimeType, r.size, r.createdAt, r.tags;
    }

    /** `Content::text`. */
    static method TextContent(s: Suite, title: string, description: string, text: string, now: int)
      returns (c: Content)
      ensures fresh(c)
      ensures c.Record() == NewRecord(s, Text, text, title, description, None, Some("text/plain"), None, now)
    {
      c := new Content(s, Text, text, title, description, None, Some("text/plain"), None, now);
    }

    /** `Content::picture` on already encoded data. */
    static method PictureContent(s: Suite, title: string, description: string, encoded: string,
                                 filename: string, mimeType: Option<string>, now: int)
      returns (c: Content)
      ensures fresh(c)
      ensures c.Record() == NewRecord(s, Picture, encoded, title, description, Some(filename),
                                      Some(PictureMime(filename, mimeType)), None, now)
    {
      c := new Content(s, Picture, encoded, title, description, Some(filename), Some(PictureMime(filename, mimeType)), None, now);
    }

    /** `Content::video` on already encoded data. */
    static method VideoContent(s: Suite, title: string, description: string, encoded: string,
                               filename: string, mimeType: Option<string>, now: int)
      returns (c: Content)
      ensures fresh(c)
      ensures c.Record() == NewRecord(s, Video, encoded, title, description, Some(filename),
                                      Some(VideoMime(filename, mimeType)), None, now)
    {
      c := new Content(s, Video, encoded, title, description, Some(filename), Some(VideoMime(filename, mimeType)), None, now);
    }

    /** `Content::file`: the MIME type is whatever the caller passed. */
    static method FileContent(s: Suite, title: string, description: string, encoded: string,
                              filename: string, mimeType: Option<string>, now: int)
      returns (c: Content)
      ensures fresh(c)
      ensures c.Record() == NewRecord(s, File, encoded, title, description, Some(filename), mimeType, None, now)
    {
      c := new Content(s, File, encoded, title, description, Some(filename), mimeType, None, now);
    }

    method AddTag(tag: string)
      modifies this
      ensures tags == WithTag(old(tags), tag)
      ensures NoDuplicates(old(tags)) ==> NoDuplicates(tags)
      ensures Record() == old(Record()).(tags := tags)
    {
      if NoDuplicates(tags) {
        WithTagNoDuplicates(tags, tag);
      }
      if tag !in tags {
        tags := tags + [tag];
      }
    }

    method RemoveTag(tag: string)
      modifies this
      ensures tags == RemoveAll(old(tags), tag)
      ensures tag !in tags
      ensures multiset(tags) == multiset(old(tags))[tag := 0]
      ensures Record() == old(Record()).(tags := tags)
    {
      RemoveAllCount(tags, tag);
      tags := RemoveAll(tags, tag);
    }

    /** `summary`, in its corrected form: where the source's byte slice would panic, the
        preview is cut at the last character boundary instead (`SummaryLine`). */
    function Summary(): (line: string)
      reads this
      ensures StartsWith(line, "[" + TypeName(contentType) + "] " + title + " - ")
      ensures line == SummaryLine(Record())
      ensures SummaryAsWritten(Record()).Some? ==> line == SummaryAsWritten(Record()).value
    {
      SummaryLine(Record())
    }

    function ToJsonDocument(): (j: Json)
      reads this
      ensures InRange(Record()) ==> FromJson(j) == Ok(Record())
    {
      if InRange(Record()) then JsonRoundTrip(Record()); ToJson(Record())
      else ToJson(Record())
    }
  }
}
