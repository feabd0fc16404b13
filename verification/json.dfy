/** JSON documents as values. The models serialise records into these values and read
    them back; turning a value into text is a primitive of the crypto suite (`jsonDump`,
    `jsonLoad`), so indentation and key order play no part. */
module Json {
  import opened Outcomes

  datatype Json =
    | JNull
    | JBool(b: bool)
    | JInt(i: int)
    | JStr(s: string)
    | JArr(items: seq<Json>)
    | JObj(fields: map<string, Json>)

  /** Why reading a record out of a document failed: a missing key (`KeyError`), a value
      of the wrong kind (`TypeError`), or a value outside what the reader accepts
      (`ValueError`). */
  datatype DecodeError =
    | NotAnObject
    | MissingKey(key: string)
    | WrongType(key: string)
    | BadValue(key: string)

  /** `data[key]` for a required string field. */
  function GetStr(obj: map<string, Json>, key: string): (r: Result<string, DecodeError>)
    ensures r.Ok? <==> key in obj && obj[key].JStr?
    ensures r.Ok? ==> obj[key] == JStr(r.value)
    ensures key !in obj ==> r == Err(MissingKey(key))
  {
    if key !in obj then Err(MissingKey(key))
    else if obj[key].JStr? then Ok(obj[key].s)
    else Err(WrongType(key))
  }

  /** `data[key]` for a required integer field. */
  function GetInt(obj: map<string, Json>, key: string): (r: Result<int, DecodeError>)
    ensures r.Ok? <==> key in obj && obj[key].JInt?
    ensures r.Ok? ==> obj[key] == JInt(r.value)
    ensures key !in obj ==> r == Err(MissingKey(key))
  {
    if key !in obj then Err(MissingKey(key))
    else if obj[key].JInt? then Ok(obj[key].i)
    else Err(WrongType(key))
  }

  /** `data.get(key)` for an optional string: a missing key and `null` both read as none. */
  function GetOptStr(obj: map<string, Json>, key: string): (r: Result<Option<string>, DecodeError>)
    ensures key !in obj ==> r == Ok(None)
    ensures key in obj && obj[key] == JNull ==> r == Ok(None)
    ensures key in obj && obj[key].JStr? ==> r == Ok(Some(obj[key].s))
    ensures r.Err? <==> key in obj && !obj[key].JNull? && !obj[key].JStr?
  {
    if key !in obj || obj[key].JNull? then Ok(None)
    else if obj[key].JStr? then Ok(Some(obj[key].s))
    else Err(WrongType(key))
  }

  function OptStr(o: Option<string>): (j: Json)
    ensures o.None? <==> j == JNull
    ensures o.Some? ==> j == JStr(o.value)
  {
    match o
    case None => JNull
    case Some(s) => JStr(s)
  }

  function StrArray(xs: seq<string>): (j: Json)
    ensures j.JArr? && |j.items| == |xs|
    ensures forall k :: 0 <= k < |xs| ==> j.items[k] == JStr(xs[k])
  {
    JArr(seq(|xs|, k requires 0 <= k < |xs| => JStr(xs[k])))
  }

  /** Reads back an array of strings; any other element is a type error. */
  function StrsOf(items: seq<Json>, key: string): (r: Result<seq<string>, DecodeError>)
    ensures r.Ok? <==> forall k :: 0 <= k < |items| ==> items[k].JStr?
    ensures r.Ok? ==> |r.value| == |items| && forall k :: 0 <= k < |items| ==> items[k] == JStr(r.value[k])
  {
    if items == [] then Ok([])
    else if !items[0].JStr? then Err(WrongType(key))
    else
      match StrsOf(items[1..], key)
      case Err(e) => Err(e)
      case Ok(rest) =>
        assert forall k :: 1 <= k < |items| ==> items[k] == items[1..][k - 1];
        Ok([items[0].s] + rest)
  }

  lemma StrArrayRoundTrip(xs: seq<string>, key: string)
    ensures StrsOf(StrArray(xs).items, key) == Ok(xs)
  {
    var r := StrsOf(StrArray(xs).items, key);
    assert r.Ok?;
    assert r.value == xs;
  }
}
