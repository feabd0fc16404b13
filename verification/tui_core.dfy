/** The pure-Python identity and content layer of the terminal client: DIDs and CIDs
    from BLAKE2b digests, an identity whose "signature" is an HMAC-SHA256 under its
    private key, its JSON export, and signed content. */
module TuiCore {
  import opened Outcomes
  import opened Text
  import opened Crypto
  import opened Json

  const DidPrefix: string := "did:rootless:key:"
  const CidPrefix: string := "bafk"

  /** Why a call raises. */
  datatype CoreError =
    | BadHex(field: string)   // `bytes.fromhex` rejected the text
    | NotJson
    | Document(e: DecodeError)

  /** `_generate_did`. */
  function GenerateDid(s: Suite, publicKey: Bytes): string
  {
    DidPrefix + s.hex(s.blake2b16(publicKey))
  }

  /** `_generate_cid`. */
  function GenerateCid(s: Suite, data: Bytes): string
  {
    CidPrefix + s.hex(s.blake2b16(data))
  }

  /** Lower-case hex of a 16-byte digest: 32 hex digits. */
  predicate IsDigest16Hex(h: string) {
    |h| == 32 && forall i :: 0 <= i < |h| ==> IsHexDigit(h[i])
  }

  /** A DID is the key prefix followed by 32 hex digits, and the digits decode to the
      digest of the key. */
  lemma DidShape(s: Suite, publicKey: Bytes)
    requires HashLaws(s) && HexLaws(s)
    ensures var d := GenerateDid(s, publicKey);
            StartsWith(d, DidPrefix) && IsDigest16Hex(d[|DidPrefix|..])
            && s.unhex(d[|DidPrefix|..]) == Some(s.blake2b16(publicKey))
  {
    var h := s.hex(s.blake2b16(publicKey));
    assert |s.blake2b16(publicKey)| == 16;
    assert GenerateDid(s, publicKey)[|DidPrefix|..] == h;
  }

  /** A CID is `bafk` followed by 32 hex digits that decode to the digest of the data. */
  lemma CidShape(s: Suite, data: Bytes)
    requires HashLaws(s) && HexLaws(s)
    ensures var c := GenerateCid(s, data);
            StartsWith(c, CidPrefix) && IsDigest16Hex(c[|CidPrefix|..])
            && s.unhex(c[|CidPrefix|..]) == Some(s.blake2b16(data))
  {
    var h := s.hex(s.blake2b16(data));
    assert |s.blake2b16(data)| == 16;
    assert GenerateCid(s, data)[|CidPrefix|..] == h;
  }

  /** The dataclass `Identity`; `privateKey` is hex text. */
  datatype Identity = Identity(
    did: string,
    name: Option<string>,
    publicKey: string,
    privateKey: string,
    createdAt: int
  )

  /** `Identity.create` without the Rust backend: `secret` is the 32 random bytes behind
      `secrets.token_hex(32)` and `now` the clock. */
  function Create(s: Suite, secret: Bytes, name: Option<string>, now: int): (id: Identity)
    requires |secret| == 32
  {
    var privateKey := s.hex(secret);
    var publicKey := s.hex(s.sha256(secret));
    Identity(GenerateDid(s, s.sha256(secret)), name, publicKey, privateKey, now)
  }

  /** The created identity's keys decode back to the secret and its hash, so the hex
      round trips `create` performs through `bytes.fromhex` give the same values; the
      DID comes from the public key and the keys have 64 hex digits. */
  lemma CreateShape(s: Suite, secret: Bytes, name: Option<string>, now: int)
    requires HashLaws(s) && HexLaws(s) && |secret| == 32
    ensures var id := Create(s, secret, name, now);
            && s.unhex(id.privateKey) == Some(secret)
            && s.unhex(id.publicKey) == Some(s.sha256(secret))
            && id.did == GenerateDid(s, s.unhex(id.publicKey).value)
            && |id.privateKey| == 64 && |id.publicKey| == 64
            && id.name == name && id.createdAt == now
  {
    assert |s.sha256(secret)| == 32;
  }

  /** `Identity.sign`: HMAC-SHA256 keyed by the decoded private key. */
  function Sign(s: Suite, id: Identity, data: Bytes): (r: Result<Bytes, CoreError>)
    ensures r.Err? <==> s.unhex(id.privateKey).None?
    ensures r.Ok? ==> r.value == s.hmacSha256(s.unhex(id.privateKey).value, data)
  {
    match s.unhex(id.privateKey)
    case None => Err(BadHex("private_key"))
    case Some(key) => Ok(s.hmacSha256(key, data))
  }

  /** `Identity.verify_signature`: recompute and compare. */
  function VerifySignature(s: Suite, id: Identity, data: Bytes, signature: Bytes): (r: Result<bool, CoreError>)
    ensures r.Err? <==> Sign(s, id, data).Err?
    ensures r.Ok? ==> (r.value <==> signature == Sign(s, id, data).value)
  {
    var expected :- Sign(s, id, data);
    Ok(expected == signature)
  }

  /** A signature is 32 bytes, and it verifies under the identity that made it while any
      other byte string does not. */
  lemma SignVerifies(s: Suite, id: Identity, data: Bytes, other: Bytes)
    requires HashLaws(s) && Sign(s, id, data).Ok?
    ensures |Sign(s, id, data).value| == 32
    ensures VerifySignature(s, id, data, Sign(s, id, data).value) == Ok(true)
    ensures other != Sign(s, id, data).value ==> VerifySignature(s, id, data, other) == Ok(false)
  {
    var key := s.unhex(id.privateKey).value;
    assert |s.hmacSha256(key, data)| == 32;
  }

  /** A freshly created identity can sign. */
  lemma CreatedCanSign(s: Suite, secret: Bytes, name: Option<string>, now: int, data: Bytes)
    requires HexLaws(s) && |secret| == 32
    ensures Sign(s, Create(s, secret, name, now), data) == Ok(s.hmacSha256(secret, data))
  {
    assert s.unhex(s.hex(secret)) == Some(secret);
  }

  /** `Identity.export` as a document value; an absent name becomes `null`. */
  function Export(id: Identity): (doc: Json)
    ensures doc.JObj? && doc.fields.Keys == {"did", "name", "public_key", "private_key", "created_at"}
    ensures doc.fields["name"] == JNull <==> id.name.None?
  {
    JObj(map[
      "did" := JStr(id.did),
      "name" := OptStr(id.name),
      "public_key" := JStr(id.publicKey),
      "private_key" := JStr(id.privateKey),
      "created_at" := JInt(id.createdAt)
    ])
  }

  /** `Identity.import_from_json` on a parsed document: `did`, `public_key` and
      `private_key` are required, `name` defaults to `None` and `created_at` to the clock
      reading `now`. */
  function FromDocument(doc: Json, now: int): (r: Result<Identity, DecodeError>)
    ensures r.Ok? ==> doc.JObj? && "did" in doc.fields && doc.fields["did"] == JStr(r.value.did)
    ensures r.Ok? && doc.JObj? && "name" !in doc.fields ==> r.value.name == None
    ensures r.Ok? && doc.JObj? && "created_at" !in doc.fields ==> r.value.createdAt == now
  {
    if !doc.JObj? then Err(NotAnObject)
    else
      var o := doc.fields;
      var did :- GetStr(o, "did");
      var name :- GetOptStr(o, "name");
      var publicKey :- GetStr(o, "public_key");
      var privateKey :- GetStr(o, "private_key");
      var createdAt :- if "created_at" in o then GetInt(o, "created_at") else Ok(now);
      Ok(Identity(did, name, publicKey, privateKey, createdAt))
  }

  /** `Identity.import_from_json`: JSON text to an identity. */
  function ImportFromJson(s: Suite, text: string, now: int): (r: Result<Identity, CoreError>)
    ensures s.jsonLoad(text).None? ==> r == Err(NotJson)
  {
    match s.jsonLoad(text)
    case None => Err(NotJson)
    case Some(doc) =>
      match FromDocument(doc, now)
      case Err(e) => Err(Document(e))
      case Ok(id) => Ok(id)
  }

  /** Importing an export gives back every field, whatever the clock says. */
  lemma ExportImportRoundTrip(s: Suite, id: Identity, now: int)
    requires JsonTextLaws(s)
    ensures ImportFromJson(s, s.jsonDump(Export(id)), now) == Ok(id)
  {
    var o := Export(id).fields;
    assert s.jsonLoad(s.jsonDump(Export(id))) == Some(Export(id));
    assert GetStr(o, "did") == Ok(id.did);
    assert GetOptStr(o, "name") == Ok(id.name);
    assert GetStr(o, "public_key") == Ok(id.publicKey);
    assert GetStr(o, "private_key") == Ok(id.privateKey);
    assert GetInt(o, "created_at") == Ok(id.createdAt);
  }

  /** An export without its `name` entry imports with no name and the rest intact. */
  lemma MissingNameImportsNone(id: Identity, now: int)
    ensures FromDocument(JObj(Export(id).fields - {"name"}), now) == Ok(id.(name := None))
  {
    var o := Export(id).fields - {"name"};
    assert "name" !in o;
    assert GetStr(o, "did") == Ok(id.did);
    assert GetStr(o, "public_key") == Ok(id.publicKey);
    assert GetStr(o, "private_key") == Ok(id.privateKey);
    assert GetInt(o, "created_at") == Ok(id.createdAt);
  }

  /** The dataclass `Content`; `authorPrivateKey` is empty when the content was not made
      here. */
  datatype Content = Content(
    cid: string,
    author: string,
    authorPublicKey: string,
    body: string,
    createdAt: int,
    signature: string,
    authorPrivateKey: string
  )

  /** The text hashed for the CID: `did:body:created_at`. */
  function CidText(did: string, body: string, createdAt: int): string
  {
    did + ":" + body + ":" + IntToString(createdAt)
  }

  /** The signed text: `cid:did:body:created_at`. */
  function PayloadText(cid: string, did: string, body: string, createdAt: int): string
  {
    cid + ":" + CidText(did, body, createdAt)
  }

  /** `Content.create`, with `now` the clock; signing raises when the identity's private
      key is not hex. */
  function CreateContent(s: Suite, body: string, id: Identity, now: int): (r: Result<Content, CoreError>)
    ensures r.Err? <==> s.unhex(id.privateKey).None?
    ensures r.Ok? ==> r.value.author == id.did && r.value.authorPublicKey == id.publicKey
                      && r.value.body == body && r.value.createdAt == now
                      && r.value.authorPrivateKey == id.privateKey
    ensures r.Ok? ==> r.value.cid == GenerateCid(s, s.utf8(CidText(id.did, body, now)))
  {
    var cid := GenerateCid(s, s.utf8(CidText(id.did, body, now)));
    var signature :- Sign(s, id, s.utf8(PayloadText(cid, id.did, body, now)));
    Ok(Content(cid, id.did, id.publicKey, body, now, s.hex(signature), id.privateKey))
  }

  /** The signature of created content is the hex of the identity's signature over the
      payload, 64 hex digits long. */
  lemma CreatedSignature(s: Suite, body: string, id: Identity, now: int)
    requires HashLaws(s) && HexLaws(s) && CreateContent(s, body, id, now).Ok?
    ensures var c := CreateContent(s, body, id, now).value;
            && s.unhex(c.signature) == Some(Sign(s, id, s.utf8(PayloadText(c.cid, id.did, body, now))).value)
            && |c.signature| == 64
  {
    var c := CreateContent(s, body, id, now).value;
    var sig := Sign(s, id, s.utf8(PayloadText(c.cid, id.did, body, now))).value;
    assert |sig| == 32;
    assert s.unhex(s.hex(sig)) == Some(sig);
  }

  /** `Content.verify`. Without a retained private key only the signature's length is
      checked; a private key that is not hex raises (outside the `try`), a signature
      that is not hex gives `False`. */
  function VerifyContent(s: Suite, c: Content): (r: Result<bool, CoreError>)
    ensures c.authorPrivateKey == [] ==> r == Ok(|c.signature| == 64)
    ensures c.authorPrivateKey != [] ==> (r.Err? <==> s.unhex(c.authorPrivateKey).None?)
    ensures c.authorPrivateKey != [] && s.unhex(c.signature).None? ==> r.Err? || r == Ok(false)
  {
    if c.authorPrivateKey == [] then Ok(|c.signature| == 64)
    else
      var payload := s.utf8(PayloadText(c.cid, c.author, c.body, c.createdAt));
      match s.unhex(c.authorPrivateKey)
      case None => Err(BadHex("private_key"))
      case Some(key) =>
        var expected := s.hmacSha256(key, payload);
        match s.unhex(c.signature)
        case None => Ok(false)
        case Some(actual) => Ok(expected == actual)
  }

  /** Content verifies right after it is created, with or without a private key. */
  lemma CreatedContentVerifies(s: Suite, body: string, id: Identity, now: int)
    requires HashLaws(s) && HexLaws(s) && CreateContent(s, body, id, now).Ok?
    ensures VerifyContent(s, CreateContent(s, body, id, now).value) == Ok(true)
  {
    var c := CreateContent(s, body, id, now).value;
    var key := s.unhex(id.privateKey).value;
    var sig := s.hmacSha256(key, s.utf8(PayloadText(c.cid, id.did, body, now)));
    assert |sig| == 32;
    assert s.unhex(s.hex(sig)) == Some(sig);
  }

  /** Changing the body of created content makes verification fail whenever the new
      payload has a different HMAC. */
  lemma TamperedBodyFails(s: Suite, body: string, id: Identity, now: int, forged: string)
    requires HashLaws(s) && HexLaws(s) && CreateContent(s, body, id, now).Ok?
    requires id.privateKey != []
    requires var c := CreateContent(s, body, id, now).value;
             var key := s.unhex(id.privateKey).value;
             s.hmacSha256(key, s.utf8(PayloadText(c.cid, id.did, forged, now)))
               != s.hmacSha256(key, s.utf8(PayloadText(c.cid, id.did, body, now)))
    ensures VerifyContent(s, CreateContent(s, body, id, now).value.(body := forged)) == Ok(false)
  {
    var c := CreateContent(s, body, id, now).value;
    var key := s.unhex(id.privateKey).value;
    var sig := s.hmacSha256(key, s.utf8(PayloadText(c.cid, id.did, body, now)));
    assert s.unhex(s.hex(sig)) == Some(sig);
  }

  /** `Content.export` as a document value: every field but the private key. */
  function ExportContent(c: Content): (j: Json)
    ensures j.JObj? && "private_key" !in j.fields && "_author_private_key" !in j.fields
  {
    JObj(map[
      "cid" := JStr(c.cid),
      "author" := JStr(c.author),
      "author_public_key" := JStr(c.authorPublicKey),
      "body" := JStr(c.body),
      "created_at" := JInt(c.createdAt),
      "signature" := JStr(c.signature)
    ])
  }
}
