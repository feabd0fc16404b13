/** Content signing in the terminal client's Rust crate: a content identifier from a
    BLAKE3 digest in base58, an Ed25519 signature over `cid:author:body:created_at`, and
    a verification that reports every failure as an error. */
module SignedContent {
  import opened Outcomes
  import opened Text
  import opened Crypto
  import opened Seqs

  const DidPrefix: string := "did:rootless:key:"
  const CidPrefix: string := "bafk"

  /** Which decoding step rejected a key or signature. */
  datatype KeyProblem = PrivateKeyHex | PublicKeyHex | SignatureHex | KeyLength | KeyPoint

  /** `CryptoError` as far as these operations raise it. */
  datatype CryptoError = InvalidKey(problem: KeyProblem) | SignatureVerificationFailed

  /** The part of `identity.rs` content signing relies on. */
  datatype Identity = Identity(did: string, name: Option<string>, publicKey: string, privateKey: string, createdAt: nat)

  /** `&digest[..16]` of a 32-byte digest. */
  function Head16(digest: Bytes): (h: Bytes)
    ensures |digest| >= 16 ==> h == digest[..16]
  {
    Slice(digest, 0, 16)
  }

  /** `Identity::new`: `seed` is the generated signing key's 32 bytes, `now` the clock. */
  function NewIdentity(s: Suite, seed: Bytes, name: Option<string>, now: nat): (id: Identity)
    requires |seed| == 32
    ensures StartsWith(id.did, DidPrefix) && id.name == name && id.createdAt == now
    ensures HexLaws(s) ==> |id.privateKey| == 64
  {
    var vk := s.edPublic(seed);
    Identity(DidPrefix + s.bs58(Head16(s.blake3(vk))), name, s.hex(vk), s.hex(seed), now)
  }

  /** `Identity::sign`: the private key must be hex of exactly 32 bytes. */
  function Sign(s: Suite, id: Identity, data: Bytes): (r: Result<Bytes, CryptoError>)
    ensures r.Err? <==> s.unhex(id.privateKey).None? || |s.unhex(id.privateKey).value| != 32
    ensures r.Ok? ==> r.value == s.edSign(s.unhex(id.privateKey).value, data)
  {
    match s.unhex(id.privateKey)
    case None => Err(InvalidKey(PrivateKeyHex))
    case Some(key) => if |key| != 32 then Err(InvalidKey(KeyLength)) else Ok(s.edSign(key, data))
  }

  /** A generated identity signs with its seed. */
  lemma NewIdentitySigns(s: Suite, seed: Bytes, name: Option<string>, now: nat, data: Bytes)
    requires HexLaws(s) && |seed| == 32
    ensures Sign(s, NewIdentity(s, seed, name, now), data) == Ok(s.edSign(seed, data))
  {
    assert s.unhex(s.hex(seed)) == Some(seed);
  }

  datatype ContentType = Text | Media | Document | Thread

  /** The struct `Content`; `createdAt` is a `u64` of seconds. */
  datatype Content = Content(
    cid: string,
    author: string,
    authorPublicKey: string,
    contentType: ContentType,
    body: string,
    createdAt: nat,
    signature: string
  )

  /** The text hashed for the CID: `did:body:created_at`. */
  function CidText(did: string, body: string, createdAt: nat): string
  {
    did + ":" + body + ":" + NatToString(createdAt)
  }

  /** The signed text, built the same way by `new` and `verify`. */
  function Payload(cid: string, author: string, body: string, createdAt: nat): string
  {
    cid + ":" + CidText(author, body, createdAt)
  }

  /** With the other fields fixed, the payload determines the body. */
  lemma PayloadDeterminesBody(cid: string, author: string, body: string, body': string, createdAt: nat)
    ensures Payload(cid, author, body, createdAt) == Payload(cid, author, body', createdAt) ==> body == body'
  {
    if Payload(cid, author, body, createdAt) == Payload(cid, author, body', createdAt) {
      var pre := cid + ":" + author + ":";
      var post := ":" + NatToString(createdAt);
      var p := Payload(cid, author, body, createdAt);
      var p' := Payload(cid, author, body', createdAt);
      assert p == pre + body + post;
      assert p' == pre + body' + post;
      assert |body| == |body'|;
      assert body == p[|pre|..|pre| + |body|];
      assert body' == p'[|pre|..|pre| + |body'|];
    }
  }

  /** What the tamper lemma has to assume, since no law of the suite excludes it: the
      signature verifies under `vk` for no message other than `m`. */
  ghost predicate FitsOnly(s: Suite, vk: Bytes, signature: Bytes, m: Bytes) {
    forall m' :: s.edVerify(vk, m', signature) ==> m' == m
  }

  /** `Content::new`, with `now` the clock: fails only when the identity cannot sign. */
  function New(s: Suite, body: string, id: Identity, now: nat): (r: Result<Content, CryptoError>)
    ensures r.Err? <==> s.unhex(id.privateKey).None? || |s.unhex(id.privateKey).value| != 32
    ensures r.Ok? ==> StartsWith(r.value.cid, CidPrefix)
    ensures r.Ok? ==> r.value.author == id.did && r.value.authorPublicKey == id.publicKey
                      && r.value.contentType == Text && r.value.body == body && r.value.createdAt == now
    ensures r.Ok? && HexLaws(s) ==>
              s.unhex(r.value.signature) == Some(Sign(s, id, s.utf8(Payload(r.value.cid, id.did, body, now))).value)
  {
    var cid := CidPrefix + s.bs58(Head16(s.blake3(s.utf8(CidText(id.did, body, now)))));
    var signature :- Sign(s, id, s.utf8(Payload(cid, id.did, body, now)));
    Ok(Content(cid, id.did, id.publicKey, Text, body, now, s.hex(signature)))
  }

  /** `Content::verify`: the public key and the signature must be hex, the key 32 bytes
      and a valid point (all `InvalidKey`), the signature 64 bytes and valid for the
      payload (`SignatureVerificationFailed`); success is always `Ok(true)`. */
  function Verify(s: Suite, c: Content): (r: Result<bool, CryptoError>)
    ensures r.Ok? ==> r.value
    ensures s.unhex(c.authorPublicKey).None? ==> r == Err(InvalidKey(PublicKeyHex))
    ensures s.unhex(c.authorPublicKey).Some? && s.unhex(c.signature).None? ==> r == Err(InvalidKey(SignatureHex))
    ensures (s.unhex(c.authorPublicKey).Some? && s.unhex(c.signature).Some? && |s.unhex(c.authorPublicKey).value| != 32)
              ==> r == Err(InvalidKey(KeyLength))
    ensures r == Ok(true) <==>
              && s.unhex(c.authorPublicKey).Some? && s.unhex(c.signature).Some?
              && |s.unhex(c.authorPublicKey).value| == 32 && s.edValidKey(s.unhex(c.authorPublicKey).value)
              && |s.unhex(c.signature).value| == 64
              && s.edVerify(s.unhex(c.authorPublicKey).value, s.utf8(Payload(c.cid, c.author, c.body, c.createdAt)),
                            s.unhex(c.signature).value)
  {
    var payload := s.utf8(Payload(c.cid, c.author, c.body, c.createdAt));
    match s.unhex(c.authorPublicKey)
    case None => Err(InvalidKey(PublicKeyHex))
    case Some(pk) =>
      match s.unhex(c.signature)
      case None => Err(InvalidKey(SignatureHex))
      case Some(sig) =>
        if |pk| != 32 then Err(InvalidKey(KeyLength))
        else if !s.edValidKey(pk) then Err(InvalidKey(KeyPoint))
        else if |sig| != 64 then Err(SignatureVerificationFailed)
        else if !s.edVerify(pk, payload, sig) then Err(SignatureVerificationFailed)
        else Ok(true)
  }

  /** Content created by a generated identity verifies. */
  lemma FreshContentVerifies(s: Suite, seed: Bytes, name: Option<string>, idTime: nat, body: string, now: nat)
    requires HexLaws(s) && SignatureLaws(s) && |seed| == 32
    ensures New(s, body, NewIdentity(s, seed, name, idTime), now).Ok?
    ensures Verify(s, New(s, body, NewIdentity(s, seed, name, idTime), now).value) == Ok(true)
  {
    var id := NewIdentity(s, seed, name, idTime);
    var vk := s.edPublic(seed);
    var cid := CidPrefix + s.bs58(Head16(s.blake3(s.utf8(CidText(id.did, body, now)))));
    var payload := s.utf8(Payload(cid, id.did, body, now));
    NewIdentitySigns(s, seed, name, idTime, payload);
    var sig := s.edSign(seed, payload);
    assert |sig| == 64 && |vk| == 32 && s.edValidKey(vk) && s.edVerify(vk, payload, sig);
    assert s.unhex(s.hex(vk)) == Some(vk);
    assert s.unhex(s.hex(sig)) == Some(sig);
  }

  /** Replacing the body of created content with a different one yields an error, given
      that the signature fits only the payload it was made for: the altered payload is a
      different message (`PayloadDeterminesBody`). */
  lemma TamperedBodyRejected(s: Suite, seed: Bytes, name: Option<string>, idTime: nat, body: string, now: nat,
                             forged: string)
    requires HexLaws(s) && SignatureLaws(s) && Utf8Laws(s) && |seed| == 32
    requires forged != body
    requires var c := New(s, body, NewIdentity(s, seed, name, idTime), now).value;
             var m := s.utf8(Payload(c.cid, c.author, body, now));
             FitsOnly(s, s.edPublic(seed), s.edSign(seed, m), m)
    ensures New(s, body, NewIdentity(s, seed, name, idTime), now).Ok?
    ensures Verify(s, New(s, body, NewIdentity(s, seed, name, idTime), now).value.(body := forged))
            == Err(SignatureVerificationFailed)
  {
    FreshContentVerifies(s, seed, name, idTime, body, now);
    var id := NewIdentity(s, seed, name, idTime);
    var c := New(s, body, id, now).value;
    var vk := s.edPublic(seed);
    var sig := s.edSign(seed, s.utf8(Payload(c.cid, c.author, body, now)));
    PayloadDeterminesBody(c.cid, c.author, forged, body, now);
    assert s.utf8Decode(s.utf8(Payload(c.cid, c.author, forged, now))) == Some(Payload(c.cid, c.author, forged, now));
    assert s.utf8Decode(s.utf8(Payload(c.cid, c.author, body, now))) == Some(Payload(c.cid, c.author, body, now));
    assert !s.edVerify(vk, s.utf8(Payload(c.cid, c.author, forged, now)), sig);
    NewIdentitySigns(s, seed, name, idTime, s.utf8(Payload(c.cid, c.author, body, now)));
    assert s.unhex(s.hex(vk)) == Some(vk);
    assert s.unhex(s.hex(sig)) == Some(sig);
  }
}
