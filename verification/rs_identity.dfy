/** The identity module of the Rust protocol crate: the same identity as the Python
    package, with a serde JSON form (key bytes as arrays of numbers), a backup encrypted
    under the SHA-256 of the password with a fixed all-zero nonce, and a signature check
    that reports malformed input as an error. */
module RsIdentity {
  import opened Outcomes
  import opened Text
  import opened Crypto
  import opened Json
  import opened Keys

  const I64Min: int := -0x8000_0000_0000_0000
  const I64Max: int := 0x7fff_ffff_ffff_ffff

  /** The struct `UserIdentity`; `createdAt` is an `i64`. */
  datatype UserIdentity = UserIdentity(
    publicKey: string,
    privateKey: string,
    signingKey: Bytes,
    verifyingKey: Bytes,
    createdAt: int
  )

  /** The `PyValueError` messages, one constructor per cause. */
  datatype IdentityError =
    | InvalidSigningKey
    | InvalidVerifyingKeyLength
    | InvalidSignatureLength
    | InvalidPoint             // `VerifyingKey::from_bytes` refused the bytes
    | BadHex
    | DecryptionFailed
    | NotUtf8
    | NotJson
    | Document(e: DecodeError)

  /** `generate_public_key_string`: as in the Python package; every character is ASCII,
      so the byte length the loop tests is the character count. */
  method GeneratePublicKeyString(s: Suite, verifyingKey: Bytes, draws: Draws) returns (key: string)
    requires |verifyingKey| == 32
    ensures key == KeyString(s.hex(verifyingKey), draws)
  {
    key := s.hex(verifyingKey);
    ghost var hex := key;
    var next: nat := 0;
    while |key| < MinKeyLength
      invariant next <= Padding(|hex|) && key == hex + Picks(draws, 0, next)
      decreases MinKeyLength - |key|
    {
      PicksNext(draws, 0, next);
      key := key + [Pick(draws(next))];
      next := next + 1;
    }
    assert next == Padding(|hex|);
    var extra := draws(next) % 15 + 5;
    key := AppendPicks(key, draws, next + 1, extra);
  }

  /** `generate_mnemonic_key`: the 100 drawn words joined by spaces; when no word holds a
      space the key splits back into exactly those words. */
  function GenerateMnemonicKey(wordlist: seq<string>, draws: Draws): (key: string)
    requires |wordlist| > 0
    ensures (forall w :: w in wordlist ==> ' ' !in w) ==>
              var words := Split(key, ' ');
              |words| == WordCount && forall i :: 0 <= i < WordCount ==> words[i] in wordlist
  {
    MnemonicSplits(wordlist, draws);
    Join(MnemonicWords(wordlist, draws), ' ')
  }

  /** `UserIdentity::new`: `seed` is the 32 random bytes, `keyDraws` and `wordDraws` the
      generator's further draws and `now` the clock. */
  method New(s: Suite, seed: Bytes, keyDraws: Draws, wordlist: seq<string>, wordDraws: Draws, now: int)
    returns (id: UserIdentity)
    requires HashLaws(s) && SignatureLaws(s)
    requires |seed| == 32 && |wordlist| > 0 && I64Min <= now <= I64Max
    ensures id.signingKey == seed && id.verifyingKey == s.edPublic(seed) && id.createdAt == now
    ensures id.publicKey == KeyString(s.hex(s.edPublic(seed)), keyDraws)
    ensures id.privateKey == GenerateMnemonicKey(wordlist, wordDraws)
  {
    var verifyingKey := s.edPublic(seed);
    var publicKey := GeneratePublicKeyString(s, verifyingKey, keyDraws);
    var privateKey := GenerateMnemonicKey(wordlist, wordDraws);
    id := UserIdentity(publicKey, privateKey, seed, verifyingKey, now);
  }

  /** `sign`: the stored key must convert to a 32-byte array. */
  function Sign(s: Suite, id: UserIdentity, data: Bytes): (r: Result<Bytes, IdentityError>)
    ensures r.Err? <==> |id.signingKey| != 32
    ensures r.Ok? ==> r.value == s.edSign(id.signingKey, data)
  {
    if |id.signingKey| != 32 then Err(InvalidSigningKey) else Ok(s.edSign(id.signingKey, data))
  }

  /** `verify_signature`: malformed input is an error, checked in the order key length,
      signature length, key point; a well-formed but wrong signature is `Ok(false)`. */
  function VerifySignature(s: Suite, verifyingKey: Bytes, data: Bytes, signature: Bytes): (r: Result<bool, IdentityError>)
    ensures |verifyingKey| != 32 ==> r == Err(InvalidVerifyingKeyLength)
    ensures |verifyingKey| == 32 && |signature| != 64 ==> r == Err(InvalidSignatureLength)
    ensures r.Ok? <==> |verifyingKey| == 32 && |signature| == 64 && s.edValidKey(verifyingKey)
    ensures r.Ok? ==> r.value == s.edVerify(verifyingKey, data, signature)
  {
    if |verifyingKey| != 32 then Err(InvalidVerifyingKeyLength)
    else if |signature| != 64 then Err(InvalidSignatureLength)
    else if !s.edValidKey(verifyingKey) then Err(InvalidPoint)
    else Ok(s.edVerify(verifyingKey, data, signature))
  }

  /** A signature made by a freshly generated identity verifies as `Ok(true)`. */
  lemma SignedDataVerifies(s: Suite, seed: Bytes, data: Bytes, rest: UserIdentity)
    requires SignatureLaws(s) && |seed| == 32
    ensures var id := rest.(signingKey := seed, verifyingKey := s.edPublic(seed));
            Sign(s, id, data).Ok? && VerifySignature(s, id.verifyingKey, data, Sign(s, id, data).value) == Ok(true)
  {
  }

  /** serde's form of a `Vec<u8>`: an array of numbers. */
  function ByteArray(b: Bytes): (j: Json)
    ensures j.JArr? && |j.items| == |b|
    ensures forall i :: 0 <= i < |b| ==> j.items[i] == JInt(b[i] as int)
  {
    JArr(seq(|b|, i requires 0 <= i < |b| => JInt(b[i] as int)))
  }

  /** serde reading a `Vec<u8>`: every item a number from 0 to 255. */
  function BytesOf(items: seq<Json>, key: string): (r: Result<Bytes, DecodeError>)
    ensures r.Ok? ==> |r.value| == |items|
    ensures r.Ok? <==> forall i :: 0 <= i < |items| ==> items[i].JInt? && 0 <= items[i].i < 256
  {
    if items == [] then Ok([])
    else if !items[0].JInt? || !(0 <= items[0].i < 256) then Err(BadValue(key))
    else
      match BytesOf(items[1..], key)
      case Err(e) => Err(e)
      case Ok(rest) => Ok([items[0].i as bv8] + rest)
  }

  function GetBytes(obj: map<string, Json>, key: string): (r: Result<Bytes, DecodeError>)
    ensures key !in obj ==> r == Err(MissingKey(key))
  {
    if key !in obj then Err(MissingKey(key))
    else if !obj[key].JArr? then Err(WrongType(key))
    else BytesOf(obj[key].items, key)
  }

  lemma {:induction false} BytesRoundTrip(b: Bytes, key: string)
    ensures BytesOf(ByteArray(b).items, key) == Ok(b)
  {
    if b != [] {
      assert ByteArray(b).items[1..] == ByteArray(b[1..]).items;
      BytesRoundTrip(b[1..], key);
      assert (b[0] as int) as bv8 == b[0];
      assert b == [b[0]] + b[1..];
    }
  }

  /** serde's form of the struct, field by field. */
  function ToJson(id: UserIdentity): (j: Json)
    ensures j.JObj?
    ensures j.fields.Keys == {"public_key", "private_key", "signing_key_bytes", "verifying_key_bytes", "created_at"}
  {
    JObj(map[
      "public_key" := JStr(id.publicKey),
      "private_key" := JStr(id.privateKey),
      "signing_key_bytes" := ByteArray(id.signingKey),
      "verifying_key_bytes" := ByteArray(id.verifyingKey),
      "created_at" := JInt(id.createdAt)
    ])
  }

  /** serde reading the struct: every field is required, the keys must be byte arrays and
      the timestamp must fit an `i64`; fields it does not know are ignored. */
  function FromJson(j: Json): (r: Result<UserIdentity, DecodeError>)
    ensures r.Ok? ==> I64Min <= r.value.createdAt <= I64Max
    ensures r.Ok? ==> j.JObj? && forall k :: k in ToJson(r.value).fields ==> k in j.fields
  {
    if !j.JObj? then Err(NotAnObject)
    else
      var o := j.fields;
      var publicKey :- GetStr(o, "public_key");
      var privateKey :- GetStr(o, "private_key");
      var signingKey :- GetBytes(o, "signing_key_bytes");
      var verifyingKey :- GetBytes(o, "verifying_key_bytes");
      var createdAt :- GetInt(o, "created_at");
      if !(I64Min <= createdAt <= I64Max) then Err(BadValue("created_at"))
      else Ok(UserIdentity(publicKey, privateKey, signingKey, verifyingKey, createdAt))
  }

  /** Every identity whose timestamp fits an `i64` reads back from its JSON form. */
  lemma JsonRoundTrip(id: UserIdentity)
    requires I64Min <= id.createdAt <= I64Max
    ensures FromJson(ToJson(id)) == Ok(id)
  {
    var o := ToJson(id).fields;
    BytesRoundTrip(id.signingKey, "signing_key_bytes");
    BytesRoundTrip(id.verifyingKey, "verifying_key_bytes");
    assert GetBytes(o, "signing_key_bytes") == Ok(id.signingKey);
    assert GetBytes(o, "verifying_key_bytes") == Ok(id.verifyingKey);
    assert GetStr(o, "public_key") == Ok(id.publicKey);
    assert GetStr(o, "private_key") == Ok(id.privateKey);
    assert GetInt(o, "created_at") == Ok(id.createdAt);
  }

  /** The backup cipher key: SHA-256 of the password bytes. */
  function BackupKey(s: Suite, password: string): Bytes
  {
    s.sha256(s.utf8(password))
  }

  /** The nonce both directions use: twelve zero bytes. */
  function ZeroNonce(): (n: Bytes)
    ensures |n| == 12 && forall i :: 0 <= i < 12 ==> n[i] == 0
  {
    seq(12, i => 0 as bv8)
  }

  /** `export_encrypted`: the hex of the sealed compact JSON. Serialising and encrypting
      cannot fail for this struct, so the result is always `Ok`. */
  function ExportEncrypted(s: Suite, id: UserIdentity, password: string): (blob: string)
    ensures HexLaws(s) && AeadLaws(s) ==>
      && s.unhex(blob).Some?
      && s.aeadOpen(BackupKey(s, password), ZeroNonce(), s.unhex(blob).value) == Some(s.utf8(s.jsonDump(ToJson(id))))
  {
    s.hex(s.aeadSeal(BackupKey(s, password), ZeroNonce(), s.utf8(s.jsonDump(ToJson(id)))))
  }

  /** `import_encrypted`: hex, then decryption, then UTF-8, then the JSON document. */
  function ImportEncrypted(s: Suite, blob: string, password: string): (r: Result<UserIdentity, IdentityError>)
    ensures s.unhex(blob).None? ==> r == Err(BadHex)
    ensures r.Ok? ==> s.unhex(blob).Some? && s.aeadOpen(BackupKey(s, password), ZeroNonce(), s.unhex(blob).value).Some?
  {
    match s.unhex(blob)
    case None => Err(BadHex)
    case Some(encrypted) =>
      match s.aeadOpen(BackupKey(s, password), ZeroNonce(), encrypted)
      case None => Err(DecryptionFailed)
      case Some(plaintext) =>
        match s.utf8Decode(plaintext)
        case None => Err(NotUtf8)
        case Some(text) =>
          match s.jsonLoad(text)
          case None => Err(NotJson)
          case Some(doc) =>
            match FromJson(doc)
            case Err(e) => Err(Document(e))
            case Ok(id) => Ok(id)
  }

  /** A backup imported with the password it was exported with gives the identity back. */
  lemma BackupRoundTrip(s: Suite, id: UserIdentity, password: string)
    requires HexLaws(s) && AeadLaws(s) && Utf8Laws(s) && JsonTextLaws(s)
    requires I64Min <= id.createdAt <= I64Max
    ensures ImportEncrypted(s, ExportEncrypted(s, id, password), password) == Ok(id)
  {
    var text := s.jsonDump(ToJson(id));
    var sealed := s.aeadSeal(BackupKey(s, password), ZeroNonce(), s.utf8(text));
    assert s.unhex(s.hex(sealed)) == Some(sealed);
    assert s.aeadOpen(BackupKey(s, password), ZeroNonce(), sealed) == Some(s.utf8(text));
    assert s.utf8Decode(s.utf8(text)) == Some(text);
    assert s.jsonLoad(text) == Some(ToJson(id));
    JsonRoundTrip(id);
  }
}
