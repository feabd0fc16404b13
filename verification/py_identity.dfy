/** The identity module of the Python protocol package: a user identity with a public
    key string, a mnemonic private key and an Ed25519 key pair, its JSON form, its
    password-encrypted backup and signature checking. */
module PyIdentity {
  import opened Outcomes
  import opened Text
  import opened Crypto
  import opened Json
  import opened Seqs
  import opened Keys

  /** The dataclass `UserIdentity`. */
  datatype UserIdentity = UserIdentity(
    publicKey: string,
    privateKey: string,
    signingKey: Bytes,
    verifyingKey: Bytes,
    createdAt: int
  )

  /** Why a call raises. */
  datatype IdentityError =
    | KeyLength                  // `SigningKey` given other than 32 bytes
    | BadHex(field: string)      // `bytes.fromhex` rejected the text
    | NonceLength                // ChaCha20-Poly1305 given a nonce that is not 12 bytes
    | DecryptionFailed           // the authentication tag did not match
    | NotUtf8
    | NotJson
    | Document(e: DecodeError)   // the JSON held a missing or mistyped field

  /** `_generate_public_key_string`: the hex of the verifying key, padded with drawn
      alphabet characters to 100, then a drawn number of 5 to 19 more. */
  method GeneratePublicKeyString(s: Suite, verifyingKey: Bytes, draws: Draws) returns (key: string)
    ensures key == KeyString(s.hex(verifyingKey), draws)
  {
    key := s.hex(verifyingKey);
    ghost var hex := key;
    var next: nat := 0;
    while |key| < MinKeyLength
      invariant next <= Padding(|hex|) && key == hex + Picks(draws, 0, next)
      decreases MinKeyLength - |key|
    {
      PicksNext(draws, 0, next);
      key := key + [Pick(draws(next))];
      next := next + 1;
    }
    assert next == Padding(|hex|);
    var extra := draws(next) % 15 + 5;
    key := AppendPicks(key, draws, next + 1, extra);
  }

  /** `_generate_mnemonic_key`: 100 drawn words joined by single spaces. */
  method GenerateMnemonicKey(wordlist: seq<string>, draws: Draws) returns (key: string)
    requires |wordlist| > 0
    ensures key == Join(MnemonicWords(wordlist, draws), ' ')
  {
    var words: seq<string> := [];
    for i := 0 to WordCount
      invariant words == MnemonicWords(wordlist, draws)[..i]
    {
      words := words + [wordlist[draws(i) % |wordlist|]];
    }
    assert words == MnemonicWords(wordlist, draws);
    key := Join(words, ' ');
  }

  /** `UserIdentity.new`: `seed` is the 32-byte signing key drawn by
      `SigningKey.generate()`, `keyDraws` and `wordDraws` the random numbers of the two
      generators and `now` the clock reading. */
  method New(s: Suite, seed: Bytes, keyDraws: Draws, wordlist: seq<string>, wordDraws: Draws, now: int)
    returns (id: UserIdentity)
    requires |seed| == 32 && |wordlist| > 0
    ensures id.signingKey == seed && id.verifyingKey == s.edPublic(seed) && id.createdAt == now
    ensures id.publicKey == KeyString(s.hex(s.edPublic(seed)), keyDraws)
    ensures id.privateKey == Join(MnemonicWords(wordlist, wordDraws), ' ')
  {
    var verifyingKey := s.edPublic(seed);
    var publicKey := GeneratePublicKeyString(s, verifyingKey, keyDraws);
    var privateKey := GenerateMnemonicKey(wordlist, wordDraws);
    id := UserIdentity(publicKey, privateKey, seed, verifyingKey, now);
  }

  /** `sign`: `SigningKey(...)` accepts only a 32-byte seed. */
  function Sign(s: Suite, id: UserIdentity, data: Bytes): (r: Result<Bytes, IdentityError>)
    ensures r.Err? <==> |id.signingKey| != 32
    ensures r.Ok? ==> r.value == s.edSign(id.signingKey, data)
  {
    if |id.signingKey| != 32 then Err(KeyLength) else Ok(s.edSign(id.signingKey, data))
  }

  /** `verify_signature`: every failure, a wrong key or signature length included, is
      caught and reported as `false`. */
  function VerifySignature(s: Suite, verifyingKey: Bytes, data: Bytes, signature: Bytes): (ok: bool)
    ensures ok <==> |verifyingKey| == 32 && |signature| == 64 && s.edVerify(verifyingKey, data, signature)
  {
    |verifyingKey| == 32 && |signature| == 64 && s.edVerify(verifyingKey, data, signature)
  }

  /** A signature made by a freshly generated identity verifies under its verifying key. */
  lemma SignedDataVerifies(s: Suite, seed: Bytes, data: Bytes, rest: UserIdentity)
    requires SignatureLaws(s) && |seed| == 32
    ensures var id := rest.(signingKey := seed, verifyingKey := s.edPublic(seed));
            Sign(s, id, data).Ok? && VerifySignature(s, id.verifyingKey, data, Sign(s, id, data).value)
  {
  }

  /** A key or signature of the wrong length is rejected without raising. */
  lemma WrongLengthRejected(s: Suite, verifyingKey: Bytes, data: Bytes, signature: Bytes)
    requires |verifyingKey| != 32 || |signature| != 64
    ensures !VerifySignature(s, verifyingKey, data, signature)
  {
  }

  /** `to_json` as a document value: the key bytes as hex text. */
  function ToJson(s: Suite, id: UserIdentity): (j: Json)
    ensures j.JObj?
    ensures j.fields.Keys == {"public_key", "private_key", "signing_key_bytes", "verifying_key_bytes", "created_at"}
  {
    JObj(map[
      "public_key" := JStr(id.publicKey),
      "private_key" := JStr(id.privateKey),
      "signing_key_bytes" := JStr(s.hex(id.signingKey)),
      "verifying_key_bytes" := JStr(s.hex(id.verifyingKey)),
      "created_at" := JInt(id.createdAt)
    ])
  }

  /** `bytes.fromhex(data[key])`. */
  function GetHex(s: Suite, obj: map<string, Json>, key: string): (r: Result<Bytes, IdentityError>)
    ensures r.Ok? ==> key in obj && obj[key].JStr? && s.unhex(obj[key].s) == Some(r.value)
  {
    if key !in obj then Err(Document(MissingKey(key)))
    else if !obj[key].JStr? then Err(Document(WrongType(key)))
    else match s.unhex(obj[key].s)
      case None => Err(BadHex(key))
      case Some(b) => Ok(b)
  }

  /** `from_json` on a parsed document: the fields in the order the constructor call
      evaluates them; every key is required. */
  function FromJson(s: Suite, j: Json): (r: Result<UserIdentity, IdentityError>)
    ensures r.Ok? ==> j.JObj? && "signing_key_bytes" in j.fields && "verifying_key_bytes" in j.fields
    ensures r.Ok? ==> j.fields["signing_key_bytes"].JStr? && s.unhex(j.fields["signing_key_bytes"].s) == Some(r.value.signingKey)
    ensures r.Ok? ==> j.fields["verifying_key_bytes"].JStr? && s.unhex(j.fields["verifying_key_bytes"].s) == Some(r.value.verifyingKey)
  {
    if !j.JObj? then Err(Document(NotAnObject))
    else
      var o := j.fields;
      var publicKey :- Lift(GetStr(o, "public_key"));
      var privateKey :- Lift(GetStr(o, "private_key"));
      var signingKey :- GetHex(s, o, "signing_key_bytes");
      var verifyingKey :- GetHex(s, o, "verifying_key_bytes");
      var createdAt :- Lift(GetInt(o, "created_at"));
      Ok(UserIdentity(publicKey, privateKey, signingKey, verifyingKey, createdAt))
  }

  function Lift<T>(r: Result<T, DecodeError>): (q: Result<T, IdentityError>)
    ensures q.Ok? <==> r.Ok?
    ensures r.Ok? ==> q.value == r.value
  {
    match r
    case Ok(v) => Ok(v)
    case Err(e) => Err(Document(e))
  }

  /** The JSON form gives every field back; the key bytes survive the hex round trip. */
  lemma JsonRoundTrip(s: Suite, id: UserIdentity)
    requires HexLaws(s)
    ensures FromJson(s, ToJson(s, id)) == Ok(id)
  {
    var o := ToJson(s, id).fields;
    assert s.unhex(s.hex(id.signingKey)) == Some(id.signingKey);
    assert s.unhex(s.hex(id.verifyingKey)) == Some(id.verifyingKey);
    assert GetStr(o, "public_key") == Ok(id.publicKey);
    assert GetStr(o, "private_key") == Ok(id.privateKey);
    assert GetInt(o, "created_at") == Ok(id.createdAt);
  }

  /** The scrypt key for a password. */
  function BackupKey(s: Suite, salt: Bytes, password: string): Bytes
  {
    s.scrypt(salt, s.utf8(password))
  }

  /** `export_encrypted`: `salt` (16 bytes) and `nonce` (12 bytes) are the random tokens;
      the result is the hex of salt, nonce and ciphertext, in that order. */
  function ExportEncrypted(s: Suite, id: UserIdentity, password: string, salt: Bytes, nonce: Bytes): (blob: string)
    requires |salt| == 16 && |nonce| == 12
    ensures HexLaws(s) ==>
      && s.unhex(blob).Some?
      && |s.unhex(blob).value| >= 28
      && s.unhex(blob).value[..16] == salt
      && s.unhex(blob).value[16..28] == nonce
  {
    var plaintext := s.utf8(s.jsonDump(ToJson(s, id)));
    s.hex(salt + nonce + s.aeadSeal(BackupKey(s, salt, password), nonce, plaintext))
  }

  /** `import_encrypted`: the bytes are cut at offsets 16 and 28 with Python slicing,
      which never fails, so a short blob reaches the cipher with a short nonce. */
  function ImportEncrypted(s: Suite, blob: string, password: string): (r: Result<UserIdentity, IdentityError>)
    ensures r.Ok? ==> s.unhex(blob).Some? && |s.unhex(blob).value| >= 28
  {
    match s.unhex(blob)
    case None => Err(BadHex("encrypted_hex"))
    case Some(data) =>
      var salt := Slice(data, 0, 16);
      var nonce := Slice(data, 16, 28);
      var ciphertext := Slice(data, 28, |data|);
      if |nonce| != 12 then Err(NonceLength)
      else match s.aeadOpen(BackupKey(s, salt, password), nonce, ciphertext)
        case None => Err(DecryptionFailed)
        case Some(plaintext) =>
          match s.utf8Decode(plaintext)
          case None => Err(NotUtf8)
          case Some(text) =>
            match s.jsonLoad(text)
            case None => Err(NotJson)
            case Some(doc) => FromJson(s, doc)
  }

  /** Cutting the backup bytes at 16 and 28 gives back exactly the salt, the nonce and
      the ciphertext. */
  lemma BackupFraming(salt: Bytes, nonce: Bytes, ciphertext: Bytes)
    requires |salt| == 16 && |nonce| == 12
    ensures var data := salt + nonce + ciphertext;
            Slice(data, 0, 16) == salt && Slice(data, 16, 28) == nonce && Slice(data, 28, |data|) == ciphertext
  {
    var data := salt + nonce + ciphertext;
    assert data[..16] == salt;
    assert data[16..28] == nonce;
    assert data[28..] == ciphertext;
  }

  /** A backup imported with the password it was exported with gives the identity back. */
  lemma BackupRoundTrip(s: Suite, id: UserIdentity, password: string, salt: Bytes, nonce: Bytes)
    requires HexLaws(s) && AeadLaws(s) && Utf8Laws(s) && JsonTextLaws(s)
    requires |salt| == 16 && |nonce| == 12
    ensures ImportEncrypted(s, ExportEncrypted(s, id, password, salt, nonce), password) == Ok(id)
  {
    var plaintext := s.utf8(s.jsonDump(ToJson(s, id)));
    var ciphertext := s.aeadSeal(BackupKey(s, salt, password), nonce, plaintext);
    var data := salt + nonce + ciphertext;
    assert s.unhex(s.hex(data)) == Some(data);
    BackupFraming(salt, nonce, ciphertext);
    assert s.aeadOpen(BackupKey(s, salt, password), nonce, ciphertext) == Some(plaintext);
    assert s.utf8Decode(plaintext) == Some(s.jsonDump(ToJson(s, id)));
    assert s.jsonLoad(s.jsonDump(ToJson(s, id))) == Some(ToJson(s, id));
    JsonRoundTrip(s, id);
  }

  /** A blob shorter than salt and nonce is refused before decryption is attempted. */
  lemma ShortBackupRejected(s: Suite, blob: string, password: string)
    requires s.unhex(blob).Some? && |s.unhex(blob).value| < 28
    ensures ImportEncrypted(s, blob, password) == Err(NonceLength)
  {
  }
}
