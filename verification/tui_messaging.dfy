/** The pure-Python messaging of the terminal client: keys derived from the two public
    keys, a counter-mode key stream of SHA-256 blocks, XOR encryption and an
    HMAC-SHA256 tag over nonce and ciphertext checked before decryption. */
module TuiMessaging {
  import opened Outcomes
  import opened Text
  import opened Crypto
  import opened Json
  import TuiCore

  /** `counter.to_bytes(4, 'big')` raises `OverflowError` from this counter on. */
  const CounterLimit: nat := 0x1_0000_0000

  /** Why `encrypt` or `decrypt` raises. */
  datatype MessagingError =
    | CounterOverflow
    | NotJson
    | Document(e: DecodeError)
    | SenderMismatch
    | BadHex(field: string)
    | AuthenticationFailed
    | NotUtf8

  /** `_derive_keys`: the encryption key and the MAC key. */
  datatype MessageKeys = MessageKeys(enc: Bytes, mac: Bytes)

  const EncryptionLabel: string := "encryption"
  const AuthenticationLabel: string := "authentication"

  /** The hash input of one derived key: the base secret of the two keys, then a purpose label. */
  function KeyInput(s: Suite, senderPublicKey: string, recipientPublicKey: string, purpose: string): Bytes
    requires IsAscii(purpose)
  {
    s.sha256(s.utf8(senderPublicKey + recipientPublicKey)) + Ascii(purpose)
  }

  function DeriveKeys(s: Suite, senderPublicKey: string, recipientPublicKey: string): (k: MessageKeys)
    ensures HashLaws(s) ==> |k.enc| == 32 && |k.mac| == 32
  {
    MessageKeys(
      s.sha256(KeyInput(s, senderPublicKey, recipientPublicKey, EncryptionLabel)),
      s.sha256(KeyInput(s, senderPublicKey, recipientPublicKey, AuthenticationLabel)))
  }

  /** The keys depend on the two public keys only through their concatenation, and the two
      keys are hashes of different inputs. */
  lemma DeriveKeysSeparation(s: Suite, sender: string, recipient: string, sender': string, recipient': string)
    requires sender + recipient == sender' + recipient'
    ensures DeriveKeys(s, sender, recipient) == DeriveKeys(s, sender', recipient')
    ensures KeyInput(s, sender, recipient, EncryptionLabel) != KeyInput(s, sender, recipient, AuthenticationLabel)
  {
    var a := KeyInput(s, sender, recipient, EncryptionLabel);
    var b := KeyInput(s, sender, recipient, AuthenticationLabel);
    assert |a| != |b|;
  }

  /** One key stream block: `sha256(enc_key + nonce + counter.to_bytes(4, 'big'))`. */
  function StreamBlock(s: Suite, enc: Bytes, nonce: Bytes, counter: nat): Bytes
    requires counter < CounterLimit
  {
    s.sha256(enc + nonce + BigEndian4(counter))
  }

  /** The blocks for counters `0 .. count - 1`, concatenated. */
  function Blocks(s: Suite, enc: Bytes, nonce: Bytes, count: nat): Bytes
    requires count <= CounterLimit
  {
    if count == 0 then [] else Blocks(s, enc, nonce, count - 1) + StreamBlock(s, enc, nonce, count - 1)
  }

  /** The key stream loop entered with stream `ks` and `counter`: append blocks until
      there are at least `n` bytes. */
  function KeyStreamFrom(s: Suite, enc: Bytes, nonce: Bytes, n: nat, ks: Bytes, counter: nat): (r: Result<Bytes, MessagingError>)
    decreases CounterLimit - counter
    ensures r.Ok? ==> |r.value| >= n && ks <= r.value
  {
    if |ks| >= n then Ok(ks)
    else if counter >= CounterLimit then Err(CounterOverflow)
    else KeyStreamFrom(s, enc, nonce, n, ks + StreamBlock(s, enc, nonce, counter), counter + 1)
  }

  /** The key stream for an `n`-byte message. */
  function KeyStream(s: Suite, enc: Bytes, nonce: Bytes, n: nat): (r: Result<Bytes, MessagingError>)
    ensures r.Ok? ==> |r.value| >= n
  {
    KeyStreamFrom(s, enc, nonce, n, [], 0)
  }

  lemma {:induction false} KeyStreamFromBlocks(s: Suite, enc: Bytes, nonce: Bytes, n: nat, counter: nat)
    requires counter <= CounterLimit
    requires counter == 0 || |Blocks(s, enc, nonce, counter - 1)| < n
    decreases CounterLimit - counter
    ensures var r := KeyStreamFrom(s, enc, nonce, n, Blocks(s, enc, nonce, counter), counter);
            r.Ok? ==> exists c: nat :: counter <= c <= CounterLimit && r.value == Blocks(s, enc, nonce, c)
                                  && (c == 0 || |Blocks(s, enc, nonce, c - 1)| < n)
  {
    var ks := Blocks(s, enc, nonce, counter);
    if |ks| >= n {
    } else if counter < CounterLimit {
      assert ks + StreamBlock(s, enc, nonce, counter) == Blocks(s, enc, nonce, counter + 1);
      KeyStreamFromBlocks(s, enc, nonce, n, counter + 1);
    }
  }

  /** The key stream is the blocks for counters 0, 1, ... up to the first count that
      reaches `n` bytes: one block fewer would be too short. */
  lemma KeyStreamIsBlocks(s: Suite, enc: Bytes, nonce: Bytes, n: nat)
    ensures var r := KeyStream(s, enc, nonce, n);
            r.Ok? ==> exists c: nat :: c <= CounterLimit && r.value == Blocks(s, enc, nonce, c)
                                  && |r.value| >= n && (c == 0 || |Blocks(s, enc, nonce, c - 1)| < n)
  {
    KeyStreamFromBlocks(s, enc, nonce, n, 0);
  }

  lemma {:induction false} KeyStreamFromTotal(s: Suite, enc: Bytes, nonce: Bytes, n: nat, ks: Bytes, counter: nat)
    requires HashLaws(s) && counter <= CounterLimit && |ks| == 32 * counter
    decreases CounterLimit - counter
    ensures KeyStreamFrom(s, enc, nonce, n, ks, counter).Ok? <==> n <= 32 * CounterLimit
  {
    if |ks| < n && counter < CounterLimit {
      assert |StreamBlock(s, enc, nonce, counter)| == 32;
      KeyStreamFromTotal(s, enc, nonce, n, ks + StreamBlock(s, enc, nonce, counter), counter + 1);
    }
  }

  /** With 32-byte blocks the counter runs out only for messages over 128 GiB. */
  lemma KeyStreamTotal(s: Suite, enc: Bytes, nonce: Bytes, n: nat)
    requires HashLaws(s)
    ensures KeyStream(s, enc, nonce, n).Ok? <==> n <= 32 * CounterLimit
  {
    KeyStreamFromTotal(s, enc, nonce, n, [], 0);
  }

  /** The `while len(keystream) < len(...)` loop of `encrypt` and `decrypt`. */
  method BuildKeyStream(s: Suite, enc: Bytes, nonce: Bytes, n: nat) returns (r: Result<Bytes, MessagingError>)
    ensures r == KeyStream(s, enc, nonce, n)
  {
    var keystream: Bytes := [];
    var counter: nat := 0;
    while |keystream| < n
      invariant counter <= CounterLimit
      invariant KeyStreamFrom(s, enc, nonce, n, keystream, counter) == KeyStream(s, enc, nonce, n)
      decreases CounterLimit - counter
    {
      if counter >= CounterLimit {
        return Err(CounterOverflow);
      }
      keystream := keystream + StreamBlock(s, enc, nonce, counter);
      counter := counter + 1;
    }
    return Ok(keystream);
  }

  /** XOR of the data with the first `|data|` key stream bytes; the same function
      encrypts and decrypts. */
  function Crypt(data: Bytes, keystream: Bytes): (r: Bytes)
    requires |keystream| >= |data|
    ensures |r| == |data|
    ensures forall i :: 0 <= i < |data| ==> r[i] == data[i] ^ keystream[i]
  {
    ZipXor(data, keystream[..|data|])
  }

  /** Applying the same key stream twice gives the data back. */
  lemma CryptInvolution(data: Bytes, keystream: Bytes)
    requires |keystream| >= |data|
    ensures Crypt(Crypt(data, keystream), keystream) == data
  {
    var once := Crypt(data, keystream);
    assert once == ZipXor(data, keystream[..|data|]);
    ZipXorInvolution(data, keystream[..|data|]);
  }

  /** `message_id`: the first 16 hex digits of the SHA-256 of `message:timestamp`. */
  function MessageId(s: Suite, message: string, timestamp: int): (id: string)
    ensures HashLaws(s) && HexLaws(s) ==> |id| == 16 && forall i :: 0 <= i < 16 ==> IsHexDigit(id[i])
    ensures StartsWith(s.hex(s.sha256(s.utf8(message + ":" + IntToString(timestamp)))), id)
  {
    var digest := s.hex(s.sha256(s.utf8(message + ":" + IntToString(timestamp))));
    if |digest| <= 16 then digest else digest[..16]
  }

  /** The document `encrypt` dumps. */
  function SealedDocument(s: Suite, senderPublicKey: string, recipientPublicKey: string,
                          ciphertext: Bytes, nonce: Bytes, tag: Bytes, timestamp: int, messageId: string): Json
  {
    JObj(map[
      "sender_public_key" := JStr(senderPublicKey),
      "recipient_public_key" := JStr(recipientPublicKey),
      "ciphertext" := JStr(s.hex(ciphertext)),
      "nonce" := JStr(s.hex(nonce)),
      "mac" := JStr(s.hex(tag)),
      "timestamp" := JInt(timestamp),
      "message_id" := JStr(messageId)
    ])
  }

  /** `Messaging.encrypt` without the Rust backend, as a value: `timestamp` is the clock
      and `nonce` the 16 random bytes. The ciphertext is as long as the UTF-8 message. */
  function Sealed(s: Suite, message: string, sender: TuiCore.Identity, recipientPublicKey: string,
                  timestamp: int, nonce: Bytes): (r: Result<Json, MessagingError>)
    ensures r.Ok? <==> KeyStream(s, DeriveKeys(s, sender.publicKey, recipientPublicKey).enc, nonce, |s.utf8(message)|).Ok?
    ensures r.Ok? ==> r.value.JObj? && "ciphertext" in r.value.fields && r.value.fields["ciphertext"].JStr?
    ensures r.Ok? && HexLaws(s) ==> |r.value.fields["ciphertext"].s| == 2 * |s.utf8(message)|
  {
    var keys := DeriveKeys(s, sender.publicKey, recipientPublicKey);
    var plain := s.utf8(message);
    var keystream :- KeyStream(s, keys.enc, nonce, |plain|);
    var ciphertext := Crypt(plain, keystream);
    var tag := s.hmacSha256(keys.mac, nonce + ciphertext);
    Ok(SealedDocument(s, sender.publicKey, recipientPublicKey, ciphertext, nonce, tag,
                      timestamp, MessageId(s, message, timestamp)))
  }

  /** `Messaging.encrypt`: the JSON text of the sealed document. */
  method Encrypt(s: Suite, message: string, sender: TuiCore.Identity, recipientPublicKey: string,
                 timestamp: int, nonce: Bytes) returns (r: Result<string, MessagingError>)
    ensures r.Ok? <==> Sealed(s, message, sender, recipientPublicKey, timestamp, nonce).Ok?
    ensures r.Ok? ==> r.value == s.jsonDump(Sealed(s, message, sender, recipientPublicKey, timestamp, nonce).value)
  {
    var keys := DeriveKeys(s, sender.publicKey, recipientPublicKey);
    var plain := s.utf8(message);
    var keystream := BuildKeyStream(s, keys.enc, nonce, |plain|);
    if keystream.Err? {
      return Err(keystream.error);
    }
    var ciphertext := Crypt(plain, keystream.value);
    var tag := s.hmacSha256(keys.mac, nonce + ciphertext);
    var messageId := MessageId(s, message, timestamp);
    return Ok(s.jsonDump(SealedDocument(s, sender.publicKey, recipientPublicKey, ciphertext, nonce,
                                        tag, timestamp, messageId)));
  }

  /** `bytes.fromhex(msg_data[key])`. */
  function HexField(s: Suite, fields: map<string, Json>, key: string): (r: Result<Bytes, MessagingError>)
    ensures r.Ok? ==> key in fields && fields[key].JStr? && s.unhex(fields[key].s) == Some(r.value)
  {
    if key !in fields then Err(Document(MissingKey(key)))
    else if !fields[key].JStr? then Err(Document(WrongType(key)))
    else match s.unhex(fields[key].s)
      case None => Err(BadHex(key))
      case Some(b) => Ok(b)
  }

  /** What `decrypt` has checked before it computes any plaintext. */
  datatype Authenticated = Authenticated(enc: Bytes, nonce: Bytes, ciphertext: Bytes)

  /** The checks of `decrypt`, in order: the sender key, the three hex fields, then the
      tag over nonce and ciphertext. */
  function Authenticate(s: Suite, doc: Json, recipientPublicKey: string, senderPublicKey: string)
    : (r: Result<Authenticated, MessagingError>)
    ensures (doc.JObj? && "sender_public_key" in doc.fields && doc.fields["sender_public_key"] != JStr(senderPublicKey))
              ==> r == Err(SenderMismatch)
    ensures r.Ok? ==> doc.JObj? && "mac" in doc.fields && doc.fields["mac"].JStr? && s.unhex(doc.fields["mac"].s).Some?
    ensures r.Ok? ==> s.hmacSha256(DeriveKeys(s, senderPublicKey, recipientPublicKey).mac, r.value.nonce + r.value.ciphertext)
                      == s.unhex(doc.fields["mac"].s).value
  {
    if !doc.JObj? then Err(Document(NotAnObject))
    else if "sender_public_key" !in doc.fields then Err(Document(MissingKey("sender_public_key")))
    else if doc.fields["sender_public_key"] != JStr(senderPublicKey) then Err(SenderMismatch)
    else
      var keys := DeriveKeys(s, senderPublicKey, recipientPublicKey);
      var ciphertext :- HexField(s, doc.fields, "ciphertext");
      var nonce :- HexField(s, doc.fields, "nonce");
      var received :- HexField(s, doc.fields, "mac");
      if s.hmacSha256(keys.mac, nonce + ciphertext) != received then Err(AuthenticationFailed)
      else Ok(Authenticated(keys.enc, nonce, ciphertext))
  }

  /** `Messaging.decrypt` on a parsed document, as a value. */
  function OpenedDocument(s: Suite, doc: Json, recipientPublicKey: string, senderPublicKey: string)
    : (r: Result<string, MessagingError>)
    ensures Authenticate(s, doc, recipientPublicKey, senderPublicKey).Err? ==>
              r == Err(Authenticate(s, doc, recipientPublicKey, senderPublicKey).error)
  {
    var a :- Authenticate(s, doc, recipientPublicKey, senderPublicKey);
    var keystream :- KeyStream(s, a.enc, a.nonce, |a.ciphertext|);
    match s.utf8Decode(Crypt(a.ciphertext, keystream))
    case None => Err(NotUtf8)
    case Some(text) => Ok(text)
  }

  /** `Messaging.decrypt`: `recipient` decrypts a message it expects from the holder of
      `senderPublicKey`. */
  function Opened(s: Suite, encrypted: string, recipient: TuiCore.Identity, senderPublicKey: string)
    : (r: Result<string, MessagingError>)
    ensures s.jsonLoad(encrypted).None? ==> r == Err(NotJson)
  {
    match s.jsonLoad(encrypted)
    case None => Err(NotJson)
    case Some(doc) => OpenedDocument(s, doc, recipient.publicKey, senderPublicKey)
  }

  method Decrypt(s: Suite, encrypted: string, recipient: TuiCore.Identity, senderPublicKey: string)
    returns (r: Result<string, MessagingError>)
    ensures r == Opened(s, encrypted, recipient, senderPublicKey)
  {
    var loaded := s.jsonLoad(encrypted);
    if loaded.None? {
      return Err(NotJson);
    }
    var a := Authenticate(s, loaded.value, recipient.publicKey, senderPublicKey);
    if a.Err? {
      return Err(a.error);
    }
    var keystream := BuildKeyStream(s, a.value.enc, a.value.nonce, |a.value.ciphertext|);
    if keystream.Err? {
      return Err(keystream.error);
    }
    var plain := Crypt(a.value.ciphertext, keystream.value);
    var text := s.utf8Decode(plain);
    if text.None? {
      return Err(NotUtf8);
    }
    return Ok(text.value);
  }

  /** A sealed document passes every check of `decrypt` for the key pair it was made
      with. */
  lemma SealedDocumentAuthenticates(s: Suite, senderPublicKey: string, recipientPublicKey: string,
                                    ciphertext: Bytes, nonce: Bytes, timestamp: int, messageId: string)
    requires HexLaws(s)
    ensures var keys := DeriveKeys(s, senderPublicKey, recipientPublicKey);
            var tag := s.hmacSha256(keys.mac, nonce + ciphertext);
            var doc := SealedDocument(s, senderPublicKey, recipientPublicKey, ciphertext, nonce, tag, timestamp, messageId);
            Authenticate(s, doc, recipientPublicKey, senderPublicKey) == Ok(Authenticated(keys.enc, nonce, ciphertext))
  {
    var keys := DeriveKeys(s, senderPublicKey, recipientPublicKey);
    var tag := s.hmacSha256(keys.mac, nonce + ciphertext);
    var fields := SealedDocument(s, senderPublicKey, recipientPublicKey, ciphertext, nonce, tag, timestamp, messageId).fields;
    assert s.unhex(s.hex(ciphertext)) == Some(ciphertext);
    assert s.unhex(s.hex(nonce)) == Some(nonce);
    assert s.unhex(s.hex(tag)) == Some(tag);
    assert HexField(s, fields, "ciphertext") == Ok(ciphertext);
    assert HexField(s, fields, "nonce") == Ok(nonce);
    assert HexField(s, fields, "mac") == Ok(tag);
  }

  /** The recipient named at encryption decrypts the message back, given the sender's
      public key. */
  lemma EncryptDecryptRoundTrip(s: Suite, message: string, sender: TuiCore.Identity, recipient: TuiCore.Identity,
                                timestamp: int, nonce: Bytes)
    requires HexLaws(s) && Utf8Laws(s) && JsonTextLaws(s)
    requires Sealed(s, message, sender, recipient.publicKey, timestamp, nonce).Ok?
    ensures var doc := Sealed(s, message, sender, recipient.publicKey, timestamp, nonce).value;
            Opened(s, s.jsonDump(doc), recipient, sender.publicKey) == Ok(message)
  {
    var keys := DeriveKeys(s, sender.publicKey, recipient.publicKey);
    var plain := s.utf8(message);
    var keystream := KeyStream(s, keys.enc, nonce, |plain|).value;
    var ciphertext := Crypt(plain, keystream);
    var doc := Sealed(s, message, sender, recipient.publicKey, timestamp, nonce).value;
    assert s.jsonLoad(s.jsonDump(doc)) == Some(doc);
    SealedDocumentAuthenticates(s, sender.publicKey, recipient.publicKey, ciphertext, nonce,
                                timestamp, MessageId(s, message, timestamp));
    CryptInvolution(plain, keystream);
    assert s.utf8Decode(plain) == Some(message);
  }

  /** A tag that does not match nonce and ciphertext is refused before the key stream is
      built, so no plaintext is computed and no counter error can occur. */
  lemma TamperedTagRejected(s: Suite, doc: Json, recipientPublicKey: string, senderPublicKey: string,
                            ciphertext: Bytes, nonce: Bytes, received: Bytes)
    requires doc.JObj? && "sender_public_key" in doc.fields && doc.fields["sender_public_key"] == JStr(senderPublicKey)
    requires HexField(s, doc.fields, "ciphertext") == Ok(ciphertext)
    requires HexField(s, doc.fields, "nonce") == Ok(nonce)
    requires HexField(s, doc.fields, "mac") == Ok(received)
    requires s.hmacSha256(DeriveKeys(s, senderPublicKey, recipientPublicKey).mac, nonce + ciphertext) != received
    ensures OpenedDocument(s, doc, recipientPublicKey, senderPublicKey) == Err(AuthenticationFailed)
  {
    assert Authenticate(s, doc, recipientPublicKey, senderPublicKey) == Err(AuthenticationFailed);
  }

  /** `decrypt` never reads `timestamp` or `message_id`: changing either leaves the outcome
      unchanged. */
  lemma IgnoresTimestampAndId(s: Suite, fields: map<string, Json>, key: string, v: Json,
                              recipientPublicKey: string, senderPublicKey: string)
    requires key == "timestamp" || key == "message_id"
    ensures OpenedDocument(s, JObj(fields[key := v]), recipientPublicKey, senderPublicKey)
            == OpenedDocument(s, JObj(fields), recipientPublicKey, senderPublicKey)
  {
    var f' := fields[key := v];
    forall k | k in ["sender_public_key", "ciphertext", "nonce", "mac"]
      ensures (k in f') == (k in fields) && (k in fields ==> f'[k] == fields[k])
    {
    }
    assert HexField(s, f', "ciphertext") == HexField(s, fields, "ciphertext");
    assert HexField(s, f', "nonce") == HexField(s, fields, "nonce");
    assert HexField(s, f', "mac") == HexField(s, fields, "mac");
    assert Authenticate(s, JObj(f'), recipientPublicKey, senderPublicKey)
        == Authenticate(s, JObj(fields), recipientPublicKey, senderPublicKey);
  }
}
