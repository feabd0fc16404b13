/** The cryptographic and encoding primitives the modelled code calls into, as an
    abstract suite of functions. Nothing here implements a primitive: every model takes
    a `Suite` as a parameter, and the properties that need a fact about a primitive
    require the corresponding law below. */
module Crypto {
  import opened Outcomes
  import opened Json

  type byte = bv8
  type Bytes = seq<byte>

  datatype Suite = Suite(
    sha256: Bytes -> Bytes,
    blake2b16: Bytes -> Bytes,          // BLAKE2b with a 16-byte digest
    blake3: Bytes -> Bytes,
    hmacSha256: (Bytes, Bytes) -> Bytes, // (key, message)
    hex: Bytes -> string,               // lower-case hex encoding
    unhex: string -> Option<Bytes>,     // `bytes.fromhex` / `hex::decode`; None on bad input
    bs58: Bytes -> string,
    utf8: string -> Bytes,
    utf8Decode: Bytes -> Option<string>,
    jsonDump: Json -> string,
    jsonLoad: string -> Option<Json>,
    edPublic: Bytes -> Bytes,           // Ed25519 verifying key of a 32-byte secret key
    edSign: (Bytes, Bytes) -> Bytes,    // (secret key, message)
    edVerify: (Bytes, Bytes, Bytes) -> bool, // (verifying key, message, signature)
    edValidKey: Bytes -> bool,          // `VerifyingKey::from_bytes` accepts the point
    scrypt: (Bytes, Bytes) -> Bytes,    // (salt, password) to a 32-byte key
    aeadSeal: (Bytes, Bytes, Bytes) -> Bytes,          // ChaCha20-Poly1305 (key, nonce, plaintext)
    aeadOpen: (Bytes, Bytes, Bytes) -> Option<Bytes>   // (key, nonce, ciphertext); None if tampered
  )

  predicate IsHexDigit(c: char) {
    '0' <= c <= '9' || 'a' <= c <= 'f'
  }

  /** Digest lengths: 32 bytes for SHA-256, BLAKE3 and HMAC-SHA256, 16 for the BLAKE2b
      variant. */
  ghost predicate HashLaws(s: Suite) {
    && (forall b :: |s.sha256(b)| == 32)
    && (forall b :: |s.blake2b16(b)| == 16)
    && (forall b :: |s.blake3(b)| == 32)
    && (forall k, m :: |s.hmacSha256(k, m)| == 32)
  }

  /** Hex encoding doubles the length, uses lower-case hex digits and decodes back. */
  ghost predicate HexLaws(s: Suite) {
    forall b :: |s.hex(b)| == 2 * |b|
             && (forall i :: 0 <= i < |s.hex(b)| ==> IsHexDigit(s.hex(b)[i]))
             && s.unhex(s.hex(b)) == Some(b)
  }

  ghost predicate Utf8Laws(s: Suite) {
    forall t :: s.utf8Decode(s.utf8(t)) == Some(t)
  }

  ghost predicate JsonTextLaws(s: Suite) {
    forall j :: s.jsonLoad(s.jsonDump(j)) == Some(j)
  }

  /** Ed25519 correctness: a verifying key derived from a 32-byte secret key is a valid
      32-byte point, signatures are 64 bytes and verify under that key. */
  ghost predicate SignatureLaws(s: Suite) {
    && (forall sk :: |sk| == 32 ==> |s.edPublic(sk)| == 32 && s.edValidKey(s.edPublic(sk)))
    && (forall sk, m :: |sk| == 32 ==> |s.edSign(sk, m)| == 64 && s.edVerify(s.edPublic(sk), m, s.edSign(sk, m)))
  }

  ghost predicate AeadLaws(s: Suite) {
    forall k, n, p :: s.aeadOpen(k, n, s.aeadSeal(k, n, p)) == Some(p)
  }

  /** Hex encoding is injective, as a consequence of decoding it back. */
  lemma HexInjective(s: Suite, a: Bytes, b: Bytes)
    requires HexLaws(s)
    requires s.hex(a) == s.hex(b)
    ensures a == b
  {
    assert s.unhex(s.hex(a)) == Some(a);
    assert s.unhex(s.hex(b)) == Some(b);
  }

  lemma Utf8Injective(s: Suite, a: string, b: string)
    requires Utf8Laws(s)
    requires s.utf8(a) == s.utf8(b)
    ensures a == b
  {
    assert s.utf8Decode(s.utf8(a)) == Some(a);
    assert s.utf8Decode(s.utf8(b)) == Some(b);
  }

  predicate IsAscii(t: string) {
    forall i :: 0 <= i < |t| ==> t[i] as int < 128
  }

  /** The bytes of an ASCII literal such as `b"encryption"`. */
  function Ascii(t: string): (r: Bytes)
    requires IsAscii(t)
    ensures |r| == |t|
  {
    seq(|t|, i requires 0 <= i < |t| => t[i] as int as byte)
  }

  /** `n.to_bytes(4, 'big')`, defined for the values that method accepts. */
  function BigEndian4(n: nat): (r: Bytes)
    requires n < 0x1_0000_0000
    ensures |r| == 4
  {
    var w := n as bv32;
    [(w >> 24) as byte, ((w >> 16) & 0xFF) as byte, ((w >> 8) & 0xFF) as byte, (w & 0xFF) as byte]
  }

  function BigEndianValue(b: Bytes): bv32
    requires |b| == 4
  {
    (b[0] as bv32 << 24) | (b[1] as bv32 << 16) | (b[2] as bv32 << 8) | b[3] as bv32
  }

  /** The four-byte big-endian encoding decodes back to the counter, so distinct counters
      give distinct hash inputs. */
  lemma BigEndian4Value(n: nat)
    requires n < 0x1_0000_0000
    ensures BigEndianValue(BigEndian4(n)) == n as bv32
  {
  }

  /** `bytes(a ^ b for a, b in zip(x, y))`: as long as the shorter input. */
  function ZipXor(x: Bytes, y: Bytes): (r: Bytes)
    ensures |r| == if |x| <= |y| then |x| else |y|
    ensures forall i :: 0 <= i < |r| ==> r[i] == x[i] ^ y[i]
  {
    var n := if |x| <= |y| then |x| else |y|;
    seq(n, i requires 0 <= i < n => x[i] ^ y[i])
  }

  /** XOR with the same key stream twice gives the input back. */
  lemma ZipXorInvolution(x: Bytes, k: Bytes)
    requires |k| >= |x|
    ensures ZipXor(ZipXor(x, k), k) == x
  {
    var once := ZipXor(x, k);
    var twice := ZipXor(once, k);
    forall i | 0 <= i < |x| ensures twice[i] == x[i] {
      assert twice[i] == (x[i] ^ k[i]) ^ k[i];
    }
  }
}
