/**
 The versioned secret envelope: base64url of
     [1 byte version][12 bytes nonce][ciphertext and 16-byte tag].
 AES-GCM itself is a parameter: a pair of functions, with the two facts the envelope
 relies on stated as predicates.
 */
module Envelope {
  import opened Wrappers
  import opened Base64Url

  const VERSION: Byte := 1
  const NONCE_LENGTH := 12
  const TAG_LENGTH := 16
  const KEY_LENGTH := 32

  datatype Aead = Aead(seal: (Bytes, Bytes, Bytes) -> Bytes, open: (Bytes, Bytes, Bytes) -> Option<Bytes>) {
    /** Sealing adds the tag, and opening undoes it. */
    ghost predicate Correct() {
      forall k, n, p :: |seal(k, n, p)| == |p| + TAG_LENGTH && open(k, n, seal(k, n, p)) == Some(p)
    }

    /** Nothing opens under the key except what was sealed under it, with the nonce it was sealed with. */
    ghost predicate Unforgeable(key: Bytes, issued: seq<Sealing>) {
      forall n, c, p :: open(key, n, c) == Some(p) ==> c == seal(key, n, p) && Sealing(n, p) in issued
    }

    /** And what was sealed does open. */
    ghost predicate Opens(key: Bytes, issued: seq<Sealing>) {
      forall s :: s in issued ==>
        && |seal(key, s.nonce, s.plaintext)| == |s.plaintext| + TAG_LENGTH
        && open(key, s.nonce, seal(key, s.nonce, s.plaintext)) == Some(s.plaintext)
    }
  }

  /** One use of the key, with the nonce drawn for it. */
  datatype Sealing = Sealing(nonce: Bytes, plaintext: Bytes)

  datatype CryptoError = InvalidKey | BadBase64 | TooShort | UnsupportedVersion(version: Byte) | InvalidTag

  function Layout(nonce: Bytes, ciphertext: Bytes): Bytes {
    [VERSION] + nonce + ciphertext
  }

  function Encrypt(aead: Aead, key: Bytes, nonce: Bytes, plaintext: Bytes): Result<string, CryptoError>
    requires |nonce| == NONCE_LENGTH
  {
    if |key| != KEY_LENGTH then Err(InvalidKey)
    else Ok(Encode(Layout(nonce, aead.seal(key, nonce, plaintext))))
  }

  function Decrypt(aead: Aead, key: Bytes, envelope: string): Result<Bytes, CryptoError> {
    if |key| != KEY_LENGTH then Err(InvalidKey)
    else match Decode(envelope)
      case None => Err(BadBase64)
      case Some(blob) =>
        if |blob| < 1 + NONCE_LENGTH + TAG_LENGTH then Err(TooShort)
        else if blob[0] != VERSION then Err(UnsupportedVersion(blob[0]))
        else match aead.open(key, blob[1..1 + NONCE_LENGTH], blob[1 + NONCE_LENGTH..])
          case None => Err(InvalidTag)
          case Some(plaintext) => Ok(plaintext)
  }

  lemma DecryptUndoesEncrypt(aead: Aead, key: Bytes, nonce: Bytes, plaintext: Bytes)
    requires aead.Correct()
    requires |key| == KEY_LENGTH && |nonce| == NONCE_LENGTH
    ensures Encrypt(aead, key, nonce, plaintext).Ok?
    ensures Decrypt(aead, key, Encrypt(aead, key, nonce, plaintext).value) == Ok(plaintext)
  {
    var ciphertext := aead.seal(key, nonce, plaintext);
    var blob := Layout(nonce, ciphertext);
    RoundTrip(blob);
    assert |ciphertext| == |plaintext| + TAG_LENGTH;
    assert blob[1..1 + NONCE_LENGTH] == nonce && blob[1 + NONCE_LENGTH..] == ciphertext;
  }

  /** The envelope carries the very bytes of this use of the key. */
  ghost predicate Carries(aead: Aead, key: Bytes, envelope: string, s: Sealing) {
    |s.nonce| == NONCE_LENGTH && Decode(envelope) == Some(Layout(s.nonce, aead.seal(key, s.nonce, s.plaintext)))
  }

  /** Every envelope that opens carries the bytes of something the hub sealed, and opens to that. */
  lemma OnlyIssuedOpens(aead: Aead, key: Bytes, issued: seq<Sealing>, envelope: string) returns (s: Sealing)
    requires aead.Unforgeable(key, issued)
    requires Decrypt(aead, key, envelope).Ok?
    ensures s in issued && Decrypt(aead, key, envelope) == Ok(s.plaintext) && Carries(aead, key, envelope, s)
  {
    var blob := Decode(envelope).value;
    var nonce := blob[1..1 + NONCE_LENGTH];
    var ciphertext := blob[1 + NONCE_LENGTH..];
    s := Sealing(nonce, aead.open(key, nonce, ciphertext).value);
    assert blob == Layout(nonce, ciphertext);
  }

  lemma CarriedOpens(aead: Aead, key: Bytes, issued: seq<Sealing>, envelope: string, s: Sealing)
    requires |key| == KEY_LENGTH && aead.Opens(key, issued) && s in issued && Carries(aead, key, envelope, s)
    ensures Decrypt(aead, key, envelope) == Ok(s.plaintext) && |envelope| > 0
  {
    var ciphertext := aead.seal(key, s.nonce, s.plaintext);
    var blob := Layout(s.nonce, ciphertext);
    assert blob[1..1 + NONCE_LENGTH] == s.nonce && blob[1 + NONCE_LENGTH..] == ciphertext;
  }

  /** Any other version byte, and any blob without room for nonce and tag, is refused before opening. */
  lemma ForeignEnvelopesAreRefused(aead: Aead, key: Bytes, blob: Bytes)
    requires |key| == KEY_LENGTH
    ensures |blob| < 29 ==> Decrypt(aead, key, Encode(blob)) == Err(TooShort)
    ensures |blob| >= 29 && blob[0] != 1 ==> Decrypt(aead, key, Encode(blob)) == Err(UnsupportedVersion(blob[0]))
  {
    RoundTrip(blob);
  }
}
