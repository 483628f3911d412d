/**
 The API credential at rest (src/utils/secret.rs): either the cleartext
 token or its ciphertext. The authenticated shared-key cipher is not
 modelled; it is a pair of functions handed in as a `Cipher`, and the one
 property the code relies on — decrypting with the same key what was
 encrypted with it gives the cleartext back — is the hypothesis
 `RoundTrips`, stated where it is used.
 */
module Secrets {
  import opened Wrappers

  /** The API token. */
  datatype Key = Key(token: string)

  /** The process-local symmetric key, 32 bytes in the source. */
  datatype SharedKey = SharedKey(bytes: seq<bv8>)

  datatype Secret = Unencrypted(key: Key) | Encrypted(bytes: seq<bv8>)

  /**
   Encryption of a token and decryption of bytes under a shared key;
   decryption yields `None` where the bytes fail to deserialise or to
   authenticate.
   */
  datatype Cipher = Cipher(seal: (SharedKey, Key) -> seq<bv8>, unseal: (SharedKey, seq<bv8>) -> Option<Key>)

  /**
   The cipher gives back what it encrypted when the key is the same. Only
   this round trip is assumed; that a tampered ciphertext or a wrong key
   fails to decrypt is not.
   */
  ghost predicate RoundTrips(c: Cipher) {
    forall k: SharedKey, t: Key {:trigger c.seal(k, t)} :: c.unseal(k, c.seal(k, t)) == Some(t)
  }

  /** What `decrypt` does where the source unwraps a failed decryption and panics. */
  datatype CryptoError = DecryptionFailed

  /** `Secret::encrypt`: a cleartext becomes ciphertext; a ciphertext is returned as it is. */
  function Encrypt(s: Secret, key: SharedKey, c: Cipher): (r: Secret)
    ensures r.Encrypted?
    ensures s.Encrypted? ==> r == s
    ensures s.Unencrypted? ==> r.bytes == c.seal(key, s.key)
  {
    match s
    case Unencrypted(cleartext) => Encrypted(c.seal(key, cleartext))
    case _ => s
  }

  /**
   `Secret::decrypt`: a ciphertext becomes the cleartext it decrypts to,
   or fails where the source panics; a cleartext is returned as it is.
   */
  function Decrypt(s: Secret, key: SharedKey, c: Cipher): (r: Result<Secret, CryptoError>)
    ensures s.Unencrypted? ==> r == Success(s)
    ensures r.Success? ==> r.value.Unencrypted?
    ensures s.Encrypted? ==> (r.Failure? <==> c.unseal(key, s.bytes).None?)
    ensures s.Encrypted? && c.unseal(key, s.bytes).Some? ==> r == Success(Unencrypted(c.unseal(key, s.bytes).value))
  {
    match s
    case Encrypted(bytes) =>
      (match c.unseal(key, bytes)
       case None => Failure(DecryptionFailed)
       case Some(cleartext) => Success(Unencrypted(cleartext)))
    case _ => Success(s)
  }

  /** Encrypting twice is encrypting once. */
  lemma EncryptIdempotent(s: Secret, key: SharedKey, c: Cipher)
    ensures Encrypt(Encrypt(s, key, c), key, c) == Encrypt(s, key, c)
  {
  }

  /** Decrypting what decrypted successfully changes nothing more. */
  lemma DecryptIdempotent(s: Secret, key: SharedKey, c: Cipher)
    ensures Decrypt(s, key, c).Success? ==>
      Decrypt(Decrypt(s, key, c).value, key, c) == Decrypt(s, key, c)
  {
  }

  /** With the same key, decryption undoes encryption, for every token including the empty one. */
  lemma RoundTrip(t: Key, key: SharedKey, c: Cipher)
    requires RoundTrips(c)
    ensures Decrypt(Encrypt(Unencrypted(t), key, c), key, c) == Success(Unencrypted(t))
  {
    assert c.unseal(key, c.seal(key, t)) == Some(t);
  }
}
