/**
 * Fernet over pickle, as the facial module uses them: an authenticated cipher whose
 * tokens open only under the key that sealed them. The byte-level algorithm is not
 * modelled; a token records the key and the serialised encoding it protects.
 */
module Cifra {
  import opened Wrappers

  type Bytes = seq<bv8>

  /** A face encoding: the vector of reals produced by the embedding library. */
  type Encoding = seq<real>

  /** A Fernet instance built from a key. */
  datatype Fernet = Fernet(key: Bytes)

  /** Stored ciphertext: a token sealed under some key, or bytes that are no valid token. */
  datatype Token = Sealed(key: Bytes, payload: Encoding) | Raw(bytes: Bytes)

  /** Python truthiness of the stored binary field: both absent and empty bytes are false. */
  predicate Present(t: Option<Token>) {
    t.Some? && t.value != Raw([])
  }

  /** `cipher.encrypt(pickle.dumps(e))`. */
  function Encrypt(f: Fernet, e: Encoding): (t: Token)
    ensures Present(Some(t))
  {
    Sealed(f.key, e)
  }

  /**
   * `pickle.loads(cipher.decrypt(t))`, None where either raises: a token opens exactly
   * when it was sealed under this key, and then to what was sealed.
   */
  function Decrypt(f: Fernet, t: Token): (r: Option<Encoding>)
    ensures forall e :: r == Some(e) <==> t == Encrypt(f, e)
  {
    if t.Sealed? && t.key == f.key then Some(t.payload) else None
  }

  /** A token sealed under another key does not open. */
  lemma WrongKeyFails(f: Fernet, g: Fernet, e: Encoding)
    requires f.key != g.key
    ensures Decrypt(g, Encrypt(f, e)) == None
  {
  }
}
