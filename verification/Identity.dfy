/** Device identities and the identifier grammars.

    An Ed25519 public key is represented by the base32 text of its digest, which is
    what the Device ID shows (the digest is taken to be injective); a signature is
    represented by who made it over what (it cannot be forged or moved). */
module Identity {

  type Key = string

  predicate ValidKey(key: Key) {
    |key| == 32 && forall i | 0 <= i < |key| :: 'a' <= key[i] <= 'z' || '2' <= key[i] <= '7'
  }

  function DeviceID(key: Key): string {
    "device-" + key
  }

  lemma DeviceIDInjective(a: Key, b: Key)
    requires DeviceID(a) == DeviceID(b)
    ensures a == b
  {
    assert a == DeviceID(a)[7..] && b == DeviceID(b)[7..];
  }

  predicate Slug(c: char) {
    c == '-' || 'a' <= c <= 'z' || '0' <= c <= '9'
  }

  /** Lower-case letters, digits and inner hyphens, of bounded length. */
  predicate ValidIdentifier(value: string, longest: nat) {
    && 3 <= |value| <= longest
    && value[0] != '-' && value[|value| - 1] != '-'
    && forall i | 0 <= i < |value| :: Slug(value[i])
  }

  /** A lower-case letter, a digit or a hyphen, by its code. */
  predicate PlainChar(code: int) {
    97 <= code <= 122 || 48 <= code <= 57 || code == 45
  }

  lemma IdentifiersMean(value: string, longest: nat)
    ensures ValidIdentifier(value, longest) <==>
            && 3 <= |value| <= longest && (forall i | 0 <= i < |value| :: PlainChar(value[i] as int))
            && value[0] as int != 45 && value[|value| - 1] as int != 45
  {
    assert forall c: char :: Slug(c) <==> PlainChar(c as int);
  }

  /** The 32 letters and digits of the base32 alphabet (RFC 4648, section 6), in lower case. */
  lemma KeysMean(key: Key)
    ensures ValidKey(key) <==> |key| == 32 && forall i | 0 <= i < |key| :: 97 <= key[i] as int <= 122 || 50 <= key[i] as int <= 55
  {
  }

  lemma DeviceIDsAreIdentifiers(key: Key)
    requires ValidKey(key)
    ensures ValidIdentifier(DeviceID(key), 64) && ValidIdentifier(DeviceID(key), 96)
  {
    var id := DeviceID(key);
    assert id[|id| - 1] == key[31];
    forall i | 0 <= i < |id|
      ensures Slug(id[i])
    {
      if i >= 7 {
        assert id[i] == key[i - 7];
      }
    }
  }

  /** Who signed which message, or text that does not decode to a signature. */
  datatype Signature<+M> = SignedBy(key: Key, message: M) | Undecodable(text: string)

  predicate Verifies<M(==)>(key: Key, message: M, signature: Signature<M>) {
    signature == SignedBy(key, message)
  }
}
