/** The public identity of a participant: a verification key with a
    nickname and an icon reference for display. Identity is the key alone. */
module Identity {
  import opened Types

  /** The serialised bytes of a verification key. */
  type Key = seq<byte>

  /** A public identity; each field is a C# reference that may be null. */
  datatype UserID = UserID(signPublicKey: Option<Key>, nickname: Option<string>, iconCid: Option<string>)
  {
    /** `Equals(UserID other)`: false whenever either key is null, so a
        UserID without a key is not even equal to itself. */
    predicate Equals(other: Option<UserID>)
      ensures Equals(other) <==> other.Some? && signPublicKey.Some? && other.value.signPublicKey == signPublicKey
    {
      if other.None? || other.value.signPublicKey.None? || signPublicKey.None? then false
      else signPublicKey.value == other.value.signPublicKey.value
    }

    /** `Equals(object obj)`, which compares with `obj as UserID`. */
    predicate EqualsObject(obj: Object)
      ensures !obj.UserIDObject? ==> !EqualsObject(obj)
      ensures obj.UserIDObject? ==> (EqualsObject(obj) <==> Equals(Some(obj.id)))
    {
      Equals(if obj.UserIDObject? then Some(obj.id) else None)
    }

    /** `FingerprintBytes`: the fingerprint of the public key, computed by
        `keyFingerprint`, which stands for the cryptographic helper. */
    function FingerprintBytes(keyFingerprint: Option<Key> -> seq<byte>): (r: seq<byte>)
      ensures r == keyFingerprint(ToPublicKey(Some(this)))
    {
      keyFingerprint(signPublicKey)
    }
  }

  /** What an arbitrary object looks like to `obj as UserID`. */
  datatype Object = UserIDObject(id: UserID) | OtherObject

  /** `left == right` through the default equality comparer: two nulls are
      equal, null and non-null are not, and otherwise `Equals` decides. */
  predicate OperatorEquals(left: Option<UserID>, right: Option<UserID>)
    ensures left.None? || right.None? ==> (OperatorEquals(left, right) <==> left.None? && right.None?)
    ensures OperatorEquals(left, right) && left.Some? ==> left.value.signPublicKey.Some? && left.value.signPublicKey == right.value.signPublicKey
  {
    if left.None? then right.None? else left.value.Equals(right)
  }

  // ---------------------------------------------------------------
  // Conversions

  /** The implicit conversion to a public key. */
  function ToPublicKey(u: Option<UserID>): (k: Option<Key>)
    ensures k.Some? <==> u.Some? && u.value.signPublicKey.Some?
    ensures k.Some? ==> k == u.value.signPublicKey
  {
    if u.None? then None else u.value.signPublicKey
  }

  /** The implicit conversion to a string: the nickname. */
  function ToNickname(u: Option<UserID>): (name: Option<string>)
    ensures name.Some? <==> u.Some? && u.value.nickname.Some?
    ensures name.Some? ==> name == u.value.nickname
  {
    if u.None? then None else u.value.nickname
  }

  /** The explicit conversion to a content identifier, decoding the icon
      reference with `decode`, which stands for `Cid.Decode`. */
  function ToCid<C>(u: Option<UserID>, decode: string -> C): (c: Option<C>)
    ensures c.Some? <==> u.Some? && u.value.iconCid.Some?
    ensures c.Some? ==> c.value == decode(u.value.iconCid.value)
  {
    if u.None? || u.value.iconCid.None? then None else Some(decode(u.value.iconCid.value))
  }

  // ---------------------------------------------------------------
  // Hash code

  /** The runtime's `HashCode` accumulator: a per-process seed, the mixing
      step of `Add` and the finalisation of `ToHashCode`. */
  datatype HashCodeAlgorithm = HashCodeAlgorithm(seed: int, add: (int, byte) -> int, finish: int -> int)

  /** The accumulator after adding `bytes` in order, starting from `h`. */
  function Fold(alg: HashCodeAlgorithm, h: int, bytes: seq<byte>): int
  {
    if bytes == [] then h else alg.add(Fold(alg, h, bytes[..|bytes| - 1]), bytes[|bytes| - 1])
  }

  /** The hash code of a UserID: the key's bytes folded in order; a null
      key makes `GetHashCode` dereference null. */
  function HashOf(u: UserID, alg: HashCodeAlgorithm): (r: Result<int>)
    ensures r.Ok? <==> u.signPublicKey.Some?
    ensures r.Err? ==> r.error == NullReference
  {
    if u.signPublicKey.None? then Err(NullReference)
    else Ok(alg.finish(Fold(alg, alg.seed, u.signPublicKey.value)))
  }

  /** `GetHashCode()`, the loop over the key's bytes. */
  method GetHashCode(u: UserID, alg: HashCodeAlgorithm) returns (r: Result<int>)
    ensures r == HashOf(u, alg)
  {
    if u.signPublicKey.None? {
      return Err(NullReference);
    }
    var bytes := u.signPublicKey.value;
    var hc := alg.seed;
    var i := 0;
    while i < |bytes|
      invariant 0 <= i <= |bytes|
      invariant hc == Fold(alg, alg.seed, bytes[..i])
    {
      assert bytes[..i + 1][..i] == bytes[..i];
      hc := alg.add(hc, bytes[i]);
      i := i + 1;
    }
    assert bytes[..i] == bytes;
    r := Ok(alg.finish(hc));
  }

  // ---------------------------------------------------------------
  // Properties

  /** With both keys present, equality is equality of the keys. */
  lemma EqualsIffSameKey(u: UserID, v: UserID)
    requires u.signPublicKey.Some? && v.signPublicKey.Some?
    ensures u.Equals(Some(v)) <==> u.signPublicKey == v.signPublicKey
  {
  }

  /** A null key, or a null argument, is never equal to anything. */
  lemma NullKeyNeverEqual(u: UserID, other: Option<UserID>)
    requires u.signPublicKey.None? || other.None? || other.value.signPublicKey.None?
    ensures !u.Equals(other)
  {
  }

  /** Equality is symmetric and transitive, and reflexive exactly on
      identities that have a key. */
  lemma EqualsIsPartialEquivalence(u: UserID, v: UserID, w: UserID)
    ensures u.Equals(Some(u)) <==> u.signPublicKey.Some?
    ensures u.Equals(Some(v)) <==> v.Equals(Some(u))
    ensures u.Equals(Some(v)) && v.Equals(Some(w)) ==> u.Equals(Some(w))
  {
  }

  /** Nickname and icon never affect equality. */
  lemma EqualsIgnoresPresentation(u: UserID, v: UserID, n: Option<string>, c: Option<string>, m: Option<string>, d: Option<string>)
    ensures u.(nickname := n, iconCid := c).Equals(Some(v.(nickname := m, iconCid := d))) == u.Equals(Some(v))
  {
  }

  /** `Equals(object)` is false for anything that is not a UserID. */
  lemma EqualsObjectNonUserID(u: UserID)
    ensures !u.EqualsObject(OtherObject)
  {
  }

  /** `==` on two nulls is true, on null and non-null false, and otherwise `Equals`. */
  lemma OperatorEqualsCases(left: Option<UserID>, right: Option<UserID>)
    ensures left.None? && right.None? ==> OperatorEquals(left, right)
    ensures left.None? != right.None? ==> !OperatorEquals(left, right)
    ensures left.Some? && right.Some? ==> (OperatorEquals(left, right) <==> left.value.Equals(right))
  {
  }

  /** Equal identities have equal hash codes, and the hash code exists
      exactly when the key does. */
  lemma HashConsistentWithEquals(u: UserID, v: UserID, alg: HashCodeAlgorithm)
    ensures HashOf(u, alg).Ok? <==> u.signPublicKey.Some?
    ensures u.Equals(Some(v)) ==> HashOf(u, alg) == HashOf(v, alg)
  {
  }

  /** The fingerprint bytes depend only on the key: identities differing
      only in nickname or icon give identical bytes. */
  lemma FingerprintBytesOnlyKey(u: UserID, v: UserID, keyFingerprint: Option<Key> -> seq<byte>)
    requires u.signPublicKey == v.signPublicKey
    ensures u.FingerprintBytes(keyFingerprint) == v.FingerprintBytes(keyFingerprint)
  {
  }

  /** Converting a null UserID gives null throughout; the icon conversion
      is null whenever the icon reference is. */
  lemma ConversionsOfNull<C>(u: Option<UserID>, decode: string -> C)
    ensures u.None? ==> ToPublicKey(u).None? && ToNickname(u).None? && ToCid(u, decode).None?
    ensures u.Some? && u.value.iconCid.None? ==> ToCid(u, decode).None?
    ensures u.Some? ==> ToPublicKey(u) == u.value.signPublicKey && ToNickname(u) == u.value.nickname
  {
  }
}
