/** Fingerprints: a type label and digest bytes, used to tell whether two
    datasets are the same without exposing them. */
module Fingerprints {
  import opened Types
  import Identity
  import Base64

  /** `Type` and `FPBytes`; both are null in a default-constructed fingerprint. */
  datatype Fingerprint = Fingerprint(typeName: Option<string>, fpBytes: Option<seq<byte>>)

  /** `new Fingerprint()` */
  const Default := Fingerprint(None, None)

  /** The runtime type name of a content identifier. */
  const CidTypeName := "Ipfs.Cid"

  /** The runtime type name of a public identity. */
  const UserIDTypeName := "Arteranos.Common.UserID"

  /** An object that implements `IFingerprintable`: its runtime type name
      and its `FingerprintBytes`, which may be null. */
  datatype Fingerprintable = Fingerprintable(typeName: string, bytes: Option<seq<byte>>)

  /** An arbitrary object as `Equals(object)` and `Fingerprint(object)` see
      it: null, a fingerprint, a fingerprintable object, or anything else. */
  datatype Object =
    | NullObject
    | FingerprintObject(fp: Fingerprint)
    | FingerprintableObject(typeName: string, fingerprintBytes: Option<seq<byte>>)
    | Plain(typeName: string)

  function AsObject(f: Option<Fingerprintable>): Object
  {
    if f.None? then NullObject else FingerprintableObject(f.value.typeName, f.value.bytes)
  }

  /** A public identity seen as a fingerprintable object. */
  function UserIDObject(u: Identity.UserID, keyFingerprint: Option<Identity.Key> -> seq<byte>): Fingerprintable
  {
    Fingerprintable(UserIDTypeName, Some(u.FingerprintBytes(keyFingerprint)))
  }

  // ---------------------------------------------------------------
  // Construction

  /** `new Fingerprint(cid)`: the digest, computed by `hash`, of the
      identifier's own bytes (`cid.ToArray()`); a null identifier is
      dereferenced. */
  function FromCid(cid: Option<seq<byte>>, hash: seq<byte> -> seq<byte>): (r: Result<Fingerprint>)
    ensures r.Ok? <==> cid.Some?
    ensures r.Ok? ==> r.value.typeName.Some? && r.value.fpBytes == Some(hash(cid.value))
  {
    if cid.None? then Err(NullReference)
    else Ok(Fingerprint(Some(CidTypeName), Some(hash(cid.value))))
  }

  /** `new Fingerprint(object)`: fails unless the object is fingerprintable,
      and otherwise keeps its type name and its bytes (null included)
      verbatim. Building the error message dereferences a null object. */
  function FromObject(ob: Object): (r: Result<Fingerprint>)
    ensures r.Ok? <==> ob.FingerprintableObject?
    ensures r.Ok? ==> r.value == Fingerprint(Some(ob.typeName), ob.fingerprintBytes)
    ensures ob.NullObject? ==> r == Err(NullReference)
    ensures !ob.NullObject? && r.Err? ==> r.error == InvalidData
  {
    match ob
    case NullObject => Err(NullReference)
    case FingerprintObject(_) => Err(InvalidData)
    case Plain(_) => Err(InvalidData)
    case FingerprintableObject(t, bytes) => Ok(Fingerprint(Some(t), bytes))
  }

  // ---------------------------------------------------------------
  // Equality

  /** `Equals(Fingerprint other)`: different or missing type labels are
      unequal; otherwise the bytes are compared, and missing bytes make the
      comparison throw. A null `other` is dereferenced. */
  function Equals(f: Fingerprint, other: Option<Fingerprint>): (r: Result<bool>)
    ensures r == Ok(true) ==> other == Some(f) && f.typeName.Some?
    ensures r.Err? <==> other.None? || (other.value.typeName == f.typeName && f.typeName.Some?
                                         && (f.fpBytes.None? || other.value.fpBytes.None?))
    ensures other.None? ==> r == Err(NullReference)
  {
    if other.None? then Err(NullReference)
    else if f.typeName != other.value.typeName then Ok(false)
    else if other.value.typeName.None? || f.typeName.None? then Ok(false)
    else if f.fpBytes.None? || other.value.fpBytes.None? then Err(ArgumentNull)
    else Ok(f.fpBytes.value == other.value.fpBytes.value)
  }

  /** `Equals(object obj)`: a fingerprint is compared directly; anything
      else is fingerprinted first. */
  function EqualsObject(f: Fingerprint, obj: Object): (r: Result<bool>)
    ensures obj.NullObject? ==> r == Err(NullReference)
    ensures obj.Plain? ==> r == Err(InvalidData)
    ensures r == Ok(true) ==> f.typeName.Some? && (obj.FingerprintObject? || obj.FingerprintableObject?)
  {
    if obj.FingerprintObject? then Equals(f, Some(obj.fp))
    else
      var g := FromObject(obj);
      if g.Err? then Err(g.error) else Equals(f, Some(g.value))
  }

  /** `left == right` on two fingerprints, through the default comparer. */
  function OperatorEquals(left: Option<Fingerprint>, right: Option<Fingerprint>): (r: Result<bool>)
    ensures r.Ok? ==> (r.value <==> left == right && (left.None? || left.value.typeName.Some?))
    ensures r.Err? ==> left.Some? && right.Some? && r.error == ArgumentNull
  {
    if left.None? || right.None? then Ok(left.None? && right.None?)
    else EqualsObject(left.value, FingerprintObject(right.value))
  }

  /** `left == right` with a fingerprintable object on the right. */
  function OperatorEqualsFingerprintable(left: Option<Fingerprint>, right: Option<Fingerprintable>): (r: Result<bool>)
    ensures left.None? || right.None? ==> r == Ok(left.None? && right.None?)
    ensures r == Ok(true) && left.Some? ==> left.value == Fingerprint(Some(right.value.typeName), right.value.bytes)
    ensures r.Err? ==> r.error == ArgumentNull
  {
    if left.None? || right.None? then Ok(left.None? && right.None?)
    else EqualsObject(left.value, AsObject(right))
  }

  /** `left == right` with a fingerprintable object on the left: the
      operands are handed to the comparer in swapped order. */
  function OperatorEqualsFingerprintableLeft(left: Option<Fingerprintable>, right: Option<Fingerprint>): (r: Result<bool>)
    ensures left.None? || right.None? ==> r == Ok(left.None? && right.None?)
    ensures r == Ok(true) && right.Some? ==> right.value == Fingerprint(Some(left.value.typeName), left.value.bytes)
  {
    OperatorEqualsFingerprintable(right, left)
  }

  /** A fingerprint that can take part in comparisons: it has both parts. */
  predicate Complete(f: Fingerprint)
  {
    f.typeName.Some? && f.fpBytes.Some?
  }

  // ---------------------------------------------------------------
  // Text form

  /** `ToString()`: type label, a colon, and the bytes in base 64; a null
      label prints as nothing and null bytes make the encoder throw. */
  function ToString(f: Fingerprint): (r: Result<string>)
    ensures r.Ok? <==> f.fpBytes.Some?
  {
    if f.fpBytes.None? then Err(ArgumentNull)
    else
      var tag := if f.typeName.Some? then f.typeName.value else "";
      Ok(tag + ":" + Base64.Encode(f.fpBytes.value))
  }

  // ---------------------------------------------------------------
  // Properties

  /** The comparison is false as soon as the labels differ or one is missing,
      and with matching labels it is byte-sequence equality. */
  lemma EqualsCases(f: Fingerprint, g: Fingerprint)
    ensures f.typeName != g.typeName || f.typeName.None? ==> Equals(f, Some(g)) == Ok(false)
    ensures f.typeName == g.typeName && f.typeName.Some? && f.fpBytes.Some? && g.fpBytes.Some?
            ==> Equals(f, Some(g)) == Ok(f.fpBytes == g.fpBytes)
  {
  }

  /** A default fingerprint is not equal to itself. */
  lemma DefaultNotSelfEqual()
    ensures Equals(Default, Some(Default)) == Ok(false)
    ensures OperatorEquals(Some(Default), Some(Default)) == Ok(false)
  {
  }

  /** Equality is symmetric, and reflexive and transitive among complete fingerprints. */
  lemma EqualsIsPartialEquivalence(f: Fingerprint, g: Fingerprint, h: Fingerprint)
    ensures Equals(f, Some(g)) == Equals(g, Some(f))
    ensures Complete(f) ==> Equals(f, Some(f)) == Ok(true)
    ensures Equals(f, Some(g)) == Ok(true) && Equals(g, Some(h)) == Ok(true) ==> Equals(f, Some(h)) == Ok(true)
  {
  }

  /** A fingerprint built from an identifier, or from an object with
      bytes, is complete and so equal to itself; one built from an object
      whose bytes are null makes the comparison throw. */
  lemma ConstructedSelfEqual(ob: Object, cid: Option<seq<byte>>, hash: seq<byte> -> seq<byte>)
    ensures FromObject(ob).Ok? && ob.fingerprintBytes.Some?
            ==> Complete(FromObject(ob).value) && Equals(FromObject(ob).value, Some(FromObject(ob).value)) == Ok(true)
    ensures FromObject(ob).Ok? && ob.fingerprintBytes.None?
            ==> Equals(FromObject(ob).value, Some(FromObject(ob).value)) == Err(ArgumentNull)
    ensures FromCid(cid, hash).Ok? ==> Complete(FromCid(cid, hash).value) && Equals(FromCid(cid, hash).value, Some(FromCid(cid, hash).value)) == Ok(true)
  {
  }

  /** Comparing with a fingerprintable object compares the type label with
      the object's type name and then the bytes with its `FingerprintBytes`,
      throwing when either side's bytes are null; a non-fingerprintable
      object makes the comparison fail. */
  lemma EqualsObjectFingerprintable(f: Fingerprint, t: string, bytes: Option<seq<byte>>)
    ensures EqualsObject(f, Plain(t)) == Err(InvalidData)
    ensures f.typeName != Some(t) ==> EqualsObject(f, FingerprintableObject(t, bytes)) == Ok(false)
    ensures f.typeName == Some(t) && (f.fpBytes.None? || bytes.None?)
            ==> EqualsObject(f, FingerprintableObject(t, bytes)) == Err(ArgumentNull)
    ensures f.typeName == Some(t) && f.fpBytes.Some? && bytes.Some?
            ==> EqualsObject(f, FingerprintableObject(t, bytes)) == Ok(f.fpBytes == bytes)
  {
  }

  /** The `==` overloads: two nulls are equal, one null is unequal, and
      otherwise `Equals` decides; the operand order does not matter. */
  lemma OperatorEqualsCases(left: Option<Fingerprint>, right: Option<Fingerprint>, other: Option<Fingerprintable>)
    ensures left.None? && right.None? ==> OperatorEquals(left, right) == Ok(true)
    ensures left.None? != right.None? ==> OperatorEquals(left, right) == Ok(false)
    ensures left.Some? && right.Some? ==> OperatorEquals(left, right) == Equals(left.value, right)
    ensures left.None? && other.None? ==> OperatorEqualsFingerprintable(left, other) == Ok(true)
    ensures left.None? != other.None? ==> OperatorEqualsFingerprintable(left, other) == Ok(false)
    ensures left.Some? && other.Some? ==> OperatorEqualsFingerprintable(left, other)
                                          == Equals(left.value, Some(Fingerprint(Some(other.value.typeName), other.value.bytes)))
    ensures OperatorEqualsFingerprintableLeft(other, left) == OperatorEqualsFingerprintable(left, other)
  {
  }

  /** Two public identities with the same key have equal fingerprints,
      whatever their nicknames and icons. */
  lemma UserIDFingerprintOnlyKey(u: Identity.UserID, v: Identity.UserID, keyFingerprint: Option<Identity.Key> -> seq<byte>)
    requires u.signPublicKey == v.signPublicKey
    ensures var f := FromObject(AsObject(Some(UserIDObject(u, keyFingerprint))));
            f.Ok? && OperatorEqualsFingerprintable(Some(f.value), Some(UserIDObject(v, keyFingerprint))) == Ok(true)
  {
  }

  /** The text form starts with the type label; when the label has no
      colon, the first colon separates it from the base 64 bytes. */
  lemma {:induction false} ToStringSplits(f: Fingerprint)
    requires Complete(f) && ':' !in f.typeName.value
    ensures var s := ToString(f).value;
            var n := |f.typeName.value|;
            n < |s| && s[n] == ':' && s[..n] == f.typeName.value
            && ':' !in s[n + 1..] && s[n + 1..] == Base64.Encode(f.fpBytes.value)
            && |s| == n + 1 + 4 * ((|f.fpBytes.value| + 2) / 3)
            && Base64.Decode(s[n + 1..]) == f.fpBytes.value
  {
    Base64.DecodeEncode(f.fpBytes.value);
    var s := ToString(f).value;
    var n := |f.typeName.value|;
    assert s == f.typeName.value + ":" + Base64.Encode(f.fpBytes.value);
    assert s[n + 1..] == Base64.Encode(f.fpBytes.value);
    Base64.NoColon(f.fpBytes.value);
  }
}
