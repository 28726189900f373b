# Arteranos identity, fingerprints and content permissions, in Dafny

This project models the core of the Arteranos common runtime library:

- **Content permissions** (`Permissions.dfy`, module `ServerPermissions`): a
  profile of six tri-state switches (flying, nudity, suggestive content,
  violence, explicit nudes, excessive violence). `FuzzyEq` scores one switch
  of a declared profile against a viewer's filter. `MatchRatio` adds these
  scores into an `(index, possible)` pair. `IsInViolation` checks content
  against a server's policy with weighted penalties. The mutable
  `PermissionsJSON` class has setters that track a dirty flag, and a `Save`
  that writes only when dirty.
- **Public identity** (`UserID.dfy`, module `Identity`): a verification key
  with a nickname and an icon reference. Equality and the hash code depend on
  the key alone, and a missing key is never equal to anything.
- **Relationship ledger** (`Relationships.dfy` and `UserData.dfy`): the
  private identity record `UserDataJSON` holds four sets of peers (friend
  offered, friend received, block imposed, block received). One generic
  toggle changes them, with three compound rules on top. A block revokes the
  offer. A withdrawn received friendship revokes the offer. No offer may be
  made to a blocked peer. `Relationships` defines each call as a function on
  a `Ledger` value. Each of the five ledger methods of the class is proved
  to do exactly what its function says. The setters, `Generate`, `Load` and
  `Save` are specified directly on the fields.
- **Fingerprints** (`Fingerprint.dfy`, `Base64.dfy`): a type label plus
  digest bytes. A fingerprint without a label equals nothing, itself
  included. `ToString` prints the label, a colon and the bytes in base 64
  (section 4 of RFC 4648).
- **Helpers** (`ConfigUtils.dfy`, `Utils.dfy`): the data-path rewrite
  `GetPathWithArteranos`, the platform-to-asset-directory map, and the
  copy loop of `CopyWithProgress` with its progress reports.

C#'s `bool?` is the datatype `NullableBool` (`Null | False | True`). A C#
reference that may be null is an `Option`. An exception is an `Err` of a
`Result`. Keys, digests and key material are byte sequences. Code from
libraries that are not part of this model becomes a function-valued
parameter: `CryptoHelpers.GetFingerprint`, `Cid.Decode` and the runtime's
`HashCode`. Key generation is out of the model altogether: `Generate` takes
the generated key material as plain bytes. A file write is a ghost log of what was written.

Where the comments and the code disagree, the model follows the code:

- The priority table in the comment at `Runtime/ServerPermissions.cs:41-50`
  gives 2 points to an unset setting against a set filter. `FuzzyEq`
  (`Runtime/ServerPermissions.cs:28`) returns 1 for any one-sided unset.
- In `IsInViolation` only the *unclear* weight is raised to 2, and only for
  excessive violence and explicit nudes. The *clear* weight is 5 for every
  switch (`Runtime/ServerPermissions.cs:238-239`).
- Two identical profiles score `index == possible` (and read "perfect") only
  when Flying is decided. With Flying unset, the score is `possible - 6`,
  because the fixed base of 10 assumes a decided Flying switch
  (`SelfMatch`, `SelfMatchLabel`).

`HumanReadableMI` divides in single precision. The model compares by
integer cross-multiplication instead: `ratio > 0.8f` becomes
`5 * index > 4 * possible`. This is exact here. `possible` lies between 20
and 35. So two different ratios differ by far more than one rounding step,
and an exact ratio of 4/5 rounds to the same float as the constant `0.8f`.

## Model

| member | source | states |
|---|---|---|
| `ServerPermissions.FuzzyEq` | Runtime/ServerPermissions.cs:24-31 | the score is one of 0, 1, 2, 5, and it is at least 2 exactly when setting and filter are the same value (unset counts) |
| `ServerPermissions.PossibleScore` | Runtime/ServerPermissions.cs:169 | a switch's possible score (2 unset, 5 decided) is exactly what it earns against itself |
| `ServerPermissions.FuzzyEqTable` | Runtime/ServerPermissions.cs:24-31 | both directions of the table: 2 iff both unset, 1 iff exactly one unset, 5 iff both decided and equal, 0 iff both decided and different |
| `ServerPermissions.FuzzyEqSymmetric` | Runtime/ServerPermissions.cs:24-31 | the score does not depend on argument order |
| `ServerPermissions.FuzzyEqFull` | Runtime/ServerPermissions.cs:24-31 | a switch never earns more than its possible score, and earns all of it iff the filter equals the setting |
| `ServerPermissions.Switches.MatchRatio` | Runtime/ServerPermissions.cs:167-195 | 0 <= index <= possible and 20 <= possible <= 35 for every pair of profiles |
| `ServerPermissions.PossibleScoreOnly` | Runtime/ServerPermissions.cs:169-192 | the possible total is the same whatever the filter |
| `ServerPermissions.IndexIsWeightedScore` | Runtime/ServerPermissions.cs:171-194 | the index equals the weighted sum over a table of (weight, setting, filter) rows, Flying weighing 2 and the rest 1 |
| `ServerPermissions.AgreementNeverLowersScore` | Runtime/ServerPermissions.cs:171-194 | turning any of the filter's switches to agree with the profile never lowers the index |
| `ServerPermissions.FullScoreIff` | Runtime/ServerPermissions.cs:167-195 | index == possible iff the filter equals the profile and Flying is decided |
| `ServerPermissions.SelfMatch` | Runtime/ServerPermissions.cs:167-195 | a profile against itself scores possible when Flying is decided and possible - 6 when it is unset |
| `ServerPermissions.Label` | Runtime/ServerPermissions.cs:200-210 | "perfect" iff index >= possible, "very poor" iff the ratio is at most 0.2, with the buckets in between by cross-multiplication |
| `ServerPermissions.Decimal` | Runtime/ServerPermissions.cs:212 | the printed index is a non-empty string of decimal digits that denotes the number, with no leading zero unless the number is 0 |
| `ServerPermissions.HumanReadableMI` | Runtime/ServerPermissions.cs:197-213 | the text is a string of digits denoting the index, followed by " (", the label and ")"; the label is "perfect" iff the filter equals the profile and Flying is decided |
| `ServerPermissions.SelfMatchLabel` | Runtime/ServerPermissions.cs:197-213 | identical profiles read "perfect" when Flying is decided and never when it is unset |
| `ServerPermissions.Penalty` | Runtime/ServerPermissions.cs:219-233 | with positive weights the penalty is 0 exactly when the content lacks the label or the server permits it, and it never exceeds the clear weight when unclear <= clear |
| `ServerPermissions.Switches.IsInViolation` | Runtime/ServerPermissions.cs:215-242 | an explicit denial of a flagged switch always violates; without one, the verdict is violation iff the unclear points exceed 2 (see `ViolationIff`) |
| `ServerPermissions.ViolationIff` | Runtime/ServerPermissions.cs:215-242 | in violation iff some flagged switch (set or unset on the content side) is explicitly forbidden, or the flagged switches the server leaves undecided weigh more than 2 (1 each, 2 for excessive violence and explicit nudes) |
| `ServerPermissions.AllowingServerNeverViolated` | Runtime/ServerPermissions.cs:235-241 | a server that permits all five labels is never violated |
| `ServerPermissions.CleanContentNeverViolates` | Runtime/ServerPermissions.cs:235-241 | content that declares all five labels false never violates |
| `ServerPermissions.ViolationIgnoresFlying` | Runtime/ServerPermissions.cs:235-241 | neither side's Flying switch affects the verdict |
| `ServerPermissions.PermissionsJSON.constructor` | Runtime/ServerPermissions.cs:144-154 | a new profile has every switch unset and is dirty |
| `ServerPermissions.PermissionsJSON.Permissive` | Runtime/ServerPermissions.cs:156-165 | the default profile has Flying and ExcessiveViolence false and the rest unset, and is dirty |
| `ServerPermissions.PermissionsJSON.SetFlying` | Runtime/ServerPermissions.cs:67-77 | the switch takes the new value, no other switch changes, and dirty is set iff the value differed |
| `ServerPermissions.PermissionsJSON.SetNudity` | Runtime/ServerPermissions.cs:80-90 | as for Flying |
| `ServerPermissions.PermissionsJSON.SetSuggestive` | Runtime/ServerPermissions.cs:93-103 | as for Flying |
| `ServerPermissions.PermissionsJSON.SetViolence` | Runtime/ServerPermissions.cs:106-116 | as for Flying |
| `ServerPermissions.PermissionsJSON.SetExplicitNudes` | Runtime/ServerPermissions.cs:119-129 | as for Flying |
| `ServerPermissions.PermissionsJSON.SetExcessiveViolence` | Runtime/ServerPermissions.cs:132-142 | as for Flying |
| `ServerPermissions.PermissionsJSON.Equals` | Runtime/ServerPermissions.cs:249-258 | true iff the other profile exists and all six switches agree; the dirty flag is ignored |
| `ServerPermissions.PermissionsJSON.OperatorEquals` | Runtime/ServerPermissions.cs:267-270 | two nulls are equal, null and a profile are not, otherwise the six switches decide |
| `ServerPermissions.PermissionsJSON.Load` | Runtime/ServerPermissions.cs:280-298 | a failed read gives null; a successful one gives the stored switches, clean |
| `ServerPermissions.PermissionsJSON.Save` | Runtime/ServerPermissions.cs:300-316 | writes the current switches once iff dirty, and leaves the profile clean, so a second save writes nothing |
| `Identity.EqualsIffSameKey` | Runtime/UserID.cs:61-66 | with both keys present, two identities are equal iff their keys are |
| `Identity.UserID.Equals` | Runtime/UserID.cs:61-66 | true iff the other identity exists, this key exists, and the keys are equal; nickname and icon play no part (see `EqualsIffSameKey`, `NullKeyNeverEqual`, `EqualsIsPartialEquivalence`) |
| `Identity.UserID.EqualsObject` | Runtime/UserID.cs:74 | an object that is not an identity is never equal; an identity is compared with `Equals` |
| `Identity.UserID.FingerprintBytes` | Runtime/UserID.cs:59 | the fingerprint of the public key the identity converts to (see `FingerprintBytesOnlyKey`) |
| `Identity.OperatorEquals` | Runtime/UserID.cs:82 | with a null operand, true iff both are null; a true result between identities means both carry the same non-null key (see `OperatorEqualsCases`) |
| `Identity.ToPublicKey` | Runtime/UserID.cs:68 | a key comes out iff the identity and its key are non-null, and it is the identity's key |
| `Identity.ToNickname` | Runtime/UserID.cs:70 | a name comes out iff the identity and its nickname are non-null, and it is the nickname |
| `Identity.ToCid` | Runtime/UserID.cs:72 | an identifier comes out iff the identity and its icon reference are non-null, and it is the decoded reference |
| `Identity.HashOf` | Runtime/UserID.cs:75-80 | a hash code exists iff the key does; a null key is a null dereference (see `HashConsistentWithEquals`) |
| `Identity.NullKeyNeverEqual` | Runtime/UserID.cs:63 | a missing key on either side, or a null argument, makes `Equals` false |
| `Identity.EqualsIsPartialEquivalence` | Runtime/UserID.cs:61-66 | equality is symmetric and transitive, and an identity equals itself iff it has a key |
| `Identity.EqualsIgnoresPresentation` | Runtime/UserID.cs:61-66 | nickname and icon never affect equality |
| `Identity.EqualsObjectNonUserID` | Runtime/UserID.cs:74 | comparing with an object that is not a UserID gives false |
| `Identity.OperatorEqualsCases` | Runtime/UserID.cs:82 | two nulls are equal, null and non-null are not, otherwise `Equals` decides |
| `Identity.GetHashCode` | Runtime/UserID.cs:75-80 | the loop computes the fold of the key's bytes in order, and fails on a missing key |
| `Identity.HashConsistentWithEquals` | Runtime/UserID.cs:61-80 | a hash code exists iff the key does, and equal identities have equal hash codes |
| `Identity.FingerprintBytesOnlyKey` | Runtime/UserID.cs:59 | identities with the same key have the same fingerprint bytes, whatever their nickname and icon |
| `Identity.ConversionsOfNull` | Runtime/UserID.cs:68-72 | a null identity converts to a null key, name and icon; a missing icon reference converts to null |
| `Fingerprints.FromCid` | Runtime/Crypto/Fingerprint.cs:43-49 | succeeds iff the identifier exists, with a label and the digest of the identifier's bytes |
| `Fingerprints.FromObject` | Runtime/Crypto/Fingerprint.cs:51-58 | succeeds iff the object is fingerprintable, keeping its type name and its bytes verbatim, null bytes included; null fails with a null dereference, anything else with invalid data |
| `Fingerprints.ToString` | Runtime/Crypto/Fingerprint.cs:114-117 | the text exists iff the bytes do |
| `Fingerprints.ToStringSplits` | Runtime/Crypto/Fingerprint.cs:114-117 | for a colon-free label, the text is the label, then the first colon, then the base 64 bytes, of length 4 x ceil(n/3), from which decoding gives the bytes back |
| `Base64.Encode` | Runtime/Crypto/Fingerprint.cs:116 | the encoding has 4 x ceil(n/3) characters, all from the alphabet or the pad |
| `Base64.DecodeEncode` | Runtime/Crypto/Fingerprint.cs:116 | decoding the encoding gives the bytes back |
| `Base64.EncodeInjective` | Runtime/Crypto/Fingerprint.cs:116 | different byte sequences print differently |
| `Base64.NoColon` | Runtime/Crypto/Fingerprint.cs:116 | no encoding contains a colon |
| `Fingerprints.EqualsCases` | Runtime/Crypto/Fingerprint.cs:78-85 | different or missing labels give false; matching labels give byte-sequence equality |
| `Fingerprints.Equals` | Runtime/Crypto/Fingerprint.cs:78-85 | true only for an equal fingerprint with a label; throws exactly when the other is null, or the labels match and either side's bytes are null (see `EqualsCases`, `EqualsIsPartialEquivalence`) |
| `Fingerprints.EqualsObject` | Runtime/Crypto/Fingerprint.cs:87-94 | a null object is a null dereference, a non-fingerprintable one invalid data; true only for a labelled fingerprint against a fingerprint or fingerprintable object (see `EqualsObjectFingerprintable`) |
| `Fingerprints.OperatorEquals` | Runtime/Crypto/Fingerprint.cs:103 | when it answers, true iff both are null or both are the same labelled fingerprint; it can only throw for null bytes (see `OperatorEqualsCases`) |
| `Fingerprints.OperatorEqualsFingerprintable` | Runtime/Crypto/Fingerprint.cs:106 | null operands compare by nullness; true means the fingerprint is exactly the object's type name and bytes |
| `Fingerprints.OperatorEqualsFingerprintableLeft` | Runtime/Crypto/Fingerprint.cs:109 | the same answers with the operands swapped |
| `Fingerprints.DefaultNotSelfEqual` | Runtime/Crypto/Fingerprint.cs:35-41 | a default fingerprint is unequal to itself, also through `==` |
| `Fingerprints.EqualsIsPartialEquivalence` | Runtime/Crypto/Fingerprint.cs:78-85 | equality is symmetric (errors included), and reflexive and transitive among complete fingerprints |
| `Fingerprints.ConstructedSelfEqual` | Runtime/Crypto/Fingerprint.cs:43-58 | a fingerprint from an identifier, or from an object with bytes, is complete and equals itself; one from an object with null bytes makes the comparison throw |
| `Fingerprints.EqualsObjectFingerprintable` | Runtime/Crypto/Fingerprint.cs:87-94 | against a fingerprintable object: false on a label mismatch, a throw when either side's bytes are null, otherwise byte equality; a non-fingerprintable object raises invalid data |
| `Fingerprints.OperatorEqualsCases` | Runtime/Crypto/Fingerprint.cs:103-110 | every overload: two nulls equal, one null unequal, otherwise `Equals`; the swapped overload agrees with the other |
| `Fingerprints.UserIDFingerprintOnlyKey` | Runtime/Crypto/Fingerprint.cs:51-58 | the fingerprint of an identity equals every identity with the same key (for identities without a key, under the assumption on `CryptoHelpers.GetFingerprint` stated under "Left out") |
| `Relationships.HandleState` | Runtime/UserDataJSON.cs:104-116 | afterwards the peer is in the set iff the new state is on; the result says whether membership changed; nothing else changes |
| `Relationships.OfferFriend` | Runtime/UserDataJSON.cs:183-189 | a blocked peer's offer is refused unchanged; otherwise the peer is offered iff offering, and the result reports whether that membership changed; only the offered set can change, and only at the peer; blocked peers stay out of the offered set |
| `Relationships.ReceiveFriend` | Runtime/UserDataJSON.cs:191-200 | the peer is in the received set iff receiving, and every other member of that set stays; the offer is revoked exactly when a received friendship was withdrawn; blocks are untouched |
| `Relationships.ImposeBlock` | Runtime/UserDataJSON.cs:205-214 | the peer is in the imposed set iff imposing; imposing also revokes the offer, so the peer then reads as blocked; the invariant is kept |
| `Relationships.ReceiveBlock` | Runtime/UserDataJSON.cs:216-224 | the peer is in the received-block set iff receiving; receiving also revokes the offer and the peer reads as blocked; the invariant is kept |
| `Relationships.Ledger.IsStated` | Runtime/UserDataJSON.cs:240-247 | "blocked" only for a blocked peer; "friend" only for a peer with an offer and no imposed block, and in the bilateral view only for mutual friends who are not blocked (see `IsStatedCases`) |
| `Relationships.OfferToBlockedRefused` | Runtime/UserDataJSON.cs:183-189 | an offer to a blocked peer returns false and changes nothing |
| `Relationships.ReceiveFriendRevokes` | Runtime/UserDataJSON.cs:191-200 | withdrawing a received friendship removes it and, only if it was there, the offer too; blocks are untouched |
| `Relationships.ReceiveFriendAccepts` | Runtime/UserDataJSON.cs:191-200 | accepting a received friendship only adds the peer to that set |
| `Relationships.BlockRevokesOffer` | Runtime/UserDataJSON.cs:205-224 | a block in either direction adds the peer to that block set, removes the offer, and reports a change iff either set changed |
| `Relationships.UnblockOnlyUnblocks` | Runtime/UserDataJSON.cs:205-224 | lifting a block only removes the peer from that block set and never restores an offer |
| `Relationships.BlockThenOfferRefused` | Runtime/UserDataJSON.cs:183-214 | after a block, the peer has no offer and a new offer is refused |
| `Relationships.ApplyPreservesNoBlockedOffered` | Runtime/UserDataJSON.cs:183-224 | every mutator keeps blocked peers out of the offered set |
| `Relationships.RunPreservesNoBlockedOffered` | Runtime/UserDataJSON.cs:183-224 | so does every sequence of mutator calls |
| `Relationships.ApplyIdempotent` | Runtime/UserDataJSON.cs:104-224 | repeating a call changes nothing and reports no change |
| `Relationships.IsStatedCases` | Runtime/UserDataJSON.cs:228-247 | blocked (false) iff imposed, or received and not unilateral; friend (true) iff not blocked in that sense and offered, and received unless unilateral |
| `Relationships.UnilateralIgnoresBlockReceived` | Runtime/UserDataJSON.cs:240-247 | the unilateral answer does not depend on blocks received |
| `Relationships.FriendsAreNotBlocked` | Runtime/UserDataJSON.cs:228-247 | where the ledger invariant holds, a mutual friend is not blocked and reads as a friend |
| `UserData.UserDataJSON.constructor` | Runtime/UserDataJSON.cs:58-75 | a new record has nothing set, an empty ledger, is dirty and invalid |
| `UserData.UserDataJSON.IsValid` | Runtime/UserDataJSON.cs:87 | the definition of line 87 (key material and a nickname); what validity means is proved by the constructor (a new record is invalid), `Generate` (a generated one is valid) and `Save` (every record written is valid) |
| `UserData.UserDataJSON.SetSignKeyPair` | Runtime/UserDataJSON.cs:27-36 | equal non-null key material leaves dirty alone; any other assignment, null included, sets it |
| `UserData.UserDataJSON.SetNickname` | Runtime/UserDataJSON.cs:37-46 | dirty is set iff the nickname changes |
| `UserData.UserDataJSON.SetIcon` | Runtime/UserDataJSON.cs:47-56 | dirty is set iff the icon changes |
| `UserData.UserDataJSON.HandleState` | Runtime/UserDataJSON.cs:104-116 | the new ledger and result are those of the toggle; dirty is set iff something changed |
| `UserData.UserDataJSON.OfferFriend` | Runtime/UserDataJSON.cs:183-189 | follows the ledger definition, sets dirty iff changed, and keeps blocked peers out of the offered set |
| `UserData.UserDataJSON.ReceiveFriend` | Runtime/UserDataJSON.cs:191-200 | as for OfferFriend |
| `UserData.UserDataJSON.ImposeBlock` | Runtime/UserDataJSON.cs:205-214 | as for OfferFriend |
| `UserData.UserDataJSON.ReceiveBlock` | Runtime/UserDataJSON.cs:216-224 | as for OfferFriend |
| `Relationships.Ledger.IsFriendOffered` | Runtime/UserDataJSON.cs:228 | the definition of line 228; `IsStatedCases` and `FriendsAreNotBlocked` state what it decides |
| `Relationships.Ledger.IsFriendReceived` | Runtime/UserDataJSON.cs:229 | the definition of line 229; see `IsStatedCases` |
| `Relationships.Ledger.IsFriends` | Runtime/UserDataJSON.cs:231 | the definition of line 231; `FriendsAreNotBlocked` proves a mutual friend is not blocked where the ledger invariant holds |
| `Relationships.Ledger.IsBlocked` | Runtime/UserDataJSON.cs:232 | the definition of line 232; `IsStatedCases` and `BlockThenOfferRefused` use it |
| `UserData.UserDataJSON.IsFriendOffered` | Runtime/UserDataJSON.cs:228 | the ledger query of the same name on the record's four sets |
| `UserData.UserDataJSON.IsFriendReceived` | Runtime/UserDataJSON.cs:229 | the ledger query of the same name on the record's four sets |
| `UserData.UserDataJSON.IsFriends` | Runtime/UserDataJSON.cs:231 | the ledger query of the same name on the record's four sets |
| `UserData.UserDataJSON.IsBlocked` | Runtime/UserDataJSON.cs:232 | the ledger query of the same name on the record's four sets |
| `UserData.UserDataJSON.IsStated` | Runtime/UserDataJSON.cs:240-247 | `Ledger.IsStated` on the record's four sets, with `unilaterally` defaulting to false as in C#; `IsStatedCases` gives its cases |
| `UserData.UserDataJSON.Generate` | Runtime/UserDataJSON.cs:122-137 | a new valid, dirty record with the generated key, nickname "Anonymous", no icon and an empty ledger |
| `UserData.UserDataJSON.Load` | Runtime/UserDataJSON.cs:139-157 | a failed read gives an empty, dirty, invalid record; a successful one gives the stored record, clean, with no blocks received |
| `UserData.UserDataJSON.Save` | Runtime/UserDataJSON.cs:159-177 | writes everything but the blocks received once iff valid and dirty, then clears dirty; an invalid or clean record writes nothing; the log only grows, every record it adds is valid, so a log of valid records stays one |
| `ConfigUtils.DestName` | Runtime/ConfigUtils.cs:41-44 | the server directory for true, the client directory for false, and the process-wide switch decides for null |
| `ConfigUtils.GetPathWithArteranos` | Runtime/ConfigUtils.cs:39-47 | succeeds iff the path is at least as long as "company/product"; the result is that much shorter, plus the destination directory |
| `ConfigUtils.ReplacesSubdir` | Runtime/ConfigUtils.cs:39-47 | a path ending in "company/product" gets that ending replaced by the destination directory |
| `ConfigUtils.DroppedSuffixUnchecked` | Runtime/ConfigUtils.cs:39-47 | the dropped characters are never compared with "company/product" |
| `ConfigUtils.PersistentDataPath` | Runtime/ConfigUtils.cs:48 | the rewritten data path ends with the directory the process-wide switch selects |
| `Utils.ArchitectureDirName` | Runtime/Utils.cs:110-120 | "Mac" iff a macOS platform, "Linux" iff a Linux platform, "Android" iff Android, "Windows" for every other platform |
| `Utils.CopyWithProgress` | Runtime/Utils.cs:29-53 | writes the reads in order up to the first empty one; reports running totals, the first between one and two buffers, each later one one to two buffers past the previous; the unreported remainder is under one buffer |

## Left out

- JSON and protobuf serialisation, the base 64 type converters, file reading and writing, and logging. `Load` takes the deserialised value, or `None` when reading failed. `Save` appends to a ghost log.
- `PermissionsJSON.Save`, `UserDataJSON.Save`: a write that throws is caught in the source and the dirty flag stays set, so the next save tries again; in the model every write succeeds.
- `ConfigUtils.ReadConfig`, `WriteConfig`, `WriteConfigAsync` and `NeedsFallback`: file-system checks and directory creation.
- `Utils.TakePhoto`: engine rendering and PNG encoding.
- `Utils.CopyWithProgress`: cancellation, asynchrony, flushing and closing the streams. The reads are a parameter. Running out of reads stands for cancellation. The 64-bit counters are unbounded integers. `reports` are the totals a non-null progress callback would receive; the callback defaults to null, and then nothing is reported.
- `Utils.GetArchitectureDirName()` without arguments: it only reads the current platform.
- Key generation, key import and export, and the `SignKey` cache and conversions of `UserDataJSON` (to `SignKey`, `PublicKey`, `UserID`, `Cid`, `string`). These are foreign cryptography. The generated key is a parameter of `Generate`.
- Peers in the relationship sets are their public keys. A target whose key is null makes `GetHashCode` throw, and a null target is stored as null. Neither case is modelled.
- `CryptoHelpers.GetFingerprint` is assumed to return bytes for every key, a null key included. So two identities without a key have equal fingerprints (`Fingerprints.UserIDFingerprintOnlyKey`), even though `UserID.Equals` calls them unequal. If the helper throws or returns null on a null key, those comparisons throw instead.
- The equality of `PublicKey` and of `Cid` is assumed to compare the key's serialised bytes and the identifier's value.
- `Fingerprint.GetHashCode` and `Fingerprint.Serialize`/`Deserialize`: they depend on the protobuf encoding.
- `Switches.MatchRatio`, `Switches.IsInViolation`: they take the other profile as a value, so the null dereference a null `user` or `serverPerms` causes is not modelled.
- `PermissionsJSON.Clone` and `PermissionsJSON.GetHashCode`: runtime library behaviour.
- `HumanReadableMI`: single-precision division is replaced by integer cross-multiplication. This is exact for the possible totals that occur (20 to 35).
- `Runtime/UserIDJSON.cs`: an older flat identity record. Its validity check and "Anonymous" default are the ones `UserDataJSON` repeats.
- `Runtime/KitData.cs`: plain data holders.
