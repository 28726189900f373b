/** The private identity record a participant keeps locally: key material,
    nickname, icon, the friend/block ledger and a dirty flag that decides
    whether `Save` writes. */
module UserData {
  import opened Types
  import opened Identity
  import opened Relationships

  /** A content identifier, by its bytes; identifiers compare by value. */
  type Cid = seq<byte>

  /** What `Save` writes: everything but the blocks received, which are
      never persisted. */
  datatype Record = Record(
    signKeyPair: Option<seq<byte>>,
    nickname: Option<string>,
    icon: Option<Cid>,
    friendOffered: set<Key>,
    friendReceived: set<Key>,
    blockImposed: set<Key>)
  {
    /** Key material and a nickname, the test of `IsValid`. */
    predicate Valid() { signKeyPair.Some? && nickname.Some? }
  }

  class UserDataJSON {
    var signKeyPair: Option<seq<byte>>
    var nickname: Option<string>
    var icon: Option<Cid>
    var friendOffered: set<Key>
    var friendReceived: set<Key>
    var blockImposed: set<Key>
    var blockReceived: set<Key>
    var dirty: bool
    /** The records `Save` has written to the configuration file, in order. */
    ghost var written: seq<Record>

    function Ledger(): Relationships.Ledger
      reads this
    {
      Relationships.Ledger(friendOffered, friendReceived, blockImposed, blockReceived)
    }

    function Snapshot(): Record
      reads this
    {
      Record(signKeyPair, nickname, icon, friendOffered, friendReceived, blockImposed)
    }

    /** Validity (the conversion to `bool`): key material and a nickname. */
    predicate IsValid()
      reads this
    {
      Snapshot().Valid()
    }

    /** Key material, nickname, icon and the write log are as before. */
    twostate predicate ProfileUnchanged()
      reads this
    {
      old(signKeyPair) == signKeyPair && old(nickname) == nickname && old(icon) == icon
      && old(written) == written
    }

    /** A fresh record: nothing set, empty ledger, dirty (and invalid). */
    constructor ()
      ensures signKeyPair.None? && nickname.None? && icon.None?
      ensures Ledger() == Relationships.Empty && dirty && written == []
      ensures !IsValid()
    {
      signKeyPair, nickname, icon := None, None, None;
      friendOffered, friendReceived, blockImposed, blockReceived := {}, {}, {}, {};
      dirty := true;
      written := [];
    }

    // -------------------------------------------------------------
    // Setters

    /** Equal non-null key material is not an assignment; null always is. */
    method SetSignKeyPair(v: Option<seq<byte>>)
      modifies this
      ensures var same := v.Some? && old(signKeyPair).Some? && old(signKeyPair) == v;
              && signKeyPair == v
              && dirty == (old(dirty) || !same)
      ensures nickname == old(nickname) && icon == old(icon) && written == old(written)
      ensures Ledger() == old(Ledger())
    {
      if v.Some? && signKeyPair.Some? && signKeyPair.value == v.value { return; }
      signKeyPair := v;
      dirty := true;
    }

    method SetNickname(v: Option<string>)
      modifies this
      ensures nickname == v && dirty == (old(dirty) || old(nickname) != v)
      ensures signKeyPair == old(signKeyPair) && icon == old(icon) && written == old(written)
      ensures Ledger() == old(Ledger())
    {
      if v == nickname { return; }
      nickname := v;
      dirty := true;
    }

    method SetIcon(v: Option<Cid>)
      modifies this
      ensures icon == v && dirty == (old(dirty) || old(icon) != v)
      ensures signKeyPair == old(signKeyPair) && nickname == old(nickname) && written == old(written)
      ensures Ledger() == old(Ledger())
    {
      if v == icon { return; }
      icon := v;
      dirty := true;
    }

    // -------------------------------------------------------------
    // Ledger

    /** The generic toggle behind every mutator. */
    method HandleState(target: Key, newState: bool, r: Relation) returns (changed: bool)
      modifies this
      ensures Step(Ledger(), changed) == Relationships.HandleState(old(Ledger()), target, newState, r)
      ensures dirty == (old(dirty) || changed)
      ensures ProfileUnchanged()
    {
      var oldState := target in Ledger().Members(r);
      match r {
        case FriendOffered =>
          friendOffered := if newState then friendOffered + {target} else friendOffered - {target};
        case FriendReceived =>
          friendReceived := if newState then friendReceived + {target} else friendReceived - {target};
        case BlockImposed =>
          blockImposed := if newState then blockImposed + {target} else blockImposed - {target};
        case BlockReceived =>
          blockReceived := if newState then blockReceived + {target} else blockReceived - {target};
      }
      if oldState != newState { dirty := true; }
      changed := oldState != newState;
    }

    method OfferFriend(target: Key, offering: bool) returns (changed: bool)
      modifies this
      ensures Step(Ledger(), changed) == Relationships.OfferFriend(old(Ledger()), target, offering)
      ensures dirty == (old(dirty) || changed)
      ensures ProfileUnchanged()
      ensures old(Ledger().NoBlockedOffered()) ==> Ledger().NoBlockedOffered()
    {
      if offering && IsBlocked(target) { return false; }
      changed := HandleState(target, offering, FriendOffered);
    }

    method ReceiveFriend(target: Key, receiving: bool) returns (changed: bool)
      modifies this
      ensures Step(Ledger(), changed) == Relationships.ReceiveFriend(old(Ledger()), target, receiving)
      ensures dirty == (old(dirty) || changed)
      ensures ProfileUnchanged()
      ensures old(Ledger().NoBlockedOffered()) ==> Ledger().NoBlockedOffered()
    {
      changed := HandleState(target, receiving, FriendReceived);
      if !receiving && changed {
        friendOffered := friendOffered - {target};
      }
    }

    method ImposeBlock(target: Key, imposing: bool) returns (changed: bool)
      modifies this
      ensures Step(Ledger(), changed) == Relationships.ImposeBlock(old(Ledger()), target, imposing)
      ensures dirty == (old(dirty) || changed)
      ensures ProfileUnchanged()
      ensures old(Ledger().NoBlockedOffered()) ==> Ledger().NoBlockedOffered()
    {
      changed := HandleState(target, imposing, BlockImposed);
      if imposing {
        var revoked := OfferFriend(target, false);
        changed := changed || revoked;
      }
    }

    method ReceiveBlock(target: Key, receiving: bool) returns (changed: bool)
      modifies this
      ensures Step(Ledger(), changed) == Relationships.ReceiveBlock(old(Ledger()), target, receiving)
      ensures dirty == (old(dirty) || changed)
      ensures ProfileUnchanged()
      ensures old(Ledger().NoBlockedOffered()) ==> Ledger().NoBlockedOffered()
    {
      changed := HandleState(target, receiving, BlockReceived);
      if receiving {
        var revoked := OfferFriend(target, false);
        changed := changed || revoked;
      }
    }

    // -------------------------------------------------------------
    // Queries

    predicate IsFriendOffered(target: Key) reads this { Ledger().IsFriendOffered(target) }
    predicate IsFriendReceived(target: Key) reads this { Ledger().IsFriendReceived(target) }
    predicate IsFriends(target: Key) reads this { Ledger().IsFriends(target) }
    predicate IsBlocked(target: Key) reads this { Ledger().IsBlocked(target) }

    function IsStated(target: Key, unilaterally: bool := false): NullableBool
      reads this
    {
      Ledger().IsStated(target, unilaterally)
    }

    // -------------------------------------------------------------
    // Life cycle

    /** A new identity with generated key material `generatedKey` (the
        exported private key) and the nickname "Anonymous". */
    static method Generate(generatedKey: seq<byte>) returns (u: UserDataJSON)
      ensures fresh(u)
      ensures u.signKeyPair == Some(generatedKey) && u.nickname == Some("Anonymous") && u.icon.None?
      ensures u.Ledger() == Relationships.Empty && u.dirty && u.written == []
      ensures u.IsValid()
    {
      u := new UserDataJSON();
      u.SetSignKeyPair(None);
      u.SetNickname(Some("Anonymous"));
      u.SetIcon(None);
      u.signKeyPair := Some(generatedKey);
      u.dirty := true;
    }

    /** Reads the record from storage: `stored` is what deserialising the
        file gave, `None` when reading or parsing failed, in which case an
        empty (invalid) record is returned. A loaded record starts clean
        and has no blocks received. */
    static method Load(stored: Option<Record>) returns (u: UserDataJSON)
      ensures fresh(u) && u.written == []
      ensures stored.None? ==> u.Snapshot() == Record(None, None, None, {}, {}, {}) && u.blockReceived == {} && u.dirty
      ensures stored.Some? ==> u.Snapshot() == stored.value && u.blockReceived == {} && !u.dirty
    {
      u := new UserDataJSON();
      if stored.Some? {
        var rec := stored.value;
        u.SetSignKeyPair(rec.signKeyPair);
        u.SetNickname(rec.nickname);
        u.SetIcon(rec.icon);
        u.friendOffered := rec.friendOffered;
        u.friendReceived := rec.friendReceived;
        u.blockImposed := rec.blockImposed;
        u.dirty := false;
      }
    }

    /** Writes the record only when it is valid and dirty, then clears the
        flag; an invalid record is refused and nothing changes. */
    method Save()
      modifies this
      ensures Snapshot() == old(Snapshot()) && Ledger() == old(Ledger())
      ensures old(IsValid() && dirty) ==> written == old(written) + [Snapshot()] && !dirty
      ensures !old(IsValid() && dirty) ==> written == old(written) && dirty == old(dirty)
      ensures IsValid() ==> !dirty
      ensures old(written) <= written
      ensures forall i :: |old(written)| <= i < |written| ==> written[i].Valid()
      ensures (forall r :: r in old(written) ==> r.Valid()) ==> (forall r :: r in written ==> r.Valid())
    {
      if !IsValid() { return; }
      if !dirty { return; }
      written := written + [Snapshot()];
      dirty := false;
    }
  }
}
