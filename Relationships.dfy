/** The friend/block ledger of a private identity, as a value: four sets
    of peers keyed by public key, the toggles that change them, and the
    queries that combine them. The class in UserData.dfy is proved to
    follow these definitions call by call. */
module Relationships {
  import opened Types
  import opened Identity

  /** Which of the four sets a toggle works on. */
  datatype Relation = FriendOffered | FriendReceived | BlockImposed | BlockReceived

  datatype Ledger = Ledger(
    friendOffered: set<Key>,
    friendReceived: set<Key>,
    blockImposed: set<Key>,
    blockReceived: set<Key>)
  {
    function Members(r: Relation): set<Key>
    {
      match r
      case FriendOffered => friendOffered
      case FriendReceived => friendReceived
      case BlockImposed => blockImposed
      case BlockReceived => blockReceived
    }

    function With(r: Relation, s: set<Key>): Ledger
    {
      match r
      case FriendOffered => this.(friendOffered := s)
      case FriendReceived => this.(friendReceived := s)
      case BlockImposed => this.(blockImposed := s)
      case BlockReceived => this.(blockReceived := s)
    }

    predicate IsFriendOffered(t: Key) { t in friendOffered }
    predicate IsFriendReceived(t: Key) { t in friendReceived }
    predicate IsFriends(t: Key) { IsFriendOffered(t) && IsFriendReceived(t) }
    predicate IsBlocked(t: Key) { t in blockImposed || t in blockReceived }

    /** Combined state: `False` when blocked, `True` when friends, `Null`
        otherwise. The unilateral view looks only at this side's own block
        and offer. */
    function IsStated(t: Key, unilaterally: bool): (r: NullableBool)
      ensures r == False ==> IsBlocked(t)
      ensures r == True ==> IsFriendOffered(t) && t !in blockImposed
      ensures !unilaterally && r == True ==> IsFriends(t) && !IsBlocked(t)
    {
      if t in blockImposed || (!unilaterally && IsBlocked(t)) then False
      else if IsFriends(t) || (unilaterally && IsFriendOffered(t)) then True
      else Null
    }

    /** No peer this side has blocked, or been blocked by, has an offer. */
    predicate NoBlockedOffered()
    {
      friendOffered !! (blockImposed + blockReceived)
    }
  }

  const Empty := Ledger({}, {}, {}, {})

  /** A call's outcome: the new ledger and whether anything changed. */
  datatype Step = Step(ledger: Ledger, changed: bool)

  // ---------------------------------------------------------------
  // Transitions

  /** Puts `t` in or out of set `r`, reporting whether membership changed. */
  function HandleState(l: Ledger, t: Key, newState: bool, r: Relation): (s: Step)
    ensures t in s.ledger.Members(r) <==> newState
    ensures s.changed <==> (t in l.Members(r)) != newState
    ensures s.ledger.Members(r) - {t} == l.Members(r) - {t}
    ensures forall q :: q != r ==> s.ledger.Members(q) == l.Members(q)
  {
    var oldState := t in l.Members(r);
    var members := if newState then l.Members(r) + {t} else l.Members(r) - {t};
    Step(l.With(r, members), oldState != newState)
  }

  /** An offer toward a blocked peer is refused without any change. */
  function OfferFriend(l: Ledger, t: Key, offering: bool): (s: Step)
    ensures offering && l.IsBlocked(t) ==> s == Step(l, false)
    ensures !(offering && l.IsBlocked(t)) ==>
              (t in s.ledger.friendOffered <==> offering)
              && (s.changed <==> (t in l.friendOffered) != offering)
    ensures s.ledger.friendOffered - {t} == l.friendOffered - {t}
    ensures s.ledger.(friendOffered := l.friendOffered) == l
    ensures l.NoBlockedOffered() ==> s.ledger.NoBlockedOffered()
  {
    if offering && l.IsBlocked(t) then Step(l, false)
    else HandleState(l, t, offering, FriendOffered)
  }

  /** A revoked received friendship also revokes this side's offer. */
  function ReceiveFriend(l: Ledger, t: Key, receiving: bool): (s: Step)
    ensures t in s.ledger.friendReceived <==> receiving
    ensures s.changed <==> (t in l.friendReceived) != receiving
    ensures s.ledger.friendReceived - {t} == l.friendReceived - {t}
    ensures s.ledger.friendOffered == if !receiving && s.changed then l.friendOffered - {t} else l.friendOffered
    ensures s.ledger.blockImposed == l.blockImposed && s.ledger.blockReceived == l.blockReceived
    ensures l.NoBlockedOffered() ==> s.ledger.NoBlockedOffered()
  {
    var s := HandleState(l, t, receiving, FriendReceived);
    if !receiving && s.changed then Step(s.ledger.(friendOffered := s.ledger.friendOffered - {t}), true)
    else s
  }

  /** Imposing a block also revokes the offer to that peer. */
  function ImposeBlock(l: Ledger, t: Key, imposing: bool): (s: Step)
    ensures t in s.ledger.blockImposed <==> imposing
    ensures imposing ==> t !in s.ledger.friendOffered && s.ledger.IsStated(t, true) == False
    ensures s.ledger.friendReceived == l.friendReceived && s.ledger.blockReceived == l.blockReceived
    ensures l.NoBlockedOffered() ==> s.ledger.NoBlockedOffered()
  {
    var s := HandleState(l, t, imposing, BlockImposed);
    if imposing then
      var o := OfferFriend(s.ledger, t, false);
      Step(o.ledger, s.changed || o.changed)
    else s
  }

  /** Being blocked also revokes the offer to that peer. */
  function ReceiveBlock(l: Ledger, t: Key, receiving: bool): (s: Step)
    ensures t in s.ledger.blockReceived <==> receiving
    ensures receiving ==> t !in s.ledger.friendOffered && s.ledger.IsStated(t, false) == False
    ensures s.ledger.friendReceived == l.friendReceived && s.ledger.blockImposed == l.blockImposed
    ensures l.NoBlockedOffered() ==> s.ledger.NoBlockedOffered()
  {
    var s := HandleState(l, t, receiving, BlockReceived);
    if receiving then
      var o := OfferFriend(s.ledger, t, false);
      Step(o.ledger, s.changed || o.changed)
    else s
  }

  /** One call of a mutator. */
  datatype Op =
    | Offer(target: Key, on: bool)
    | Receive(target: Key, on: bool)
    | Impose(target: Key, on: bool)
    | Blocked(target: Key, on: bool)

  function Apply(l: Ledger, op: Op): Step
  {
    match op
    case Offer(t, b) => OfferFriend(l, t, b)
    case Receive(t, b) => ReceiveFriend(l, t, b)
    case Impose(t, b) => ImposeBlock(l, t, b)
    case Blocked(t, b) => ReceiveBlock(l, t, b)
  }

  /** The ledger after a sequence of calls. */
  function Run(l: Ledger, ops: seq<Op>): Ledger
    decreases |ops|
  {
    if ops == [] then l else Run(Apply(l, ops[0]).ledger, ops[1..])
  }

  // ---------------------------------------------------------------
  // Properties

  /** An offer toward a blocked peer returns false and changes nothing. */
  lemma OfferToBlockedRefused(l: Ledger, t: Key)
    requires l.IsBlocked(t)
    ensures OfferFriend(l, t, true) == Step(l, false)
  {
  }

  /** Withdrawing a received friendship that was there also withdraws the
      offer; when nothing changed, the offer is untouched. */
  lemma ReceiveFriendRevokes(l: Ledger, t: Key)
    ensures var s := ReceiveFriend(l, t, false);
            && s.changed == (t in l.friendReceived)
            && t !in s.ledger.friendReceived
            && (s.changed ==> s.ledger.friendOffered == l.friendOffered - {t})
            && (!s.changed ==> s.ledger == l)
            && s.ledger.blockImposed == l.blockImposed && s.ledger.blockReceived == l.blockReceived
  {
  }

  /** Accepting a received friendship touches only the received set. */
  lemma ReceiveFriendAccepts(l: Ledger, t: Key)
    ensures ReceiveFriend(l, t, true) == Step(l.(friendReceived := l.friendReceived + {t}), t !in l.friendReceived)
  {
  }

  /** A block in either direction puts the peer in the block set, revokes
      the offer, and reports whether either set changed. */
  lemma BlockRevokesOffer(l: Ledger, t: Key)
    ensures var s := ImposeBlock(l, t, true);
            && s.ledger == l.(blockImposed := l.blockImposed + {t}, friendOffered := l.friendOffered - {t})
            && s.changed == (t !in l.blockImposed || t in l.friendOffered)
    ensures var s := ReceiveBlock(l, t, true);
            && s.ledger == l.(blockReceived := l.blockReceived + {t}, friendOffered := l.friendOffered - {t})
            && s.changed == (t !in l.blockReceived || t in l.friendOffered)
  {
  }

  /** Lifting a block only removes the peer from that block set; it never
      restores an offer. */
  lemma UnblockOnlyUnblocks(l: Ledger, t: Key)
    ensures ImposeBlock(l, t, false) == Step(l.(blockImposed := l.blockImposed - {t}), t in l.blockImposed)
    ensures ReceiveBlock(l, t, false) == Step(l.(blockReceived := l.blockReceived - {t}), t in l.blockReceived)
  {
  }

  /** After blocking a peer, offering friendship to it is refused. */
  lemma BlockThenOfferRefused(l: Ledger, t: Key)
    ensures var b := ImposeBlock(l, t, true).ledger;
            OfferFriend(b, t, true) == Step(b, false) && !b.IsFriendOffered(t)
  {
  }

  /** Every mutator preserves "no blocked peer has an offer". */
  lemma ApplyPreservesNoBlockedOffered(l: Ledger, op: Op)
    requires l.NoBlockedOffered()
    ensures Apply(l, op).ledger.NoBlockedOffered()
  {
  }

  /** ... and so does any sequence of calls. */
  lemma {:induction false} RunPreservesNoBlockedOffered(l: Ledger, ops: seq<Op>)
    requires l.NoBlockedOffered()
    ensures Run(l, ops).NoBlockedOffered()
    decreases |ops|
  {
    if ops != [] {
      ApplyPreservesNoBlockedOffered(l, ops[0]);
      RunPreservesNoBlockedOffered(Apply(l, ops[0]).ledger, ops[1..]);
    }
  }

  /** Repeating a call changes nothing and reports no change. */
  lemma ApplyIdempotent(l: Ledger, op: Op)
    ensures var l' := Apply(l, op).ledger; Apply(l', op) == Step(l', false)
  {
  }

  /** The combined state, case by case. */
  lemma IsStatedCases(l: Ledger, t: Key, unilaterally: bool)
    ensures l.IsStated(t, unilaterally) == False
        <==> t in l.blockImposed || (!unilaterally && t in l.blockReceived)
    ensures l.IsStated(t, unilaterally) == True
        <==> t !in l.blockImposed && (unilaterally || t !in l.blockReceived)
             && t in l.friendOffered && (unilaterally || t in l.friendReceived)
  {
  }

  /** The unilateral view ignores blocks received. */
  lemma UnilateralIgnoresBlockReceived(l: Ledger, t: Key, received: set<Key>)
    ensures l.(blockReceived := received).IsStated(t, true) == l.IsStated(t, true)
  {
  }

  /** Where the invariant holds, a mutual friend is never reported blocked. */
  lemma FriendsAreNotBlocked(l: Ledger, t: Key)
    requires l.NoBlockedOffered() && l.IsFriends(t)
    ensures !l.IsBlocked(t) && l.IsStated(t, false) == True
  {
  }
}
