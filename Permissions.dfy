/** Content-moderation profiles: six tri-state switches, the fuzzy
    compatibility score between a declared profile and a viewer's filter,
    and the weighted-penalty violation check against a server's policy. */
module ServerPermissions {
  import opened Types

  // ---------------------------------------------------------------
  // Scoring one switch

  /** Relevance of one switch of a declared `setting` against the `user`'s
      filter: 2 when neither cares, 1 when exactly one side is unset,
      5 for an exact match and 0 for a conflict. */
  function FuzzyEq(setting: NullableBool, user: NullableBool): (r: nat)
    ensures r in {0, 1, 2, 5}
    ensures r >= 2 <==> setting == user
  {
    if setting == Null && user == Null then 2
    else if setting == Null || user == Null then 1
    else if setting == user then 5 else 0
  }

  /** The most a declared switch can earn: 2 when unset, 5 when decided. */
  function PossibleScore(setting: NullableBool): (r: nat)
    ensures r == FuzzyEq(setting, setting)
  {
    if setting == Null then 2 else 5
  }

  /** The whole scoring table, in both directions. */
  lemma FuzzyEqTable(setting: NullableBool, user: NullableBool)
    ensures FuzzyEq(setting, user) == 2 <==> setting == Null && user == Null
    ensures FuzzyEq(setting, user) == 1 <==> (setting == Null) != (user == Null)
    ensures FuzzyEq(setting, user) == 5 <==> setting != Null && setting == user
    ensures FuzzyEq(setting, user) == 0 <==> setting != Null && user != Null && setting != user
  {
  }

  lemma FuzzyEqSymmetric(a: NullableBool, b: NullableBool)
    ensures FuzzyEq(a, b) == FuzzyEq(b, a)
  {
  }

  /** A switch never earns more than its possible score, and earns all of
      it exactly when the filter agrees with it. */
  lemma FuzzyEqFull(setting: NullableBool, user: NullableBool)
    ensures FuzzyEq(setting, user) <= PossibleScore(setting)
    ensures FuzzyEq(setting, user) == PossibleScore(setting) <==> user == setting
  {
  }

  // ---------------------------------------------------------------
  // Profiles

  /** The six switches of a profile, as a value. */
  datatype Switches = Switches(
    flying: NullableBool,
    nudity: NullableBool,
    suggestive: NullableBool,
    violence: NullableBool,
    explicitNudes: NullableBool,
    excessiveViolence: NullableBool)
  {
    /** Score of this declared profile against the `user`'s filter. Flying
        counts double and the possible total starts from a fixed 10. */
    function MatchRatio(user: Switches): (r: Ratio)
      ensures 0 <= r.index <= r.possible
      ensures 20 <= r.possible <= 35
    {
      var index := 2 * FuzzyEq(flying, user.flying)
        + FuzzyEq(nudity, user.nudity) + FuzzyEq(suggestive, user.suggestive)
        + FuzzyEq(violence, user.violence) + FuzzyEq(excessiveViolence, user.excessiveViolence)
        + FuzzyEq(explicitNudes, user.explicitNudes);
      var possible := 10
        + PossibleScore(nudity) + PossibleScore(suggestive) + PossibleScore(violence)
        + PossibleScore(excessiveViolence) + PossibleScore(explicitNudes);
      Ratio(index, possible)
    }

    /** Whether content declaring this profile breaks the `server`'s policy.
        An unset content switch counts as flagged; Flying is ignored. */
    predicate IsInViolation(server: Switches)
      ensures Denied(this, server) ==> IsInViolation(server)
      ensures !Denied(this, server) ==> (IsInViolation(server) <==> UnclearPoints(this, server) > 2)
    {
      var points :=
        Penalty(violence.Coalesce(true), server.violence)
        + Penalty(nudity.Coalesce(true), server.nudity)
        + Penalty(suggestive.Coalesce(true), server.suggestive)
        + Penalty(excessiveViolence.Coalesce(true), server.excessiveViolence, 2)
        + Penalty(explicitNudes.Coalesce(true), server.explicitNudes, 2);
      points > 2
    }
  }

  datatype Ratio = Ratio(index: int, possible: int)

  const AllUnset := Switches(Null, Null, Null, Null, Null, Null)

  /** The conservative default: no flying, no excessive violence, the rest undeclared. */
  const PermissiveDefault := Switches(False, Null, Null, Null, Null, False)

  // ---------------------------------------------------------------
  // Properties of the score

  /** The possible total depends on the declared profile only. */
  lemma PossibleScoreOnly(s: Switches, user: Switches, other: Switches)
    ensures s.MatchRatio(user).possible == s.MatchRatio(other).possible
  {
  }

  /** One row of the score table: a setting, the filter's value for it,
      and how much the switch weighs. */
  datatype Term = Term(weight: nat, setting: NullableBool, filter: NullableBool)

  /** The six switches of a profile against a filter, Flying weighing double. */
  function Terms(s: Switches, user: Switches): seq<Term>
  {
    [ Term(2, s.flying, user.flying), Term(1, s.nudity, user.nudity),
      Term(1, s.suggestive, user.suggestive), Term(1, s.violence, user.violence),
      Term(1, s.excessiveViolence, user.excessiveViolence),
      Term(1, s.explicitNudes, user.explicitNudes) ]
  }

  /** The weighted sum of the switch scores of a table. */
  function WeightedScore(ts: seq<Term>): nat
  {
    if ts == [] then 0
    else ts[0].weight * FuzzyEq(ts[0].setting, ts[0].filter) + WeightedScore(ts[1..])
  }

  /** The earned index is the weighted score of the switch table. */
  lemma {:induction false} IndexIsWeightedScore(s: Switches, user: Switches)
    ensures s.MatchRatio(user).index == WeightedScore(Terms(s, user))
  {
    var t5 := [Term(1, s.explicitNudes, user.explicitNudes)];
    var t4 := [Term(1, s.excessiveViolence, user.excessiveViolence)] + t5;
    var t3 := [Term(1, s.violence, user.violence)] + t4;
    var t2 := [Term(1, s.suggestive, user.suggestive)] + t3;
    var t1 := [Term(1, s.nudity, user.nudity)] + t2;
    var t0 := [Term(2, s.flying, user.flying)] + t1;
    assert t5[1..] == [] && t4[1..] == t5 && t3[1..] == t4 && t2[1..] == t3 && t1[1..] == t2 && t0[1..] == t1;
    assert WeightedScore(t5) == FuzzyEq(s.explicitNudes, user.explicitNudes);
    assert WeightedScore(t4) == FuzzyEq(s.excessiveViolence, user.excessiveViolence) + WeightedScore(t5);
    assert WeightedScore(t3) == FuzzyEq(s.violence, user.violence) + WeightedScore(t4);
    assert WeightedScore(t2) == FuzzyEq(s.suggestive, user.suggestive) + WeightedScore(t3);
    assert WeightedScore(t1) == FuzzyEq(s.nudity, user.nudity) + WeightedScore(t2);
    assert WeightedScore(t0) == 2 * FuzzyEq(s.flying, user.flying) + WeightedScore(t1);
    assert Terms(s, user) == t0;
  }

  /** Turning some of a filter's switches to agree with the profile never
      lowers the score. */
  lemma {:induction false} AgreementNeverLowersScore(s: Switches, worse: Switches, better: Switches)
    requires better.flying in {worse.flying, s.flying}
    requires better.nudity in {worse.nudity, s.nudity}
    requires better.suggestive in {worse.suggestive, s.suggestive}
    requires better.violence in {worse.violence, s.violence}
    requires better.excessiveViolence in {worse.excessiveViolence, s.excessiveViolence}
    requires better.explicitNudes in {worse.explicitNudes, s.explicitNudes}
    ensures s.MatchRatio(worse).index <= s.MatchRatio(better).index
  {
    SwitchAgreement(s.flying, worse.flying, better.flying);
    SwitchAgreement(s.nudity, worse.nudity, better.nudity);
    SwitchAgreement(s.suggestive, worse.suggestive, better.suggestive);
    SwitchAgreement(s.violence, worse.violence, better.violence);
    SwitchAgreement(s.excessiveViolence, worse.excessiveViolence, better.excessiveViolence);
    SwitchAgreement(s.explicitNudes, worse.explicitNudes, better.explicitNudes);
  }

  lemma SwitchAgreement(setting: NullableBool, worse: NullableBool, better: NullableBool)
    requires better in {worse, setting}
    ensures FuzzyEq(setting, worse) <= FuzzyEq(setting, better)
  {
  }

  /** The score is full exactly when the filter equals the profile and
      Flying is decided: an unset Flying can never earn its 10 points. */
  lemma {:induction false} FullScoreIff(s: Switches, user: Switches)
    ensures s.MatchRatio(user).index == s.MatchRatio(user).possible
        <==> s.flying != Null && user == s
  {
    FuzzyEqFull(s.nudity, user.nudity);
    FuzzyEqFull(s.suggestive, user.suggestive);
    FuzzyEqFull(s.violence, user.violence);
    FuzzyEqFull(s.excessiveViolence, user.excessiveViolence);
    FuzzyEqFull(s.explicitNudes, user.explicitNudes);
  }

  /** Against itself a profile scores `possible` when Flying is decided
      and `possible - 6` when it is unset. */
  lemma SelfMatch(s: Switches)
    ensures s.flying != Null ==> s.MatchRatio(s).index == s.MatchRatio(s).possible
    ensures s.flying == Null ==> s.MatchRatio(s).index == s.MatchRatio(s).possible - 6
  {
  }

  // ---------------------------------------------------------------
  // Human-readable match indicator

  /** The bucket of `index / possible`: the single-precision quotient is
      compared through integer cross-multiplication. */
  function Label(r: Ratio): (str: string)
    requires r.possible > 0
    ensures str == "perfect" <==> r.index >= r.possible
    ensures str == "very poor" <==> 5 * r.index <= r.possible
    ensures 4 <= |str| <= 9
  {
    if r.index >= r.possible then "perfect"
    else if 5 * r.index > 4 * r.possible then "very good"
    else if 5 * r.index > 3 * r.possible then "good"
    else if 5 * r.index > 2 * r.possible then "mediocre"
    else if 5 * r.index > r.possible then "poor"
    else "very poor"
  }

  /** The number a string of decimal digits denotes, most significant first. */
  function DigitsValue(s: string): int
  {
    if s == [] then 0 else 10 * DigitsValue(s[..|s| - 1]) + (s[|s| - 1] as int - '0' as int)
  }

  /** Decimal digits of a natural number, as `int.ToString()` prints them:
      they denote the number and have no leading zero. */
  function Decimal(n: nat): (s: string)
    ensures |s| > 0
    ensures forall i :: 0 <= i < |s| ==> '0' <= s[i] <= '9'
    ensures DigitsValue(s) == n
    ensures s[0] == '0' <==> n == 0
    ensures n == 0 ==> s == "0"
  {
    var digit := ['0' + (n % 10) as char];
    if n < 10 then
      assert digit[..0] == [];
      digit
    else
      var high := Decimal(n / 10);
      assert (high + digit)[..|high|] == high;
      high + digit
  }

  /** "index (label)" of a declared profile against a filter. */
  function HumanReadableMI(s: Switches, user: Switches): (text: string)
    ensures |text| >= 8 && text[|text| - 1] == ')'
    ensures var r := s.MatchRatio(user);
            var tail := " (" + Label(r) + ")";
            && |text| > |tail| && text[|text| - |tail|..] == tail
            && (forall i :: 0 <= i < |text| - |tail| ==> '0' <= text[i] <= '9')
            && DigitsValue(text[..|text| - |tail|]) == r.index
    ensures Label(s.MatchRatio(user)) == "perfect" <==> user == s && s.flying != Null
  {
    var r := s.MatchRatio(user);
    FullScoreIff(s, user);
    var digits, tail := Decimal(r.index), " (" + Label(r) + ")";
    assert (digits + tail)[..|digits|] == digits;
    assert (digits + tail)[|digits|..] == tail;
    digits + tail
  }

  /** Two identical profiles read "perfect" only when Flying is decided. */
  lemma SelfMatchLabel(s: Switches)
    ensures s.flying != Null ==> Label(s.MatchRatio(s)) == "perfect"
    ensures s.flying == Null ==> Label(s.MatchRatio(s)) != "perfect"
  {
    SelfMatch(s);
  }

  // ---------------------------------------------------------------
  // Violation check

  /** The penalty of one content switch: nothing if the content does not
      carry the label or the server allows it, `unclear` if the server is
      undecided, and `clear` if the server forbids it. */
  function Penalty(world: bool, server: NullableBool, unclear: int := 1, clear: int := 5): (r: int)
    ensures !world ==> r == 0
    ensures world ==> r == match server case Null => unclear case True => 0 case False => clear
    ensures 0 < unclear && 0 < clear ==> (r == 0 <==> !world || server == True)
    ensures 0 <= unclear <= clear ==> 0 <= r <= clear
  {
    if !world then 0
    else if server == Null then unclear
    else if server == True then 0
    else clear
  }

  /** A content switch that is set or left unset carries the label. */
  predicate Flagged(content: NullableBool) { content != False }

  /** Some flagged content switch is explicitly forbidden by the server. */
  predicate Denied(content: Switches, server: Switches)
  {
    || (Flagged(content.violence) && server.violence == False)
    || (Flagged(content.nudity) && server.nudity == False)
    || (Flagged(content.suggestive) && server.suggestive == False)
    || (Flagged(content.excessiveViolence) && server.excessiveViolence == False)
    || (Flagged(content.explicitNudes) && server.explicitNudes == False)
  }

  /** Points from flagged switches the server leaves unset: 1 each for
      violence, nudity and suggestiveness, 2 each for the two heavier ones. */
  function UnclearPoints(content: Switches, server: Switches): (p: nat)
    ensures p <= 7
  {
    (if Flagged(content.violence) && server.violence == Null then 1 else 0)
    + (if Flagged(content.nudity) && server.nudity == Null then 1 else 0)
    + (if Flagged(content.suggestive) && server.suggestive == Null then 1 else 0)
    + (if Flagged(content.excessiveViolence) && server.excessiveViolence == Null then 2 else 0)
    + (if Flagged(content.explicitNudes) && server.explicitNudes == Null then 2 else 0)
  }

  /** Independent reading of the violation rule: one explicit denial of a
      flagged switch always violates, otherwise only the unclear points count. */
  lemma ViolationIff(content: Switches, server: Switches)
    ensures content.IsInViolation(server) <==> Denied(content, server) || UnclearPoints(content, server) > 2
  {
  }

  /** A server that allows all five labels is never violated. */
  lemma AllowingServerNeverViolated(content: Switches, server: Switches)
    requires server.violence == True && server.nudity == True && server.suggestive == True
    requires server.excessiveViolence == True && server.explicitNudes == True
    ensures !content.IsInViolation(server)
  {
  }

  /** Content that declares all five labels false never violates. */
  lemma CleanContentNeverViolates(content: Switches, server: Switches)
    requires content.violence == False && content.nudity == False && content.suggestive == False
    requires content.excessiveViolence == False && content.explicitNudes == False
    ensures !content.IsInViolation(server)
  {
  }

  /** Flying plays no part in the violation check. */
  lemma ViolationIgnoresFlying(content: Switches, server: Switches, f: NullableBool, g: NullableBool)
    ensures content.(flying := f).IsInViolation(server.(flying := g)) == content.IsInViolation(server)
  {
  }

  // ---------------------------------------------------------------
  // The mutable profile

  /** A profile whose switch setters track whether it needs saving. */
  class PermissionsJSON {
    var flying: NullableBool
    var nudity: NullableBool
    var suggestive: NullableBool
    var violence: NullableBool
    var explicitNudes: NullableBool
    var excessiveViolence: NullableBool
    var dirty: bool
    /** The profiles `Save` has written to the configuration file, in order. */
    ghost var written: seq<Switches>

    function Value(): Switches
      reads this
    {
      Switches(flying, nudity, suggestive, violence, explicitNudes, excessiveViolence)
    }

    /** A fresh profile: every switch unset, and dirty. */
    constructor ()
      ensures Value() == AllUnset && dirty && written == []
    {
      flying, nudity, suggestive, violence, explicitNudes, excessiveViolence :=
        Null, Null, Null, Null, Null, Null;
      dirty := true;
      written := [];
    }

    /** The conservative default profile, assigned through the setters. */
    constructor Permissive()
      ensures Value() == PermissiveDefault && dirty && written == []
    {
      flying, nudity, suggestive, violence, explicitNudes, excessiveViolence :=
        Null, Null, Null, Null, Null, Null;
      dirty := true;
      written := [];
      new;
      SetFlying(False);
      SetNudity(Null);
      SetSuggestive(Null);
      SetViolence(Null);
      SetExplicitNudes(Null);
      SetExcessiveViolence(False);
    }

    method SetFlying(v: NullableBool)
      modifies this
      ensures Value() == old(Value()).(flying := v)
      ensures dirty == (old(dirty) || old(flying) != v)
      ensures written == old(written)
    {
      if flying == v { return; }
      flying := v;
      dirty := true;
    }

    method SetNudity(v: NullableBool)
      modifies this
      ensures Value() == old(Value()).(nudity := v)
      ensures dirty == (old(dirty) || old(nudity) != v)
      ensures written == old(written)
    {
      if nudity == v { return; }
      nudity := v;
      dirty := true;
    }

    method SetSuggestive(v: NullableBool)
      modifies this
      ensures Value() == old(Value()).(suggestive := v)
      ensures dirty == (old(dirty) || old(suggestive) != v)
      ensures written == old(written)
    {
      if suggestive == v { return; }
      suggestive := v;
      dirty := true;
    }

    method SetViolence(v: NullableBool)
      modifies this
      ensures Value() == old(Value()).(violence := v)
      ensures dirty == (old(dirty) || old(violence) != v)
      ensures written == old(written)
    {
      if violence == v { return; }
      violence := v;
      dirty := true;
    }

    method SetExplicitNudes(v: NullableBool)
      modifies this
      ensures Value() == old(Value()).(explicitNudes := v)
      ensures dirty == (old(dirty) || old(explicitNudes) != v)
      ensures written == old(written)
    {
      if explicitNudes == v { return; }
      explicitNudes := v;
      dirty := true;
    }

    method SetExcessiveViolence(v: NullableBool)
      modifies this
      ensures Value() == old(Value()).(excessiveViolence := v)
      ensures dirty == (old(dirty) || old(excessiveViolence) != v)
      ensures written == old(written)
    {
      if excessiveViolence == v { return; }
      excessiveViolence := v;
      dirty := true;
    }

    /** Equal when all six switches agree; the dirty flag plays no part. */
    method Equals(other: PermissionsJSON?) returns (eq: bool)
      ensures eq <==> other != null && Value() == other.Value()
    {
      eq := other != null
        && flying == other.flying
        && explicitNudes == other.explicitNudes
        && nudity == other.nudity
        && suggestive == other.suggestive
        && violence == other.violence
        && excessiveViolence == other.excessiveViolence;
    }

    /** `left == right`: two nulls are equal, null and a profile are not. */
    static method OperatorEquals(left: PermissionsJSON?, right: PermissionsJSON?) returns (eq: bool)
      ensures eq <==>
        (left == null && right == null) || (left != null && right != null && left.Value() == right.Value())
    {
      if left == null || right == null {
        eq := left == right;
      } else {
        eq := left.Equals(right);
      }
    }

    /** Reads a profile from storage: `stored` is what deserialising the
        file gave, `None` when reading or parsing failed. A loaded profile
        starts clean. */
    static method Load(stored: Option<Switches>) returns (p: PermissionsJSON?)
      ensures stored.None? ==> p == null
      ensures stored.Some? ==> p != null && fresh(p) && p.Value() == stored.value && !p.dirty && p.written == []
    {
      if stored.None? {
        return null;
      }
      p := new PermissionsJSON();
      p.SetFlying(stored.value.flying);
      p.SetNudity(stored.value.nudity);
      p.SetSuggestive(stored.value.suggestive);
      p.SetViolence(stored.value.violence);
      p.SetExplicitNudes(stored.value.explicitNudes);
      p.SetExcessiveViolence(stored.value.excessiveViolence);
      p.dirty := false;
    }

    /** Writes the profile only when it is dirty, and then clears the flag,
        so a second `Save` right after writes nothing. */
    method Save()
      modifies this
      ensures Value() == old(Value()) && !dirty
      ensures written == if old(dirty) then old(written) + [Value()] else old(written)
    {
      if !dirty { return; }
      written := written + [Value()];
      dirty := false;
    }
  }
}
