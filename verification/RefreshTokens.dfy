/**
 * Refresh-token families: RefreshToken.ts and the use cases that issue, rotate, revoke and switch.
 * Tokens are rows in the order they were issued; a transaction and a family revocation are one step.
 */
module RefreshTokens {
  import opened Common

  datatype Token = Token(
    id: string, userId: string, org: Option<string>, family: string, hash: string,
    issuedAt: int, expiresAt: int, revokedAt: Option<int>, replacedById: Option<string>)
  {
    predicate Revoked() {
      revokedAt.Some?
    }

    predicate Usable(now: int) {
      !Revoked() && now < expiresAt
    }
  }

  type Tokens = seq<Token>

  /** New random values for one token. */
  datatype Random = Random(id: string, hash: string)

  /** What the user and membership repositories answer. */
  datatype Directory = Directory(users: set<string>, active: set<(string, string)>, defaults: map<string, string>)

  // ---- Steps.

  datatype Step =
    | Issue(userId: string, org: Option<string>, family: string, id: string, hash: string, now: int, ttl: nat)
    | Rotate(presented: string, dir: Directory, id: string, hash: string, now: int, ttl: nat)
    | RevokeFamily(family: string, now: int)

  function NewToken(userId: string, org: Option<string>, family: string, id: string, hash: string, now: int, ttl: nat): Token {
    Token(id, userId, org, family, hash, now, now + ttl, None, None)
  }

  function IdOf(t: Token): string {
    t.id
  }

  function HashOf(t: Token): string {
    t.hash
  }

  /** The last row with this value of a unique column. */
  function FindBy(tokens: Tokens, column: Token -> string, value: string): (i: Option<nat>)
    ensures i.Some? ==> i.value < |tokens| && column(tokens[i.value]) == value
    ensures i.None? ==> forall k :: 0 <= k < |tokens| ==> column(tokens[k]) != value
  {
    if tokens == [] then None
    else if column(tokens[|tokens| - 1]) == value then Some(|tokens| - 1)
    else FindBy(tokens[..|tokens| - 1], column, value)
  }

  function Find(tokens: Tokens, hash: string): (i: Option<nat>)
    ensures i.Some? ==> i.value < |tokens| && tokens[i.value].hash == hash
    ensures i.None? ==> forall k :: 0 <= k < |tokens| ==> tokens[k].hash != hash
  {
    FindBy(tokens, HashOf, hash)
  }

  datatype Outcome =
    | Rotated(org: string)
    | RevokeAndReject(family: string)
    | Unauthorized
    | AlreadyReplaced

  /** The organization the new token is for; None rejects. */
  function OrganizationFor(t: Token, dir: Directory): Option<string> {
    if t.userId !in dir.users then None
    else if t.org.Some? && t.org.value != "" then
      if (t.userId, t.org.value) in dir.active then t.org else None
    else if t.userId in dir.defaults then Some(dir.defaults[t.userId])
    else None
  }

  function RotateOutcome(tokens: Tokens, presented: string, dir: Directory, now: int): Outcome {
    var i := Find(tokens, presented);
    if i.None? then Unauthorized
    else
      var t := tokens[i.value];
      if t.Revoked() || t.expiresAt <= now then RevokeAndReject(t.family)
      else
        var org := OrganizationFor(t, dir);
        if org.None? then Unauthorized
        else if t.replacedById.Some? then AlreadyReplaced
        else Rotated(org.value)
  }

  /** The presented token is a row, usable, its user known, and organization `o` is its own, still active, or its user's default. */
  predicate MayRotate(t: Token, presented: string, dir: Directory, o: string, now: int) {
    && t.hash == presented && t.revokedAt.None? && now < t.expiresAt && t.userId in dir.users
    && if t.org.None? || t.org.value == "" then t.userId in dir.defaults && dir.defaults[t.userId] == o
       else t.org.value == o && (t.userId, o) in dir.active
  }

  /**
   * Rotated for `o` exactly when some row may rotate for it, the family's revocation exactly when the presented
   * row is revoked or expired, and otherwise, for an unknown token too, unauthorized.
   */
  ghost predicate Answered(tokens: Tokens, presented: string, dir: Directory, outcome: Outcome, now: int) {
    && (forall o :: outcome == Rotated(o) <==> exists i :: 0 <= i < |tokens| && MayRotate(tokens[i], presented, dir, o, now))
    && (forall f :: outcome == RevokeAndReject(f) <==>
          exists i :: 0 <= i < |tokens| && tokens[i].hash == presented && tokens[i].family == f
                      && (tokens[i].revokedAt.Some? || tokens[i].expiresAt <= now))
    && !outcome.AlreadyReplaced?
  }

  lemma FoundIs(tokens: Tokens, presented: string, i: nat)
    requires Distinct(tokens) && i < |tokens| && tokens[i].hash == presented
    ensures Find(tokens, presented) == Some(i)
  {
    var found := Find(tokens, presented).value;
    assert found < i || i < found || found == i;
  }

  lemma MayRotateFor(t: Token, presented: string, dir: Directory, o: string, now: int)
    requires t.hash == presented && t.revokedAt.None? && now < t.expiresAt
    ensures OrganizationFor(t, dir) == Some(o) <==> MayRotate(t, presented, dir, o, now)
  {
  }

  lemma AnsweredFor(tokens: Tokens, presented: string, dir: Directory, now: int, i: nat)
    requires Inv(tokens) && i < |tokens| && tokens[i].hash == presented
    ensures var outcome := RotateOutcome(tokens, presented, dir, now);
            && (forall o :: outcome == Rotated(o) <==> MayRotate(tokens[i], presented, dir, o, now))
            && (forall f :: outcome == RevokeAndReject(f) <==>
                  tokens[i].family == f && (tokens[i].revokedAt.Some? || tokens[i].expiresAt <= now))
  {
    FoundIs(tokens, presented, i);
    ReplaceNeverThrows(tokens, presented, dir, now);
    forall o
      ensures RotateOutcome(tokens, presented, dir, now) == Rotated(o) <==> MayRotate(tokens[i], presented, dir, o, now)
    {
      if !tokens[i].Revoked() && now < tokens[i].expiresAt {
        MayRotateFor(tokens[i], presented, dir, o, now);
      }
    }
  }

  /** Each answer of a rotation, from the rows and the directory. */
  lemma RotationAnswers(tokens: Tokens, presented: string, dir: Directory, now: int)
    requires Inv(tokens)
    ensures Answered(tokens, presented, dir, RotateOutcome(tokens, presented, dir, now), now)
  {
    ReplaceNeverThrows(tokens, presented, dir, now);
    var found := Find(tokens, presented);
    if found.Some? {
      var i := found.value;
      AnsweredFor(tokens, presented, dir, now, i);
      forall k | 0 <= k < |tokens| && tokens[k].hash == presented
        ensures k == i
      {
        FoundIs(tokens, presented, k);
      }
    }
  }

  /** The rows after a rotation for `o`: the presented one revoked and replaced, the new one live for `ttl`. */
  ghost predicate RotatedRows(tokens: Tokens, after: Tokens, presented: string, o: string, r: Random, now: int, ttl: nat) {
    exists i :: 0 <= i < |tokens| && tokens[i].hash == presented
      && after == tokens[i := tokens[i].(revokedAt := Some(now), replacedById := Some(r.id))]
                  + [Token(r.id, tokens[i].userId, Some(o), tokens[i].family, r.hash, now, now + ttl, None, None)]
  }

  /** The rotation's transaction; every outcome but Rotated leaves the rows as they were. */
  function RotateTokens(tokens: Tokens, presented: string, dir: Directory, id: string, hash: string, now: int, ttl: nat): Tokens {
    var outcome := RotateOutcome(tokens, presented, dir, now);
    if !outcome.Rotated? then tokens
    else
      var i := Find(tokens, presented).value;
      var t := tokens[i];
      tokens[i := t.(revokedAt := Some(now), replacedById := Some(id))]
      + [NewToken(t.userId, Some(outcome.org), t.family, id, hash, now, ttl)]
  }

  function RevokeAll(tokens: Tokens, family: string, now: int): Tokens {
    seq(|tokens|, i requires 0 <= i < |tokens| =>
      if tokens[i].family == family && !tokens[i].Revoked() then tokens[i].(revokedAt := Some(now)) else tokens[i])
  }

  function Apply(tokens: Tokens, step: Step): Tokens {
    match step
    case Issue(userId, org, family, id, hash, now, ttl) => tokens + [NewToken(userId, org, family, id, hash, now, ttl)]
    case Rotate(presented, dir, id, hash, now, ttl) => RotateTokens(tokens, presented, dir, id, hash, now, ttl)
    case RevokeFamily(family, now) => RevokeAll(tokens, family, now)
  }

  predicate FreshToken(tokens: Tokens, id: string, hash: string) {
    forall i :: 0 <= i < |tokens| ==> tokens[i].id != id && tokens[i].hash != hash
  }

  predicate FreshFamily(tokens: Tokens, family: string) {
    forall i :: 0 <= i < |tokens| ==> tokens[i].family != family
  }

  /** Random ids, hashes and family ids are new ones. */
  predicate Enabled(tokens: Tokens, step: Step) {
    match step
    case Issue(_, org, family, id, hash, _, _) => FreshToken(tokens, id, hash) && FreshFamily(tokens, family) && org != Some("")
    case Rotate(_, dir, id, hash, _, _) => FreshToken(tokens, id, hash) && "" !in dir.defaults.Values
    case RevokeFamily(_, _) => true
  }

  ghost predicate Follows(tokens: Tokens, steps: seq<Step>, end: Tokens)
    decreases |steps|
  {
    if steps == [] then end == tokens
    else Enabled(tokens, steps[0]) && Follows(Apply(tokens, steps[0]), steps[1..], end)
  }

  lemma FollowsFirst(tokens: Tokens, steps: seq<Step>, next: Tokens, end: Tokens)
    requires steps != [] && Enabled(tokens, steps[0]) && next == Apply(tokens, steps[0]) && Follows(next, steps[1..], end)
    ensures Follows(tokens, steps, end)
  {
  }

  lemma {:induction false} FollowsThen(tokens: Tokens, first: seq<Step>, mid: Tokens, then_: seq<Step>, end: Tokens)
    requires Follows(tokens, first, mid) && Follows(mid, then_, end)
    ensures Follows(tokens, first + then_, end)
    decreases |first|
  {
    if first == [] {
      assert [] + then_ == then_;
    } else {
      var next := Apply(tokens, first[0]);
      assert (first + then_)[1..] == first[1..] + then_;
      FollowsThen(next, first[1..], mid, then_, end);
      FollowsFirst(tokens, first + then_, next, end);
    }
  }

  // ---- The chain.

  /** Token `j` is the next of token `i`'s family. */
  ghost predicate IsNext(tokens: Tokens, i: int, j: int) {
    && 0 <= i < j < |tokens| && tokens[i].family == tokens[j].family
    && forall k :: i < k < j ==> tokens[k].family != tokens[i].family
  }

  ghost predicate IsLast(tokens: Tokens, i: int) {
    0 <= i < |tokens| && forall k :: i < k < |tokens| ==> tokens[k].family != tokens[i].family
  }

  ghost predicate Distinct(tokens: Tokens) {
    forall i, j :: 0 <= i < j < |tokens| ==> tokens[i].id != tokens[j].id && tokens[i].hash != tokens[j].hash
  }

  /** Each token but the last of its family is revoked and replaced by the next; the last is replaced by none. */
  ghost predicate Chained(tokens: Tokens) {
    && (forall i, j :: IsNext(tokens, i, j) ==> tokens[i].Revoked() && tokens[i].replacedById == Some(tokens[j].id))
    && (forall i :: IsLast(tokens, i) ==> tokens[i].replacedById.None?)
  }

  /** One user throughout, and one organization from the first token that has one. */
  ghost predicate SameOwner(tokens: Tokens) {
    forall i, j :: 0 <= i < j < |tokens| && tokens[i].family == tokens[j].family ==>
      tokens[i].userId == tokens[j].userId && (tokens[i].org.Some? ==> tokens[j].org == tokens[i].org)
  }

  ghost predicate OrgsNamed(tokens: Tokens) {
    forall i :: 0 <= i < |tokens| ==> tokens[i].org != Some("")
  }

  ghost predicate Inv(tokens: Tokens) {
    Distinct(tokens) && Chained(tokens) && SameOwner(tokens) && OrgsNamed(tokens)
  }

  lemma {:induction false} NextOrLast(tokens: Tokens, i: int, j: int)
    requires 0 <= i < j <= |tokens|
    requires forall k :: i < k < j ==> tokens[k].family != tokens[i].family
    ensures IsLast(tokens, i) || exists n :: IsNext(tokens, i, n)
    decreases |tokens| - j
  {
    if j == |tokens| {
      assert IsLast(tokens, i);
    } else if tokens[j].family == tokens[i].family {
      assert IsNext(tokens, i, j);
    } else {
      NextOrLast(tokens, i, j + 1);
    }
  }

  /** A token that is not revoked is the last of its family, and not replaced. */
  lemma LiveIsLast(tokens: Tokens, i: int)
    requires Inv(tokens) && 0 <= i < |tokens| && !tokens[i].Revoked()
    ensures IsLast(tokens, i) && tokens[i].replacedById.None?
  {
    NextOrLast(tokens, i, i + 1);
  }

  lemma OneLivePerFamily(tokens: Tokens, i: int, j: int)
    requires Inv(tokens) && 0 <= i < |tokens| && 0 <= j < |tokens|
    requires !tokens[i].Revoked() && !tokens[j].Revoked() && tokens[i].family == tokens[j].family
    ensures i == j
  {
    LiveIsLast(tokens, i);
    LiveIsLast(tokens, j);
  }

  lemma ReplaceNeverThrows(tokens: Tokens, presented: string, dir: Directory, now: int)
    requires Inv(tokens)
    ensures !RotateOutcome(tokens, presented, dir, now).AlreadyReplaced?
  {
    var i := Find(tokens, presented);
    if i.Some? && !tokens[i.value].Revoked() {
      LiveIsLast(tokens, i.value);
    }
  }

  /** One more token links to the last of its family, and leaves the other links. */
  lemma AppendedNext(tokens: Tokens, t: Token, i: int, j: int)
    requires IsNext(tokens + [t], i, j)
    ensures if j < |tokens| then IsNext(tokens, i, j) else IsLast(tokens, i) && tokens[i].family == t.family
  {
    var after := tokens + [t];
    assert forall k :: 0 <= k < |tokens| ==> after[k] == tokens[k];
    forall k | i < k < j && k < |tokens|
      ensures tokens[k].family != tokens[i].family
    {
      assert after[k].family != after[i].family;
    }
  }

  lemma AppendedLast(tokens: Tokens, t: Token, i: int)
    requires IsLast(tokens + [t], i)
    ensures i == |tokens| || (IsLast(tokens, i) && tokens[i].family != t.family)
  {
    var after := tokens + [t];
    assert after[|tokens|] == t;
    forall k | i < k < |tokens|
      ensures tokens[k].family != tokens[i].family
    {
      assert after[k].family != after[i].family;
    }
  }

  lemma IssueChained(tokens: Tokens, t: Token)
    requires Chained(tokens) && FreshFamily(tokens, t.family) && t.replacedById.None?
    ensures Chained(tokens + [t])
  {
    var after := tokens + [t];
    forall i, j | IsNext(after, i, j)
      ensures after[i].Revoked() && after[i].replacedById == Some(after[j].id)
    {
      AppendedNext(tokens, t, i, j);
    }
    forall i | IsLast(after, i)
      ensures after[i].replacedById.None?
    {
      AppendedLast(tokens, t, i);
    }
  }

  lemma IssueKeeps(tokens: Tokens, t: Token)
    requires Inv(tokens) && FreshToken(tokens, t.id, t.hash) && FreshFamily(tokens, t.family)
    requires t.replacedById.None? && t.org != Some("")
    ensures Inv(tokens + [t])
  {
    IssueChained(tokens, t);
  }

  lemma RevokeChained(tokens: Tokens, family: string, now: int)
    requires Chained(tokens)
    ensures Chained(RevokeAll(tokens, family, now))
  {
    var after := RevokeAll(tokens, family, now);
    SameFamiliesSameLinks(tokens, after);
    forall i, j | IsNext(after, i, j)
      ensures after[i].Revoked() && after[i].replacedById == Some(after[j].id)
    {
      assert IsNext(tokens, i, j);
    }
    forall i | IsLast(after, i)
      ensures after[i].replacedById.None?
    {
      assert IsLast(tokens, i);
    }
  }

  /** The links depend on the families alone. */
  lemma SameFamiliesSameLinks(tokens: Tokens, after: Tokens)
    requires |after| == |tokens| && forall k :: 0 <= k < |tokens| ==> after[k].family == tokens[k].family
    ensures forall i, j :: IsNext(after, i, j) <==> IsNext(tokens, i, j)
    ensures forall i :: IsLast(after, i) <==> IsLast(tokens, i)
  {
  }

  lemma RevokeKeeps(tokens: Tokens, family: string, now: int)
    requires Inv(tokens)
    ensures Inv(RevokeAll(tokens, family, now))
  {
    RevokeChained(tokens, family, now);
  }

  lemma RotateKeeps(tokens: Tokens, step: Step)
    requires Inv(tokens) && step.Rotate? && Enabled(tokens, step)
    ensures Inv(Apply(tokens, step))
  {
    var outcome := RotateOutcome(tokens, step.presented, step.dir, step.now);
    if outcome.Rotated? {
      var i := Find(tokens, step.presented).value;
      LiveIsLast(tokens, i);
      RotatedChain(tokens, i, step.id, step.hash, outcome.org, step.now, step.ttl);
    }
  }

  lemma ReplacedChained(tokens: Tokens, i: nat, revoked: Token, t: Token)
    requires Chained(tokens) && IsLast(tokens, i) && revoked.family == t.family == tokens[i].family
    requires revoked.id == tokens[i].id && revoked.Revoked() && revoked.replacedById == Some(t.id) && t.replacedById.None?
    ensures Chained(tokens[i := revoked] + [t])
  {
    var updated := tokens[i := revoked];
    SameFamiliesSameLinks(tokens, updated);
    var after := updated + [t];
    forall p, q | IsNext(after, p, q)
      ensures after[p].Revoked() && after[p].replacedById == Some(after[q].id)
    {
      AppendedNext(updated, t, p, q);
      if q < |tokens| {
        LastHasNoNext(tokens, p, q, i);
      } else {
        OneLast(tokens, p, i);
      }
    }
    forall p | IsLast(after, p)
      ensures after[p].replacedById.None?
    {
      AppendedLast(updated, t, p);
    }
  }

  lemma LastHasNoNext(tokens: Tokens, p: int, q: int, i: int)
    requires IsNext(tokens, p, q) && IsLast(tokens, i)
    ensures p != i
  {
  }

  lemma OneLast(tokens: Tokens, p: int, i: int)
    requires IsLast(tokens, p) && IsLast(tokens, i) && tokens[p].family == tokens[i].family
    ensures p == i
  {
  }

  lemma ReplacedOwner(tokens: Tokens, i: nat, revoked: Token, t: Token)
    requires SameOwner(tokens) && IsLast(tokens, i) && revoked.family == t.family == tokens[i].family
    requires revoked.userId == t.userId == tokens[i].userId && revoked.org == tokens[i].org
    requires revoked.org.Some? ==> t.org == revoked.org
    ensures SameOwner(tokens[i := revoked] + [t])
  {
    var n := |tokens|;
    var after := tokens[i := revoked] + [t];
    forall p, q | 0 <= p < q < |after| && after[p].family == after[q].family
      ensures after[p].userId == after[q].userId && (after[p].org.Some? ==> after[q].org == after[p].org)
    {
      if q == n {
        assert p <= i;
      }
    }
  }

  lemma RotatedChain(tokens: Tokens, i: nat, id: string, hash: string, org: string, now: int, ttl: nat)
    requires Inv(tokens) && IsLast(tokens, i) && FreshToken(tokens, id, hash) && org != ""
    requires tokens[i].org.Some? ==> tokens[i].org.value == org
    ensures var t := tokens[i];
            Inv(tokens[i := t.(revokedAt := Some(now), replacedById := Some(id))]
                + [NewToken(t.userId, Some(org), t.family, id, hash, now, ttl)])
  {
    var t := tokens[i];
    var revoked, new_ := t.(revokedAt := Some(now), replacedById := Some(id)), NewToken(t.userId, Some(org), t.family, id, hash, now, ttl);
    ReplacedChained(tokens, i, revoked, new_);
    ReplacedOwner(tokens, i, revoked, new_);
  }

  lemma InvStep(tokens: Tokens, step: Step)
    requires Inv(tokens) && Enabled(tokens, step)
    ensures Inv(Apply(tokens, step))
  {
    match step
    case Issue(userId, org, family, id, hash, now, ttl) => IssueKeeps(tokens, NewToken(userId, org, family, id, hash, now, ttl));
    case Rotate(_, _, _, _, _, _) => RotateKeeps(tokens, step);
    case RevokeFamily(family, now) => RevokeKeeps(tokens, family, now);
  }

  lemma {:induction false} InvOverRuns(tokens: Tokens, steps: seq<Step>, end: Tokens)
    requires Inv(tokens) && Follows(tokens, steps, end)
    ensures Inv(end)
    decreases |steps|
  {
    if steps != [] {
      InvStep(tokens, steps[0]);
      InvOverRuns(Apply(tokens, steps[0]), steps[1..], end);
    }
  }

  /** In every reachable state: one chain a family, in issue order. */
  lemma InvAlways(steps: seq<Step>, end: Tokens)
    requires Follows([], steps, end)
    ensures Inv(end)
  {
    InvOverRuns([], steps, end);
  }

  /** A token is replaced by the next of its family and by no other, so the chain never turns back. */
  lemma ReplacedByNext(tokens: Tokens, i: nat, j: nat)
    requires Inv(tokens) && i < |tokens| && j < |tokens|
    ensures tokens[i].replacedById == Some(tokens[j].id) <==> IsNext(tokens, i, j)
  {
    NextOrLast(tokens, i, i + 1);
    if !IsLast(tokens, i) {
      var n :| IsNext(tokens, i, n);
      assert j != n ==> tokens[n].id != tokens[j].id;
    }
  }

  // ---- Dead families.

  predicate Dead(tokens: Tokens, family: string) {
    && (exists i :: 0 <= i < |tokens| && tokens[i].family == family)
    && forall i :: 0 <= i < |tokens| && tokens[i].family == family ==> tokens[i].Revoked()
  }

  lemma DeadStep(tokens: Tokens, step: Step, family: string)
    requires Dead(tokens, family) && Enabled(tokens, step)
    ensures Dead(Apply(tokens, step), family)
  {
    var i :| 0 <= i < |tokens| && tokens[i].family == family;
    assert Apply(tokens, step)[i].family == family;
  }

  /** Over any run, a dead family stays dead, so it never has a usable token again. */
  lemma {:induction false} DeadStaysDead(tokens: Tokens, steps: seq<Step>, end: Tokens, family: string)
    requires Dead(tokens, family) && Follows(tokens, steps, end)
    ensures Dead(end, family)
    ensures forall i, now :: 0 <= i < |end| && end[i].family == family ==> !end[i].Usable(now)
    decreases |steps|
  {
    if steps != [] {
      DeadStep(tokens, steps[0], family);
      DeadStaysDead(Apply(tokens, steps[0]), steps[1..], end, family);
    }
  }

  lemma {:induction false} FamilyStays(tokens: Tokens, steps: seq<Step>, end: Tokens, i: nat)
    requires i < |tokens| && Follows(tokens, steps, end)
    ensures i < |end| && end[i].family == tokens[i].family && end[i].userId == tokens[i].userId
    decreases |steps|
  {
    if steps != [] {
      FamilyStays(Apply(tokens, steps[0]), steps[1..], end, i);
    }
  }

  /**
   * Presenting a revoked or expired token, whatever runs before the revocation that follows and
   * whatever runs after it: the whole family is revoked for good.
   */
  lemma PresentedFamilyDies(
    tokens: Tokens, presented: string, dir: Directory, now: int,
    between: seq<Step>, before: Tokens, revokedAt: int, later: seq<Step>, end: Tokens)
    requires var outcome := RotateOutcome(tokens, presented, dir, now);
             outcome.RevokeAndReject? && Follows(tokens, between, before)
             && Follows(RevokeAll(before, outcome.family, revokedAt), later, end)
    ensures Dead(end, RotateOutcome(tokens, presented, dir, now).family)
  {
    var i := Find(tokens, presented).value;
    FamilyStays(tokens, between, before, i);
    var revoked := RevokeAll(before, tokens[i].family, revokedAt);
    assert revoked[i].family == tokens[i].family;
    DeadStaysDead(revoked, later, end, tokens[i].family);
  }

  // ---- Spent families: from `now` on, no token of theirs is usable.

  predicate Spent(tokens: Tokens, family: string, now: int) {
    && (exists i :: 0 <= i < |tokens| && tokens[i].family == family)
    && forall i :: 0 <= i < |tokens| && tokens[i].family == family ==> !tokens[i].Usable(now)
  }

  predicate ClockFrom(step: Step, now: int) {
    now <= step.now
  }

  ghost predicate ClocksFrom(steps: seq<Step>, now: int) {
    forall k :: 0 <= k < |steps| ==> ClockFrom(steps[k], now)
  }

  lemma SpentStep(tokens: Tokens, step: Step, family: string, now: int)
    requires Spent(tokens, family, now) && Enabled(tokens, step) && ClockFrom(step, now)
    ensures Spent(Apply(tokens, step), family, now)
  {
    var i :| 0 <= i < |tokens| && tokens[i].family == family;
    assert Apply(tokens, step)[i].family == family;
  }

  lemma {:induction false} SpentStays(tokens: Tokens, steps: seq<Step>, end: Tokens, family: string, now: int)
    requires Spent(tokens, family, now) && Follows(tokens, steps, end)
    requires ClocksFrom(steps, now)
    ensures Spent(end, family, now)
    decreases |steps|
  {
    if steps != [] {
      SpentStep(tokens, steps[0], family, now);
      SpentStays(Apply(tokens, steps[0]), steps[1..], end, family, now);
    }
  }

  ghost predicate RevokedIn(steps: seq<Step>, family: string) {
    exists k :: 0 <= k < |steps| && steps[k].RevokeFamily? && steps[k].family == family
  }

  lemma {:induction false} RevokedIsSpent(tokens: Tokens, steps: seq<Step>, end: Tokens, family: string, now: int)
    requires (exists i :: 0 <= i < |tokens| && tokens[i].family == family) && Follows(tokens, steps, end)
    requires ClocksFrom(steps, now) && RevokedIn(steps, family)
    ensures Spent(end, family, now)
    decreases |steps|
  {
    var i :| 0 <= i < |tokens| && tokens[i].family == family;
    var next := Apply(tokens, steps[0]);
    assert next[i].family == family;
    if steps[0].RevokeFamily? && steps[0].family == family {
      assert Spent(next, family, now);
      SpentStays(next, steps[1..], end, family, now);
    } else {
      var k :| 0 <= k < |steps| && steps[k].RevokeFamily? && steps[k].family == family;
      assert steps[1..][k - 1] == steps[k];
      RevokedIsSpent(next, steps[1..], end, family, now);
    }
  }

  /** Rejecting is exactly for a token that is revoked or past its expiry. */
  lemma RejectsExactly(tokens: Tokens, presented: string, dir: Directory, now: int)
    requires Distinct(tokens)
    ensures forall i :: 0 <= i < |tokens| && tokens[i].hash == presented ==>
              (RotateOutcome(tokens, presented, dir, now).RevokeAndReject? <==> !tokens[i].Usable(now))
  {
  }

  // ---- The entity and the use cases.

  class RefreshToken {
    const id: string
    const userId: string
    const org: Option<string>
    const family: string
    const hash: string
    const issuedAt: int
    const expiresAt: int
    var revokedAt: Option<int>
    var replacedById: Option<string>

    function Row(): Token
      reads this
    {
      Token(id, userId, org, family, hash, issuedAt, expiresAt, revokedAt, replacedById)
    }

    constructor FromPersistence(row: Token)
      ensures Row() == row
    {
      id, userId, org, family, hash := row.id, row.userId, row.org, row.family, row.hash;
      issuedAt, expiresAt, revokedAt, replacedById := row.issuedAt, row.expiresAt, row.revokedAt, row.replacedById;
    }

    predicate IsRevoked()
      reads this
    {
      revokedAt.Some?
    }

    predicate IsExpired(now: int)
      reads this
    {
      expiresAt <= now
    }

    method MarkRevoked(now: int)
      modifies this`revokedAt
      ensures Row() == old(Row()).(revokedAt := Some(now))
    {
      revokedAt := Some(now);
    }

    /** False is the thrown error. */
    method ReplaceWith(newId: string) returns (ok: bool)
      modifies this`replacedById
      ensures ok <==> old(replacedById).None?
      ensures Row() == if ok then old(Row()).(replacedById := Some(newId)) else old(Row())
    {
      ok := replacedById.None?;
      if ok {
        replacedById := Some(newId);
      }
    }
  }

  /** upsert by primary key. */
  function Upsert(tokens: Tokens, row: Token): Tokens {
    var i := FindBy(tokens, IdOf, row.id);
    if i.None? then tokens + [row] else tokens[i.value := row]
  }

  class AuthTokens {
    var tokens: Tokens
    const ttl: nat

    constructor (ttl: nat)
      ensures tokens == [] && Inv(tokens) && this.ttl == ttl
    {
      tokens, this.ttl := [], ttl;
    }

    method Save(token: RefreshToken)
      modifies this`tokens
      ensures tokens == Upsert(old(tokens), token.Row())
    {
      tokens := Upsert(tokens, token.Row());
    }

    method FindByTokenHash(hash: string) returns (token: RefreshToken?)
      ensures token == null <==> Find(tokens, hash).None?
      ensures token != null ==> fresh(token) && token.Row() == tokens[Find(tokens, hash).value]
    {
      var i := Find(tokens, hash);
      if i.None? {
        return null;
      }
      token := new RefreshToken.FromPersistence(tokens[i.value]);
    }

    method RevokeFamilyOf(family: string, now: int)
      modifies this`tokens
      ensures tokens == RevokeAll(old(tokens), family, now)
    {
      tokens := RevokeAll(tokens, family, now);
    }

    /** RefreshToken.issue and the save: with no family given, `newFamily` is the random one. */
    method IssueRefreshToken(userId: string, familyId: Option<string>, org: Option<string>, r: Random, newFamily: string, now: int)
      returns (token: RefreshToken)
      requires FreshToken(tokens, r.id, r.hash)
      modifies this`tokens
      ensures fresh(token)
      ensures token.Row() == NewToken(userId, org, if familyId.Some? then familyId.value else newFamily, r.id, r.hash, now, ttl)
      ensures tokens == old(tokens) + [token.Row()]
      ensures token.Row().userId == userId && token.Row().org == org
      ensures forall t :: token.Row().Usable(t) <==> t < now + ttl
    {
      var family := if familyId.Some? then familyId.value else newFamily;
      token := new RefreshToken.FromPersistence(NewToken(userId, org, family, r.id, r.hash, now, ttl));
      Save(token);
    }

    /** The transaction: any failure rolls it back. */
    method RotateInTransaction(presented: string, dir: Directory, r: Random, now: int) returns (outcome: Outcome)
      requires Inv(tokens) && FreshToken(tokens, r.id, r.hash)
      modifies this`tokens
      ensures outcome == RotateOutcome(old(tokens), presented, dir, now) && !outcome.AlreadyReplaced?
      ensures tokens == Apply(old(tokens), Rotate(presented, dir, r.id, r.hash, now, ttl))
      ensures Answered(old(tokens), presented, dir, outcome, now)
      ensures if outcome.Rotated? then RotatedRows(old(tokens), tokens, presented, outcome.org, r, now, ttl)
              else tokens == old(tokens)
    {
      ghost var was := tokens;
      ReplaceNeverThrows(tokens, presented, dir, now);
      RotationAnswers(tokens, presented, dir, now);
      var existing := FindByTokenHash(presented);
      if existing == null {
        return Unauthorized;
      }
      if existing.IsRevoked() || existing.IsExpired(now) {
        return RevokeAndReject(existing.family);
      }
      var org := OrganizationFor(existing.Row(), dir);
      if org.None? {
        return Unauthorized;
      }
      existing.MarkRevoked(now);
      var issued := IssueRefreshToken(existing.userId, Some(existing.family), org, r, existing.family, now);
      var ok := existing.ReplaceWith(issued.id);
      Save(existing);
      outcome := Rotated(org.value);
      var i := Find(was, presented).value;
      SavedInPlace(was, i, issued.Row(), existing.Row());
    }

    method RotateRefreshToken(presented: string, dir: Directory, r: Random, now: int) returns (outcome: Outcome)
      requires Inv(tokens) && FreshToken(tokens, r.id, r.hash)
      modifies this`tokens
      ensures outcome == RotateOutcome(old(tokens), presented, dir, now)
      ensures tokens == if outcome.RevokeAndReject? then RevokeAll(old(tokens), outcome.family, now)
                        else Apply(old(tokens), Rotate(presented, dir, r.id, r.hash, now, ttl))
      ensures outcome.RevokeAndReject? ==> Dead(tokens, outcome.family)
      ensures Answered(old(tokens), presented, dir, outcome, now)
      ensures outcome.Rotated? ==> RotatedRows(old(tokens), tokens, presented, outcome.org, r, now, ttl)
      ensures outcome.Unauthorized? ==> tokens == old(tokens)
    {
      ghost var was := tokens;
      outcome := RotateInTransaction(presented, dir, r, now);
      if outcome.RevokeAndReject? {
        RevokeFamilyOf(outcome.family, now);
        assert tokens[Find(was, presented).value].family == outcome.family;
      }
    }

    /** Logout: false when the token is not known. */
    method RevokeRefreshTokenFamily(presented: string, now: int) returns (ok: bool)
      modifies this`tokens
      ensures ok <==> exists i :: 0 <= i < |old(tokens)| && old(tokens)[i].hash == presented
      ensures !ok ==> tokens == old(tokens)
      ensures ok ==> var family := old(tokens)[Find(old(tokens), presented).value].family;
                     tokens == RevokeAll(old(tokens), family, now) && Dead(tokens, family)
    {
      ghost var was := tokens;
      var existing := FindByTokenHash(presented);
      ok := existing != null;
      if ok {
        RevokeFamilyOf(existing.family, now);
        assert tokens[Find(was, presented).value].family == existing.family;
      }
    }

    /**
     * An await. Nothing is done here: the contract leaves the caller any steps of others, who draw other
     * random values, unless the caller is `alone`.
     */
    method Await(r: Random, newFamily: string, now: int, ghost alone: bool) returns (ghost steps: seq<Step>)
      requires Inv(tokens) && FreshToken(tokens, r.id, r.hash) && FreshFamily(tokens, newFamily)
      modifies this`tokens
      ensures Inv(tokens) && FreshToken(tokens, r.id, r.hash) && FreshFamily(tokens, newFamily)
      ensures Follows(old(tokens), steps, tokens) && ClocksFrom(steps, now)
      ensures alone ==> steps == []
    {
      steps := [];
    }

    /**
     * False is Forbidden or Unauthorized. `steps` are all that happens from the read of the user's active
     * tokens on, others' steps included.
     */
    method SwitchOrganization(userId: string, org: string, dir: Directory, r: Random, newFamily: string, now: int, ghost alone: bool)
      returns (ok: bool, ghost steps: seq<Step>)
      requires Inv(tokens) && FreshToken(tokens, r.id, r.hash) && FreshFamily(tokens, newFamily) && org != ""
      modifies this`tokens
      ensures Inv(tokens) && Follows(old(tokens), steps, tokens) && ClocksFrom(steps, now)
      ensures ok <==> (userId, org) in dir.active && userId in dir.users
      ensures !ok ==> tokens == old(tokens)
      ensures ok ==> tokens != [] && tokens[|tokens| - 1] == NewToken(userId, Some(org), newFamily, r.id, r.hash, now, ttl)
      ensures ok ==> forall i, t :: 0 <= i < |tokens| && HadFamily(old(tokens), userId, tokens[i].family) && now <= t ==>
                !tokens[i].Usable(t)
      ensures ok ==> forall i, t :: 0 <= i < |tokens| && tokens[i].userId == userId && now <= t && tokens[i].Usable(t) ==>
                FreshFamily(old(tokens), tokens[i].family)
      ensures ok && alone ==> |tokens| == |old(tokens)| + 1 && OnlyUsable(tokens, userId, |old(tokens)|, now)
      ensures ok && alone ==> forall i :: 0 <= i < |old(tokens)| && old(tokens)[i].userId != userId ==> tokens[i] == old(tokens)[i]
    {
      ok, steps := (userId, org) in dir.active && userId in dir.users, [];
      if !ok {
        return;
      }
      var families := ActiveFamilies(tokens, userId, now);
      ghost var was := tokens;
      steps := RevokeEach(families, r, newFamily, now, alone);
      if alone {
        SwitchedAway(was, tokens, userId, now);
      }
      ghost var issue := Issue(userId, Some(org), newFamily, r.id, r.hash, now, ttl);
      NextStep(was, steps, tokens, issue, families, now);
      var issued := IssueRefreshToken(userId, None, Some(org), r, newFamily, now);
      steps := steps + [issue];
      SwitchSpends(was, steps, tokens, userId, now);
    }

    /** Revokes one family, with others' steps after. */
    method RevokeOne(family: string, r: Random, newFamily: string, now: int, ghost alone: bool) returns (ghost steps: seq<Step>)
      requires Inv(tokens) && FreshToken(tokens, r.id, r.hash) && FreshFamily(tokens, newFamily)
      modifies this`tokens
      ensures Inv(tokens) && FreshToken(tokens, r.id, r.hash) && FreshFamily(tokens, newFamily)
      ensures Revokes(old(tokens), steps, tokens, {family}, now)
      ensures alone ==> tokens == RevokeAll(old(tokens), family, now)
    {
      ghost var was := tokens;
      ghost var step := RevokeFamily(family, now);
      NextStep(was, [], was, step, {}, now);
      RevokeFamilyOf(family, now);
      ghost var mid := tokens;
      ghost var others := Await(r, newFamily, now, alone);
      MoreSteps(was, [] + [step], mid, others, tokens, {} + {family}, now);
      steps := [] + [step] + others;
    }

    /** Revokes the families, in any order, with others' steps before and after each. */
    method RevokeEach(families: set<string>, r: Random, newFamily: string, now: int, ghost alone: bool) returns (ghost steps: seq<Step>)
      requires Inv(tokens) && FreshToken(tokens, r.id, r.hash) && FreshFamily(tokens, newFamily)
      modifies this`tokens
      ensures Inv(tokens) && FreshToken(tokens, r.id, r.hash) && FreshFamily(tokens, newFamily)
      ensures Revokes(old(tokens), steps, tokens, families, now)
      ensures alone ==> tokens == RevokeThese(old(tokens), families, now)
    {
      var left := families;
      ghost var was := tokens;
      steps := Await(r, newFamily, now, alone);
      while left != {}
        invariant Inv(tokens) && left <= families && FreshToken(tokens, r.id, r.hash) && FreshFamily(tokens, newFamily)
        invariant Revokes(was, steps, tokens, families - left, now)
        invariant alone ==> tokens == RevokeThese(was, families - left, now)
        decreases left
      {
        var family :| family in left;
        ghost var before := tokens;
        ghost var more := RevokeOne(family, r, newFamily, now, alone);
        BothRevoked(was, steps, before, more, tokens, families - left, {family}, now);
        steps := steps + more;
        assert families - (left - {family}) == families - left + {family};
        left := left - {family};
      }
      assert families - {} == families;
    }
  }

  ghost predicate Revokes(was: Tokens, steps: seq<Step>, end: Tokens, families: set<string>, now: int) {
    Follows(was, steps, end) && ClocksFrom(steps, now) && forall f :: f in families ==> RevokedIn(steps, f)
  }

  lemma MoreSteps(was: Tokens, steps: seq<Step>, mid: Tokens, more: seq<Step>, end: Tokens, families: set<string>, now: int)
    requires Revokes(was, steps, mid, families, now) && Follows(mid, more, end) && ClocksFrom(more, now)
    ensures Revokes(was, steps + more, end, families, now)
  {
    FollowsThen(was, steps, mid, more, end);
    forall f | f in families
      ensures RevokedIn(steps + more, f)
    {
      var k :| 0 <= k < |steps| && steps[k].RevokeFamily? && steps[k].family == f;
      assert (steps + more)[k] == steps[k];
    }
  }

  lemma BothRevoked(was: Tokens, steps: seq<Step>, mid: Tokens, more: seq<Step>, end: Tokens,
                    families: set<string>, others: set<string>, now: int)
    requires Revokes(was, steps, mid, families, now) && Revokes(mid, more, end, others, now)
    ensures Revokes(was, steps + more, end, families + others, now)
  {
    MoreSteps(was, steps, mid, more, end, families, now);
    forall f | f in others
      ensures RevokedIn(steps + more, f)
    {
      var k :| 0 <= k < |more| && more[k].RevokeFamily? && more[k].family == f;
      assert (steps + more)[|steps| + k] == more[k];
    }
  }

  lemma NextStep(was: Tokens, steps: seq<Step>, mid: Tokens, step: Step, families: set<string>, now: int)
    requires Inv(mid) && Revokes(was, steps, mid, families, now) && Enabled(mid, step) && ClockFrom(step, now)
    ensures Inv(Apply(mid, step))
    ensures Revokes(was, steps + [step], Apply(mid, step), families + if step.RevokeFamily? then {step.family} else {}, now)
  {
    InvStep(mid, step);
    assert [step][1..] == [];
    assert Follows(mid, [step], Apply(mid, step));
    MoreSteps(was, steps, mid, [step], Apply(mid, step), families, now);
    assert (steps + [step])[|steps|] == step;
  }

  function RevokeThese(tokens: Tokens, families: set<string>, now: int): Tokens {
    seq(|tokens|, i requires 0 <= i < |tokens| =>
      if tokens[i].family in families && !tokens[i].Revoked() then tokens[i].(revokedAt := Some(now)) else tokens[i])
  }

  /** From `now` on, the user's only usable token, if any, is token `i`. */
  predicate OnlyUsable(tokens: Tokens, userId: string, i: int, now: int) {
    forall k :: 0 <= k < |tokens| && tokens[k].userId == userId && k != i ==> tokens[k].Revoked() || tokens[k].expiresAt <= now
  }

  function ActiveFamilies(tokens: Tokens, userId: string, now: int): set<string> {
    set i | 0 <= i < |tokens| && tokens[i].userId == userId && tokens[i].Usable(now) :: tokens[i].family
  }

  /** With the families of the user's usable tokens revoked, none of them is usable; other users' tokens are as they were. */
  lemma SwitchedAway(was: Tokens, tokens: Tokens, userId: string, now: int)
    requires SameOwner(was) && tokens == RevokeThese(was, ActiveFamilies(was, userId, now), now)
    ensures forall i :: 0 <= i < |was| && was[i].userId == userId ==> tokens[i].Revoked() || tokens[i].expiresAt <= now
    ensures forall i :: 0 <= i < |was| && was[i].userId != userId ==> tokens[i] == was[i]
    ensures forall i :: 0 <= i < |was| ==> tokens[i].userId == was[i].userId
  {
  }

  ghost predicate HadFamily(tokens: Tokens, userId: string, family: string) {
    exists i :: 0 <= i < |tokens| && tokens[i].userId == userId && tokens[i].family == family
  }

  /**
   * Whatever comes between a switch's read of the active families, its revocations and its issue, rotations
   * and logins included: no token of a family that the user had at the read is usable from then on.
   */
  lemma SwitchSpendsFamilies(was: Tokens, steps: seq<Step>, end: Tokens, userId: string, now: int, i: nat, t: int)
    requires Inv(was) && Revokes(was, steps, end, ActiveFamilies(was, userId, now), now)
    requires i < |end| && HadFamily(was, userId, end[i].family) && now <= t
    ensures !end[i].Usable(t)
  {
    var family := end[i].family;
    if family in ActiveFamilies(was, userId, now) {
      RevokedIsSpent(was, steps, end, family, now);
    } else {
      SpentStays(was, steps, end, family, now);
    }
  }

  /** So a token of the user that is usable then is of a family issued meanwhile. */
  lemma UsableAfterSwitchIsNew(was: Tokens, steps: seq<Step>, end: Tokens, userId: string, now: int, i: nat, t: int)
    requires Inv(was) && Revokes(was, steps, end, ActiveFamilies(was, userId, now), now)
    requires i < |end| && end[i].userId == userId && now <= t && end[i].Usable(t)
    ensures FreshFamily(was, end[i].family)
  {
    InvOverRuns(was, steps, end);
    forall j | 0 <= j < |was|
      ensures was[j].family != end[i].family
    {
      FamilyStays(was, steps, end, j);
      if was[j].userId == userId && was[j].family == end[i].family {
        assert HadFamily(was, userId, end[i].family);
        SwitchSpendsFamilies(was, steps, end, userId, now, i, t);
      }
    }
  }

  lemma SwitchSpends(was: Tokens, steps: seq<Step>, end: Tokens, userId: string, now: int)
    requires Inv(was) && Revokes(was, steps, end, ActiveFamilies(was, userId, now), now)
    ensures forall i, t :: 0 <= i < |end| && HadFamily(was, userId, end[i].family) && now <= t ==> !end[i].Usable(t)
    ensures forall i, t :: 0 <= i < |end| && end[i].userId == userId && now <= t && end[i].Usable(t) ==>
              FreshFamily(was, end[i].family)
  {
    forall i, t | 0 <= i < |end| && HadFamily(was, userId, end[i].family) && now <= t
      ensures !end[i].Usable(t)
    {
      SwitchSpendsFamilies(was, steps, end, userId, now, i, t);
    }
    forall i, t | 0 <= i < |end| && end[i].userId == userId && now <= t && end[i].Usable(t)
      ensures FreshFamily(was, end[i].family)
    {
      UsableAfterSwitchIsNew(was, steps, end, userId, now, i, t);
    }
  }

  /** Saving the replaced token writes its own row, whatever was issued meanwhile. */
  lemma SavedInPlace(tokens: Tokens, i: nat, issued: Token, row: Token)
    requires Distinct(tokens) && i < |tokens| && row.id == tokens[i].id && row.id != issued.id
    ensures Upsert(tokens + [issued], row) == tokens[i := row] + [issued]
  {
    var k := FindBy(tokens + [issued], IdOf, row.id);
    assert (tokens + [issued])[i].id == row.id;
    assert k.value == i;
  }
}
