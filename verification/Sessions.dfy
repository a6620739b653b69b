/** Refresh-token rotation in app/api/auth.py: the token table, its operations and what every run of them keeps. */
module Sessions {
  import opened Common

  datatype Token = Token(
    id: nat, userId: string, tokenHash: string, expiresAt: int, revokedAt: Option<int>, replacedByHash: Option<string>)

  datatype Event =
    | Login(userId: string, newId: nat, newHash: string, expiresAt: int)
    | Refresh(tokenHash: string, now: int, userActive: bool, newId: nat, newHash: string, expiresAt: int)
    | Logout(tokenHash: string, now: int)
    | RevokeSession(userId: string, id: nat, now: int)
    | RevokeOthers(userId: string, currentHash: Option<string>, now: int)
    | ChangePassword(userId: string, now: int)

  function Issued(userId: string, id: nat, hash: string, expiresAt: int): Token
  {
    Token(id, userId, hash, expiresAt, None, None)
  }

  /** The row with the given hash: its index, or the table's length. */
  function FindHash(tokens: seq<Token>, hash: string): (i: nat)
    ensures i <= |tokens|
    ensures i < |tokens| ==> tokens[i].tokenHash == hash
    ensures forall k :: 0 <= k < i ==> tokens[k].tokenHash != hash
  {
    if tokens == [] || tokens[0].tokenHash == hash then 0 else
      var i := FindHash(tokens[1..], hash);
      assert forall k :: 1 <= k < i + 1 ==> tokens[k] == tokens[1..][k - 1];
      i + 1
  }

  /** The i-th row is the first with that hash. */
  ghost predicate Presented(tokens: seq<Token>, hash: string, i: int)
  {
    0 <= i < |tokens| && tokens[i].tokenHash == hash && forall k :: 0 <= k < i ==> tokens[k].tokenHash != hash
  }

  /** The i-th row is the user's first with that id. */
  ghost predicate Named(tokens: seq<Token>, userId: string, id: nat, i: int)
  {
    && 0 <= i < |tokens| && tokens[i].id == id && tokens[i].userId == userId
    && forall k :: 0 <= k < i ==> tokens[k].id != id || tokens[k].userId != userId
  }

  /** The row after a statement that is to end it. */
  ghost predicate Ended(before: Token, after: Token, now: int)
  {
    if before.revokedAt.None? then after == before.(revokedAt := Some(now)) else after == before
  }

  /** Whether a presented refresh token is accepted. */
  predicate Acceptable(tokens: seq<Token>, hash: string, now: int, userActive: bool)
  {
    var i := FindHash(tokens, hash);
    i < |tokens| && tokens[i].revokedAt.None? && tokens[i].expiresAt > now && userActive
  }

  function Revoked(t: Token, now: int): Token
  {
    if t.revokedAt.None? then t.(revokedAt := Some(now)) else t
  }

  /** Revokes, in one statement, every row that a condition selects. */
  function RevokeWhere(tokens: seq<Token>, selected: Token -> bool, now: int): (r: seq<Token>)
    ensures |r| == |tokens|
    ensures forall i :: 0 <= i < |r| ==> r[i] == if selected(tokens[i]) then Revoked(tokens[i], now) else tokens[i]
  {
    Map(t => if selected(t) then Revoked(t, now) else t, tokens)
  }

  /** The user's tokens other than the presented one. */
  function Others(userId: string, currentHash: Option<string>): Token -> bool
  {
    (t: Token) => t.userId == userId
        && !(currentHash.Some? && currentHash.value != "" && t.tokenHash == currentHash.value)
  }

  function RevokeAt(tokens: seq<Token>, i: nat, now: int): seq<Token>
  {
    if i < |tokens| then tokens[i := Revoked(tokens[i], now)] else tokens
  }

  /** The user's row with the given id: its index, or the table's length. */
  function FindSession(tokens: seq<Token>, userId: string, id: nat): (i: nat)
    ensures i <= |tokens|
    ensures i < |tokens| ==> tokens[i].id == id && tokens[i].userId == userId
    ensures forall k :: 0 <= k < i ==> tokens[k].id != id || tokens[k].userId != userId
  {
    if tokens == [] || (tokens[0].id == id && tokens[0].userId == userId) then 0 else
      var i := FindSession(tokens[1..], userId, id);
      assert forall k :: 1 <= k < i + 1 ==> tokens[k] == tokens[1..][k - 1];
      i + 1
  }

  function Step(tokens: seq<Token>, e: Event): seq<Token>
  {
    match e
    case Login(user, id, hash, expiresAt) => tokens + [Issued(user, id, hash, expiresAt)]
    case Refresh(hash, now, active, id, newHash, expiresAt) =>
      if !Acceptable(tokens, hash, now, active) then tokens else
        var i := FindHash(tokens, hash);
        Rotated(tokens, i, now, Issued(tokens[i].userId, id, newHash, expiresAt))
    case Logout(hash, now) => RevokeAt(tokens, FindHash(tokens, hash), now)
    case RevokeSession(user, id, now) => RevokeAt(tokens, FindSession(tokens, user, id), now)
    case RevokeOthers(user, current, now) => RevokeWhere(tokens, Others(user, current), now)
    case ChangePassword(user, now) => RevokeWhere(tokens, (t: Token) => t.userId == user, now)
  }

  // ----- the handlers, statement by statement

  class TokenTable {
    var tokens: seq<Token>

    constructor ()
      ensures tokens == []
    {
      tokens := [];
    }

    method IssueTokens(userId: string, id: nat, hash: string, expiresAt: int)
      modifies this
      ensures tokens == old(tokens) + [Issued(userId, id, hash, expiresAt)]
    {
      tokens := tokens + [Issued(userId, id, hash, expiresAt)];
    }

    method RefreshSession(hash: string, now: int, userActive: bool, id: nat, newHash: string, expiresAt: int)
      returns (ok: bool)
      modifies this
      ensures ok <==> Acceptable(old(tokens), hash, now, userActive)
      ensures tokens == Step(old(tokens), Refresh(hash, now, userActive, id, newHash, expiresAt))
      ensures ok <==> userActive && exists i ::
                Presented(old(tokens), hash, i) && old(tokens)[i].revokedAt.None? && now < old(tokens)[i].expiresAt
      ensures !ok ==> tokens == old(tokens)
      ensures ok ==> |tokens| == |old(tokens)| + 1 && forall i :: 0 <= i < |old(tokens)| ==>
                if Presented(old(tokens), hash, i)
                then tokens[i] == old(tokens)[i].(revokedAt := Some(now), replacedByHash := Some(newHash))
                     && tokens[|old(tokens)|] == Token(id, tokens[i].userId, newHash, expiresAt, None, None)
                else tokens[i] == old(tokens)[i]
    {
      var i := FindHash(tokens, hash);
      assert forall k :: Presented(tokens, hash, k) <==> k == i < |tokens|;
      if i == |tokens| || tokens[i].revokedAt.Some? || tokens[i].expiresAt <= now || !userActive {
        return false;
      }
      tokens := tokens[i := tokens[i].(revokedAt := Some(now))];
      IssueTokens(tokens[i].userId, id, newHash, expiresAt);
      tokens := tokens[i := tokens[i].(replacedByHash := Some(newHash))];
      return true;
    }

    method LogoutSession(hash: string, now: int)
      modifies this
      ensures tokens == Step(old(tokens), Logout(hash, now))
      ensures |tokens| == |old(tokens)| && forall i :: 0 <= i < |tokens| ==>
                if Presented(old(tokens), hash, i) then Ended(old(tokens)[i], tokens[i], now)
                else tokens[i] == old(tokens)[i]
    {
      var i := FindHash(tokens, hash);
      if i < |tokens| && tokens[i].revokedAt.None? {
        tokens := tokens[i := tokens[i].(revokedAt := Some(now))];
      }
    }

    /** Ends one of the user's own sessions; a session of another user is not found. */
    method RevokeOwnSession(userId: string, id: nat, now: int) returns (found: bool)
      modifies this
      ensures found <==> exists t :: t in old(tokens) && t.id == id && t.userId == userId
      ensures tokens == Step(old(tokens), RevokeSession(userId, id, now))
      ensures |tokens| == |old(tokens)| && forall i :: 0 <= i < |tokens| ==>
                if Named(old(tokens), userId, id, i) then Ended(old(tokens)[i], tokens[i], now)
                else tokens[i] == old(tokens)[i]
    {
      var i := FindSession(tokens, userId, id);
      if i == |tokens| {
        return false;
      }
      assert tokens[i] in tokens;
      if tokens[i].revokedAt.None? {
        tokens := tokens[i := tokens[i].(revokedAt := Some(now))];
      }
      return true;
    }

    /** Revokes the user's other sessions and counts them. */
    method RevokeOtherSessions(userId: string, currentHash: Option<string>, now: int) returns (revoked: nat)
      modifies this
      ensures tokens == Step(old(tokens), RevokeOthers(userId, currentHash, now))
      ensures revoked == Live(old(tokens), userId) - Live(tokens, userId)
      ensures |tokens| == |old(tokens)| && forall i :: 0 <= i < |tokens| ==>
                var t := old(tokens)[i];
                if t.userId == userId && (currentHash in {None, Some("")} || currentHash != Some(t.tokenHash))
                then Ended(t, tokens[i], now) else tokens[i] == t
    {
      var selected := Others(userId, currentHash);
      EndingIsLiveDrop(tokens, selected, now, userId);
      revoked := RevokeSelected(selected, now);
    }

    /** The loop over the stored rows: revokes the selected unrevoked ones and counts them. */
    method RevokeSelected(selected: Token -> bool, now: int) returns (revoked: nat)
      modifies this
      ensures tokens == RevokeWhere(old(tokens), selected, now)
      ensures revoked == Ending(old(tokens), selected)
    {
      revoked := 0;
      ghost var before := tokens;
      for i := 0 to |tokens|
        invariant |tokens| == |before|
        invariant forall k :: 0 <= k < i ==> tokens[k] == RevokeWhere(before, selected, now)[k]
        invariant forall k :: i <= k < |tokens| ==> tokens[k] == before[k]
        invariant revoked == Ending(before[..i], selected)
      {
        EndingOneMore(before, selected, i);
        if selected(tokens[i]) && tokens[i].revokedAt.None? {
          tokens := tokens[i := tokens[i].(revokedAt := Some(now))];
          revoked := revoked + 1;
        }
      }
      assert before[..|before|] == before;
    }

    method ChangeUserPassword(userId: string, now: int)
      modifies this
      ensures tokens == Step(old(tokens), ChangePassword(userId, now))
      ensures |tokens| == |old(tokens)| && forall i :: 0 <= i < |tokens| ==>
                if old(tokens)[i].userId == userId then Ended(old(tokens)[i], tokens[i], now)
                else tokens[i] == old(tokens)[i]
    {
      var _ := RevokeSelected((t: Token) => t.userId == userId, now);
    }
  }

  /** Unrevoked rows among the selected ones. */
  function Ending(tokens: seq<Token>, selected: Token -> bool): nat
  {
    if tokens == [] then 0 else
      var last := tokens[|tokens| - 1];
      Ending(tokens[..|tokens| - 1], selected) + (if selected(last) && last.revokedAt.None? then 1 else 0)
  }

  lemma EndingOneMore(tokens: seq<Token>, selected: Token -> bool, i: nat)
    requires i < |tokens|
    ensures Ending(tokens[..i + 1], selected) ==
            Ending(tokens[..i], selected) + if selected(tokens[i]) && tokens[i].revokedAt.None? then 1 else 0
  {
    assert tokens[..i + 1][..i] == tokens[..i];
  }

  lemma {:induction false} EndingIsLiveDrop(tokens: seq<Token>, selected: Token -> bool, now: int, userId: string)
    requires forall t :: selected(t) ==> t.userId == userId
    ensures Ending(tokens, selected) == Live(tokens, userId) - Live(RevokeWhere(tokens, selected, now), userId)
  {
    if tokens != [] {
      var n := |tokens| - 1;
      EndingIsLiveDrop(tokens[..n], selected, now, userId);
      assert RevokeWhere(tokens, selected, now)[..n] == RevokeWhere(tokens[..n], selected, now);
    }
  }

  // ----- what every reachable table looks like

  ghost predicate UniqueHashes(tokens: seq<Token>)
  {
    forall i, j :: 0 <= i < j < |tokens| ==> tokens[i].tokenHash != tokens[j].tokenHash
  }

  /** Token i was replaced by token j. */
  ghost predicate Link(tokens: seq<Token>, i: int, j: int)
  {
    0 <= i < |tokens| && 0 <= j < |tokens| && tokens[i].replacedByHash == Some(tokens[j].tokenHash)
  }

  /** Links lead to later tokens of the same user, no token replaces two, and a replaced token is revoked. */
  ghost predicate WellLinked(tokens: seq<Token>)
  {
    && UniqueHashes(tokens)
    && (forall i :: 0 <= i < |tokens| && tokens[i].replacedByHash.Some? ==>
          tokens[i].revokedAt.Some? && exists j :: i < j < |tokens| && Link(tokens, i, j))
    && (forall i, j :: Link(tokens, i, j) ==> i < j && tokens[i].userId == tokens[j].userId)
    && (forall i, k, j :: Link(tokens, i, j) && Link(tokens, k, j) ==> i == k)
  }

  /** Every event brings hashes the table has not seen. */
  predicate Fresh(tokens: seq<Token>, e: Event)
  {
    (e.Login? || e.Refresh?) ==> forall t :: t in tokens ==> t.tokenHash != e.newHash
  }

  ghost predicate FreshRun(tokens: seq<Token>, events: seq<Event>)
    decreases |events|
  {
    events != [] ==> Fresh(tokens, events[0]) && FreshRun(Step(tokens, events[0]), events[1..])
  }

  function Run(tokens: seq<Token>, events: seq<Event>): seq<Token>
    decreases |events|
  {
    if events == [] then tokens else Run(Step(tokens, events[0]), events[1..])
  }

  /** Rows are never removed; identity, owner and expiry are fixed; a revocation time and a link, once set, stay. */
  ghost predicate Extends(before: seq<Token>, after: seq<Token>)
  {
    && |before| <= |after|
    && forall i :: 0 <= i < |before| ==>
         && after[i].id == before[i].id && after[i].userId == before[i].userId
         && after[i].tokenHash == before[i].tokenHash && after[i].expiresAt == before[i].expiresAt
         && (before[i].revokedAt.Some? ==> after[i] == before[i])
  }

  lemma StepExtends(tokens: seq<Token>, e: Event)
    ensures Extends(tokens, Step(tokens, e))
  {
    match e
    case Login(_, _, _, _) =>
    case Refresh(hash, now, active, id, newHash, expiresAt) =>
      if Acceptable(tokens, hash, now, active) {
        var i := FindHash(tokens, hash);
        RotationExtends(tokens, i, now, Issued(tokens[i].userId, id, newHash, expiresAt));
      }
    case _ =>
  }

  lemma RotationExtends(tokens: seq<Token>, i: nat, now: int, t: Token)
    requires i < |tokens| && tokens[i].revokedAt.None?
    ensures Extends(tokens, Rotated(tokens, i, now, t))
  {
  }

  lemma {:induction false} RunExtends(tokens: seq<Token>, events: seq<Event>)
    ensures Extends(tokens, Run(tokens, events))
    decreases |events|
  {
    if events != [] {
      StepExtends(tokens, events[0]);
      RunExtends(Step(tokens, events[0]), events[1..]);
    }
  }

  lemma RevokingKeepsLinks(tokens: seq<Token>, next: seq<Token>)
    requires WellLinked(tokens) && |next| == |tokens|
    requires forall i :: 0 <= i < |tokens| ==>
               && next[i].tokenHash == tokens[i].tokenHash && next[i].userId == tokens[i].userId
               && next[i].replacedByHash == tokens[i].replacedByHash
               && (tokens[i].revokedAt.Some? ==> next[i].revokedAt.Some?)
    ensures WellLinked(next)
  {
    assert forall i, j :: Link(next, i, j) <==> Link(tokens, i, j);
    forall i | 0 <= i < |next| && next[i].replacedByHash.Some?
      ensures next[i].revokedAt.Some? && exists j :: i < j < |next| && Link(next, i, j)
    {
      var j :| i < j < |tokens| && Link(tokens, i, j);
      assert Link(next, i, j);
    }
  }

  lemma AppendKeepsLinks(tokens: seq<Token>, t: Token)
    requires WellLinked(tokens) && t.replacedByHash.None? && forall o :: o in tokens ==> o.tokenHash != t.tokenHash
    ensures WellLinked(tokens + [t])
  {
    var next := tokens + [t];
    assert forall k :: 0 <= k < |tokens| ==> tokens[k] in tokens;
    forall i, j | Link(next, i, j) ensures Link(tokens, i, j) {
      if i < |tokens| && tokens[i].replacedByHash.Some? {
        var k :| i < k < |tokens| && Link(tokens, i, k);
      }
    }
    forall i | 0 <= i < |next| && next[i].replacedByHash.Some?
      ensures next[i].revokedAt.Some? && exists j :: i < j < |next| && Link(next, i, j)
    {
      var j :| i < j < |tokens| && Link(tokens, i, j);
      assert Link(next, i, j);
    }
  }

  function Rotated(tokens: seq<Token>, i: nat, now: int, t: Token): seq<Token>
    requires i < |tokens|
  {
    tokens[i := tokens[i].(revokedAt := Some(now), replacedByHash := Some(t.tokenHash))] + [t]
  }

  lemma LinksAfterRotation(tokens: seq<Token>, i: nat, now: int, t: Token)
    requires WellLinked(tokens) && i < |tokens| && tokens[i].revokedAt.None?
    requires t.replacedByHash.None? && forall o :: o in tokens ==> o.tokenHash != t.tokenHash
    ensures forall a, b :: Link(Rotated(tokens, i, now, t), a, b) <==> (a == i && b == |tokens|) || Link(tokens, a, b)
    ensures UniqueHashes(Rotated(tokens, i, now, t))
  {
    var next, n := Rotated(tokens, i, now, t), |tokens|;
    assert tokens[i].replacedByHash.None?;
    assert forall k :: 0 <= k < n ==> tokens[k] in tokens && next[k].tokenHash == tokens[k].tokenHash;
    forall a, b ensures Link(next, a, b) <==> (a == i && b == n) || Link(tokens, a, b) {
      if a != i && 0 <= a < n && b == n && tokens[a].replacedByHash.Some? {
        var k :| a < k < n && Link(tokens, a, k);
      }
    }
  }

  lemma RotationKeepsLinks(tokens: seq<Token>, i: nat, now: int, t: Token)
    requires WellLinked(tokens) && i < |tokens| && tokens[i].revokedAt.None? && t.userId == tokens[i].userId
    requires t.replacedByHash.None? && forall o :: o in tokens ==> o.tokenHash != t.tokenHash
    ensures WellLinked(Rotated(tokens, i, now, t))
  {
    var next, n := Rotated(tokens, i, now, t), |tokens|;
    LinksAfterRotation(tokens, i, now, t);
    forall a | 0 <= a < |next| && next[a].replacedByHash.Some?
      ensures next[a].revokedAt.Some? && exists b :: a < b < |next| && Link(next, a, b)
    {
      if a == i {
        assert Link(next, a, n);
      } else {
        var b :| a < b < n && Link(tokens, a, b);
        assert Link(next, a, b);
      }
    }
    forall a, b | Link(next, a, b) ensures a < b && next[a].userId == next[b].userId {
      assert (a == i && b == n) || Link(tokens, a, b);
    }
  }

  lemma StepKeepsLinks(tokens: seq<Token>, e: Event)
    requires WellLinked(tokens) && Fresh(tokens, e)
    ensures WellLinked(Step(tokens, e))
  {
    match e
    case Login(user, id, hash, expiresAt) =>
      AppendKeepsLinks(tokens, Issued(user, id, hash, expiresAt));
    case Refresh(hash, now, active, id, newHash, expiresAt) =>
      if Acceptable(tokens, hash, now, active) {
        var i := FindHash(tokens, hash);
        RotationKeepsLinks(tokens, i, now, Issued(tokens[i].userId, id, newHash, expiresAt));
      }
    case _ => RevokingKeepsLinks(tokens, Step(tokens, e));
  }

  /** In every reachable table the links are well formed. */
  lemma {:induction false} EveryRunKeepsLinks(tokens: seq<Token>, events: seq<Event>)
    requires WellLinked(tokens) && FreshRun(tokens, events)
    ensures WellLinked(Run(tokens, events))
    decreases |events|
  {
    if events != [] {
      StepKeepsLinks(tokens, events[0]);
      EveryRunKeepsLinks(Step(tokens, events[0]), events[1..]);
    }
  }

  // ----- chains

  /** The row that replaced a token, looked up by hash. */
  function Next(tokens: seq<Token>, i: nat): Option<nat>
    requires i < |tokens|
  {
    if tokens[i].replacedByHash.None? then None else
      var j := FindHash(tokens, tokens[i].replacedByHash.value);
      if j < |tokens| then Some(j) else None
  }

  /** The token reached after n replacements, if there are that many. */
  function After(tokens: seq<Token>, i: nat, n: nat): (k: Option<nat>)
    requires i < |tokens|
    ensures k.Some? ==> k.value < |tokens|
  {
    if n == 0 then Some(i) else
      var k := After(tokens, i, n - 1);
      if k.None? then None else Next(tokens, k.value)
  }

  lemma NextIsLink(tokens: seq<Token>, i: nat, j: nat)
    requires WellLinked(tokens) && i < |tokens| && Next(tokens, i) == Some(j)
    ensures Link(tokens, i, j) && i < j && tokens[i].userId == tokens[j].userId && tokens[i].revokedAt.Some?
  {
  }

  lemma {:induction false} AfterFacts(tokens: seq<Token>, i: nat, n: nat)
    requires WellLinked(tokens) && i < |tokens|
    ensures var k := After(tokens, i, n);
            k.Some? ==> i + n <= k.value < |tokens| && tokens[k.value].userId == tokens[i].userId
  {
    if n > 0 {
      AfterFacts(tokens, i, n - 1);
      if After(tokens, i, n).Some? {
        NextIsLink(tokens, After(tokens, i, n - 1).value, After(tokens, i, n).value);
      }
    }
  }

  /** Chains are finite and acyclic: following replacements climbs the table, so it stops within it and never
      returns. */
  lemma ChainsAreFinite(tokens: seq<Token>, i: nat, n: nat)
    requires WellLinked(tokens) && i < |tokens|
    ensures i + n >= |tokens| ==> After(tokens, i, n).None?
    ensures n > 0 ==> After(tokens, i, n) != Some(i)
  {
    AfterFacts(tokens, i, n);
  }

  lemma {:induction false} AfterIsPrefix(tokens: seq<Token>, i: nat, m: nat, n: nat)
    requires i < |tokens| && m <= n && After(tokens, i, n).Some?
    ensures After(tokens, i, m).Some?
    decreases n
  {
    if m < n {
      AfterIsPrefix(tokens, i, m, n - 1);
    }
  }

  /** Only the last token of a chain can be unrevoked. */
  lemma OnlyTheLastIsLive(tokens: seq<Token>, i: nat, m: nat, n: nat)
    requires WellLinked(tokens) && i < |tokens| && m < n && After(tokens, i, n).Some?
    ensures After(tokens, i, m).Some? && tokens[After(tokens, i, m).value].revokedAt.Some?
  {
    AfterIsPrefix(tokens, i, m, n);
    AfterIsPrefix(tokens, i, m + 1, n);
    NextIsLink(tokens, After(tokens, i, m).value, After(tokens, i, m + 1).value);
  }

  /** No token replaced two others. */
  ghost predicate ReplacesOne(tokens: seq<Token>)
  {
    forall p, q ::
      0 <= p < |tokens| && 0 <= q < |tokens| && Next(tokens, p).Some? && Next(tokens, p) == Next(tokens, q) ==> p == q
  }

  lemma WellLinkedReplacesOne(tokens: seq<Token>)
    requires WellLinked(tokens)
    ensures ReplacesOne(tokens)
  {
    forall p, q | 0 <= p < |tokens| && 0 <= q < |tokens| && Next(tokens, p).Some? && Next(tokens, p) == Next(tokens, q)
      ensures p == q
    {
      NextIsLink(tokens, p, Next(tokens, p).value);
      NextIsLink(tokens, q, Next(tokens, q).value);
    }
  }

  lemma {:induction false} SharedTokenSharesChain(tokens: seq<Token>, i: nat, j: nat, m: nat, d: nat)
    requires ReplacesOne(tokens) && i < |tokens| && j < |tokens|
    requires After(tokens, i, m).Some? && After(tokens, i, m) == After(tokens, j, m + d)
    ensures After(tokens, j, d) == Some(i)
    decreases m
  {
    if m > 0 {
      var p, q := After(tokens, i, m - 1), After(tokens, j, m + d - 1);
      assert p.Some? && q.Some? && Next(tokens, p.value) == Next(tokens, q.value);
      SharedTokenSharesChain(tokens, i, j, m - 1, d);
    }
  }

  /** A chain starts at a token that replaced none: the one a login issued. */
  ghost predicate IsRoot(tokens: seq<Token>, i: nat)
  {
    i < |tokens| && forall k :: 0 <= k < |tokens| ==> Next(tokens, k) != Some(i)
  }

  lemma RootsNeverMeet(tokens: seq<Token>, i: nat, j: nat, m: nat, d: nat)
    requires ReplacesOne(tokens) && j < |tokens| && IsRoot(tokens, i) && i != j && After(tokens, i, m).Some?
    ensures After(tokens, i, m) != After(tokens, j, m + d)
  {
    if After(tokens, i, m) == After(tokens, j, m + d) {
      SharedTokenSharesChain(tokens, i, j, m, d);
    }
  }

  /** The chains of two logins have no token in common. */
  lemma ChainsAreDisjoint(tokens: seq<Token>, i: nat, j: nat, m: nat, n: nat)
    requires WellLinked(tokens) && IsRoot(tokens, i) && IsRoot(tokens, j) && i != j
    ensures After(tokens, i, m).Some? ==> After(tokens, i, m) != After(tokens, j, n)
  {
    if After(tokens, i, m).None? || After(tokens, j, n).None? { return; }
    WellLinkedReplacesOne(tokens);
    if m <= n {
      RootsNeverMeet(tokens, i, j, m, n - m);
    } else {
      RootsNeverMeet(tokens, j, i, n, m - n);
    }
  }

  // ----- acceptance

  lemma FindUnique(tokens: seq<Token>, i: nat)
    requires UniqueHashes(tokens) && i < |tokens|
    ensures FindHash(tokens, tokens[i].tokenHash) == i
  {
    assert tokens[i] in tokens;
  }

  /** A token that is revoked is never accepted again, whatever happens afterwards. */
  lemma RevokedIsFinal(tokens: seq<Token>, i: nat, events: seq<Event>, now: int, active: bool)
    requires WellLinked(tokens) && i < |tokens| && tokens[i].revokedAt.Some?
    requires FreshRun(tokens, events)
    ensures !Acceptable(Run(tokens, events), tokens[i].tokenHash, now, active)
    ensures i < |Run(tokens, events)| && Run(tokens, events)[i] == tokens[i]
  {
    RunExtends(tokens, events);
    EveryRunKeepsLinks(tokens, events);
    FindUnique(Run(tokens, events), i);
  }

  /** Each refresh token is accepted at most once: after an accepted refresh, the same token is refused for ever. */
  lemma AcceptedAtMostOnce(tokens: seq<Token>, e: Event, later: seq<Event>, now: int, active: bool)
    requires WellLinked(tokens) && e.Refresh? && Fresh(tokens, e) && FreshRun(Step(tokens, e), later)
    requires Acceptable(tokens, e.tokenHash, e.now, e.userActive)
    ensures !Acceptable(Run(Step(tokens, e), later), e.tokenHash, now, active)
  {
    StepKeepsLinks(tokens, e);
    RevokedIsFinal(Step(tokens, e), FindHash(tokens, e.tokenHash), later, now, active);
  }

  ghost predicate AllRevoked(tokens: seq<Token>, userId: string)
  {
    forall i :: 0 <= i < |tokens| && tokens[i].userId == userId ==> tokens[i].revokedAt.Some?
  }

  lemma StepKeepsLockedOut(tokens: seq<Token>, userId: string, e: Event)
    requires AllRevoked(tokens, userId) && !(e.Login? && e.userId == userId)
    ensures AllRevoked(Step(tokens, e), userId)
  {
  }

  lemma {:induction false} StaysLockedOut(tokens: seq<Token>, userId: string, events: seq<Event>)
    requires AllRevoked(tokens, userId)
    requires forall i :: 0 <= i < |events| ==> !(events[i].Login? && events[i].userId == userId)
    ensures AllRevoked(Run(tokens, events), userId)
    decreases |events|
  {
    if events != [] {
      StepKeepsLockedOut(tokens, userId, events[0]);
      assert forall i :: 1 <= i < |events| ==> events[i] == events[1..][i - 1];
      StaysLockedOut(Step(tokens, events[0]), userId, events[1..]);
    }
  }

  /** After a password change none of the user's sessions is usable until the user logs in again: no token issued
      before it, nor any token those could have been exchanged for, is accepted. */
  lemma PasswordChangeEndsSessions(tokens: seq<Token>, userId: string, at: int, events: seq<Event>, hash: string,
                                   now: int, active: bool)
    requires forall i :: 0 <= i < |events| ==> !(events[i].Login? && events[i].userId == userId)
    ensures var later := Run(Step(tokens, ChangePassword(userId, at)), events);
            Acceptable(later, hash, now, active) ==> later[FindHash(later, hash)].userId != userId
  {
    StaysLockedOut(Step(tokens, ChangePassword(userId, at)), userId, events);
  }

  // ----- counting sessions

  /** Unrevoked tokens of a user. */
  function Live(tokens: seq<Token>, userId: string): nat
  {
    if tokens == [] then 0 else
      Live(tokens[..|tokens| - 1], userId)
      + (if tokens[|tokens| - 1].userId == userId && tokens[|tokens| - 1].revokedAt.None? then 1 else 0)
  }

  /** The live sessions are the user's unrevoked rows. */
  lemma {:induction false} LiveIsSize(tokens: seq<Token>, userId: string)
    ensures Live(tokens, userId) ==
            |set i | 0 <= i < |tokens| && tokens[i].userId == userId && tokens[i].revokedAt == None|
  {
    if tokens != [] {
      var n := |tokens| - 1;
      LiveIsSize(tokens[..n], userId);
      var before := set i | 0 <= i < n && tokens[..n][i].userId == userId && tokens[..n][i].revokedAt == None;
      var all := set i | 0 <= i < |tokens| && tokens[i].userId == userId && tokens[i].revokedAt == None;
      if n in all { assert all == before + {n}; } else { assert all == before; }
    }
  }

  /** Tokens of a user that were not exchanged for another: the ends of the user's chains. */
  function Ends(tokens: seq<Token>, userId: string): nat
  {
    if tokens == [] then 0 else
      Ends(tokens[..|tokens| - 1], userId)
      + (if tokens[|tokens| - 1].userId == userId && tokens[|tokens| - 1].replacedByHash.None? then 1 else 0)
  }

  function Logins(events: seq<Event>, userId: string): nat
  {
    if events == [] then 0 else
      (if events[0].Login? && events[0].userId == userId then 1 else 0) + Logins(events[1..], userId)
  }

  lemma EndsAppend(tokens: seq<Token>, t: Token, userId: string)
    ensures Ends(tokens + [t], userId) == Ends(tokens, userId) + if t.userId == userId && t.replacedByHash.None?
              then 1 else 0
  {
    assert (tokens + [t])[..|tokens|] == tokens;
  }

  lemma {:induction false} EndsAgree(a: seq<Token>, b: seq<Token>, userId: string)
    requires |a| == |b| && forall i :: 0 <= i < |a| ==>
               a[i].userId == b[i].userId && a[i].replacedByHash == b[i].replacedByHash
    ensures Ends(a, userId) == Ends(b, userId)
  {
    if a != [] {
      EndsAgree(a[..|a| - 1], b[..|b| - 1], userId);
    }
  }

  lemma {:induction false} EndsUpdate(tokens: seq<Token>, i: nat, t: Token, userId: string)
    requires i < |tokens| && t.userId == tokens[i].userId && tokens[i].replacedByHash.None? && t.replacedByHash.Some?
    ensures Ends(tokens[i := t], userId) == Ends(tokens, userId) - if t.userId == userId then 1 else 0
  {
    var n := |tokens| - 1;
    if i < n {
      assert tokens[i := t][..n] == tokens[..n][i := t];
      EndsUpdate(tokens[..n], i, t, userId);
    } else {
      assert tokens[i := t][..n] == tokens[..n];
    }
  }

  lemma {:induction false} LiveAtMostEnds(tokens: seq<Token>, userId: string)
    requires forall i :: 0 <= i < |tokens| && tokens[i].replacedByHash.Some? ==> tokens[i].revokedAt.Some?
    ensures Live(tokens, userId) <= Ends(tokens, userId)
  {
    if tokens != [] {
      LiveAtMostEnds(tokens[..|tokens| - 1], userId);
    }
  }

  lemma StepCountsEnds(tokens: seq<Token>, e: Event, userId: string)
    requires WellLinked(tokens)
    ensures Ends(Step(tokens, e), userId) == Ends(tokens, userId) + if e.Login? && e.userId == userId then 1 else 0
  {
    match e
    case Login(user, id, hash, expiresAt) => EndsAppend(tokens, Issued(user, id, hash, expiresAt), userId);
    case Refresh(hash, now, active, id, newHash, expiresAt) =>
      if Acceptable(tokens, hash, now, active) {
        var i := FindHash(tokens, hash);
        RotationCountsEnds(tokens, i, now, Issued(tokens[i].userId, id, newHash, expiresAt), userId);
      }
    case _ => EndsAgree(Step(tokens, e), tokens, userId);
  }

  lemma RotationCountsEnds(tokens: seq<Token>, i: nat, now: int, issued: Token, userId: string)
    requires i < |tokens| && tokens[i].replacedByHash.None?
    requires issued.userId == tokens[i].userId && issued.replacedByHash.None?
    ensures Ends(Rotated(tokens, i, now, issued), userId) == Ends(tokens, userId)
  {
    var t := tokens[i].(revokedAt := Some(now), replacedByHash := Some(issued.tokenHash));
    EndsUpdate(tokens, i, t, userId);
    EndsAppend(tokens[i := t], issued, userId);
  }

  lemma {:induction false} RunCountsEnds(tokens: seq<Token>, events: seq<Event>, userId: string)
    requires WellLinked(tokens) && FreshRun(tokens, events)
    ensures Ends(Run(tokens, events), userId) == Ends(tokens, userId) + Logins(events, userId)
    decreases |events|
  {
    if events != [] {
      StepCountsEnds(tokens, events[0], userId);
      StepKeepsLinks(tokens, events[0]);
      RunCountsEnds(Step(tokens, events[0]), events[1..], userId);
    }
  }

  /** A user never has more live sessions than successful logins, however often sessions are refreshed, and has
      exactly one chain of tokens per login. */
  lemma LiveSessionsAtMostLogins(events: seq<Event>, userId: string)
    requires FreshRun([], events)
    ensures Live(Run([], events), userId) <= Logins(events, userId)
    ensures Ends(Run([], events), userId) == Logins(events, userId)
  {
    EveryRunKeepsLinks([], events);
    RunCountsEnds([], events, userId);
    LiveAtMostEnds(Run([], events), userId);
  }
}
