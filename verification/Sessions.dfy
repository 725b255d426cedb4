/** Refresh tokens and session sets with TTLs (internal/repo/token.go), each repo call atomic, under a clock that never
    goes back. */
module Sessions {
  import opened Common

  datatype Entry = Entry(user: nat, expiry: Time)

  datatype SessionSet = SessionSet(tokens: set<string>, expiry: Time)

  // issued: every token ever handed out, with its user. Bookkeeping only.
  datatype State = State(refresh: map<string, Entry>, sets: map<nat, SessionSet>, issued: map<string, nat>, clock: Time)

  const EMPTY := State(map[], map[], map[], 0)

  predicate LiveToken(s: State, token: string, now: Time) {
    token in s.refresh && now < s.refresh[token].expiry
  }

  predicate LiveSet(s: State, user: nat, now: Time) {
    user in s.sets && now < s.sets[user].expiry
  }

  function UserOf(s: State, token: string, now: Time): Option<nat> {
    if LiveToken(s, token, now) then Some(s.refresh[token].user) else None
  }

  // SET, SADD and EXPIRE in one transaction.
  function AfterIssue(s: State, user: nat, token: string, ttl: Time, now: Time): State {
    var members := if LiveSet(s, user, now) then s.sets[user].tokens else {};
    s.(refresh := s.refresh[token := Entry(user, now + ttl)],
       sets := s.sets[user := SessionSet(members + {token}, now + ttl)],
       issued := s.issued[token := user], clock := now)
  }

  // Members of the session set without some; a set that becomes empty is gone.
  function Shrunk(s: State, user: nat, now: Time, gone: set<string>): map<nat, SessionSet> {
    if !LiveSet(s, user, now) then s.sets
    else
      var rest := s.sets[user].tokens - gone;
      if rest == {} then s.sets - {user} else s.sets[user := s.sets[user].(tokens := rest)]
  }

  // DEL and SREM in one transaction, for a token that validates.
  function AfterRevoke(s: State, token: string, now: Time): State {
    match UserOf(s, token, now)
    case None => s.(clock := now)
    case Some(user) => s.(refresh := s.refresh - {token}, sets := Shrunk(s, user, now, {token}), clock := now)
  }

  function Members(s: State, user: nat, now: Time): set<string> {
    if LiveSet(s, user, now) then s.sets[user].tokens else {}
  }

  function AfterRevokeAll(s: State, user: nat, now: Time): State {
    s.(refresh := s.refresh - Members(s, user, now), sets := s.sets - {user}, clock := now)
  }

  datatype Call =
    | IssueCall(user: nat, token: string, now: Time)
    | RevokeCall(token: string, now: Time)
    | RevokeAllCall(user: nat, now: Time)

  // Tokens are fresh.
  predicate Enabled(s: State, c: Call) {
    c.now >= s.clock && (c.IssueCall? ==> c.token !in s.issued)
  }

  function Apply(s: State, c: Call, ttl: Time): State {
    match c
    case IssueCall(user, token, now) => AfterIssue(s, user, token, ttl, now)
    case RevokeCall(token, now) => AfterRevoke(s, token, now)
    case RevokeAllCall(user, now) => AfterRevokeAll(s, user, now)
  }

  predicate Run(s: State, cs: seq<Call>, ttl: Time)
    decreases |cs|
  {
    cs == [] || (Enabled(s, cs[0]) && Run(Apply(s, cs[0], ttl), cs[1..], ttl))
  }

  function Final(s: State, cs: seq<Call>, ttl: Time): State
    decreases |cs|
  {
    if cs == [] then s else Final(Apply(s, cs[0], ttl), cs[1..], ttl)
  }

  // A live token is in the set of its user, which lives at least as long.
  predicate Covered(s: State, token: string)
    requires token in s.refresh
  {
    var e := s.refresh[token];
    && token in s.issued && s.issued[token] == e.user
    && (s.clock < e.expiry ==> e.user in s.sets && token in s.sets[e.user].tokens && e.expiry <= s.sets[e.user].expiry)
  }

  ghost predicate Inv(s: State, ttl: Time) {
    && (forall t :: t in s.refresh ==> Covered(s, t))
    && (forall u :: u in s.sets ==> s.sets[u].expiry <= s.clock + ttl && s.sets[u].tokens <= s.issued.Keys)
    && (forall u, t :: u in s.sets && t in s.sets[u].tokens ==> s.issued[t] == u && t in s.refresh)
  }

  lemma IssueKept(s: State, c: Call, ttl: Time)
    requires Inv(s, ttl) && Enabled(s, c) && ttl > 0 && c.IssueCall?
    ensures Inv(Apply(s, c, ttl), ttl)
  {
    var t := Apply(s, c, ttl);
    forall x | x in t.refresh
      ensures Covered(t, x)
    {
      if x in s.refresh {
        assert Covered(s, x);
      }
    }
  }

  lemma CallKept(s: State, c: Call, ttl: Time)
    requires Inv(s, ttl) && Enabled(s, c) && ttl > 0
    ensures Inv(Apply(s, c, ttl), ttl)
  {
    if c.IssueCall? {
      IssueKept(s, c, ttl);
    } else {
      var t := Apply(s, c, ttl);
      forall x | x in t.refresh
        ensures Covered(t, x)
      {
        assert Covered(s, x);
      }
    }
  }

  lemma {:induction false} RunKept(s: State, cs: seq<Call>, ttl: Time)
    requires Inv(s, ttl) && Run(s, cs, ttl) && ttl > 0
    ensures Inv(Final(s, cs, ttl), ttl)
    decreases |cs|
  {
    if cs != [] {
      CallKept(s, cs[0], ttl);
      RunKept(Apply(s, cs[0], ttl), cs[1..], ttl);
    }
  }

  /** On every run a token that validates, now or later, is in the session set of its user, and that set is then live
      and expires no earlier. A set has no member but tokens of its user that were not revoked. */
  lemma LiveTokensCovered(cs: seq<Call>, ttl: Time, token: string, now: Time)
    requires Run(EMPTY, cs, ttl) && ttl > 0
    requires now >= Final(EMPTY, cs, ttl).clock && LiveToken(Final(EMPTY, cs, ttl), token, now)
    ensures var s := Final(EMPTY, cs, ttl); var user := s.refresh[token].user;
            && LiveSet(s, user, now) && token in s.sets[user].tokens && s.refresh[token].expiry <= s.sets[user].expiry
            && forall t :: t in s.sets[user].tokens ==> t in s.refresh && s.refresh[t].user == user
  {
    RunKept(EMPTY, cs, ttl);
    var s := Final(EMPTY, cs, ttl);
    assert Covered(s, token);
    forall t | t in s.sets[s.refresh[token].user].tokens
      ensures t in s.refresh && s.refresh[t].user == s.refresh[token].user
    {
      assert Covered(s, t);
    }
  }

  // A token that is gone, or past its time, stays so: it is never handed out again.
  lemma {:induction false} DeadStaysDead(s: State, cs: seq<Call>, ttl: Time, token: string)
    requires Run(s, cs, ttl) && token in s.issued && !LiveToken(s, token, s.clock)
    ensures !LiveToken(Final(s, cs, ttl), token, Final(s, cs, ttl).clock)
    ensures token in Final(s, cs, ttl).issued
    decreases |cs|
  {
    if cs != [] {
      DeadStaysDead(Apply(s, cs[0], ttl), cs[1..], ttl, token);
    }
  }

  lemma {:induction false} NeverLater(s: State, token: string, now: Time)
    requires now >= s.clock && !LiveToken(s, token, s.clock)
    ensures UserOf(s, token, now) == None
  {
  }

  /** After RevokeAllForUser no token issued to that user before ever validates again. */
  lemma RevokeAllEndsSessions(before: seq<Call>, user: nat, at: Time, after: seq<Call>, ttl: Time, token: string,
                              now: Time)
    requires ttl > 0 && Run(EMPTY, before, ttl)
    requires Enabled(Final(EMPTY, before, ttl), RevokeAllCall(user, at))
    requires Run(AfterRevokeAll(Final(EMPTY, before, ttl), user, at), after, ttl)
    requires token in Final(EMPTY, before, ttl).issued && Final(EMPTY, before, ttl).issued[token] == user
    requires now >= Final(AfterRevokeAll(Final(EMPTY, before, ttl), user, at), after, ttl).clock
    ensures UserOf(Final(AfterRevokeAll(Final(EMPTY, before, ttl), user, at), after, ttl), token, now) == None
  {
    var s := Final(EMPTY, before, ttl);
    RunKept(EMPTY, before, ttl);
    var t := AfterRevokeAll(s, user, at);
    assert !LiveToken(t, token, t.clock) by {
      if token in s.refresh {
        assert Covered(s, token);
      }
    }
    DeadStaysDead(t, after, ttl, token);
    NeverLater(Final(t, after, ttl), token, now);
  }

  /** A revoked token, as the rotation in Refresh revokes the one it was given, never validates again. */
  lemma RotatedStaysInvalid(before: seq<Call>, token: string, at: Time, after: seq<Call>, ttl: Time, now: Time)
    requires ttl > 0 && Run(EMPTY, before, ttl) && token in Final(EMPTY, before, ttl).issued
    requires Enabled(Final(EMPTY, before, ttl), RevokeCall(token, at))
    requires Run(AfterRevoke(Final(EMPTY, before, ttl), token, at), after, ttl)
    requires now >= Final(AfterRevoke(Final(EMPTY, before, ttl), token, at), after, ttl).clock
    ensures UserOf(Final(AfterRevoke(Final(EMPTY, before, ttl), token, at), after, ttl), token, now) == None
  {
    var t := AfterRevoke(Final(EMPTY, before, ttl), token, at);
    DeadStaysDead(t, after, ttl, token);
    NeverLater(Final(t, after, ttl), token, now);
  }

  /** Revoking one user's sessions leaves every other user's tokens as they are. */
  lemma OthersKeepSessions(cs: seq<Call>, ttl: Time, user: nat, token: string, at: Time)
    requires ttl > 0 && Run(EMPTY, cs, ttl) && at >= Final(EMPTY, cs, ttl).clock
    requires LiveToken(Final(EMPTY, cs, ttl), token, at) && Final(EMPTY, cs, ttl).refresh[token].user != user
    ensures UserOf(AfterRevokeAll(Final(EMPTY, cs, ttl), user, at), token, at)
            == UserOf(Final(EMPTY, cs, ttl), token, at)
  {
    RunKept(EMPTY, cs, ttl);
    assert Covered(Final(EMPTY, cs, ttl), token);
  }

  // A revocation of the token itself, or of all tokens of its user.
  predicate Ended(cs: seq<Call>, token: string, user: nat) {
    exists i :: 0 <= i < |cs| && Ends(cs[i], token, user)
  }

  predicate Ends(c: Call, token: string, user: nat) {
    (c.RevokeCall? && c.token == token) || (c.RevokeAllCall? && c.user == user)
  }

  lemma StepEnds(s: State, c: Call, ttl: Time, token: string)
    requires Inv(s, ttl) && Enabled(s, c) && token in s.issued
    ensures Ends(c, token, s.issued[token]) ==> !LiveToken(Apply(s, c, ttl), token, c.now)
    ensures !Ends(c, token, s.issued[token]) ==>
              forall later :: c.now <= later ==> UserOf(Apply(s, c, ttl), token, later) == UserOf(s, token, later)
    ensures token in Apply(s, c, ttl).issued && Apply(s, c, ttl).issued[token] == s.issued[token]
    ensures Apply(s, c, ttl).clock == c.now
  {
    if token in s.refresh {
      assert Covered(s, token);
    }
  }

  lemma {:induction false} ClockForward(s: State, cs: seq<Call>, ttl: Time)
    requires Run(s, cs, ttl)
    ensures s.clock <= Final(s, cs, ttl).clock
    decreases |cs|
  {
    if cs != [] {
      assert Apply(s, cs[0], ttl).clock == cs[0].now;
      ClockForward(Apply(s, cs[0], ttl), cs[1..], ttl);
    }
  }

  lemma {:induction false} ValidUntilEnded(s: State, cs: seq<Call>, ttl: Time, token: string, later: Time)
    requires Inv(s, ttl) && ttl > 0 && Run(s, cs, ttl) && token in s.issued && later >= Final(s, cs, ttl).clock
    ensures UserOf(Final(s, cs, ttl), token, later)
            == if Ended(cs, token, s.issued[token]) then None else UserOf(s, token, later)
    decreases |cs|
  {
    if cs != [] {
      var user := s.issued[token];
      var t := Apply(s, cs[0], ttl);
      StepEnds(s, cs[0], ttl, token);
      CallKept(s, cs[0], ttl);
      ClockForward(t, cs[1..], ttl);
      ValidUntilEnded(t, cs[1..], ttl, token, later);
      assert Ended(cs, token, user) <==> Ends(cs[0], token, user) || Ended(cs[1..], token, user) by {
        if Ended(cs[1..], token, user) {
          var i :| 0 <= i < |cs[1..]| && Ends(cs[1..][i], token, user);
          assert cs[i + 1] == cs[1..][i];
        }
      }
    }
  }

  /** A token validates, and then for its user, exactly until its lifetime has passed since it was issued, unless it was
      revoked or all tokens of its user were in the meantime. Nothing else ends a session, whatever is done with other
      tokens, and nothing brings one back. */
  lemma ValidExactly(before: seq<Call>, user: nat, token: string, at: Time, after: seq<Call>, ttl: Time, now: Time)
    requires ttl > 0 && Run(EMPTY, before, ttl) && Enabled(Final(EMPTY, before, ttl), IssueCall(user, token, at))
    requires Run(AfterIssue(Final(EMPTY, before, ttl), user, token, ttl, at), after, ttl)
    requires now >= Final(AfterIssue(Final(EMPTY, before, ttl), user, token, ttl, at), after, ttl).clock
    ensures UserOf(Final(AfterIssue(Final(EMPTY, before, ttl), user, token, ttl, at), after, ttl), token, now)
            == if now < at + ttl && !Ended(after, token, user) then Some(user) else None
  {
    var s := Final(EMPTY, before, ttl);
    RunKept(EMPTY, before, ttl);
    CallKept(s, IssueCall(user, token, at), ttl);
    ValidUntilEnded(AfterIssue(s, user, token, ttl, at), after, ttl, token, now);
  }

  /** The store as the service uses it. */
  class TokenRepo {
    const ttl: Time
    var refresh: map<string, Entry>
    var sets: map<nat, SessionSet>
    ghost var issued: map<string, nat>
    ghost var clock: Time

    ghost function View(): State
      reads this
    {
      State(refresh, sets, issued, clock)
    }

    constructor (ttl: Time)
      ensures this.ttl == ttl && View() == EMPTY
    {
      this.ttl := ttl;
      refresh, sets, issued, clock := map[], map[], map[], 0;
    }

    method Issue(user: nat, token: string, now: Time)
      modifies this
      ensures View() == AfterIssue(old(View()), user, token, ttl, now)
    {
      refresh := refresh[token := Entry(user, now + ttl)];
      var members := {};
      if user in sets && now < sets[user].expiry {
        members := sets[user].tokens;
      }
      sets := sets[user := SessionSet(members + {token}, now + ttl)];
      issued, clock := issued[token := user], now;
    }

    method Validate(token: string, now: Time) returns (user: Option<nat>)
      ensures user == UserOf(View(), token, now)
    {
      if token !in refresh || refresh[token].expiry <= now {
        return None;
      }
      return Some(refresh[token].user);
    }

    method Revoke(token: string, now: Time) returns (ok: bool)
      modifies this
      ensures View() == AfterRevoke(old(View()), token, now)
      ensures ok <==> old(UserOf(View(), token, now)).Some?
    {
      var user := Validate(token, now);
      clock := now;
      if user.None? {
        return false;
      }
      refresh := refresh - {token};
      if user.value in sets && now < sets[user.value].expiry {
        var rest := sets[user.value].tokens - {token};
        sets := if rest == {} then sets - {user.value} else sets[user.value := sets[user.value].(tokens := rest)];
      }
      return true;
    }

    method RevokeAllForUser(user: nat, now: Time)
      modifies this
      ensures View() == AfterRevokeAll(old(View()), user, now)
    {
      var left := {};
      if user in sets && now < sets[user].expiry {
        left := sets[user].tokens;
      }
      ghost var members := left;
      while left != {}
        invariant left <= members
        invariant refresh == old(refresh) - (members - left)
        invariant sets == old(sets) && issued == old(issued)
        decreases |left|
      {
        var token :| token in left;
        refresh := refresh - {token};
        left := left - {token};
      }
      sets := sets - {user};
      clock := now;
    }
  }
}
