/**
 What a run of requests decides, told from its history alone: which requests are granted a token, which
 resets are accepted, and whose password an account has.
 */
module ResetHistory {
  import opened Wrappers
  import opened ResetTokens
  import opened ResetRuns

  // The state before event `k`.
  function At(s: State, events: seq<Event>, k: nat): State
    requires k <= |events|
  {
    After(s, events[..k])
  }

  lemma NextAt(s: State, events: seq<Event>, k: nat)
    requires k < |events|
    ensures At(s, events, k + 1) == Next(At(s, events, k), events[k])
  {
    assert events[..k + 1][..k] == events[..k];
  }

  // ---------- passwords ----------

  predicate Accepted(s: State, e: Event) {
    e.Reset? && Accepts(s, e.hash, e.policyOk, e.now)
  }

  predicate ResetsPasswordOf(s: State, e: Event, user: int) {
    Accepted(s, e) && Find(s.tokens, e.hash).value.user == user
  }

  // An accepted reset gives the token's user exactly the new password and a clean slate, and touches
  // no other account; a refused one touches none.
  lemma ResetEffect(s: State, e: Event, user: int)
    requires e.Reset? && user in s.accounts
    ensures Next(s, e).accounts.Keys == s.accounts.Keys
    ensures Next(s, e).accounts[user] ==
            if ResetsPasswordOf(s, e, user) then Account(true, e.password, Some(e.now), false, 0, None) else s.accounts[user]
  {
  }

  predicate HasPassword(s: State, user: int, password: string) {
    user in s.accounts && s.accounts[user].password == password
  }

  // A step that is neither an accepted reset of the user nor a change elsewhere that gives the account
  // another password.
  predicate LeavesPassword(s: State, e: Event, user: int, password: string) {
    !ResetsPasswordOf(s, e, user) && (e.Accounts? ==> user in e.after && e.after[user].password == password)
  }

  // From event `i` on no step changes the password.
  lemma {:induction false} PasswordStays(s: State, events: seq<Event>, i: nat, n: nat, user: int, password: string)
    requires i <= n <= |events| && HasPassword(At(s, events, i), user, password)
    requires forall k :: i <= k < n ==> LeavesPassword(At(s, events, k), events[k], user, password)
    ensures HasPassword(At(s, events, n), user, password)
  {
    if i < n {
      PasswordStays(s, events, i, n - 1, user, password);
      NextAt(s, events, n - 1);
      if events[n - 1].Reset? {
        ResetEffect(At(s, events, n - 1), events[n - 1], user);
      }
    }
  }

  // The password in force is that of the last accepted reset.
  lemma PasswordIsOfLastReset(s: State, events: seq<Event>, i: nat, n: nat, user: int)
    requires i < n <= |events| && ResetsPasswordOf(At(s, events, i), events[i], user)
    requires forall k :: i < k < n ==> LeavesPassword(At(s, events, k), events[k], user, events[i].password)
    ensures HasPassword(At(s, events, n), user, events[i].password)
  {
    NextAt(s, events, i);
    ResetEffect(At(s, events, i), events[i], user);
    PasswordStays(s, events, i + 1, n, user, events[i].password);
  }

  // ---------- which requests are granted ----------

  // Event `k` adds a token for the user.
  predicate Granted(s: State, events: seq<Event>, k: nat, user: int) {
    && k < |events| && events[k].Forgot? && events[k].found == Some(user)
    && |At(s, events, k + 1).tokens| > |At(s, events, k).tokens|
  }

  function TokenOf(e: Event): Token
    requires e.Forgot? && e.found.Some?
  {
    Token(e.found.value, e.hash, e.now, e.now + e.lifetime, None)
  }

  // What a step does to the tokens, as the history sees it.
  lemma StepTokens(s: State, events: seq<Event>, k: nat)
    requires k < |events|
    ensures var before, after, e := At(s, events, k).tokens, At(s, events, k + 1).tokens, events[k];
            if e.Forgot? && e.found.Some? && Granted(s, events, k, e.found.value)
            then Issues(At(s, events, k), e.found, e.now) && after == SpendAll(before, e.found.value, e.now) + [TokenOf(e)]
            else if Accepted(At(s, events, k), e) then after == SpendAll(before, Find(before, e.hash).value.user, e.now)
            else after == before
    ensures forall user :: Granted(s, events, k, user) <==>
              events[k].Forgot? && events[k].found == Some(user) && Issues(At(s, events, k), Some(user), events[k].now)
  {
    NextAt(s, events, k);
  }

  predicate IssuedAt(tokens: seq<Token>, user: int, time: int) {
    exists i :: 0 <= i < |tokens| && tokens[i].user == user && tokens[i].createdAt == time
  }

  lemma IssuedAtAfterStep(tokens: seq<Token>, spender: int, now: int, t: Token, user: int, time: int)
    ensures IssuedAt(SpendAll(tokens, spender, now), user, time) <==> IssuedAt(tokens, user, time)
    ensures IssuedAt(tokens + [t], user, time) <==> IssuedAt(tokens, user, time) || (t.user == user && t.createdAt == time)
  {
    var spent := SpendAll(tokens, spender, now);
    assert forall i :: 0 <= i < |tokens| ==> spent[i].user == tokens[i].user && spent[i].createdAt == tokens[i].createdAt;
    var more := tokens + [t];
    assert more[|tokens|] == t && forall i :: 0 <= i < |tokens| ==> more[i] == tokens[i];
  }

  lemma {:induction false} TimesAreOfGrants(s: State, events: seq<Event>, n: nat, user: int, time: int)
    requires s.tokens == [] && n <= |events|
    ensures IssuedAt(At(s, events, n).tokens, user, time) <==>
            exists j :: 0 <= j < n && Granted(s, events, j, user) && events[j].now == time
  {
    if n > 0 {
      TimesAreOfGrants(s, events, n - 1, user, time);
      StepTokens(s, events, n - 1);
      var before, e := At(s, events, n - 1).tokens, events[n - 1];
      if e.Forgot? && e.found.Some? && Granted(s, events, n - 1, e.found.value) {
        IssuedAtAfterStep(before, e.found.value, e.now, TokenOf(e), user, time);
        IssuedAtAfterStep(SpendAll(before, e.found.value, e.now), e.found.value, e.now, TokenOf(e), user, time);
      } else if Accepted(At(s, events, n - 1), e) {
        IssuedAtAfterStep(before, Find(before, e.hash).value.user, e.now, Token(0, "", 0, 0, None), user, time);
      }
    }
  }

  // A request is granted exactly for an active account that was granted none in the last minute.
  lemma GrantedIff(s: State, events: seq<Event>, k: nat, user: int)
    requires s.tokens == [] && k < |events|
    ensures Granted(s, events, k, user) <==>
            && events[k].Forgot? && events[k].found == Some(user)
            && user in At(s, events, k).accounts && At(s, events, k).accounts[user].active
            && !exists j :: 0 <= j < k && Granted(s, events, j, user) && events[k].now - events[j].now <= 60_000_000
  {
    StepTokens(s, events, k);
    var tokens, now := At(s, events, k).tokens, events[k].now;
    if i :| 0 <= i < |tokens| && tokens[i].user == user && tokens[i].createdAt >= now - MINUTE {
      TimesAreOfGrants(s, events, k, user, tokens[i].createdAt);
      assert IssuedAt(tokens, user, tokens[i].createdAt);
    }
    if j :| 0 <= j < k && Granted(s, events, j, user) && now - events[j].now <= 60_000_000 {
      TimesAreOfGrants(s, events, k, user, events[j].now);
    }
  }

  // ---------- which resets are accepted ----------

  predicate Redeems(s: State, events: seq<Event>, m: nat, hash: string) {
    m < |events| && events[m].Reset? && events[m].hash == hash && Accepted(At(s, events, m), events[m])
  }

  // The token granted at `j` is the user's newest before event `n`, and was not redeemed.
  predicate Open(s: State, events: seq<Event>, n: nat, j: nat, user: int) {
    && j < n <= |events| && Granted(s, events, j, user)
    && (forall m :: j < m < n ==> !Granted(s, events, m, user))
    && (forall m :: j < m < n ==> !Redeems(s, events, m, events[j].hash))
  }

  predicate SurvivesStep(s: State, events: seq<Event>, k: nat, t: Token)
    requires k < |events|
  {
    !Granted(s, events, k, t.user) && !Redeems(s, events, k, t.hash)
  }

  predicate OpenAs(s: State, events: seq<Event>, n: nat, j: nat, t: Token) {
    Open(s, events, n, j, t.user) && t == TokenOf(events[j])
  }

  predicate OpenToken(s: State, events: seq<Event>, n: nat, t: Token) {
    exists j :: 0 <= j < n && OpenAs(s, events, n, j, t)
  }

  lemma OpenAsStep(s: State, events: seq<Event>, k: nat, j: nat, t: Token)
    requires k < |events| && j < k
    ensures OpenAs(s, events, k + 1, j, t) <==> OpenAs(s, events, k, j, t) && SurvivesStep(s, events, k, t)
  {
    if OpenAs(s, events, k, j, t) && SurvivesStep(s, events, k, t) {
      forall m | j < m < k + 1 ensures !Granted(s, events, m, t.user) && !Redeems(s, events, m, t.hash) {
      }
    }
  }

  lemma OpenAfterStep(s: State, events: seq<Event>, k: nat, t: Token)
    requires k < |events|
    ensures OpenToken(s, events, k + 1, t) <==>
            (OpenToken(s, events, k, t) && SurvivesStep(s, events, k, t)) || (Granted(s, events, k, t.user) && t == TokenOf(events[k]))
  {
    assert OpenAs(s, events, k + 1, k, t) <==> Granted(s, events, k, t.user) && t == TokenOf(events[k]);
    forall j | 0 <= j < k ensures OpenAs(s, events, k + 1, j, t) <==> OpenAs(s, events, k, j, t) && SurvivesStep(s, events, k, t) {
      OpenAsStep(s, events, k, j, t);
    }
    if OpenToken(s, events, k + 1, t) {
      var j :| 0 <= j < k + 1 && OpenAs(s, events, k + 1, j, t);
      assert j == k || OpenAs(s, events, k, j, t);
    }
    if OpenToken(s, events, k, t) && SurvivesStep(s, events, k, t) {
      var j :| 0 <= j < k && OpenAs(s, events, k, j, t);
      assert OpenAs(s, events, k + 1, j, t);
    }
  }

  lemma OrderlyAt(s: State, events: seq<Event>, n: nat)
    requires s.tokens == [] && IsRun(s, events) && n <= |events|
    ensures Orderly(At(s, events, n).tokens)
  {
    RunPrefix(s, events, n);
    RunKeepsOrder(s, events[..n]);
  }

  // The unused tokens are exactly the open ones.
  lemma {:induction false} UnusedIsOpen(s: State, events: seq<Event>, n: nat, t: Token)
    requires s.tokens == [] && IsRun(s, events) && n <= |events| && t.usedAt.None?
    ensures t in At(s, events, n).tokens <==> OpenToken(s, events, n, t)
  {
    if n > 0 {
      var k := n - 1;
      UnusedIsOpen(s, events, k, t);
      UnusedAfterStep(s, events, k, t);
      OpenAfterStep(s, events, k, t);
      assert t in At(s, events, k + 1).tokens <==> OpenToken(s, events, k + 1, t);
    }
  }

  lemma InSpent(tokens: seq<Token>, user: int, now: int, t: Token)
    requires t.usedAt.None?
    ensures t in SpendAll(tokens, user, now) <==> t in tokens && t.user != user
  {
    var spent := SpendAll(tokens, user, now);
    if t in spent {
      var i :| 0 <= i < |spent| && spent[i] == t;
      assert spent[i] == Spend(tokens[i], user, now) == tokens[i];
    }
    if t in tokens && t.user != user {
      var i :| 0 <= i < |tokens| && tokens[i] == t;
      assert spent[i] == t;
    }
  }

  lemma UnusedAfterStep(s: State, events: seq<Event>, k: nat, t: Token)
    requires s.tokens == [] && IsRun(s, events) && k < |events| && t.usedAt.None?
    ensures t in At(s, events, k + 1).tokens <==>
            (t in At(s, events, k).tokens && SurvivesStep(s, events, k, t)) || (Granted(s, events, k, t.user) && t == TokenOf(events[k]))
  {
    StepTokens(s, events, k);
    var before, e := At(s, events, k).tokens, events[k];
    if e.Forgot? && e.found.Some? && Granted(s, events, k, e.found.value) {
      InSpent(before, e.found.value, e.now, t);
    } else if Accepted(At(s, events, k), e) {
      InSpent(before, Find(before, e.hash).value.user, e.now, t);
      OrderlyAt(s, events, k);
      OneOfUserOrHash(before, Find(before, e.hash).value, e.hash, t);
    }
  }

  // In an orderly table an unused token is told by its user as well as by its hash.
  lemma OneOfUserOrHash(tokens: seq<Token>, found: Token, hash: string, t: Token)
    requires Orderly(tokens) && Find(tokens, hash) == Some(found) && found.usedAt.None? && t.usedAt.None?
    ensures t in tokens ==> (t.user == found.user <==> t.hash == hash)
  {
    FindIs(tokens, hash);
    var i :| 0 <= i < |tokens| && tokens[i] == found && tokens[i].hash == hash;
    if t in tokens {
      var k :| 0 <= k < |tokens| && tokens[k] == t;
      OlderIsUsed(tokens, i, k);
      OlderIsUsed(tokens, k, i);
    }
  }

  // The grant at `j` makes the reset at `k` acceptable: it issued the hash, has not expired, and neither
  // a later grant nor a redemption came in between.
  predicate Backs(s: State, events: seq<Event>, k: nat, j: nat, user: int)
    requires k < |events|
  {
    Open(s, events, k, j, user) && events[k].Reset? && events[j].hash == events[k].hash &&
    events[k].now < events[j].now + events[j].lifetime
  }

  // A reset is accepted exactly when a grant to a now active account backs it and the password meets
  // the policy.
  lemma AcceptedIff(s: State, events: seq<Event>, k: nat, user: int)
    requires s.tokens == [] && IsRun(s, events) && k < |events|
    ensures ResetsPasswordOf(At(s, events, k), events[k], user) <==>
            && events[k].Reset? && events[k].policyOk
            && user in At(s, events, k).accounts && At(s, events, k).accounts[user].active
            && exists j :: 0 <= j < k && Backs(s, events, k, j, user)
  {
    var now, e := At(s, events, k), events[k];
    OrderlyAt(s, events, k);
    if ResetsPasswordOf(now, e, user) {
      var t := Find(now.tokens, e.hash).value;
      FindIs(now.tokens, e.hash);
      UnusedIsOpen(s, events, k, t);
      var j :| 0 <= j < k && OpenAs(s, events, k, j, t);
      assert Backs(s, events, k, j, user);
    }
    if e.Reset? && exists j :: 0 <= j < k && Backs(s, events, k, j, user) {
      var j :| 0 <= j < k && Backs(s, events, k, j, user);
      assert OpenAs(s, events, k, j, TokenOf(events[j]));
      UnusedIsOpen(s, events, k, TokenOf(events[j]));
      FoundByHash(now.tokens, TokenOf(events[j]));
    }
  }

  lemma FoundByHash(tokens: seq<Token>, t: Token)
    requires Orderly(tokens) && t in tokens
    ensures Find(tokens, t.hash) == Some(t)
  {
    FindIs(tokens, t.hash);
    var k :| 0 <= k < |tokens| && tokens[k] == t;
    var i :| 0 <= i < |tokens| && tokens[i] == Find(tokens, t.hash).value && tokens[i].hash == t.hash;
    assert i == k;
  }
}
