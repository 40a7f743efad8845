/** One-time tokens of the "forgot password" flow. Times are microseconds of one clock. */
module ResetTokens {
  import opened Wrappers

  const MINUTE := 60_000_000

  datatype Account = Account(active: bool, password: string, passwordChangedAt: Option<int>, mustChange: bool,
                             failedLogins: nat, lockedUntil: Option<int>)

  datatype Token = Token(user: int, hash: string, createdAt: int, expiresAt: int, usedAt: Option<int>) {
    predicate IsValid(now: int) {
      usedAt.None? && now < expiresAt
    }
  }

  datatype State = State(accounts: map<int, Account>, tokens: seq<Token>)

  predicate Active(accounts: map<int, Account>, user: int) {
    user in accounts && accounts[user].active
  }

  // ---------- the steps ----------

  function Spend(t: Token, user: int, now: int): Token {
    if t.user == user && t.usedAt.None? then t.(usedAt := Some(now)) else t
  }

  // Every unused token of a user marked as used.
  function SpendAll(tokens: seq<Token>, user: int, now: int): (r: seq<Token>)
    ensures |r| == |tokens| && forall i :: 0 <= i < |tokens| ==> r[i] == Spend(tokens[i], user, now)
  {
    seq(|tokens|, i requires 0 <= i < |tokens| => Spend(tokens[i], user, now))
  }

  predicate Throttled(tokens: seq<Token>, user: int, now: int) {
    exists i :: 0 <= i < |tokens| && tokens[i].user == user && tokens[i].createdAt >= now - MINUTE
  }

  predicate Issues(s: State, found: Option<int>, now: int) {
    found.Some? && Active(s.accounts, found.value) && !Throttled(s.tokens, found.value, now)
  }

  function Issued(s: State, user: int, now: int, hash: string, lifetime: int): State {
    s.(tokens := SpendAll(s.tokens, user, now) + [Token(user, hash, now, now + lifetime, None)])
  }

  function Find(tokens: seq<Token>, hash: string): Option<Token> {
    if tokens == [] then None else if tokens[0].hash == hash then Some(tokens[0]) else Find(tokens[1..], hash)
  }

  predicate Accepts(s: State, hash: string, policyOk: bool, now: int) {
    match Find(s.tokens, hash)
    case Some(t) => t.IsValid(now) && Active(s.accounts, t.user) && policyOk
    case None => false
  }

  function WithPassword(a: Account, password: string, now: int): Account {
    a.(password := password, passwordChangedAt := Some(now), mustChange := false, failedLogins := 0, lockedUntil := None)
  }

  function Redeemed(s: State, hash: string, password: string, now: int): State
    requires Accepts(s, hash, true, now)
  {
    var user := Find(s.tokens, hash).value.user;
    State(s.accounts[user := WithPassword(s.accounts[user], password, now)], SpendAll(s.tokens, user, now))
  }

  class ResetService {
    var accounts: map<int, Account>
    var tokens: seq<Token>

    ghost function Contents(): State
      reads this
    {
      State(accounts, tokens)
    }

    method SpendUnused(user: int, now: int)
      modifies this`tokens
      ensures tokens == SpendAll(old(tokens), user, now)
    {
      var i := 0;
      while i < |tokens|
        invariant 0 <= i <= |tokens| == |old(tokens)|
        invariant forall j :: 0 <= j < i ==> tokens[j] == Spend(old(tokens)[j], user, now)
        invariant forall j :: i <= j < |tokens| ==> tokens[j] == old(tokens)[j]
      {
        if tokens[i].user == user && tokens[i].usedAt.None? {
          tokens := tokens[i := tokens[i].(usedAt := Some(now))];
        }
        i := i + 1;
      }
    }

    // `found` is the account the address belongs to, `hash` that of a fresh random token.
    method ForgotPassword(found: Option<int>, now: int, hash: string, lifetime: int) returns (issued: bool)
      modifies this`tokens
      ensures issued <==> Issues(old(Contents()), found, now)
      ensures Contents() == if issued then Issued(old(Contents()), found.value, now, hash, lifetime) else old(Contents())
    {
      if found.None? || !Active(accounts, found.value) {
        return false;
      }
      if Throttled(tokens, found.value, now) {
        return false;
      }
      SpendUnused(found.value, now);
      tokens := tokens + [Token(found.value, hash, now, now + lifetime, None)];
      return true;
    }

    method ValidateResetToken(hash: string, now: int) returns (valid: bool)
      ensures valid <==> Find(tokens, hash).Some? && Find(tokens, hash).value.IsValid(now)
    {
      var reset := Find(tokens, hash);
      valid := reset.Some? && reset.value.IsValid(now);
    }

    method ResetPassword(hash: string, password: string, policyOk: bool, now: int) returns (ok: bool)
      modifies this
      ensures ok <==> Accepts(old(Contents()), hash, policyOk, now)
      ensures ok ==> var user := Find(old(tokens), hash).value.user;
                     accounts == old(accounts)[user := Account(true, password, Some(now), false, 0, None)]
      ensures Contents() == if ok then Redeemed(old(Contents()), hash, password, now) else old(Contents())
    {
      var reset := Find(tokens, hash);
      if reset.None? || !reset.value.IsValid(now) {
        return false;
      }
      var user := reset.value.user;
      if !Active(accounts, user) {
        return false;
      }
      if !policyOk {
        return false;
      }
      accounts := accounts[user := WithPassword(accounts[user], password, now)];
      MarkUsed(hash, now);
      SpendUnused(user, now);
      MarkedThenSpent(old(tokens), hash, now);
      return true;
    }

    method MarkUsed(hash: string, now: int)
      modifies this`tokens
      ensures tokens == Marked(old(tokens), hash, now)
    {
      for i := 0 to |tokens|
        invariant tokens == old(tokens)
        invariant forall j :: 0 <= j < i ==> tokens[j].hash != hash
        invariant Marked(tokens[i..], hash, now) == Marked(tokens, hash, now)[i..]
        invariant tokens[..i] == Marked(tokens, hash, now)[..i]
      {
        if tokens[i].hash == hash {
          tokens := tokens[i := tokens[i].(usedAt := Some(now))];
          return;
        }
      }
    }
  }

  // The first token with a hash marked as used.
  function Marked(tokens: seq<Token>, hash: string, now: int): (r: seq<Token>)
    ensures |r| == |tokens|
  {
    if tokens == [] then []
    else if tokens[0].hash == hash then [tokens[0].(usedAt := Some(now))] + tokens[1..]
    else [tokens[0]] + Marked(tokens[1..], hash, now)
  }

  lemma SpendAllCons(t: Token, rest: seq<Token>, user: int, now: int)
    ensures SpendAll([t] + rest, user, now) == [Spend(t, user, now)] + SpendAll(rest, user, now)
  {
  }

  // Marking a token and then spending what is left of its user is spending all of them.
  lemma {:induction false} MarkedThenSpent(tokens: seq<Token>, hash: string, now: int)
    requires Find(tokens, hash).Some? && Find(tokens, hash).value.usedAt.None?
    ensures var user := Find(tokens, hash).value.user;
            SpendAll(Marked(tokens, hash, now), user, now) == SpendAll(tokens, user, now)
  {
    var user := Find(tokens, hash).value.user;
    assert tokens == [tokens[0]] + tokens[1..];
    SpendAllCons(tokens[0], tokens[1..], user, now);
    if tokens[0].hash != hash {
      MarkedThenSpent(tokens[1..], hash, now);
      SpendAllCons(tokens[0], Marked(tokens[1..], hash, now), user, now);
    } else {
      SpendAllCons(tokens[0].(usedAt := Some(now)), tokens[1..], user, now);
    }
  }
}
