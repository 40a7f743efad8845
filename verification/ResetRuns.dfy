/** What holds of password-reset tokens over every run of requests, served one after the other. */
module ResetRuns {
  import opened Wrappers
  import opened ResetTokens

  // `Accounts` is any change to the accounts made elsewhere. Tokens stay: deleting an account together
  // with its tokens is not modelled.
  datatype Event = Forgot(found: Option<int>, now: int, hash: string, lifetime: int)
                 | Reset(hash: string, password: string, policyOk: bool, now: int)
                 | Accounts(after: map<int, Account>, now: int)

  function Next(s: State, e: Event): State {
    match e
    case Forgot(found, now, hash, lifetime) => if Issues(s, found, now) then Issued(s, found.value, now, hash, lifetime) else s
    case Reset(hash, password, policyOk, now) => if Accepts(s, hash, policyOk, now) then Redeemed(s, hash, password, now) else s
    case Accounts(after, _) => s.(accounts := after)
  }

  predicate HasHash(tokens: seq<Token>, hash: string) {
    exists i :: 0 <= i < |tokens| && tokens[i].hash == hash
  }

  // Random tokens do not repeat: a new hash is none of those stored.
  predicate Fresh(s: State, e: Event) {
    e.Forgot? ==> !HasHash(s.tokens, e.hash)
  }

  function After(s: State, events: seq<Event>): State {
    if events == [] then s else Next(After(s, events[..|events| - 1]), events[|events| - 1])
  }

  ghost predicate IsRun(s: State, events: seq<Event>) {
    && (forall i :: 0 <= i < |events| ==> Fresh(After(s, events[..i]), events[i]))
    && (forall i, j :: 0 <= i < j < |events| ==> events[i].now <= events[j].now)
  }

  // ---------- what every step keeps ----------

  // Tokens stored in the order of their times, those of one user more than a minute apart, and all
  // but the newest of a user used.
  predicate Spaced(a: Token, b: Token) {
    a.createdAt <= b.createdAt && (a.user == b.user ==> a.usedAt.Some? && b.createdAt - a.createdAt > MINUTE)
  }

  predicate Orderly(tokens: seq<Token>) {
    forall i, j :: 0 <= i < j < |tokens| ==> Spaced(tokens[i], tokens[j]) && tokens[i].hash != tokens[j].hash
  }

  predicate UpTo(tokens: seq<Token>, now: int) {
    forall i :: 0 <= i < |tokens| ==> tokens[i].createdAt <= now
  }

  lemma StepKeepsOrder(s: State, e: Event)
    requires Orderly(s.tokens) && UpTo(s.tokens, e.now) && Fresh(s, e)
    ensures Orderly(Next(s, e).tokens) && UpTo(Next(s, e).tokens, e.now)
  {
    if e.Forgot? && Issues(s, e.found, e.now) {
      var spent := SpendAll(s.tokens, e.found.value, e.now);
      forall i | 0 <= i < |spent|
        ensures Spaced(spent[i], Token(e.found.value, e.hash, e.now, e.now + e.lifetime, None)) && spent[i].hash != e.hash
      {
        assert spent[i] == Spend(s.tokens[i], e.found.value, e.now);
      }
    }
  }

  predicate Settled(s: State, now: int) {
    Orderly(s.tokens) && UpTo(s.tokens, now)
  }

  predicate NotBefore(events: seq<Event>, start: int) {
    forall i :: 0 <= i < |events| ==> start <= events[i].now
  }

  lemma NotBeforePrefix(events: seq<Event>, start: int, n: nat)
    requires NotBefore(events, start) && n <= |events|
    ensures NotBefore(events[..n], start)
  {
  }

  lemma LastStep(s: State, events: seq<Event>)
    requires IsRun(s, events) && events != []
    ensures Fresh(After(s, events[..|events| - 1]), events[|events| - 1])
    ensures |events| >= 2 ==> events[|events| - 2].now <= events[|events| - 1].now
  {
  }

  lemma {:induction false} RunSettles(s: State, events: seq<Event>, start: int)
    requires Settled(s, start) && IsRun(s, events) && NotBefore(events, start)
    ensures Settled(After(s, events), if events == [] then start else events[|events| - 1].now)
  {
    if events != [] {
      var n := |events| - 1;
      var front, last := events[..n], events[n];
      RunPrefix(s, events, n);
      NotBeforePrefix(events, start, n);
      RunSettles(s, front, start);
      LastStep(s, events);
      UpToLater(After(s, front).tokens, if front == [] then start else front[n - 1].now, last.now);
      StepKeepsOrder(After(s, front), last);
    }
  }

  // Every run keeps the tokens in order.
  lemma RunKeepsOrder(s: State, events: seq<Event>)
    requires s.tokens == [] && IsRun(s, events)
    ensures Orderly(After(s, events).tokens)
  {
    if events != [] {
      RunSettles(s, events, events[0].now);
    }
  }

  lemma UpToLater(tokens: seq<Token>, now: int, later: int)
    requires UpTo(tokens, now) && now <= later
    ensures UpTo(tokens, later)
  {
  }

  lemma RunPrefix(s: State, events: seq<Event>, n: nat)
    requires IsRun(s, events) && n <= |events|
    ensures IsRun(s, events[..n])
  {
    assert forall i :: 0 <= i < n ==> events[..n][..i] == events[..i];
  }

  // A user never has two unused tokens.
  lemma OneUnusedToken(s: State, events: seq<Event>, i: nat, j: nat)
    requires s.tokens == [] && IsRun(s, events)
    requires var tokens := After(s, events).tokens;
             i < j < |tokens| && tokens[i].user == tokens[j].user
    ensures After(s, events).tokens[i].usedAt.Some?
  {
    RunKeepsOrder(s, events);
    OlderIsUsed(After(s, events).tokens, i, j);
  }

  // ---------- a token succeeds at most once ----------

  predicate Succeeds(s: State, e: Event, hash: string) {
    e.Reset? && e.hash == hash && Accepts(s, hash, e.policyOk, e.now)
  }

  // Some token has the hash, and it cannot be redeemed any more.
  predicate Burnt(s: State, hash: string) {
    Find(s.tokens, hash).Some? && Find(s.tokens, hash).value.usedAt.Some?
  }

  lemma {:induction false} FindSpent(tokens: seq<Token>, hash: string, user: int, now: int)
    ensures Find(SpendAll(tokens, user, now), hash) ==
            match Find(tokens, hash) case Some(t) => Some(Spend(t, user, now)) case None => None
  {
    if tokens != [] && tokens[0].hash != hash {
      FindSpent(tokens[1..], hash, user, now);
      assert SpendAll(tokens, user, now)[1..] == SpendAll(tokens[1..], user, now);
    }
  }

  lemma {:induction false} FindAppended(tokens: seq<Token>, t: Token, hash: string)
    ensures Find(tokens + [t], hash) ==
            if Find(tokens, hash).Some? then Find(tokens, hash) else if t.hash == hash then Some(t) else None
  {
    if tokens == [] {
      assert tokens + [t] == [t];
    } else if tokens[0].hash != hash {
      FindAppended(tokens[1..], t, hash);
      assert (tokens + [t])[1..] == tokens[1..] + [t];
    }
  }

  lemma SuccessBurns(s: State, e: Event, hash: string)
    requires Succeeds(s, e, hash)
    ensures Burnt(Next(s, e), hash)
  {
    FindSpent(s.tokens, hash, Find(s.tokens, hash).value.user, e.now);
  }

  lemma BurntStays(s: State, e: Event, hash: string)
    requires Burnt(s, hash)
    ensures Burnt(Next(s, e), hash) && !Succeeds(s, e, hash)
  {
    match e
    case Forgot(found, now, other, lifetime) =>
      if Issues(s, found, now) {
        FindSpent(s.tokens, hash, found.value, now);
        FindAppended(SpendAll(s.tokens, found.value, now), Token(found.value, other, now, now + lifetime, None), hash);
      }
    case Reset(other, password, policyOk, now) =>
      if Accepts(s, other, policyOk, now) {
        FindSpent(s.tokens, hash, Find(s.tokens, other).value.user, now);
      }
    case Accounts(_, _) =>
  }

  // Of two successful resets in a run, the later one has another token.
  lemma {:induction false} SucceedsAtMostOnce(s: State, events: seq<Event>, i: nat, j: nat, hash: string)
    requires i < j < |events| && Succeeds(After(s, events[..i]), events[i], hash)
    ensures Burnt(After(s, events[..j]), hash) && !Succeeds(After(s, events[..j]), events[j], hash)
  {
    if j == i + 1 {
      assert events[..j][..i] == events[..i];
      SuccessBurns(After(s, events[..i]), events[i], hash);
    } else {
      SucceedsAtMostOnce(s, events, i, j - 1, hash);
      assert events[..j][..j - 1] == events[..j - 1];
      BurntStays(After(s, events[..j - 1]), events[j - 1], hash);
    }
    BurntStays(After(s, events[..j]), events[j], hash);
  }

  // A success also leaves the user without any other valid token.
  lemma SuccessInvalidatesAll(s: State, e: Event, hash: string, i: nat, now: int)
    requires Succeeds(s, e, hash) && i < |s.tokens| && s.tokens[i].user == Find(s.tokens, hash).value.user
    ensures !Next(s, e).tokens[i].IsValid(now)
  {
  }

  // ---------- how many tokens a user gets ----------

  // The times at which a user got tokens, within a window.
  function TimesWithin(tokens: seq<Token>, user: int, from_: int, to: int): (times: seq<int>)
    ensures forall i :: 0 <= i < |times| ==> from_ <= times[i] <= to
  {
    if tokens == [] then []
    else
      var last := tokens[|tokens| - 1];
      TimesWithin(tokens[..|tokens| - 1], user, from_, to) +
      if last.user == user && from_ <= last.createdAt <= to then [last.createdAt] else []
  }

  lemma {:induction false} TimesComeFrom(tokens: seq<Token>, user: int, from_: int, to: int)
    ensures forall x :: x in TimesWithin(tokens, user, from_, to) ==>
              exists i :: 0 <= i < |tokens| && tokens[i].user == user && tokens[i].createdAt == x
  {
    if tokens != [] {
      var front := tokens[..|tokens| - 1];
      TimesComeFrom(front, user, from_, to);
      forall x | x in TimesWithin(tokens, user, from_, to)
        ensures exists i :: 0 <= i < |tokens| && tokens[i].user == user && tokens[i].createdAt == x
      {
        if x in TimesWithin(front, user, from_, to) {
          var i :| 0 <= i < |front| && front[i].user == user && front[i].createdAt == x;
          assert tokens[i] == front[i];
        }
      }
    }
  }

  // n times that span at least n - 1 minutes, and more than that when there are two or more.
  predicate Spread(times: seq<int>) {
    |times| >= 1 ==>
      var span := times[|times| - 1] - times[0];
      span >= MINUTE * (|times| - 1) && (|times| >= 2 ==> span > MINUTE * (|times| - 1))
  }

  lemma SpreadGrows(times: seq<int>, last: int)
    requires Spread(times) && times != [] && last - times[|times| - 1] > MINUTE
    ensures Spread(times + [last])
  {
  }

  lemma {:induction false} TimesAreSpread(tokens: seq<Token>, user: int, from_: int, to: int)
    requires Orderly(tokens)
    ensures Spread(TimesWithin(tokens, user, from_, to))
  {
    if tokens != [] {
      var front, last := tokens[..|tokens| - 1], tokens[|tokens| - 1];
      TimesAreSpread(front, user, from_, to);
      var before := TimesWithin(front, user, from_, to);
      if last.user == user && before != [] {
        LastIsLater(tokens, user, from_, to, before[|before| - 1]);
        SpreadGrows(before, last.createdAt);
      }
    }
  }

  lemma LastIsLater(tokens: seq<Token>, user: int, from_: int, to: int, x: int)
    requires Orderly(tokens) && tokens != [] && tokens[|tokens| - 1].user == user
    requires x in TimesWithin(tokens[..|tokens| - 1], user, from_, to)
    ensures tokens[|tokens| - 1].createdAt - x > MINUTE
  {
    var front := tokens[..|tokens| - 1];
    TimesComeFrom(front, user, from_, to);
    var i :| 0 <= i < |front| && front[i].user == user && front[i].createdAt == x;
    assert tokens[i] == front[i] && Spaced(tokens[i], tokens[|tokens| - 1]);
  }

  // Within a window of `window` microseconds a user gets n tokens only if n - 1 minutes fit into it.
  lemma IssueRateIsBounded(s: State, events: seq<Event>, user: int, from_: int, window: int)
    requires s.tokens == [] && IsRun(s, events)
    ensures var n := |TimesWithin(After(s, events).tokens, user, from_, from_ + window)|;
            n >= 1 ==> MINUTE * (n - 1) <= window && (n >= 2 ==> MINUTE * (n - 1) < window)
  {
    RunKeepsOrder(s, events);
    TimesAreSpread(After(s, events).tokens, user, from_, from_ + window);
  }

  // Nothing is ever taken off the list: after more events it holds the same tokens, first and in order.
  predicate SameIssue(a: Token, b: Token) {
    a.user == b.user && a.hash == b.hash && a.createdAt == b.createdAt && a.expiresAt == b.expiresAt
  }

  lemma {:induction false} IssuedTokensStay(s: State, events: seq<Event>, n: nat)
    requires n <= |events|
    ensures var early, late := After(s, events[..n]).tokens, After(s, events).tokens;
            |early| <= |late| && forall i :: 0 <= i < |early| ==> SameIssue(early[i], late[i]) && (early[i].usedAt.Some? ==> late[i] == early[i])
  {
    if n == |events| {
      assert events[..n] == events;
    } else {
      var front := events[..|events| - 1];
      IssuedTokensStay(s, front, n);
      assert front[..n] == events[..n];
    }
  }

  // ---------- the simple machine it refines ----------

  // One slot per user holds the newest token; older ones are forgotten.
  type Slots = map<int, Token>

  function SlotsOf(tokens: seq<Token>): (slots: Slots) {
    if tokens == [] then map[]
    else
      var last := tokens[|tokens| - 1];
      SlotsOf(tokens[..|tokens| - 1])[last.user := last]
  }

  predicate SlotIssues(slots: Slots, accounts: map<int, Account>, found: Option<int>, now: int) {
    found.Some? && Active(accounts, found.value) && (found.value in slots ==> slots[found.value].createdAt < now - MINUTE)
  }

  predicate SlotAccepts(slots: Slots, accounts: map<int, Account>, user: int, hash: string, policyOk: bool, now: int) {
    user in slots && slots[user].hash == hash && slots[user].IsValid(now) && Active(accounts, user) && policyOk
  }

  ghost predicate SomeSlotAccepts(slots: Slots, accounts: map<int, Account>, hash: string, policyOk: bool, now: int) {
    exists user :: SlotAccepts(slots, accounts, user, hash, policyOk, now)
  }

  lemma {:induction false} SlotIsNewest(tokens: seq<Token>, user: int)
    ensures user in SlotsOf(tokens) <==> exists i :: 0 <= i < |tokens| && tokens[i].user == user
    ensures user in SlotsOf(tokens) ==>
              exists i :: 0 <= i < |tokens| && tokens[i] == SlotsOf(tokens)[user] && tokens[i].user == user &&
                          forall j :: i < j < |tokens| ==> tokens[j].user != user
  {
    if tokens != [] {
      var front, last := tokens[..|tokens| - 1], tokens[|tokens| - 1];
      SlotIsNewest(front, user);
      if last.user == user {
        assert tokens[|tokens| - 1] == last;
      } else {
        if i :| 0 <= i < |tokens| && tokens[i].user == user {
          assert front[i] == tokens[i];
        }
        if user in SlotsOf(front) {
          var i :| 0 <= i < |front| && front[i] == SlotsOf(front)[user] && front[i].user == user &&
          forall j :: i < j < |front| ==> front[j].user != user;
          assert tokens[i] == front[i];
          assert forall j :: i < j < |front| ==> tokens[j] == front[j];
        }
      }
    }
  }

  lemma {:induction false} FindIs(tokens: seq<Token>, hash: string)
    ensures Find(tokens, hash).Some? <==> HasHash(tokens, hash)
    ensures Find(tokens, hash).Some? ==> exists i :: 0 <= i < |tokens| && tokens[i] == Find(tokens, hash).value && tokens[i].hash == hash
  {
    if tokens != [] && tokens[0].hash != hash {
      FindIs(tokens[1..], hash);
      assert forall i :: 0 <= i < |tokens| - 1 ==> tokens[1..][i] == tokens[i + 1];
      if HasHash(tokens, hash) {
        var i :| 0 <= i < |tokens| && tokens[i].hash == hash;
        assert tokens[1..][i - 1].hash == hash;
      }
    }
  }

  // The table issues and redeems exactly when the slots do.
  lemma TableAgreesWithSlots(s: State, found: Option<int>, hash: string, policyOk: bool, now: int)
    requires Orderly(s.tokens)
    ensures Issues(s, found, now) <==> SlotIssues(SlotsOf(s.tokens), s.accounts, found, now)
    ensures Accepts(s, hash, policyOk, now) <==> SomeSlotAccepts(SlotsOf(s.tokens), s.accounts, hash, policyOk, now)
  {
    if found.Some? {
      ThrottleIsByNewest(s.tokens, found.value, now);
    }
    ValidIsNewest(s.tokens, hash);
    var slots := SlotsOf(s.tokens);
    if Accepts(s, hash, policyOk, now) {
      var t := Find(s.tokens, hash).value;
      assert SlotAccepts(slots, s.accounts, t.user, hash, policyOk, now);
    }
    if SomeSlotAccepts(slots, s.accounts, hash, policyOk, now) {
      var user :| SlotAccepts(slots, s.accounts, user, hash, policyOk, now);
      SlotIsFound(s.tokens, user);
    }
  }

  lemma ThrottleIsByNewest(tokens: seq<Token>, user: int, now: int)
    requires Orderly(tokens)
    ensures Throttled(tokens, user, now) <==> user in SlotsOf(tokens) && SlotsOf(tokens)[user].createdAt >= now - MINUTE
  {
  }

  lemma ValidIsNewest(tokens: seq<Token>, hash: string)
    requires Orderly(tokens)
    ensures Find(tokens, hash).Some? && Find(tokens, hash).value.usedAt.None? ==>
              var t := Find(tokens, hash).value; t.hash == hash && t.user in SlotsOf(tokens) && SlotsOf(tokens)[t.user] == t
  {
    FindIs(tokens, hash);
    if Find(tokens, hash).Some? && Find(tokens, hash).value.usedAt.None? {
      var t := Find(tokens, hash).value;
      var i :| 0 <= i < |tokens| && tokens[i] == t && tokens[i].hash == hash;
      SlotIsNewest(tokens, t.user);
      var k :| 0 <= k < |tokens| && tokens[k] == SlotsOf(tokens)[t.user] && tokens[k].user == t.user &&
        forall j :: k < j < |tokens| ==> tokens[j].user != t.user;
      OlderIsUsed(tokens, i, k);
    }
  }

  lemma OlderIsUsed(tokens: seq<Token>, i: int, j: int)
    requires Orderly(tokens)
    ensures 0 <= i < j < |tokens| && tokens[i].user == tokens[j].user ==> tokens[i].usedAt.Some?
  {
  }

  lemma SlotIsFound(tokens: seq<Token>, user: int)
    requires Orderly(tokens) && user in SlotsOf(tokens)
    ensures SlotsOf(tokens)[user].user == user && Find(tokens, SlotsOf(tokens)[user].hash) == Some(SlotsOf(tokens)[user])
  {
    SlotIsNewest(tokens, user);
    var slot := SlotsOf(tokens)[user];
    var k :| 0 <= k < |tokens| && tokens[k] == slot && tokens[k].user == user && forall j :: k < j < |tokens| ==> tokens[j].user != user;
    FindIs(tokens, slot.hash);
    var i :| 0 <= i < |tokens| && tokens[i] == Find(tokens, slot.hash).value && tokens[i].hash == slot.hash;
    assert i == k;
  }

  datatype SlotState = SlotState(accounts: map<int, Account>, slots: Slots)

  function Simple(s: State): SlotState {
    SlotState(s.accounts, SlotsOf(s.tokens))
  }

  function SlotRedeemed(a: SlotState, user: int, password: string, now: int): SlotState
    requires user in a.slots && user in a.accounts
  {
    SlotState(a.accounts[user := WithPassword(a.accounts[user], password, now)], a.slots[user := a.slots[user].(usedAt := Some(now))])
  }

  // The steps of the simple machine: a slot is overwritten when one is issued, and emptied by its own token.
  ghost predicate SlotStep(a: SlotState, e: Event, after: SlotState) {
    match e
    case Forgot(found, now, hash, lifetime) =>
      after == if SlotIssues(a.slots, a.accounts, found, now)
               then a.(slots := a.slots[found.value := Token(found.value, hash, now, now + lifetime, None)])
               else a
    case Reset(hash, password, policyOk, now) =>
      if SomeSlotAccepts(a.slots, a.accounts, hash, policyOk, now)
      then exists user :: SlotAccepts(a.slots, a.accounts, user, hash, policyOk, now) && after == SlotRedeemed(a, user, password, now)
      else after == a
    case Accounts(accounts, _) => after == a.(accounts := accounts)
  }

  lemma SlotsAppended(tokens: seq<Token>, t: Token)
    ensures SlotsOf(tokens + [t]) == SlotsOf(tokens)[t.user := t]
  {
  }

  lemma {:induction false} SlotsAreOwn(tokens: seq<Token>)
    ensures forall u :: u in SlotsOf(tokens) ==> SlotsOf(tokens)[u].user == u
  {
    if tokens != [] {
      SlotsAreOwn(tokens[..|tokens| - 1]);
    }
  }

  function SlotsAfter(slots: Slots, user: int, now: int): Slots {
    map u | u in slots :: Spend(slots[u], user, now)
  }

  lemma {:induction false} SlotsSpent(tokens: seq<Token>, user: int, now: int)
    ensures SlotsOf(SpendAll(tokens, user, now)) == SlotsAfter(SlotsOf(tokens), user, now)
  {
    if tokens != [] {
      var n := |tokens| - 1;
      SlotsSpent(tokens[..n], user, now);
      assert SpendAll(tokens, user, now)[..n] == SpendAll(tokens[..n], user, now);
      assert SpendAll(tokens, user, now)[n] == Spend(tokens[n], user, now);
    }
  }

  lemma OthersStay(slots: Slots, user: int, now: int)
    requires forall u :: u in slots ==> slots[u].user == u
    ensures forall u :: u in slots && u != user ==> SlotsAfter(slots, user, now)[u] == slots[u]
  {
  }

  lemma SpendOneSlot(slots: Slots, user: int, now: int)
    requires user in slots && slots[user].usedAt.None? && forall u :: u in slots ==> slots[u].user == u
    ensures SlotsAfter(slots, user, now) == slots[user := slots[user].(usedAt := Some(now))]
  {
    OthersStay(slots, user, now);
    assert slots[user].user == user;
  }

  lemma ReplaceSlot(slots: Slots, t: Token, now: int)
    requires forall u :: u in slots ==> slots[u].user == u
    ensures SlotsAfter(slots, t.user, now)[t.user := t] == slots[t.user := t]
  {
    OthersStay(slots, t.user, now);
  }

  // Every step of the table is a step of the simple machine.
  lemma TableRefinesSlots(s: State, e: Event)
    requires Orderly(s.tokens)
    ensures SlotStep(Simple(s), e, Simple(Next(s, e)))
  {
    SlotsAreOwn(s.tokens);
    match e
    case Forgot(found, now, hash, lifetime) =>
      TableAgreesWithSlots(s, found, hash, true, now);
      if Issues(s, found, now) {
        SlotsSpent(s.tokens, found.value, now);
        SlotsAppended(SpendAll(s.tokens, found.value, now), Token(found.value, hash, now, now + lifetime, None));
        ReplaceSlot(SlotsOf(s.tokens), Token(found.value, hash, now, now + lifetime, None), now);
      }
    case Reset(hash, password, policyOk, now) =>
      TableAgreesWithSlots(s, None, hash, policyOk, now);
      if Accepts(s, hash, policyOk, now) {
        var user := Find(s.tokens, hash).value.user;
        ValidIsNewest(s.tokens, hash);
        SlotsSpent(s.tokens, user, now);
        SpendOneSlot(SlotsOf(s.tokens), user, now);
        assert SlotAccepts(Simple(s).slots, s.accounts, user, hash, policyOk, now);
        assert Simple(Next(s, e)) == SlotRedeemed(Simple(s), user, password, now);
      }
    case Accounts(_, _) =>
  }
}
