/**
 What a request that is not interrupted is answered, and what whole flows of requests come to:
 the positive side of the protocol, for both stores.
 */
module AuthEndToEnd {
  import opened Collections
  import opened AuthStore
  import opened AuthProtocol
  import opened AuthHandlers
  import opened AuthMiddleware

  // ---- consuming a token

  lemma NothingUsable(store: StoreKind, tokens: seq<Token>, hash: string, kind: TokenType, now: int)
    requires forall i :: 0 <= i < |tokens| ==> !Usable(store, tokens[i], hash, kind, now)
    ensures FirstUsable(store, tokens, hash, kind, now) == None
  {
  }

  lemma OnlyLastUsable(store: StoreKind, tokens: seq<Token>, x: Token, hash: string, kind: TokenType, now: int)
    requires forall i :: 0 <= i < |tokens| ==> tokens[i].hash != hash
    ensures FirstUsable(store, tokens + [x], hash, kind, now)
         == if Usable(store, x, hash, kind, now) then Some(|tokens|) else None
  {
    assert (tokens + [x])[..|tokens|] == tokens;
    NothingUsable(store, tokens, hash, kind, now);
  }

  lemma ConsumeNothing(kind: StoreKind, t: Tables, hash: string, requested: TokenType, now: int)
    requires FirstUsable(kind, t.tokens, hash, requested, now) == None
    ensures Consume(kind, t, hash, requested, now) == (t, None)
  {
    assert Consume(kind, t, hash, requested, now).0.tokens == t.tokens;
  }

  // ---- verify, when nothing else runs

  /** What a verify is answered, and what it leaves for the token's email. */
  ghost predicate Verified(kind: StoreKind, t: Tables, requested: TokenType, email: string, row: nat, now: int,
                           secret: string, t': Tables, r: Response)
  {
    && (r == ApiKey(secret) <==>
          email in t.clients && (kind == Postgres ==> requested == Registration && t.clients[email].verifiedAt == None))
    && (r != ApiKey(secret) ==> r == InternalError)
    && (r == ApiKey(secret) ==> email in t'.clients && t'.clients[email].verifiedAt == Some(now))
    && (r == ApiKey(secret) && (kind == Postgres ==> t.clients[email].revokedAt == None) ==>
          forall h :: AcceptedFor(t', email, h) <==> h == secret)
    && row < |t'.tokens| && t'.tokens[row].usedAt == Some(now)
  }

  lemma VerifyRegistration(kind: StoreKind, t: Tables, hash: string, now: int, secret: string, appNow: int, budget: nat, row: nat)
    requires 2 <= budget && |secret| == 64 && FirstUsable(kind, t.tokens, hash, Registration, now) == Some(row)
    ensures var (t', r) := Outcome(kind, t, VerifyConsume(hash, Registration), now, secret, appNow, budget);
            Verified(kind, t, Registration, t.tokens[row].email, row, now, secret, t', r)
  {
    var email := t.tokens[row].email;
    RunStep(kind, t, VerifyConsume(hash, Registration), now, secret, appNow, budget);
    var t1 := Consume(kind, t, hash, Registration, now).0;
    RunStep(kind, t1, VerifyMark(email, Registration, row), now, secret, appNow, budget - 1);
    var (t2, status) := MarkVerified(kind, t1, email, secret, now);
    RunStep(kind, t2, VerifyReply(email, Registration, row, secret), now, secret, appNow, budget - 2);
    RunStep(kind, t2, Replied(500), now, secret, appNow, budget - 2);
  }

  /** A reissue token belongs to a verified client in every reachable state. */
  lemma VerifyReissue(kind: StoreKind, t: Tables, hash: string, now: int, secret: string, appNow: int, budget: nat, row: nat)
    requires 3 <= budget && |secret| == 64 && FirstUsable(kind, t.tokens, hash, Reissue, now) == Some(row)
    requires IsVerified(t, t.tokens[row].email)
    ensures var (t', r) := Outcome(kind, t, VerifyConsume(hash, Reissue), now, secret, appNow, budget);
            Verified(kind, t, Reissue, t.tokens[row].email, row, now, secret, t', r)
  {
    var email := t.tokens[row].email;
    RunStep(kind, t, VerifyConsume(hash, Reissue), now, secret, appNow, budget);
    var t1 := Consume(kind, t, hash, Reissue, now).0;
    RunStep(kind, t1, VerifyRevoke(email, row), now, secret, appNow, budget - 1);
    var (t2, revoked) := Revoke(kind, t1, email, now);
    RunStep(kind, t2, Replied(500), now, secret, appNow, budget - 2);
    RunStep(kind, t2, VerifyMark(email, Reissue, row), now, secret, appNow, budget - 2);
    var (t3, status) := MarkVerified(kind, t2, email, secret, now);
    RunStep(kind, t3, VerifyReply(email, Reissue, row, secret), now, secret, appNow, budget - 3);
    RunStep(kind, t3, Replied(500), now, secret, appNow, budget - 3);
  }

  /**
   From every reachable state, an uninterrupted verify of a usable token is answered with the new
   key exactly if the client exists and, on Postgres, the token is a registration's and the client
   is not verified yet; that key is then the one accepted, unless the client had been revoked.
   Without a usable token the answer is a bad request and nothing changes.
   */
  lemma VerifyAnswered(kind: StoreKind, run: seq<Event>, hash: string, requested: TokenType, secret: string, appNow: int, budget: nat)
    requires Legal(kind, INIT, run) && 3 <= budget && |secret| == 64
    ensures var s := Exec(kind, INIT, run);
            var row := FirstUsable(kind, s.tables.tokens, hash, requested, s.clock);
            var (t', r) := Outcome(kind, s.tables, VerifyConsume(hash, requested), s.clock, secret, appNow, budget);
            if row == None then r == BadRequest && t' == s.tables
            else Verified(kind, s.tables, requested, s.tables.tokens[row.value].email, row.value, s.clock, secret, t', r)
  {
    var s := Exec(kind, INIT, run);
    var row := FirstUsable(kind, s.tables.tokens, hash, requested, s.clock);
    ReachableInv(kind, run);
    if row == None {
      ConsumeNothing(kind, s.tables, hash, requested, s.clock);
      RunStep(kind, s.tables, VerifyConsume(hash, requested), s.clock, secret, appNow, budget);
      RunStep(kind, s.tables, Replied(400), s.clock, secret, appNow, budget - 1);
    } else if requested == Registration {
      VerifyRegistration(kind, s.tables, hash, s.clock, secret, appNow, budget, row.value);
    } else {
      VerifyReissue(kind, s.tables, hash, s.clock, secret, appNow, budget, row.value);
    }
  }

  /** If a statement of a verify fails, no key is given out: 400 for the first one, else 500. */
  lemma VerifyCutShort(kind: StoreKind, t: Tables, hash: string, requested: TokenType, now: int, secret: string, appNow: int, budget: nat)
    requires budget < if requested == Reissue then 3 else 2
    requires FirstUsable(kind, t.tokens, hash, requested, now).Some?
    ensures var (t', r) := Outcome(kind, t, VerifyConsume(hash, requested), now, secret, appNow, budget);
            r == (if budget == 0 then BadRequest else InternalError) && (budget == 0 ==> t' == t)
  {
    var row := FirstUsable(kind, t.tokens, hash, requested, now).value;
    var email := t.tokens[row].email;
    RunStep(kind, t, VerifyConsume(hash, requested), now, secret, appNow, budget);
    if budget > 0 {
      var t1 := Consume(kind, t, hash, requested, now).0;
      RunStep(kind, t1, VerifyMark(email, requested, row), now, secret, appNow, budget - 1);
      RunStep(kind, t1, VerifyRevoke(email, row), now, secret, appNow, budget - 1);
      if budget > 1 {
        var t2 := Revoke(kind, t1, email, now).0;
        RunStep(kind, t2, VerifyMark(email, Reissue, row), now, secret, appNow, budget - 2);
        RunStep(kind, t2, Replied(500), now, secret, appNow, budget - 2);
      }
    }
  }

  // ---- register and reissue, when nothing else runs

  predicate LiveKey(t: Tables, email: string) {
    email in t.clients && t.clients[email].verifiedAt.Some? && t.clients[email].revokedAt == None
  }

  /**
   A register of an email with a live key changes nothing. Any other one leaves an unused token
   for a day, and a client if there was none.
   */
  lemma RegisterAnswered(kind: StoreKind, t: Tables, email: string, now: int, secret: string, appNow: int, budget: nat)
    requires 3 <= budget
    ensures var (t', r) := Outcome(kind, t, RegisterLookup(email), now, secret, appNow, budget);
            && r == Accepted
            && t' == if LiveKey(t, email) then t
                     else Tables(if email in t.clients then t.clients else t.clients[email := Client("", None, None)],
                                 t.tokens + [Token(email, secret, Registration, appNow + 86_400, None)])
  {
    RunStep(kind, t, RegisterLookup(email), now, secret, appNow, budget);
    RunStep(kind, t, Replied(202), now, secret, appNow, budget - 1);
    RunStep(kind, t, RegisterToken(email), now, secret, appNow, budget - 1);
    RunStep(kind, t, RegisterCreate(email), now, secret, appNow, budget - 1);
    var t1 := InsertClient(t, email).0;
    RunStep(kind, t1, RegisterToken(email), now, secret, appNow, budget - 2);
    RunStep(kind, InsertToken(t, email, secret, Registration, appNow + DAY_S), Replied(202), now, secret, appNow, budget - 2);
    RunStep(kind, InsertToken(t1, email, secret, Registration, appNow + DAY_S), Replied(202), now, secret, appNow, budget - 3);
  }

  /** A register that meets a failing statement says so, and leaves no token. */
  lemma RegisterCutShort(kind: StoreKind, t: Tables, email: string, now: int, secret: string, appNow: int, budget: nat)
    requires budget < if LiveKey(t, email) then 1 else if email in t.clients then 2 else 3
    ensures var (t', r) := Outcome(kind, t, RegisterLookup(email), now, secret, appNow, budget);
            r == InternalError && t'.tokens == t.tokens
  {
    RunStep(kind, t, RegisterLookup(email), now, secret, appNow, budget);
    if budget > 0 {
      RunStep(kind, t, RegisterToken(email), now, secret, appNow, budget - 1);
      RunStep(kind, t, RegisterCreate(email), now, secret, appNow, budget - 1);
      if budget > 1 {
        RunStep(kind, InsertClient(t, email).0, RegisterToken(email), now, secret, appNow, budget - 2);
      }
    }
  }

  /** A reissue request is answered alike for every email, and leaves a token for a day for a verified one only. */
  lemma ReissueAnswered(kind: StoreKind, t: Tables, email: string, now: int, secret: string, appNow: int, budget: nat)
    ensures var (t', r) := Outcome(kind, t, ReissueLookup(email), now, secret, appNow, budget);
            && r == Accepted
            && t' == if IsVerified(t, email) && 2 <= budget
                     then t.(tokens := t.tokens + [Token(email, secret, Reissue, appNow + 86_400, None)]) else t
  {
    RunStep(kind, t, ReissueLookup(email), now, secret, appNow, budget);
    if budget > 0 {
      RunStep(kind, t, Replied(202), now, secret, appNow, budget - 1);
      RunStep(kind, t, ReissueToken(email), now, secret, appNow, budget - 1);
      if budget > 1 {
        RunStep(kind, InsertToken(t, email, secret, Reissue, appNow + DAY_S), Replied(202), now, secret, appNow, budget - 2);
      }
    }
  }

  // ---- whole flows

  /** A token made out at `made` is good for a day; the test store includes the last instant. */
  predicate InTime(kind: StoreKind, made: int, now: int) {
    if kind == Postgres then now < made + 86_400 else now <= made + 86_400
  }

  /**
   Register, then verify with that token: a new or not yet verified email gets the one accepted key
   of its client if the token is used within the day, and otherwise none.
   */
  lemma RegisterThenVerify(kind: StoreKind, t: Tables, email: string, token: string, key: string, now: int, appNow: int, later: int, appLater: int)
    requires email in t.clients ==> t.clients[email].verifiedAt == None && t.clients[email].revokedAt == None
    requires (forall i :: 0 <= i < |t.tokens| ==> t.tokens[i].hash != token) && |key| == 64
    ensures var (t1, r1) := Outcome(kind, t, RegisterLookup(email), now, token, appNow, 3);
            var (t2, r2) := Outcome(kind, t1, VerifyConsume(token, Registration), later, key, appLater, 3);
            && r1 == Accepted
            && (if InTime(kind, appNow, later) then r2 == ApiKey(key) && forall h :: AcceptedFor(t2, email, h) <==> h == key
                else r2 == BadRequest && forall h :: !AcceptedFor(t2, email, h))
  {
    RegisterAnswered(kind, t, email, now, token, appNow, 3);
    var t1 := Outcome(kind, t, RegisterLookup(email), now, token, appNow, 3).0;
    var x := Token(email, token, Registration, appNow + 86_400, None);
    OnlyLastUsable(kind, t.tokens, x, token, Registration, later);
    assert t1.tokens == t.tokens + [x];
    if InTime(kind, appNow, later) {
      VerifyRegistration(kind, t1, token, later, key, appLater, 3, |t.tokens|);
    } else {
      ConsumeNothing(kind, t1, token, Registration, later);
      RunStep(kind, t1, VerifyConsume(token, Registration), later, key, appLater, 3);
      RunStep(kind, t1, Replied(400), later, key, appLater, 2);
    }
  }

  /**
   Reissue, then verify with that token within the day: on the test store the new key replaces the
   old one; on Postgres the request fails and leaves no accepted key at all.
   */
  lemma ReissueThenVerify(kind: StoreKind, t: Tables, email: string, token: string, key: string, now: int, appNow: int, later: int, appLater: int)
    requires LiveKey(t, email) && InTime(kind, appNow, later)
    requires (forall i :: 0 <= i < |t.tokens| ==> t.tokens[i].hash != token) && |key| == 64
    ensures var (t1, r1) := Outcome(kind, t, ReissueLookup(email), now, token, appNow, 3);
            var (t2, r2) := Outcome(kind, t1, VerifyConsume(token, Reissue), later, key, appLater, 3);
            && r1 == Accepted
            && match kind
               case InMemory => r2 == ApiKey(key) && forall h :: AcceptedFor(t2, email, h) <==> h == key
               case Postgres => r2 == InternalError && forall h :: !AcceptedFor(t2, email, h)
  {
    ReissueAnswered(kind, t, email, now, token, appNow, 3);
    var t1 := Outcome(kind, t, ReissueLookup(email), now, token, appNow, 3).0;
    OnlyLastUsable(kind, t.tokens, Token(email, token, Reissue, appNow + 86_400, None), token, Reissue, later);
    VerifyReissue(kind, t1, token, later, key, appLater, 3, |t.tokens|);
    if kind == Postgres { ReissueRevokes(t1, token, later, key, appLater, |t.tokens|); }
  }

  lemma ReissueRevokes(t: Tables, hash: string, now: int, secret: string, appNow: int, row: nat)
    requires FirstUsable(Postgres, t.tokens, hash, Reissue, now) == Some(row) && LiveKey(t, t.tokens[row].email)
    ensures var t' := Outcome(Postgres, t, VerifyConsume(hash, Reissue), now, secret, appNow, 3).0;
            t.tokens[row].email in t'.clients && t'.clients[t.tokens[row].email].revokedAt == Some(now)
  {
    var email := t.tokens[row].email;
    RunStep(Postgres, t, VerifyConsume(hash, Reissue), now, secret, appNow, 3);
    var t1 := Consume(Postgres, t, hash, Reissue, now).0;
    RunStep(Postgres, t1, VerifyRevoke(email, row), now, secret, appNow, 2);
    var t2 := Revoke(Postgres, t1, email, now).0;
    RunStep(Postgres, t2, VerifyMark(email, Reissue, row), now, secret, appNow, 1);
    RunStep(Postgres, t2, Replied(500), now, secret, appNow, 0);
  }

  /**
   The flow on a store, through the handlers and the middleware: whoever registers a new email and
   verifies within the day is let through with the key, in whatever case the scheme is written.
   */
  method SignUp(store: Store, email: string, token: string, key: string, now: int, appNow: int, later: int, appLater: int, header: string)
    returns (d: Decision)
    requires email !in store.clients && InTime(store.kind, appNow, later) && |key| == 64 && IsBearer(header)
    requires forall i :: 0 <= i < |store.tokens| ==> store.tokens[i].hash != token
    requires forall e :: e in store.clients ==> store.clients[e].keyHash != key
    modifies store
    ensures d == Authenticated(email)
  {
    ghost var t := store.Contents();
    RegisterThenVerify(store.kind, t, email, token, key, now, appNow, later, appLater);
    var accepted := AuthRegister(store, email, now, token, appNow, 3);
    ghost var t1 := store.Contents();
    var answer := AuthVerify(store, token, Registration, later, key, appLater, 3);
    OthersKeepTheirs(store.kind, t, email, token, key, now, appNow, later, appLater);
    d := Auth(store, header, key);
  }

  lemma OthersKeepTheirs(kind: StoreKind, t: Tables, email: string, token: string, key: string, now: int, appNow: int, later: int, appLater: int)
    requires email !in t.clients && InTime(kind, appNow, later) && |key| == 64
    requires forall i :: 0 <= i < |t.tokens| ==> t.tokens[i].hash != token
    requires forall e :: e in t.clients ==> t.clients[e].keyHash != key
    ensures var t1 := Outcome(kind, t, RegisterLookup(email), now, token, appNow, 3).0;
            OnlyOwner(Outcome(kind, t1, VerifyConsume(token, Registration), later, key, appLater, 3).0, email)
  {
    RegisterAnswered(kind, t, email, now, token, appNow, 3);
    var t1 := Outcome(kind, t, RegisterLookup(email), now, token, appNow, 3).0;
    OnlyLastUsable(kind, t.tokens, Token(email, token, Registration, appNow + 86_400, None), token, Registration, later);
    VerifyTouchesOne(kind, t1, token, later, key, appLater, |t.tokens|);
  }

  lemma VerifyTouchesOne(kind: StoreKind, t: Tables, hash: string, now: int, secret: string, appNow: int, row: nat)
    requires FirstUsable(kind, t.tokens, hash, Registration, now) == Some(row)
    ensures var t', email := Outcome(kind, t, VerifyConsume(hash, Registration), now, secret, appNow, 3).0, t.tokens[row].email;
            && t'.clients.Keys == t.clients.Keys
            && (forall e :: e in t.clients && e != email ==> t'.clients[e] == t.clients[e])
            && (email in t.clients && t.clients[email].verifiedAt == None ==> t'.clients[email].keyHash == secret)
  {
    var email := t.tokens[row].email;
    RunStep(kind, t, VerifyConsume(hash, Registration), now, secret, appNow, 3);
    var t1 := Consume(kind, t, hash, Registration, now).0;
    RunStep(kind, t1, VerifyMark(email, Registration, row), now, secret, appNow, 2);
    var (t2, status) := MarkVerified(kind, t1, email, secret, now);
    RunStep(kind, t2, VerifyReply(email, Registration, row, secret), now, secret, appNow, 1);
    RunStep(kind, t2, Replied(500), now, secret, appNow, 1);
  }
}
