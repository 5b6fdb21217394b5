/**
 The three handlers as sequential code on a store, with their early returns. Each one is
 proved to do exactly what its process in the protocol does when nothing else runs; the
 interleaved behaviour is the protocol's. `budget` says after how many statements the
 database starts failing.
 */
module AuthHandlers {
  import opened Collections
  import opened AuthStore
  import opened AuthProtocol

  datatype Response = Accepted | BadRequest | InternalError | ApiKey(hash: string)

  function ResponseOf(p: Proc): Response {
    match p
    case Issued(_, _, _, key) => ApiKey(key)
    case Replied(status) => if status == 202 then Accepted else if status == 400 then BadRequest else InternalError
    case _ => InternalError
  }

  function StatementsLeft(p: Proc): nat {
    match p
    case RegisterLookup(_) => 4
    case RegisterCreate(_) => 3
    case RegisterToken(_) => 2
    case VerifyConsume(_, _) => 4
    case VerifyRevoke(_, _) => 3
    case VerifyMark(_, _, _) => 2
    case VerifyReply(_, _, _, _) => 1
    case ReissueLookup(_) => 3
    case ReissueToken(_) => 2
    case _ => 0
  }

  /** A process that runs to its end alone; the statement after `budget` others fails. */
  function RunAlone(kind: StoreKind, t: Tables, p: Proc, now: int, secret: string, appNow: int, budget: nat): (Tables, Proc)
    decreases StatementsLeft(p)
  {
    if Finished(p) then (t, p)
    else if p.VerifyReply? then Advance(kind, t, p, now, secret, appNow)
    else if budget == 0 then (t, OnError(p))
    else
      var (t', p') := Advance(kind, t, p, now, secret, appNow);
      RunAlone(kind, t', p', now, secret, appNow, budget - 1)
  }

  /** One unfolding of RunAlone, in each of its cases. */
  lemma RunStep(kind: StoreKind, t: Tables, p: Proc, now: int, secret: string, appNow: int, budget: nat)
    ensures RunAlone(kind, t, p, now, secret, appNow, budget) ==
              if Finished(p) then (t, p)
              else if p.VerifyReply? then Advance(kind, t, p, now, secret, appNow)
              else if budget == 0 then (t, OnError(p))
              else var (t', p') := Advance(kind, t, p, now, secret, appNow);
                RunAlone(kind, t', p', now, secret, appNow, budget - 1)
  {
  }

  /** What a process changes and replies on its own. */
  function Outcome(kind: StoreKind, t: Tables, p: Proc, now: int, secret: string, appNow: int, budget: nat): (Tables, Response) {
    var (t', p') := RunAlone(kind, t, p, now, secret, appNow, budget);
    (t', ResponseOf(p'))
  }

  method AuthRegister(store: Store, email: string, now: int, secret: string, appNow: int, budget: nat) returns (r: Response)
    modifies store
    ensures (store.Contents(), r) == Outcome(store.kind, old(store.Contents()), RegisterLookup(email), now, secret, appNow, budget)
  {
    var left := budget;
    RunStep(store.kind, store.Contents(), RegisterLookup(email), now, secret, appNow, left);
    if left == 0 {
      return InternalError;
    }
    left := left - 1;
    var existing := store.GetClientByEmail(email);
    if existing.Some? && existing.value.verifiedAt.Some? && existing.value.revokedAt == None {
      RunStep(store.kind, store.Contents(), Replied(202), now, secret, appNow, left);
      return Accepted;
    }
    if existing == None {
      RunStep(store.kind, store.Contents(), RegisterCreate(email), now, secret, appNow, left);
      if left == 0 {
        return InternalError;
      }
      left := left - 1;
      var status := store.CreateClient(email);
    }
    RunStep(store.kind, store.Contents(), RegisterToken(email), now, secret, appNow, left);
    if left == 0 {
      return InternalError;
    }
    left := left - 1;
    store.CreateToken(email, secret, Registration, appNow + DAY_S);
    RunStep(store.kind, store.Contents(), Replied(202), now, secret, appNow, left);
    r := Accepted;
  }

  method AuthVerify(store: Store, hash: string, requested: TokenType, now: int, secret: string, appNow: int, budget: nat)
    returns (r: Response)
    modifies store
    ensures (store.Contents(), r)
         == Outcome(store.kind, old(store.Contents()), VerifyConsume(hash, requested), now, secret, appNow, budget)
  {
    var left := budget;
    RunStep(store.kind, store.Contents(), VerifyConsume(hash, requested), now, secret, appNow, left);
    if left == 0 {
      return BadRequest;
    }
    left := left - 1;
    var row := store.ConsumeToken(hash, requested, now);
    if row == None {
      RunStep(store.kind, store.Contents(), Replied(400), now, secret, appNow, left);
      return BadRequest;
    }
    var email := store.tokens[row.value].email;
    if requested == Reissue {
      RunStep(store.kind, store.Contents(), VerifyRevoke(email, row.value), now, secret, appNow, left);
      if left == 0 {
        return InternalError;
      }
      left := left - 1;
      var status := store.RevokeClient(email, now);
      if status != Ok {
        RunStep(store.kind, store.Contents(), Replied(500), now, secret, appNow, left);
        return InternalError;
      }
    }
    RunStep(store.kind, store.Contents(), VerifyMark(email, requested, row.value), now, secret, appNow, left);
    if left == 0 {
      return InternalError;
    }
    left := left - 1;
    var status := store.MarkClientVerified(email, secret, now);
    if status != Ok {
      RunStep(store.kind, store.Contents(), Replied(500), now, secret, appNow, left);
      return InternalError;
    }
    RunStep(store.kind, store.Contents(), VerifyReply(email, requested, row.value, secret), now, secret, appNow, left);
    r := ApiKey(secret);
  }

  /** Every reissue request is answered alike, whether the email is known, verified or neither. */
  method AuthReissue(store: Store, email: string, now: int, secret: string, appNow: int, budget: nat) returns (r: Response)
    modifies store
    ensures (store.Contents(), r) == Outcome(store.kind, old(store.Contents()), ReissueLookup(email), now, secret, appNow, budget)
    ensures r == Accepted
  {
    var left := budget;
    r := Accepted;
    RunStep(store.kind, store.Contents(), ReissueLookup(email), now, secret, appNow, left);
    if left == 0 {
      return;
    }
    left := left - 1;
    var existing := store.GetClientByEmail(email);
    if existing.Some? && existing.value.verifiedAt.Some? {
      RunStep(store.kind, store.Contents(), ReissueToken(email), now, secret, appNow, left);
      if left == 0 {
        return;
      }
      left := left - 1;
      store.CreateToken(email, secret, Reissue, appNow + DAY_S);
    }
    RunStep(store.kind, store.Contents(), Replied(202), now, secret, appNow, left);
  }
}
