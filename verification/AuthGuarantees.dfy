/**
 What the key protocol guarantees over every run, and where the two stores part ways.
 */
module AuthGuarantees {
  import opened Collections
  import opened AuthStore
  import opened AuthProtocol

  // ---- what Postgres never undoes

  /** What a row of clients never loses: its key and the time it was verified, and the time it was revoked. */
  ghost predicate KeepsItsPast(t: Tables, t': Tables, email: string) {
    && (IsVerified(t, email) ==>
          && IsVerified(t', email)
          && t'.clients[email].keyHash == t.clients[email].keyHash && t'.clients[email].verifiedAt == t.clients[email].verifiedAt)
    && (email in t.clients && t.clients[email].revokedAt.Some? ==>
          email in t'.clients && t'.clients[email].revokedAt == t.clients[email].revokedAt)
  }

  lemma StepIsFinal(s: State, e: Event, email: string)
    requires Enabled(s, e)
    ensures KeepsItsPast(s.tables, Apply(Postgres, s, e).tables, email)
  {
  }

  lemma {:induction false} RunIsFinal(s: State, run: seq<Event>, email: string)
    requires Legal(Postgres, s, run)
    ensures KeepsItsPast(s.tables, Exec(Postgres, s, run).tables, email)
  {
    if run != [] {
      var n := |run| - 1;
      RunIsFinal(s, run[..n], email);
      StepIsFinal(Exec(Postgres, s, run[..n]), run[n], email);
    }
  }

  /** Revocation is absorbing: whatever happens next, a revoked client has no accepted key again. */
  lemma RevocationIsAbsorbing(s: State, run: seq<Event>, email: string, hash: string)
    requires Legal(Postgres, s, run)
    requires email in s.tables.clients && s.tables.clients[email].revokedAt.Some?
    ensures !AcceptedFor(Exec(Postgres, s, run).tables, email, hash)
  {
    RunIsFinal(s, run, email);
  }

  /** Over the whole life of a Postgres database at most one key is ever accepted for an email. */
  lemma OneKeyEverAccepted(s: State, run: seq<Event>, email: string, first: string, later: string)
    requires Legal(Postgres, s, run)
    requires AcceptedFor(s.tables, email, first) && AcceptedFor(Exec(Postgres, s, run).tables, email, later)
    ensures first == later
  {
    RunIsFinal(s, run, email);
  }

  /**
   One key per email: however requests interleave and fail, no two requests of a run on
   Postgres are answered with a key for the same email.
   */
  lemma OneKeyPerEmail(run: seq<Event>, p: nat, q: nat)
    requires Legal(Postgres, INIT, run)
    requires var procs := Exec(Postgres, INIT, run).procs;
             p in procs && q in procs && procs[p].Issued? && procs[q].Issued? && procs[p].email == procs[q].email
    ensures p == q
  {
    var s := Exec(Postgres, INIT, run);
    ReachableInv(Postgres, run);
    assert ProcOk(Postgres, s.tables, s.origin, s.procs[p]) && ProcOk(Postgres, s.tables, s.origin, s.procs[q]);
    assert KeyFinal(s.tables, s.procs[p].key, s.origin[s.procs[p].key]);
    assert KeyFinal(s.tables, s.procs[q].key, s.origin[s.procs[q].key]);
    assert HeldRow(s.procs[p]) == HeldRow(s.procs[q]);
  }

  /** No request to verify a reissue is ever answered with a key on Postgres. */
  lemma NoKeyForReissue(run: seq<Event>, p: nat)
    requires Legal(Postgres, INIT, run)
    requires p in Exec(Postgres, INIT, run).procs && Exec(Postgres, INIT, run).procs[p].Issued?
    ensures Exec(Postgres, INIT, run).procs[p].requested == Registration
  {
    var s := Exec(Postgres, INIT, run);
    ReachableInv(Postgres, run);
    assert ProcOk(Postgres, s.tables, s.origin, s.procs[p]);
    assert KeyFinal(s.tables, s.procs[p].key, s.origin[s.procs[p].key]);
  }

  // ---- what both stores guarantee

  /** The client a process may be about to change. */
  predicate Concerns(p: Proc, email: string) {
    match p
    case RegisterCreate(e) => e == email
    case VerifyRevoke(e, _) => e == email
    case VerifyMark(e, _, _) => e == email
    case _ => false
  }

  /** A statement changes no other client than the one its process is about. */
  lemma OthersUntouched(kind: StoreKind, s: State, pid: nat, secret: string, appNow: int, email: string)
    requires Enabled(s, Step(pid, secret, appNow)) && !Concerns(s.procs[pid], email)
    ensures var t, t' := s.tables, Apply(kind, s, Step(pid, secret, appNow)).tables;
            (email in t'.clients <==> email in t.clients) && (email in t.clients ==> t'.clients[email] == t.clients[email])
  {
  }

  /** Token rows are only ever added, or marked as used now by a request that names them and their type. */
  lemma TokensOnlyUsed(kind: StoreKind, s: State, pid: nat, secret: string, appNow: int, i: nat)
    requires Enabled(s, Step(pid, secret, appNow)) && i < |s.tables.tokens|
    ensures var t, t' := s.tables, Apply(kind, s, Step(pid, secret, appNow)).tables;
            && |t.tokens| <= |t'.tokens| <= |t.tokens| + 1
            && (t'.tokens[i] == t.tokens[i]
                || (var p := s.procs[pid];
                    && p.VerifyConsume? && t.tokens[i].hash == p.hash && t.tokens[i].kind == p.requested
                    && t.tokens[i].usedAt == None && t'.tokens[i] == t.tokens[i].(usedAt := Some(s.clock))))
  {
  }

  /** The lookup by key hash is unambiguous: no two clients carry the same 64-character hash. */
  lemma HashHasOneOwner(kind: StoreKind, run: seq<Event>, e1: string, e2: string)
    requires Legal(kind, INIT, run)
    requires var clients := Exec(kind, INIT, run).tables.clients;
             e1 in clients && e2 in clients && clients[e1].keyHash == clients[e2].keyHash
             && |clients[e1].keyHash| == 64
    ensures e1 == e2
  {
    var s := Exec(kind, INIT, run);
    ReachableInv(kind, run);
    assert ClientOk(s.tables.tokens, s.origin, e1, s.tables.clients[e1]);
    assert ClientOk(s.tables.tokens, s.origin, e2, s.tables.clients[e2]);
  }

  /**
   Provenance: an accepted key was stored by a verify request that consumed a token made out
   to that same email, of the type the request named, no later than the token's expiry; and
   no other key was stored with that token.
   */
  lemma Provenance(kind: StoreKind, run: seq<Event>, email: string, hash: string)
    requires Legal(kind, INIT, run) && AcceptedFor(Exec(kind, INIT, run).tables, email, hash)
    ensures var s := Exec(kind, INIT, run);
            && hash in s.origin
            && Consumed(kind, s.tables.tokens, s.origin[hash].row, email, s.origin[hash].requested)
            && forall other :: other in s.origin && s.origin[other].row == s.origin[hash].row ==> other == hash
  {
    var s := Exec(kind, INIT, run);
    ReachableInv(kind, run);
    assert ClientOk(s.tables.tokens, s.origin, email, s.tables.clients[email]);
    assert OriginOk(kind, s.tables.tokens, s.issued, hash, s.origin[hash]);
  }

  function KeysIssued(s: State): set<nat> {
    set p | p in s.procs && s.procs[p].Issued?
  }

  function TokensUsed(s: State): set<nat> {
    set i: nat | i < |s.tables.tokens| && s.tables.tokens[i].usedAt.Some?
  }

  lemma IssuedUsesToken(kind: StoreKind, s: State, p: nat)
    requires Inv(kind, s) && p in KeysIssued(s)
    ensures s.procs[p].row in TokensUsed(s)
  {
    assert ProcOk(kind, s.tables, s.origin, s.procs[p]);
    assert OriginOk(kind, s.tables.tokens, s.issued, s.procs[p].key, s.origin[s.procs[p].key]);
  }

  lemma IssuedShareNoToken(kind: StoreKind, s: State, p: nat, q: nat)
    requires Inv(kind, s) && p in KeysIssued(s) && q in KeysIssued(s) && s.procs[p].row == s.procs[q].row
    ensures p == q
  {
    assert HeldRow(s.procs[p]) == HeldRow(s.procs[q]);
  }

  lemma KeysNeedTokens(kind: StoreKind, s: State)
    requires Inv(kind, s)
    ensures |KeysIssued(s)| <= |TokensUsed(s)|
  {
    forall p | p in KeysIssued(s) ensures s.procs[p].row in TokensUsed(s) { IssuedUsesToken(kind, s, p); }
    forall p, q | p in KeysIssued(s) && q in KeysIssued(s) && s.procs[p].row == s.procs[q].row ensures p == q {
      IssuedShareNoToken(kind, s, p, q);
    }
    InjectionSize(KeysIssued(s), TokensUsed(s), map p | p in KeysIssued(s) :: s.procs[p].row);
  }

  /** Single use: keys issued are at most tokens used, and tokens used at most tokens created. */
  lemma KeysCountTokens(kind: StoreKind, run: seq<Event>)
    requires Legal(kind, INIT, run)
    ensures var s := Exec(kind, INIT, run);
            |KeysIssued(s)| <= |TokensUsed(s)| <= |s.tables.tokens|
  {
    var s := Exec(kind, INIT, run);
    ReachableInv(kind, run);
    KeysNeedTokens(kind, s);
    BelowSize(TokensUsed(s), |s.tables.tokens|);
  }

  lemma {:induction false} InjectionSize(from: set<nat>, to: set<nat>, f: map<nat, nat>)
    requires from <= f.Keys && forall x :: x in from ==> f[x] in to
    requires forall x, y :: x in from && y in from && f[x] == f[y] ==> x == y
    ensures |from| <= |to|
  {
    if from != {} {
      var x :| x in from;
      InjectionSize(from - {x}, to - {f[x]}, f);
    }
  }

  lemma {:induction false} BelowSize(s: set<nat>, n: nat)
    requires forall i :: i in s ==> i < n
    ensures |s| <= n
  {
    if n > 0 {
      BelowSize(s - {n - 1}, n - 1);
    } else {
      assert s == {};
    }
  }

  // ---- the reissue flow, store by store

  /** The test store un-revokes: right after a key is stored, it is the one accepted key of its email. */
  lemma NewestKeyAccepted(s: State, pid: nat, secret: string, appNow: int, hash: string)
    requires Enabled(s, Step(pid, secret, appNow)) && s.procs[pid].VerifyMark?
    requires Apply(InMemory, s, Step(pid, secret, appNow)).procs[pid].VerifyReply?
    ensures AcceptedFor(Apply(InMemory, s, Step(pid, secret, appNow)).tables, s.procs[pid].email, hash) <==> hash == secret
  {
  }

  /** A verify request that runs from its consumption of a token to the end without interruption. */
  function VerifyAlone(kind: StoreKind, s: State, pid: nat, secret: string): State
    requires pid in s.procs
  {
    Stepped(kind, Stepped(kind, Stepped(kind, s, pid, secret, 0), pid, secret, 0), pid, secret, 0)
  }

  /**
   The documented result of a reissue, a new key in place of the old one, is what the test
   store gives and what Postgres never gives: from any reachable state, an uninterrupted
   verify of a usable reissue token ends on Postgres with an error and a client that no key is
   accepted for, and on the test store with the new key as the only accepted one.
   */
  lemma ReissueSeparatesStores(kind: StoreKind, run: seq<Event>, pid: nat, secret: string, row: nat, hash: string)
    requires Legal(kind, INIT, run)
    requires var s := Exec(kind, INIT, run);
             && Enabled(s, Step(pid, secret, 0)) && |secret| == 64 && secret !in s.issued
             && s.procs[pid].VerifyConsume? && s.procs[pid].requested == Reissue
             && FirstUsable(kind, s.tables.tokens, s.procs[pid].hash, Reissue, s.clock) == Some(row)
    ensures var s := Exec(kind, INIT, run);
            var email, s' := s.tables.tokens[row].email, VerifyAlone(kind, s, pid, secret);
            match kind
            case Postgres => s'.procs[pid] == Replied(500) && !AcceptedFor(s'.tables, email, hash)
            case InMemory => s'.procs[pid].VerifyReply? && s'.procs[pid].key == secret
                             && (AcceptedFor(s'.tables, email, hash) <==> hash == secret)
  {
    var s := Exec(kind, INIT, run);
    ReachableInv(kind, run);
    var email := s.tables.tokens[row].email;
    var s1 := Stepped(kind, s, pid, secret, 0);
    assert s1.procs[pid] == VerifyRevoke(email, row);
    assert IsVerified(s1.tables, email);
    RevokeThenMark(kind, s1, pid, secret, email, row, hash);
  }

  lemma RevokeThenMark(kind: StoreKind, s: State, pid: nat, secret: string, email: string, row: nat, hash: string)
    requires pid in s.procs && s.procs[pid] == VerifyRevoke(email, row)
    requires IsVerified(s.tables, email) && |secret| == 64 && secret !in s.issued
    ensures var s' := Stepped(kind, Stepped(kind, s, pid, secret, 0), pid, secret, 0);
            match kind
            case Postgres => s'.procs[pid] == Replied(500) && !AcceptedFor(s'.tables, email, hash)
            case InMemory => s'.procs[pid].VerifyReply? && s'.procs[pid].key == secret
                             && (AcceptedFor(s'.tables, email, hash) <==> hash == secret)
  {
    var s' := Stepped(kind, s, pid, secret, 0);
    assert email in s'.tables.clients && s'.tables.clients[email].revokedAt.Some?;
    assert IsVerified(s'.tables, email);
    if kind == InMemory { NewestKeyAccepted(s', pid, secret, 0, hash); }
  }

  /**
   On Postgres even starting the second statement of a reissue locks the email out for good:
   once it has run, no key is ever accepted for that email again.
   */
  lemma ReissueLocksOut(run: seq<Event>, pid: nat, secret: string, appNow: int, more: seq<Event>, hash: string)
    requires Legal(Postgres, INIT, run)
    requires pid in Exec(Postgres, INIT, run).procs && Exec(Postgres, INIT, run).procs[pid].VerifyRevoke?
    requires Legal(Postgres, Apply(Postgres, Exec(Postgres, INIT, run), Step(pid, secret, appNow)), more)
    ensures var s := Exec(Postgres, INIT, run);
            !AcceptedFor(Exec(Postgres, Apply(Postgres, s, Step(pid, secret, appNow)), more).tables, s.procs[pid].email, hash)
  {
    var s := Exec(Postgres, INIT, run);
    var email := s.procs[pid].email;
    ReachableInv(Postgres, run);
    assert ProcOk(Postgres, s.tables, s.origin, s.procs[pid]);
    assert IsVerified(s.tables, email);
    RevocationIsAbsorbing(Apply(Postgres, s, Step(pid, secret, appNow)), more, email, hash);
  }
}
