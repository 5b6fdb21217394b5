/**
 The life of an API key as a concurrent protocol. Each register, verify or reissue request is
 a process; each SQL statement is one atomic step; processes interleave in any order, and any
 statement may fail and any process may stop between two statements. Secrets are represented
 by their 64-character hashes, which are fresh whenever a token or a key is generated.
 */
module AuthProtocol {
  import opened Collections
  import opened AuthStore

  const DAY_S: int := 86_400

  /** A process, named after the statement (or the reply) it is about to execute. */
  datatype Proc =
    | RegisterLookup(email: string)
    | RegisterCreate(email: string)
    | RegisterToken(email: string)
    | VerifyConsume(hash: string, requested: TokenType)
    | VerifyRevoke(email: string, row: nat)
    | VerifyMark(email: string, requested: TokenType, row: nat)
    | VerifyReply(email: string, requested: TokenType, row: nat, key: string)
    | ReissueLookup(email: string)
    | ReissueToken(email: string)
    | Issued(email: string, requested: TokenType, row: nat, key: string)
    | Replied(status: int)
    | Stopped

  predicate Finished(p: Proc) {
    p.Issued? || p.Replied? || p.Stopped?
  }

  /** The steps that generate a secret and store its hash. */
  predicate Generates(p: Proc) {
    p.RegisterToken? || p.VerifyMark? || p.ReissueToken?
  }

  predicate IsVerified(t: Tables, email: string) {
    email in t.clients && t.clients[email].verifiedAt.Some?
  }

  /** The next statement of a process, with the branch the handler takes on its result. */
  function Advance(kind: StoreKind, t: Tables, p: Proc, now: int, secret: string, appNow: int): (Tables, Proc) {
    match p
    case RegisterLookup(email) =>
      if email !in t.clients then (t, RegisterCreate(email))
      else if IsVerified(t, email) && t.clients[email].revokedAt == None then (t, Replied(202))
      else (t, RegisterToken(email))
    case RegisterCreate(email) =>
      var (t', status) := InsertClient(t, email);
      (t', if status == Ok then RegisterToken(email) else Replied(500))
    case RegisterToken(email) =>
      (InsertToken(t, email, secret, Registration, appNow + DAY_S), Replied(202))
    case VerifyConsume(hash, requested) =>
      var (t', row) := Consume(kind, t, hash, requested, now);
      (t', if row == None then Replied(400)
           else if requested == Reissue then VerifyRevoke(t.tokens[row.value].email, row.value)
           else VerifyMark(t.tokens[row.value].email, Registration, row.value))
    case VerifyRevoke(email, row) =>
      var (t', status) := Revoke(kind, t, email, now);
      (t', if status == Ok then VerifyMark(email, Reissue, row) else Replied(500))
    case VerifyMark(email, requested, row) =>
      var (t', status) := MarkVerified(kind, t, email, secret, now);
      (t', if status == Ok then VerifyReply(email, requested, row, secret) else Replied(500))
    case VerifyReply(email, requested, row, key) =>
      (t, Issued(email, requested, row, key))
    case ReissueLookup(email) =>
      (t, if IsVerified(t, email) then ReissueToken(email) else Replied(202))
    case ReissueToken(email) =>
      (InsertToken(t, email, secret, Reissue, appNow + DAY_S), Replied(202))
    case _ => (t, p)
  }

  /** What a handler replies when its next statement fails. */
  function OnError(p: Proc): Proc {
    match p
    case RegisterLookup(_) => Replied(500)
    case RegisterCreate(_) => Replied(500)
    case RegisterToken(_) => Replied(500)
    case VerifyConsume(_, _) => Replied(400)
    case VerifyRevoke(_, _) => Replied(500)
    case VerifyMark(_, _, _) => Replied(500)
    case ReissueLookup(_) => Replied(202)
    case ReissueToken(_) => Replied(202)
    case _ => Stopped
  }

  // ---- the transition system

  /** Which token row a stored key was obtained with, and which type the request named. */
  datatype Origin = Origin(row: nat, requested: TokenType)

  /**
   `issued` remembers every hash generated so far, `origin` where each stored key came from.
   */
  datatype State = State(clock: int, tables: Tables, procs: map<nat, Proc>,
                         issued: set<string>, origin: map<string, Origin>)

  datatype Event =
    | Tick(to: int)
    | Start(pid: nat, request: Proc)
    | Step(pid: nat, secret: string, appNow: int)
    | Error(pid: nat)
    | Stop(pid: nat)

  const INIT: State := State(0, Tables(map[], []), map[], {}, map[])

  ghost predicate Enabled(s: State, e: Event) {
    match e
    case Tick(to) => s.clock <= to
    case Start(pid, p) => pid !in s.procs && (p.RegisterLookup? || p.VerifyConsume? || p.ReissueLookup?)
    case Step(pid, secret, _) =>
      pid in s.procs && (Generates(s.procs[pid]) ==> |secret| == 64 && secret !in s.issued)
    case Error(pid) => pid in s.procs && !Finished(s.procs[pid])
    case Stop(pid) => pid in s.procs && !Finished(s.procs[pid])
  }

  function Stepped(kind: StoreKind, s: State, pid: nat, secret: string, appNow: int): State
    requires pid in s.procs
  {
    var p := s.procs[pid];
    var (t', p') := Advance(kind, s.tables, p, s.clock, secret, appNow);
    s.(tables := t',
       procs := s.procs[pid := p'],
       issued := if Generates(p) then s.issued + {secret} else s.issued,
       origin := if p.VerifyMark? && p'.VerifyReply? then s.origin[secret := Origin(p.row, p.requested)] else s.origin)
  }

  function Apply(kind: StoreKind, s: State, e: Event): State {
    match e
    case Tick(to) => s.(clock := to)
    case Start(pid, p) => s.(procs := s.procs[pid := p])
    case Step(pid, secret, appNow) => if pid in s.procs then Stepped(kind, s, pid, secret, appNow) else s
    case Error(pid) => if pid in s.procs then s.(procs := s.procs[pid := OnError(s.procs[pid])]) else s
    case Stop(pid) => s.(procs := s.procs[pid := Stopped])
  }

  function Exec(kind: StoreKind, s: State, run: seq<Event>): State {
    if run == [] then s else Apply(kind, Exec(kind, s, run[..|run| - 1]), run[|run| - 1])
  }

  ghost predicate Legal(kind: StoreKind, s: State, run: seq<Event>) {
    run == [] ||
    (Legal(kind, s, run[..|run| - 1]) && Enabled(Exec(kind, s, run[..|run| - 1]), run[|run| - 1]))
  }

  // ---- the invariant

  /** A token row that has been consumed, in time, by a request of its own type. */
  ghost predicate Consumed(kind: StoreKind, tokens: seq<Token>, row: nat, email: string, requested: TokenType) {
    && row < |tokens|
    && tokens[row].email == email
    && tokens[row].kind == requested
    && tokens[row].usedAt.Some?
    && (tokens[row].usedAt.value < tokens[row].expiresAt
        || (kind == InMemory && tokens[row].usedAt.value == tokens[row].expiresAt))
  }

  /** Token hashes are known and distinct, and reissue tokens belong to verified clients. */
  ghost predicate TokensOk(t: Tables, issued: set<string>) {
    && (forall i :: 0 <= i < |t.tokens| ==> t.tokens[i].hash in issued)
    && (forall i, j :: 0 <= i < j < |t.tokens| ==> t.tokens[i].hash != t.tokens[j].hash)
    && (forall i :: 0 <= i < |t.tokens| && t.tokens[i].kind == Reissue ==> IsVerified(t, t.tokens[i].email))
  }

  ghost predicate OriginOk(kind: StoreKind, tokens: seq<Token>, issued: set<string>, key: string, o: Origin) {
    key in issued && |key| == 64 &&
    o.row < |tokens| && Consumed(kind, tokens, o.row, tokens[o.row].email, o.requested)
  }

  /** Every stored key was obtained with a consumed token, and no token was used for two keys. */
  ghost predicate OriginsOk(kind: StoreKind, tokens: seq<Token>, issued: set<string>, origin: map<string, Origin>) {
    && (forall k :: k in origin ==> OriginOk(kind, tokens, issued, k, origin[k]))
    && (forall j, k :: j in origin && k in origin && origin[j].row == origin[k].row ==> j == k)
  }

  ghost predicate OriginOf(tokens: seq<Token>, origin: map<string, Origin>, key: string, email: string) {
    key in origin && origin[key].row < |tokens| && tokens[origin[key].row].email == email
  }

  ghost predicate ClientOk(tokens: seq<Token>, origin: map<string, Origin>, email: string, c: Client) {
    if c.verifiedAt == None then c.keyHash == "" else OriginOf(tokens, origin, c.keyHash, email)
  }

  ghost predicate ClientsOk(t: Tables, origin: map<string, Origin>) {
    forall e :: e in t.clients ==> ClientOk(t.tokens, origin, e, t.clients[e])
  }

  /** The token row a process has consumed, if it has got that far and still knows. */
  function HeldRow(p: Proc): Option<nat> {
    match p
    case VerifyRevoke(_, row) => Some(row)
    case VerifyMark(_, _, row) => Some(row)
    case VerifyReply(_, _, row, _) => Some(row)
    case Issued(_, _, row, _) => Some(row)
    case _ => None
  }

  ghost predicate Unspent(origin: map<string, Origin>, row: nat) {
    forall k :: k in origin ==> origin[k].row != row
  }

  ghost predicate ProcOk(kind: StoreKind, t: Tables, origin: map<string, Origin>, p: Proc) {
    match p
    case VerifyRevoke(email, row) => Consumed(kind, t.tokens, row, email, Reissue) && Unspent(origin, row)
    case VerifyMark(email, requested, row) => Consumed(kind, t.tokens, row, email, requested) && Unspent(origin, row)
    case VerifyReply(email, requested, row, key) =>
      OriginOf(t.tokens, origin, key, email) && origin[key] == Origin(row, requested)
    case Issued(email, requested, row, key) =>
      OriginOf(t.tokens, origin, key, email) && origin[key] == Origin(row, requested)
    case ReissueToken(email) => IsVerified(t, email)
    case _ => true
  }

  /** Each process is where it may be, and no two processes hold the same token row. */
  ghost predicate ProcsOk(kind: StoreKind, t: Tables, origin: map<string, Origin>, procs: map<nat, Proc>) {
    && (forall p :: p in procs ==> ProcOk(kind, t, origin, procs[p]))
    && (forall p, q :: p in procs && q in procs && p != q && HeldRow(procs[p]).Some? ==>
          HeldRow(procs[p]) != HeldRow(procs[q]))
  }

  ghost predicate KeyFinal(t: Tables, key: string, o: Origin) {
    && o.requested == Registration
    && o.row < |t.tokens|
    && IsVerified(t, t.tokens[o.row].email)
    && t.clients[t.tokens[o.row].email].keyHash == key
  }

  /** On Postgres a key is only ever stored for a client without one, and never for a reissue. */
  ghost predicate KeysFinal(kind: StoreKind, t: Tables, origin: map<string, Origin>) {
    kind == Postgres ==> forall k :: k in origin ==> KeyFinal(t, k, origin[k])
  }

  ghost predicate Inv(kind: StoreKind, s: State) {
    && TokensOk(s.tables, s.issued)
    && OriginsOk(kind, s.tables.tokens, s.issued, s.origin)
    && ClientsOk(s.tables, s.origin)
    && ProcsOk(kind, s.tables, s.origin, s.procs)
    && KeysFinal(kind, s.tables, s.origin)
  }

  // ---- rows only gain information

  ghost predicate TokensGrow(tokens: seq<Token>, tokens': seq<Token>) {
    && |tokens| <= |tokens'|
    && (forall i :: 0 <= i < |tokens| ==>
          tokens'[i] == tokens[i] || (tokens[i].usedAt == None && tokens'[i].(usedAt := None) == tokens[i]))
  }

  ghost predicate VerifiedStays(t: Tables, t': Tables) {
    forall e :: IsVerified(t, e) ==> IsVerified(t', e)
  }

  lemma OriginsGrow(kind: StoreKind, tokens: seq<Token>, tokens': seq<Token>, issued: set<string>, issued': set<string>,
                    origin: map<string, Origin>)
    requires OriginsOk(kind, tokens, issued, origin) && TokensGrow(tokens, tokens') && issued <= issued'
    ensures OriginsOk(kind, tokens', issued', origin)
  {
    forall k | k in origin ensures OriginOk(kind, tokens', issued', k, origin[k]) {
      assert OriginOk(kind, tokens, issued, k, origin[k]);
    }
  }

  lemma ProcGrows(kind: StoreKind, t: Tables, t': Tables, origin: map<string, Origin>, p: Proc)
    requires ProcOk(kind, t, origin, p) && TokensGrow(t.tokens, t'.tokens) && VerifiedStays(t, t')
    ensures ProcOk(kind, t', origin, p)
  {
  }

  lemma ProcsGrow(kind: StoreKind, t: Tables, t': Tables, origin: map<string, Origin>, procs: map<nat, Proc>)
    requires ProcsOk(kind, t, origin, procs) && TokensGrow(t.tokens, t'.tokens) && VerifiedStays(t, t')
    ensures ProcsOk(kind, t', origin, procs)
  {
    forall p | p in procs ensures ProcOk(kind, t', origin, procs[p]) {
      ProcGrows(kind, t, t', origin, procs[p]);
    }
  }

  lemma ClientsGrow(t: Tables, t': Tables, origin: map<string, Origin>)
    requires ClientsOk(t, origin) && TokensGrow(t.tokens, t'.tokens) && t'.clients == t.clients
    ensures ClientsOk(t', origin)
  {
    forall e | e in t'.clients ensures ClientOk(t'.tokens, origin, e, t'.clients[e]) {
      assert ClientOk(t.tokens, origin, e, t.clients[e]);
    }
  }

  lemma KeysGrow(kind: StoreKind, t: Tables, t': Tables, origin: map<string, Origin>)
    requires KeysFinal(kind, t, origin) && TokensGrow(t.tokens, t'.tokens)
    requires forall e :: IsVerified(t, e) ==> IsVerified(t', e) && t'.clients[e].keyHash == t.clients[e].keyHash
    ensures KeysFinal(kind, t', origin)
  {
    if kind == Postgres {
      forall k | k in origin ensures KeyFinal(t', k, origin[k]) {
        assert KeyFinal(t, k, origin[k]);
      }
    }
  }

  /** One process moves on: its new state is fine by itself and holds no one else's token. */
  lemma ProcMoves(kind: StoreKind, t: Tables, origin: map<string, Origin>, procs: map<nat, Proc>, pid: nat, p: Proc)
    requires ProcsOk(kind, t, origin, procs) && ProcOk(kind, t, origin, p)
    requires HeldRow(p) == None || (pid in procs && HeldRow(p) == HeldRow(procs[pid]))
             || forall q :: q in procs ==> HeldRow(procs[q]) != HeldRow(p)
    ensures ProcsOk(kind, t, origin, procs[pid := p])
  {
  }

  // ---- every event keeps the invariant, statement by statement

  lemma InsertTokenKeeps(t: Tables, issued: set<string>, email: string, hash: string, kind: TokenType, expiresAt: int)
    requires TokensOk(t, issued) && hash !in issued && (kind == Reissue ==> IsVerified(t, email))
    ensures var t' := InsertToken(t, email, hash, kind, expiresAt);
            TokensOk(t', issued + {hash}) && TokensGrow(t.tokens, t'.tokens) && VerifiedStays(t, t')
  {
    var t' := InsertToken(t, email, hash, kind, expiresAt);
    forall i | 0 <= i < |t'.tokens| && t'.tokens[i].kind == Reissue ensures IsVerified(t', t'.tokens[i].email) {
      if i < |t.tokens| { assert t'.tokens[i] == t.tokens[i]; }
    }
  }

  lemma ConsumeKeepsTokens(kind: StoreKind, t: Tables, issued: set<string>, hash: string, requested: TokenType, now: int)
    requires TokensOk(t, issued)
    ensures var (t', row) := Consume(kind, t, hash, requested, now);
            && TokensOk(t', issued) && TokensGrow(t.tokens, t'.tokens) && VerifiedStays(t, t')
            && (row.Some? ==> row.value < |t.tokens| && t.tokens[row.value].usedAt == None
                              && Consumed(kind, t'.tokens, row.value, t.tokens[row.value].email, requested))
  {
    var (t', row) := Consume(kind, t, hash, requested, now);
    forall i | 0 <= i < |t'.tokens| && t'.tokens[i].kind == Reissue ensures IsVerified(t', t'.tokens[i].email) {
      assert t'.tokens[i].email == t.tokens[i].email && t'.tokens[i].kind == t.tokens[i].kind;
    }
    assert forall i :: 0 <= i < |t'.tokens| ==> t'.tokens[i].hash == t.tokens[i].hash;
  }

  lemma UnusedRowIsFree(kind: StoreKind, s: State, row: nat)
    requires Inv(kind, s) && row < |s.tables.tokens| && s.tables.tokens[row].usedAt == None
    ensures Unspent(s.origin, row)
    ensures forall q :: q in s.procs ==> HeldRow(s.procs[q]) != Some(row)
  {
    forall k | k in s.origin ensures s.origin[k].row != row {
      assert OriginOk(kind, s.tables.tokens, s.issued, k, s.origin[k]);
    }
    forall q | q in s.procs ensures HeldRow(s.procs[q]) != Some(row) {
      assert ProcOk(kind, s.tables, s.origin, s.procs[q]);
      match s.procs[q]
      case VerifyReply(_, _, _, key) => assert OriginOk(kind, s.tables.tokens, s.issued, key, s.origin[key]);
      case Issued(_, _, _, key) => assert OriginOk(kind, s.tables.tokens, s.issued, key, s.origin[key]);
      case _ =>
    }
  }

  lemma StepInsertsToken(kind: StoreKind, s: State, pid: nat, secret: string, appNow: int)
    requires Inv(kind, s) && Enabled(s, Step(pid, secret, appNow))
    requires s.procs[pid].RegisterToken? || s.procs[pid].ReissueToken?
    ensures Inv(kind, Stepped(kind, s, pid, secret, appNow))
  {
    var p, t := s.procs[pid], s.tables;
    var type_ := if p.ReissueToken? then Reissue else Registration;
    var t' := InsertToken(t, p.email, secret, type_, appNow + DAY_S);
    assert ProcOk(kind, t, s.origin, p);
    InsertTokenKeeps(t, s.issued, p.email, secret, type_, appNow + DAY_S);
    OriginsGrow(kind, t.tokens, t'.tokens, s.issued, s.issued + {secret}, s.origin);
    ProcsGrow(kind, t, t', s.origin, s.procs);
    ClientsGrow(t, t', s.origin);
    KeysGrow(kind, t, t', s.origin);
    ProcMoves(kind, t', s.origin, s.procs, pid, Replied(202));
  }

  lemma StepConsumes(kind: StoreKind, s: State, pid: nat, secret: string, appNow: int)
    requires Inv(kind, s) && Enabled(s, Step(pid, secret, appNow))
    requires s.procs[pid].VerifyConsume?
    ensures Inv(kind, Stepped(kind, s, pid, secret, appNow))
  {
    var p, t := s.procs[pid], s.tables;
    var (t', row) := Consume(kind, t, p.hash, p.requested, s.clock);
    ConsumeKeepsTokens(kind, t, s.issued, p.hash, p.requested, s.clock);
    OriginsGrow(kind, t.tokens, t'.tokens, s.issued, s.issued, s.origin);
    ProcsGrow(kind, t, t', s.origin, s.procs);
    ClientsGrow(t, t', s.origin);
    KeysGrow(kind, t, t', s.origin);
    if row.Some? { UnusedRowIsFree(kind, s, row.value); }
    ProcMoves(kind, t', s.origin, s.procs, pid, Advance(kind, t, p, s.clock, secret, appNow).1);
  }

  /** A statement that at most adds a client without a key or changes when one was revoked. */
  ghost predicate KeysUntouched(t: Tables, t': Tables) {
    && t'.tokens == t.tokens
    && (forall e :: e in t.clients ==> e in t'.clients && t'.clients[e].(revokedAt := t.clients[e].revokedAt) == t.clients[e])
    && (forall e :: e in t'.clients && e !in t.clients ==> t'.clients[e] == Client("", None, None))
  }

  lemma UntouchedKeepsClients(t: Tables, t': Tables, origin: map<string, Origin>)
    requires ClientsOk(t, origin) && KeysUntouched(t, t')
    ensures ClientsOk(t', origin)
  {
    forall e | e in t'.clients ensures ClientOk(t'.tokens, origin, e, t'.clients[e]) {
      if e in t.clients { assert ClientOk(t.tokens, origin, e, t.clients[e]); }
    }
  }

  lemma StepTouchesClient(kind: StoreKind, s: State, pid: nat, secret: string, appNow: int)
    requires Inv(kind, s) && Enabled(s, Step(pid, secret, appNow))
    requires s.procs[pid].RegisterCreate? || s.procs[pid].VerifyRevoke?
    ensures Inv(kind, Stepped(kind, s, pid, secret, appNow))
  {
    var p, t := s.procs[pid], s.tables;
    var (t', p') := Advance(kind, t, p, s.clock, secret, appNow);
    assert ProcOk(kind, t, s.origin, p);
    assert KeysUntouched(t, t');
    UntouchedKeepsClients(t, t', s.origin);
    TokensKept(t, t', s.issued);
    KeysGrow(kind, t, t', s.origin);
    ProcsGrow(kind, t, t', s.origin, s.procs);
    ProcMoves(kind, t', s.origin, s.procs, pid, p');
  }

  lemma StepOnlyMoves(kind: StoreKind, s: State, pid: nat, secret: string, appNow: int)
    requires Inv(kind, s) && Enabled(s, Step(pid, secret, appNow))
    requires s.procs[pid].RegisterLookup? || s.procs[pid].ReissueLookup? || s.procs[pid].VerifyReply? || Finished(s.procs[pid])
    ensures Inv(kind, Stepped(kind, s, pid, secret, appNow))
  {
    var p := s.procs[pid];
    assert ProcOk(kind, s.tables, s.origin, p);
    ProcMoves(kind, s.tables, s.origin, s.procs, pid, Advance(kind, s.tables, p, s.clock, secret, appNow).1);
  }

  // ---- the one statement that stores a key

  lemma OriginAdded(kind: StoreKind, tokens: seq<Token>, issued: set<string>, origin: map<string, Origin>,
                    key: string, o: Origin, email: string)
    requires OriginsOk(kind, tokens, issued, origin) && key !in issued && |key| == 64
    requires Consumed(kind, tokens, o.row, email, o.requested) && Unspent(origin, o.row)
    ensures OriginsOk(kind, tokens, issued + {key}, origin[key := o])
    ensures key !in origin
  {
    forall k | k in origin ensures k in issued { assert OriginOk(kind, tokens, issued, k, origin[k]); }
    var origin' := origin[key := o];
    forall k | k in origin' ensures OriginOk(kind, tokens, issued + {key}, k, origin'[k]) {
      if k != key { assert OriginOk(kind, tokens, issued, k, origin[k]); }
    }
  }

  lemma ProcKeepsOrigin(kind: StoreKind, t: Tables, origin: map<string, Origin>, key: string, o: Origin, p: Proc)
    requires ProcOk(kind, t, origin, p) && key !in origin && HeldRow(p) != Some(o.row)
    ensures ProcOk(kind, t, origin[key := o], p)
  {
  }

  lemma ProcsKeepOrigin(kind: StoreKind, t: Tables, origin: map<string, Origin>, procs: map<nat, Proc>,
                        pid: nat, key: string, o: Origin, p: Proc)
    requires ProcsOk(kind, t, origin, procs) && key !in origin
    requires pid in procs && HeldRow(procs[pid]) == Some(o.row) == HeldRow(p) && ProcOk(kind, t, origin[key := o], p)
    ensures ProcsOk(kind, t, origin[key := o], procs[pid := p])
  {
    forall q | q in procs && q != pid ensures ProcOk(kind, t, origin[key := o], procs[q]) {
      assert HeldRow(procs[pid]) != HeldRow(procs[q]);
      ProcKeepsOrigin(kind, t, origin, key, o, procs[q]);
    }
  }

  /** A successful MarkVerified on a client row, whichever store. */
  lemma MarkVerifiedEffect(kind: StoreKind, t: Tables, email: string, hash: string, now: int)
    ensures var (t', status) := MarkVerified(kind, t, email, hash, now);
            && t'.tokens == t.tokens && VerifiedStays(t, t')
            && (status == Ok ==>
                  && email in t.clients && t'.clients.Keys == t.clients.Keys
                  && t'.clients[email].verifiedAt == Some(now) && t'.clients[email].keyHash == hash
                  && (forall e :: e in t.clients && e != email ==> t'.clients[e] == t.clients[e])
                  && (kind == Postgres ==> t.clients[email].verifiedAt == None))
            && (status != Ok ==> t' == t)
  {
  }

  lemma MarkKeepsClients(t: Tables, t': Tables, origin: map<string, Origin>, email: string, key: string, o: Origin)
    requires ClientsOk(t, origin) && key !in origin
    requires t'.tokens == t.tokens && t'.clients.Keys == t.clients.Keys && email in t.clients
    requires forall e :: e in t.clients && e != email ==> t'.clients[e] == t.clients[e]
    requires t'.clients[email].verifiedAt.Some? && t'.clients[email].keyHash == key
    requires o.row < |t.tokens| && t.tokens[o.row].email == email
    ensures ClientsOk(t', origin[key := o])
  {
    forall e | e in t'.clients ensures ClientOk(t'.tokens, origin[key := o], e, t'.clients[e]) {
      if e != email { assert ClientOk(t.tokens, origin, e, t.clients[e]); }
    }
  }

  lemma MarkKeepsKeys(t: Tables, t': Tables, issued: set<string>, origin: map<string, Origin>, email: string, key: string, o: Origin)
    requires KeysFinal(Postgres, t, origin) && TokensOk(t, issued)
    requires t'.tokens == t.tokens && email in t.clients && email in t'.clients
    requires forall e :: e in t.clients && e != email ==> e in t'.clients && t'.clients[e] == t.clients[e]
    requires t.clients[email].verifiedAt == None && t'.clients[email].verifiedAt.Some? && t'.clients[email].keyHash == key
    requires Consumed(Postgres, t.tokens, o.row, email, o.requested)
    ensures KeysFinal(Postgres, t', origin[key := o])
  {
    assert o.requested == Registration;
    forall k | k in origin && k != key ensures KeyFinal(t', k, origin[k]) {
      assert KeyFinal(t, k, origin[k]);
    }
  }

  lemma StepMarks(kind: StoreKind, s: State, pid: nat, secret: string, appNow: int)
    requires Inv(kind, s) && Enabled(s, Step(pid, secret, appNow))
    requires s.procs[pid].VerifyMark?
    ensures Inv(kind, Stepped(kind, s, pid, secret, appNow))
  {
    var p, t := s.procs[pid], s.tables;
    var (t', status) := MarkVerified(kind, t, p.email, secret, s.clock);
    assert ProcOk(kind, t, s.origin, p);
    MarkVerifiedEffect(kind, t, p.email, secret, s.clock);
    TokensKept(t, t', s.issued);
    if status == Ok {
      var o := Origin(p.row, p.requested);
      OriginAdded(kind, t.tokens, s.issued, s.origin, secret, o, p.email);
      MarkKeepsClients(t, t', s.origin, p.email, secret, o);
      ProcsGrow(kind, t, t', s.origin, s.procs);
      ProcsKeepOrigin(kind, t', s.origin, s.procs, pid, secret, o, VerifyReply(p.email, p.requested, p.row, secret));
      if kind == Postgres { MarkKeepsKeys(t, t', s.issued, s.origin, p.email, secret, o); }
    } else {
      OriginsGrow(kind, t.tokens, t.tokens, s.issued, s.issued + {secret}, s.origin);
      ProcMoves(kind, t, s.origin, s.procs, pid, Replied(500));
    }
  }

  lemma TokensKept(t: Tables, t': Tables, issued: set<string>)
    requires TokensOk(t, issued) && t'.tokens == t.tokens && VerifiedStays(t, t')
    ensures forall more: set<string> :: issued <= more ==> TokensOk(t', more)
  {
  }

  lemma ApplyKeepsInv(kind: StoreKind, s: State, e: Event)
    requires Inv(kind, s) && Enabled(s, e)
    ensures Inv(kind, Apply(kind, s, e))
  {
    match e
    case Tick(_) =>
    case Start(pid, p) => ProcMoves(kind, s.tables, s.origin, s.procs, pid, p);
    case Error(pid) => ProcMoves(kind, s.tables, s.origin, s.procs, pid, OnError(s.procs[pid]));
    case Stop(pid) => ProcMoves(kind, s.tables, s.origin, s.procs, pid, Stopped);
    case Step(pid, secret, appNow) =>
      match s.procs[pid]
      case RegisterToken(_) => StepInsertsToken(kind, s, pid, secret, appNow);
      case ReissueToken(_) => StepInsertsToken(kind, s, pid, secret, appNow);
      case RegisterCreate(_) => StepTouchesClient(kind, s, pid, secret, appNow);
      case VerifyRevoke(_, _) => StepTouchesClient(kind, s, pid, secret, appNow);
      case VerifyConsume(_, _) => StepConsumes(kind, s, pid, secret, appNow);
      case VerifyMark(_, _, _) => StepMarks(kind, s, pid, secret, appNow);
      case _ => StepOnlyMoves(kind, s, pid, secret, appNow);
  }

  lemma {:induction false} ReachableInv(kind: StoreKind, run: seq<Event>)
    requires Legal(kind, INIT, run)
    ensures Inv(kind, Exec(kind, INIT, run))
  {
    if run != [] {
      var n := |run| - 1;
      ReachableInv(kind, run[..n]);
      ApplyKeepsInv(kind, Exec(kind, INIT, run[..n]), run[n]);
    }
  }
}
