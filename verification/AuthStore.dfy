/**
 The clients and verification_tokens tables, and every statement the handlers issue on them.
 There are two stores: Postgres, whose statements are written here as the SQL has them, and
 the in-memory store that the handler tests run on.
 */
module AuthStore {
  import opened Collections

  datatype StoreKind = Postgres | InMemory

  datatype TokenType = Registration | Reissue

  /** A row of clients; the hash is empty until a key has been issued. */
  datatype Client = Client(keyHash: string, verifiedAt: Option<int>, revokedAt: Option<int>)

  datatype Token = Token(email: string, hash: string, kind: TokenType, expiresAt: int, usedAt: Option<int>)

  /** `clients` is keyed by its unique column; `tokens` has no unique column but its id. */
  datatype Tables = Tables(clients: map<string, Client>, tokens: seq<Token>)

  /** How many rows a statement touched decides between success and ErrNotFound. */
  datatype Status = Ok | NotFound | AlreadyExists

  function InsertClient(t: Tables, email: string): (Tables, Status) {
    if email in t.clients then (t, AlreadyExists)
    else (t.(clients := t.clients[email := Client("", None, None)]), Ok)
  }

  /** Only Postgres guards the update with verified_at IS NULL; only the test store un-revokes. */
  function MarkVerified(kind: StoreKind, t: Tables, email: string, hash: string, now: int): (Tables, Status) {
    if email !in t.clients then (t, NotFound) else
      var c := t.clients[email];
      match kind
      case Postgres =>
        if c.verifiedAt.Some? then (t, NotFound)
        else (t.(clients := t.clients[email := c.(keyHash := hash, verifiedAt := Some(now))]), Ok)
      case InMemory =>
        (t.(clients := t.clients[email := Client(hash, Some(now), None)]), Ok)
  }

  /** Only Postgres guards the update with revoked_at IS NULL. */
  function Revoke(kind: StoreKind, t: Tables, email: string, now: int): (Tables, Status) {
    if email !in t.clients then (t, NotFound) else
      var c := t.clients[email];
      if kind == Postgres && c.revokedAt.Some? then (t, NotFound)
      else (t.(clients := t.clients[email := c.(revokedAt := Some(now))]), Ok)
  }

  function InsertToken(t: Tables, email: string, hash: string, kind: TokenType, expiresAt: int): Tables {
    t.(tokens := t.tokens + [Token(email, hash, kind, expiresAt, None)])
  }

  /** A token still valid at the very instant it expires is accepted by the test store only. */
  predicate Usable(store: StoreKind, t: Token, hash: string, kind: TokenType, now: int) {
    t.hash == hash && t.kind == kind && t.usedAt == None &&
    if store == Postgres then now < t.expiresAt else now <= t.expiresAt
  }

  function Spent(store: StoreKind, t: Token, hash: string, kind: TokenType, now: int): Token {
    if Usable(store, t, hash, kind, now) then t.(usedAt := Some(now)) else t
  }

  function FirstUsable(store: StoreKind, tokens: seq<Token>, hash: string, kind: TokenType, now: int): (r: Option<nat>)
    ensures r.Some? ==> r.value < |tokens| && Usable(store, tokens[r.value], hash, kind, now)
    ensures r == None ==> forall i :: 0 <= i < |tokens| ==> !Usable(store, tokens[i], hash, kind, now)
  {
    if tokens == [] then None else
      var n := |tokens| - 1;
      var r := FirstUsable(store, tokens[..n], hash, kind, now);
      if r.Some? then r
      else if Usable(store, tokens[n], hash, kind, now) then Some(n) else None
  }

  /** UPDATE ... SET used_at = now() ... RETURNING: every usable row, and the first one returned. */
  function Consume(store: StoreKind, t: Tables, hash: string, kind: TokenType, now: int): (Tables, Option<nat>) {
    var tokens := seq(|t.tokens|, i requires 0 <= i < |t.tokens| => Spent(store, t.tokens[i], hash, kind, now));
    (t.(tokens := tokens), FirstUsable(store, t.tokens, hash, kind, now))
  }

  /** Each usable row is marked as used now, no other row changes, and the first usable one is returned. */
  lemma ConsumeMarksUsable(store: StoreKind, t: Tables, hash: string, kind: TokenType, now: int, i: nat)
    requires i < |t.tokens|
    ensures var (t', row) := Consume(store, t, hash, kind, now);
            && t'.clients == t.clients && |t'.tokens| == |t.tokens|
            && t'.tokens[i] == (if Usable(store, t.tokens[i], hash, kind, now) then t.tokens[i].(usedAt := Some(now)) else t.tokens[i])
            && (Usable(store, t.tokens[i], hash, kind, now) ==> row.Some? && row.value <= i)
  {
    FirstIsFirst(store, t.tokens, hash, kind, now, i);
  }

  lemma {:induction false} FirstIsFirst(store: StoreKind, tokens: seq<Token>, hash: string, kind: TokenType, now: int, i: nat)
    requires i < |tokens|
    ensures Usable(store, tokens[i], hash, kind, now) ==>
              FirstUsable(store, tokens, hash, kind, now).Some? && FirstUsable(store, tokens, hash, kind, now).value <= i
  {
    if i + 1 < |tokens| { FirstIsFirst(store, tokens[..|tokens| - 1], hash, kind, now, i); }
  }

  /** One row of the update: what the first i + 1 rows make of the table and of the row returned. */
  lemma ConsumeStep(store: StoreKind, before: seq<Token>, after: seq<Token>, i: nat, hash: string, kind: TokenType, now: int)
    requires i < |before| == |after| && after[i] == Spent(store, before[i], hash, kind, now)
    ensures var mixed := after[..i] + before[i..];
            mixed[i] == before[i] && mixed[i := after[i]] == after[..i + 1] + before[i + 1..]
    ensures var r := FirstUsable(store, before[..i], hash, kind, now);
            FirstUsable(store, before[..i + 1], hash, kind, now) ==
              if r.Some? then r else if Usable(store, before[i], hash, kind, now) then Some(i) else None
  {
    assert before[..i + 1][..i] == before[..i];
  }

  /** The Auth middleware lets a key through whose hash is that of a verified, unrevoked client. */
  predicate AcceptedFor(t: Tables, email: string, hash: string) {
    email in t.clients && t.clients[email].keyHash == hash && |hash| == 64 &&
    t.clients[email].verifiedAt.Some? && t.clients[email].revokedAt == None
  }

  /**
   The store as an object: each method is one statement, and says what it leaves in the two
   tables and what it returns.
   */
  class Store {
    const kind: StoreKind
    var clients: map<string, Client>
    var tokens: seq<Token>

    function Contents(): Tables
      reads this
    {
      Tables(clients, tokens)
    }

    constructor (kind: StoreKind)
      ensures Contents() == Tables(map[], []) && this.kind == kind
    {
      this.kind := kind;
      clients, tokens := map[], [];
    }

    method GetClientByEmail(email: string) returns (c: Option<Client>)
      ensures c.Some? <==> email in clients
      ensures c.Some? ==> c.value == clients[email]
    {
      c := if email in clients then Some(clients[email]) else None;
    }

    /** Any row with that hash: the column is indexed but not unique. */
    method GetClientByAPIKeyHash(hash: string) returns (email: Option<string>)
      ensures email.Some? ==> email.value in clients && clients[email.value].keyHash == hash
      ensures email == None ==> forall e :: e in clients ==> clients[e].keyHash != hash
    {
      var rest := clients.Keys;
      while rest != {}
        invariant rest <= clients.Keys
        invariant forall e :: e in clients && e !in rest ==> clients[e].keyHash != hash
      {
        var e :| e in rest;
        if clients[e].keyHash == hash { return Some(e); }
        rest := rest - {e};
      }
      email := None;
    }

    method CreateClient(email: string) returns (status: Status)
      modifies this`clients
      ensures (Contents(), status) == InsertClient(old(Contents()), email)
    {
      if email in clients {
        return AlreadyExists;
      }
      clients := clients[email := Client("", None, None)];
      status := Ok;
    }

    method MarkClientVerified(email: string, hash: string, now: int) returns (status: Status)
      modifies this`clients
      ensures (Contents(), status) == MarkVerified(kind, old(Contents()), email, hash, now)
    {
      if email !in clients {
        return NotFound;
      }
      var c := clients[email];
      if kind == Postgres {
        if c.verifiedAt.Some? {
          return NotFound;
        }
        c := c.(keyHash := hash, verifiedAt := Some(now));
      } else {
        c := Client(hash, Some(now), None);
      }
      clients := clients[email := c];
      status := Ok;
    }

    method RevokeClient(email: string, now: int) returns (status: Status)
      modifies this`clients
      ensures (Contents(), status) == Revoke(kind, old(Contents()), email, now)
    {
      if email !in clients || (kind == Postgres && clients[email].revokedAt.Some?) {
        return NotFound;
      }
      clients := clients[email := clients[email].(revokedAt := Some(now))];
      status := Ok;
    }

    method CreateToken(email: string, hash: string, kind: TokenType, expiresAt: int)
      modifies this`tokens
      ensures Contents() == InsertToken(old(Contents()), email, hash, kind, expiresAt)
    {
      tokens := tokens + [Token(email, hash, kind, expiresAt, None)];
    }

    method ConsumeToken(hash: string, type_: TokenType, now: int) returns (row: Option<nat>)
      modifies this`tokens
      ensures (Contents(), row) == Consume(kind, old(Contents()), hash, type_, now)
    {
      row := None;
      ghost var before, after := tokens, Consume(kind, Contents(), hash, type_, now).0.tokens;
      var i := 0;
      assert before == after[..0] + before[0..];
      while i < |tokens|
        invariant 0 <= i <= |tokens| == |before|
        invariant row == FirstUsable(kind, before[..i], hash, type_, now)
        invariant tokens == after[..i] + before[i..]
      {
        ConsumeStep(kind, before, after, i, hash, type_, now);
        if Usable(kind, tokens[i], hash, type_, now) {
          row := if row == None then Some(i) else row;
          tokens := tokens[i := tokens[i].(usedAt := Some(now))];
        }
        i := i + 1;
      }
      assert before[..i] == before && tokens == after;
    }
  }
}
