/**
 The authentication middleware: which requests pass anonymously, which are turned away, and which
 are let through as a client, against the keys that the protocol has made acceptable.
 */
module AuthMiddleware {
  import opened Collections
  import opened AuthStore
  import opened AuthProtocol
  import opened AuthGuarantees

  datatype Decision = Anonymous | Rejected | Authenticated(email: string)

  function Lower(s: string): string {
    seq(|s|, i requires 0 <= i < |s| => if 'A' <= s[i] <= 'Z' then s[i] - 'A' + 'a' else s[i])
  }

  /** The scheme may be written in any case. */
  predicate IsBearer(header: string) {
    |header| >= 7 && Lower(header[..7]) == "bearer "
  }

  /** Two clients that carry the same issued hash. */
  ghost predicate ShareKey(t: Tables, e: string, f: string) {
    && e in t.clients && f in t.clients
    && |t.clients[e].keyHash| == 64 && t.clients[e].keyHash == t.clients[f].keyHash
  }

  ghost predicate OnlyOwner(t: Tables, e: string) {
    forall f :: ShareKey(t, e, f) ==> e == f
  }

  /** Whatever has happened to the tables, the lookup by hash has at most one row to find. */
  lemma ReachableOneOwner(kind: StoreKind, run: seq<Event>, e: string)
    requires Legal(kind, INIT, run)
    ensures OnlyOwner(Exec(kind, INIT, run).tables, e)
  {
    forall f | ShareKey(Exec(kind, INIT, run).tables, e, f) ensures e == f {
      HashHasOneOwner(kind, run, e, f);
    }
  }

  /** Letter by letter: each may be a capital. */
  lemma BearerInAnyCase(header: string)
    ensures IsBearer(header) <==>
              && |header| >= 7 && header[0] in "bB" && header[1] in "eE" && header[2] in "aA" && header[3] in "rR"
              && header[4] in "eE" && header[5] in "rR" && header[6] == ' '
  {
    if |header| >= 7 {
      var low, word := Lower(header[..7]), "bearer ";
      assert low == word <==> low[0] == 'b' && low[1] == 'e' && low[2] == 'a' && low[3] == 'r' && low[4] == 'e'
                              && low[5] == 'r' && low[6] == ' ';
    }
  }

  /**
   `hash` is the hexadecimal SHA-256 digest of what follows the scheme; there is no store when no
   database is configured. A request passes anonymously only without the header, and as a client
   exactly when the key is an accepted one of that client.
   */
  method Auth(store: Store?, header: string, hash: string) returns (d: Decision)
    requires |hash| == 64
    ensures d == Anonymous <==> header == ""
    ensures d.Authenticated? ==> store != null && IsBearer(header) && AcceptedFor(store.Contents(), d.email, hash)
    ensures store != null ==>
              forall e :: IsBearer(header) && AcceptedFor(store.Contents(), e, hash) && OnlyOwner(store.Contents(), e)
                          ==> d == Authenticated(e)
  {
    if header == "" { return Anonymous; }
    if !IsBearer(header) || store == null { return Rejected; }
    var owner := store.GetClientByAPIKeyHash(hash);
    if owner == None { return Rejected; }
    assert forall e :: AcceptedFor(store.Contents(), e, hash) ==> ShareKey(store.Contents(), e, owner.value);
    assert forall e :: AcceptedFor(store.Contents(), e, hash) && OnlyOwner(store.Contents(), e) ==> e == owner.value;
    var c := store.clients[owner.value];
    if c.revokedAt.Some? || c.verifiedAt == None { return Rejected; }
    d := Authenticated(owner.value);
  }
}
