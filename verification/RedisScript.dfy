/**
 The distributed limiter: sorted sets with an expiry deadline, the sliding-window script that
 runs atomically on them, and the answer AllowN makes of the script's reply. Instants are
 integers in milliseconds. `server` is the Redis server's clock, `now` the caller's.
 */
module RedisScript {
  import opened Collections
  import opened SlidingWindow

  const WINDOW_MS: int := 60_000

  /** A sorted set: member to score, and the server instant at which the key may vanish. */
  datatype ZSet = ZSet(scores: map<string, int>, deadline: Option<int>)

  type Db = map<string, ZSet>

  function Scores(db: Db, key: string): map<string, int> {
    if key in db then db[key].scores else map[]
  }

  /** What ZREMRANGEBYSCORE key -inf h leaves. */
  function Trimmed(z: map<string, int>, h: int): map<string, int> {
    map m | m in z && z[m] > h :: z[m]
  }

  ghost predicate IsLowest(z: map<string, int>, score: int) {
    (exists m :: m in z && z[m] == score) && (forall m :: m in z ==> score <= z[m])
  }

  /** The script's reply: allowed (0 or 1), the count afterwards, and the oldest score or 0. */
  datatype Reply = Reply(allowed: int, count: int, oldest: int)

  /** What the script leaves in the database. */
  function Scripted(db: Db, server: int, key: string, now: int, limit: int, member: string): Db {
    var z := Trimmed(Scores(db, key), now - WINDOW_MS);
    if |z| < limit then db[key := ZSet(z[member := now], Some(server + WINDOW_MS))]
    else if z == map[] then db - {key}
    else db[key := ZSet(z, db[key].deadline)]
  }

  /** The set left by the trim, with the new member when there is room. */
  lemma ScriptedAfterTrim(db: Db, server: int, key: string, now: int, limit: int, member: string)
    ensures var z := Trimmed(Scores(db, key), now - WINDOW_MS);
            var trimmed := if z == map[] then db - {key} else db[key := ZSet(z, db[key].deadline)];
            Scores(trimmed, key) == z && Scripted(db, server, key, now, limit, member) ==
              if |z| < limit then trimmed[key := ZSet(z[member := now], Some(server + WINDOW_MS))] else trimmed
  {
  }

  /** What the script may reply: everything in it is determined by the set it leaves. */
  ghost predicate Replies(db: Db, server: int, key: string, now: int, limit: int, member: string, r: Reply) {
    var z := Trimmed(Scores(db, key), now - WINDOW_MS);
    var z' := Scores(Scripted(db, server, key, now, limit, member), key);
    && r.allowed == (if |z| < limit then 1 else 0)
    && r.count == |z| + r.allowed
    && (if z' == map[] then r.oldest == 0 else IsLowest(z', r.oldest))
  }

  /** A value of the reply as the client library delivers it: an int64 or something else. */
  datatype Raw = Int64(i: int) | Other

  datatype ScriptError = UnexpectedResult | InvalidResultType

  datatype Parsed = Parsed(reply: Reply) | Failed(error: ScriptError)

  /** Decode the script's reply; the allowed flag is true for 1 only. */
  function ParseScriptResult(res: seq<Raw>): (p: Parsed)
    ensures p.Parsed? <==> |res| == 3 && forall i :: 0 <= i < 3 ==> res[i].Int64?
    ensures p.Failed? ==> (p.error == UnexpectedResult <==> |res| != 3)
    ensures p.Parsed? ==> [Int64(p.reply.count), Int64(p.reply.oldest)] == res[1..]
    ensures p.Parsed? ==> (p.reply.allowed == 1 <==> res[0] == Int64(1))
  {
    if |res| != 3 then Failed(UnexpectedResult)
    else if !res[0].Int64? || !res[1].Int64? || !res[2].Int64? then Failed(InvalidResultType)
    else Parsed(Reply(if res[0].i == 1 then 1 else 0, res[1].i, res[2].i))
  }

  /** The answer AllowN computes from a reply. */
  function ReplyAnswer(r: Reply, rpm: int, now: int): Answer {
    Answer(r.allowed == 1,
           if rpm < r.count then 0 else rpm - r.count,
           (if r.oldest > 0 then r.oldest else now) + WINDOW_MS)
  }

  /**
   Whatever the set held and whoever asked for which limit before: Remaining is the number of free
   places in the set the script leaves, never negative, and zero on a denial.
   */
  lemma RemainingIsFree(db: Db, server: int, key: string, now: int, limit: int, member: string, r: Reply)
    requires Replies(db, server, key, now, limit, member, r) && 0 < limit
    requires member !in Scores(db, key)
    ensures var a, n := ReplyAnswer(r, limit, now), |Scores(Scripted(db, server, key, now, limit, member), key)|;
            && a.remaining == (if n < limit then limit - n else 0)
            && 0 <= a.remaining && (!a.allowed ==> a.remaining == 0)
  {
    var z := Trimmed(Scores(db, key), now - WINDOW_MS);
    if |z| < limit { assert z[member := now].Keys == z.Keys + {member}; CardOfMap(z); CardOfMap(z[member := now]); }
  }

  lemma CardOfMap(z: map<string, int>)
    ensures |z| == |z.Keys|
  {
  }

  /**
   A Redis server, command by command. Like Redis itself it deletes a key whose set becomes
   empty, and gives a key created by ZADD no deadline.
   */
  class Server {
    var db: Db

    constructor ()
      ensures db == map[]
    {
      db := map[];
    }

    method ZRemRangeByScore(key: string, max: int)
      modifies this
      ensures var z := Trimmed(Scores(old(db), key), max);
              db == if z == map[] then old(db) - {key} else old(db)[key := ZSet(z, old(db)[key].deadline)]
    {
      if key in db {
        var z := Trimmed(db[key].scores, max);
        db := if z == map[] then db - {key} else db[key := ZSet(z, db[key].deadline)];
      }
    }

    method ZCard(key: string) returns (n: nat)
      ensures n == |Scores(db, key)|
    {
      n := if key in db then |db[key].scores| else 0;
    }

    method ZAdd(key: string, score: int, member: string)
      modifies this
      ensures db == old(db)[key := ZSet(Scores(old(db), key)[member := score],
                                        if key in old(db) then old(db)[key].deadline else None)]
    {
      db := db[key := ZSet(Scores(db, key)[member := score], if key in db then db[key].deadline else None)];
    }

    method PExpire(key: string, server: int, ms: int)
      requires key in db
      modifies this
      ensures db == old(db)[key := old(db)[key].(deadline := Some(server + ms))]
    {
      db := db[key := db[key].(deadline := Some(server + ms))];
    }

    /** ZRANGE key 0 0 WITHSCORES: the lowest score, when there is one. */
    method ZRangeFirst(key: string) returns (first: Option<int>)
      ensures first == None <==> Scores(db, key) == map[]
      ensures first.Some? ==> IsLowest(Scores(db, key), first.value)
    {
      var z := Scores(db, key);
      first := None;
      var rest := z.Keys;
      while rest != {}
        invariant rest <= z.Keys
        invariant first == None <==> rest == z.Keys
        invariant first.Some? ==> exists m :: m in z && m !in rest && z[m] == first.value
        invariant first.Some? ==> forall m :: m in z && m !in rest ==> first.value <= z[m]
      {
        var m :| m in rest;
        if first == None || z[m] < first.value {
          first := Some(z[m]);
        }
        rest := rest - {m};
        assert m in z && m !in rest;
      }
    }

    /** The branch that admits: it changes a set that has room, and gives it a new deadline. */
    method Add(server: int, key: string, now: int, member: string)
      modifies this
      ensures db == old(db)[key := ZSet(Scores(old(db), key)[member := now], Some(server + WINDOW_MS))]
    {
      ZAdd(key, now, member);
      PExpire(key, server, WINDOW_MS);
    }

    /** The script up to the reply's third part. */
    method TrimAndCount(server: int, key: string, now: int, limit: int, member: string)
      returns (allowed: int, count: int)
      modifies this
      ensures db == Scripted(old(db), server, key, now, limit, member)
      ensures var n := |Trimmed(Scores(old(db), key), now - WINDOW_MS)|;
              allowed == (if n < limit then 1 else 0) && count == n + allowed
    {
      ScriptedAfterTrim(db, server, key, now, limit, member);
      ZRemRangeByScore(key, now - WINDOW_MS);
      count := ZCard(key);
      allowed := 0;
      if count < limit {
        Add(server, key, now, member);
        allowed, count := 1, count + 1;
      }
    }

    /** The sliding-window script, statement by statement. */
    method SlidingWindow(server: int, key: string, now: int, limit: int, member: string) returns (r: Reply)
      modifies this
      ensures db == Scripted(old(db), server, key, now, limit, member)
      ensures Replies(old(db), server, key, now, limit, member, r)
    {
      var allowed, count := TrimAndCount(server, key, now, limit, member);
      var oldest := ZRangeFirst(key);
      r := Reply(allowed, count, if oldest.Some? then oldest.value else 0);
    }
  }

  /** What AllowN returns: an answer, or an error from the call or from its reply. */
  datatype Result = Decision(answer: Answer) | CallFailed | Malformed(error: ScriptError)

  class RedisRateLimiter {
    const server: Server
    const rpm: int

    constructor (server: Server, rpm: int)
      ensures this.server == server && this.rpm == rpm
    {
      this.server := server;
      this.rpm := rpm;
    }

    method Allow(key: string, now: int, member: string, serverNow: int, ran: bool, answered: bool)
      returns (r: Result, ghost reply: Reply)
      modifies server
      ensures server.db == if 0 < rpm && (ran || answered)
                           then Scripted(old(server.db), serverNow, "rate:" + key, now, rpm, member) else old(server.db)
      ensures 0 < rpm && answered ==> Replies(old(server.db), serverNow, "rate:" + key, now, rpm, member, reply)
      ensures r == if rpm <= 0 then Decision(Answer(false, 0, now + WINDOW_MS))
                   else if answered then Decision(ReplyAnswer(reply, rpm, now)) else CallFailed
    {
      r, reply := AllowN(key, rpm, now, member, serverNow, ran, answered);
    }

    /**
     `answered`: the reply arrives in time. If it does not, the script may still have `ran`. A
     limit of zero or less is denied without a call, and no reply of the script is malformed.
     */
    method AllowN(key: string, rpm: int, now: int, member: string, serverNow: int, ran: bool, answered: bool)
      returns (r: Result, ghost reply: Reply)
      modifies server
      ensures server.db == if 0 < rpm && (ran || answered)
                           then Scripted(old(server.db), serverNow, "rate:" + key, now, rpm, member) else old(server.db)
      ensures 0 < rpm && answered ==> Replies(old(server.db), serverNow, "rate:" + key, now, rpm, member, reply)
      ensures r == if rpm <= 0 then Decision(Answer(false, 0, now + WINDOW_MS))
                   else if answered then Decision(ReplyAnswer(reply, rpm, now)) else CallFailed
    {
      reply := Reply(0, 0, 0);
      if rpm <= 0 { return Decision(Answer(false, 0, now + WINDOW_MS)), reply; }
      if !ran && !answered { return CallFailed, reply; }
      var raw := server.SlidingWindow(serverNow, "rate:" + key, now, rpm, member);
      reply := raw;
      if !answered { return CallFailed, reply; }
      var p := ParseScriptResult([Int64(raw.allowed), Int64(raw.count), Int64(raw.oldest)]);
      r := match p
           case Failed(error) => Malformed(error)
           case Parsed(parsed) => Decision(ReplyAnswer(parsed, rpm, now));
    }
  }
}
