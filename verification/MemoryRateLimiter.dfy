/**
 The in-process limiter as the object it is: entries shared by reference, a slice of stamps
 per entry that is compacted in place, and methods that update them. Every method is tied to
 the table functions that the run theorems are about.
 */
module MemoryRateLimiter {
  import opened SlidingWindow
  import opened MemoryTable

  /** The stamps are the first `len` elements of the backing array, as in a Go slice. */
  class WindowEntry {
    var timestamps: array<int>
    var len: nat
    var lastSeen: int
    ghost var Held: seq<int>

    ghost predicate Valid()
      reads this, timestamps
    {
      len <= timestamps.Length && Held == timestamps[..len]
    }

    constructor ()
      ensures Valid() && Held == [] && fresh(timestamps)
    {
      timestamps := new int[0];
      len, lastSeen, Held := 0, 0, [];
    }

    /**
     The eviction loop. It appends into the very array it is reading; what is left is exactly
     the stamps after `windowStart`, in their old order.
     */
    method Evict(windowStart: int)
      requires Valid()
      modifies this`len, this`Held, timestamps
      ensures Valid() && Held == After(old(Held), windowStart)
    {
      var valid, i := 0, 0;
      assert Held[..0] == [] && timestamps[..0] == [];
      while i < len
        invariant valid <= i <= len <= timestamps.Length
        invariant len == |Held| && Held == old(Held)
        invariant timestamps[..valid] == After(Held[..i], windowStart)
        invariant timestamps[i..len] == Held[i..]
      {
        var ts := timestamps[i];
        EvictStep(Held, timestamps[i..len], i, windowStart);
        assert timestamps[i + 1..len] == timestamps[i..len][1..];
        if ts > windowStart {
          timestamps[valid] := ts;
          assert timestamps[..valid + 1] == timestamps[..valid] + [ts];
          valid := valid + 1;
        }
        i := i + 1;
      }
      assert Held[..len] == Held;
      len, Held := valid, timestamps[..valid];
    }

    static lemma EvictStep(held: seq<int>, rest: seq<int>, i: nat, windowStart: int)
      requires i < |held| && rest == held[i..]
      ensures rest[0] == held[i] && rest[1..] == held[i + 1..]
      ensures After(held[..i + 1], windowStart)
           == After(held[..i], windowStart) + if held[i] > windowStart then [held[i]] else []
    {
      assert held[..i + 1] == held[..i] + [held[i]];
      AfterAppend(held[..i], held[i], windowStart);
    }

    /** Go's append: in place while the capacity lasts, otherwise into a larger array. */
    method Append(now: int)
      requires Valid()
      modifies this`timestamps, this`len, this`Held, timestamps
      ensures Valid() && Held == old(Held) + [now]
      ensures timestamps == old(timestamps) || fresh(timestamps)
    {
      if len == timestamps.Length {
        var grown := new int[2 * len + 1];
        for i := 0 to len
          invariant unchanged(this) && unchanged(timestamps)
          invariant grown[..i] == timestamps[..i]
        {
          grown[i] := timestamps[i];
        }
        timestamps := grown;
      }
      timestamps[len] := now;
      len, Held := len + 1, Held + [now];
    }

    /** What AllowN does to the entry of its key while it holds the lock. */
    method Take(rpm: int, now: int) returns (a: Answer)
      requires Valid() && 0 < rpm
      modifies this, timestamps
      ensures Valid() && lastSeen == now
      ensures Held == Admit(After(old(Held), now - WINDOW), rpm, now)
      ensures a == Decide(After(old(Held), now - WINDOW), rpm, now, WINDOW)
      ensures a.remaining == (if |Held| < rpm then rpm - |Held| else 0) && (!a.allowed ==> a.remaining == 0)
      ensures timestamps == old(timestamps) || fresh(timestamps)
    {
      lastSeen := now;
      Evict(now - WINDOW);
      var count := len;
      var allowed := count < rpm;
      if allowed {
        Append(now);
        count := count + 1;
      }
      var remaining := rpm - count;
      if remaining < 0 {
        remaining := 0;
      }
      var resetAt := if len > 0 then timestamps[0] + WINDOW else now + WINDOW;
      a := Answer(allowed, remaining, resetAt);
    }
  }

  class MemoryRateLimiter {
    var entries: map<string, WindowEntry>
    const rpm: int
    ghost var Repr: set<object>

    /** No two keys share an entry, and no two entries share a backing array. */
    ghost predicate Valid()
      reads this, Repr
      ensures Valid() ==> this in Repr
    {
      && this in Repr
      && (forall k :: k in entries ==>
            && entries[k] in Repr && entries[k].timestamps in Repr
            && entries[k].Valid())
      && (forall j, k :: j in entries && k in entries && j != k ==>
            entries[j] != entries[k] && entries[j].timestamps != entries[k].timestamps)
    }

    /** The abstract state: the table of stamps and last-seen instants. */
    ghost function Contents(): Table
      requires Valid()
      reads this, Repr
    {
      map k | k in entries :: Entry(entries[k].Held, entries[k].lastSeen)
    }

    constructor (rpm: int)
      ensures Valid() && fresh(Repr) && Contents() == map[] && this.rpm == rpm
    {
      entries := map[];
      this.rpm := rpm;
      Repr := {this};
    }

    /** Allow uses the configured default. */
    method Allow(key: string, now: int) returns (a: Answer)
      requires Valid()
      modifies Repr
      ensures Valid() && fresh(Repr - old(Repr))
      ensures Contents() == Called(old(Contents()), key, rpm, now)
      ensures a == Answered(old(Contents()), key, rpm, now)
    {
      a := AllowN(key, rpm, now);
    }

    /** AllowN, given the clock reading `now` that it took before it got the lock. */
    method AllowN(key: string, rpm: int, now: int) returns (a: Answer)
      requires Valid()
      modifies Repr
      ensures Valid() && fresh(Repr - old(Repr))
      ensures Contents() == Called(old(Contents()), key, rpm, now)
      ensures a == Answered(old(Contents()), key, rpm, now)
      ensures rpm <= 0 ==> a == Answer(false, 0, now + 60_000_000_000) && Contents() == old(Contents())
      ensures 0 <= a.remaining && (!a.allowed ==> a.remaining == 0)
    {
      if rpm <= 0 {
        return Answer(false, 0, now + WINDOW);
      }
      ghost var was := Contents();
      var e := GetOrCreate(key);
      CalledOnCreated(was, key, e.lastSeen, rpm, now);
      a := Locked(e, key, rpm, now);
    }

    /** The rest of the critical section, once the entry exists. */
    method Locked(e: WindowEntry, key: string, rpm: int, now: int) returns (a: Answer)
      requires Valid() && 0 < rpm && key in entries && entries[key] == e
      modifies Repr
      ensures Valid() && fresh(Repr - old(Repr))
      ensures Contents() == Called(old(Contents()), key, rpm, now)
      ensures a == Answered(old(Contents()), key, rpm, now)
    {
      ghost var was := Contents();
      a := TakeFrom(e, key, rpm, now);
      OneEntryChanged(was, Contents(), key, Called(was, key, rpm, now)[key]);
    }

    /** Only the entry `e` of `key` changes. */
    method TakeFrom(e: WindowEntry, ghost key: string, rpm: int, now: int) returns (a: Answer)
      requires Valid() && 0 < rpm && key in entries && entries[key] == e
      modifies Repr
      ensures Valid() && fresh(Repr - old(Repr)) && entries == old(entries)
      ensures e.lastSeen == now && e.Held == Admit(After(old(e.Held), now - WINDOW), rpm, now)
      ensures forall k :: k in entries && k != key ==>
                entries[k].Held == old(entries[k].Held) && entries[k].lastSeen == old(entries[k].lastSeen)
      ensures a == Decide(After(old(e.Held), now - WINDOW), rpm, now, WINDOW)
    {
      a := e.Take(rpm, now);
      Repr := Repr + {e.timestamps};
    }

    method GetOrCreate(key: string) returns (e: WindowEntry)
      requires Valid()
      modifies this
      ensures Valid() && fresh(Repr - old(Repr))
      ensures key in entries && entries[key] == e
      ensures Contents() == old(Contents())[key := Entry(Stamps(old(Contents()), key), e.lastSeen)]
    {
      ghost var was := Contents();
      if key in entries {
        e := entries[key];
      } else {
        e := new WindowEntry();
        entries := entries[key := e];
        Repr := Repr + {e, e.timestamps};
      }
      OneEntryChanged(was, Contents(), key, Entry(Stamps(was, key), e.lastSeen));
    }

    /** The background cleanup: it visits the entries in any order and deletes the idle ones. */
    method Cleanup(now: int)
      requires Valid()
      modifies this
      ensures Valid() && Repr == old(Repr)
      ensures Contents() == Cleaned(old(Contents()), now)
      ensures forall k :: k in old(entries) ==> (k in entries <==> now - 600_000_000_000 <= old(entries[k].lastSeen))
    {
      var cutoff := now - ENTRY_TTL;
      var unvisited := entries.Keys;
      while unvisited != {}
        invariant unvisited <= entries.Keys <= old(entries).Keys
        invariant Repr == old(Repr)
        invariant forall k :: k in entries ==> entries[k] == old(entries)[k]
        invariant forall k :: k in old(entries) && k !in unvisited ==>
                    (k in entries <==> !(old(entries)[k].lastSeen < cutoff))
      {
        var key :| key in unvisited;
        if entries[key].lastSeen < cutoff {
          entries := entries - {key};
        }
        unvisited := unvisited - {key};
      }
      OnlyIdleDeleted(old(Contents()), Contents(), now);
    }
  }
}
