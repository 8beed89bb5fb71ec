/** The registry object: its sweeps pop entries one by one from the mutable table. */
module QueryResultRegistries {
  import opened Common
  import opened QueryResults

  lemma PopOldest(s: Results, who: Option<string>)
    requires Distinct(s) && CountOf(s, who) > 0
    ensures ByAge(s, who) == [s[Oldest(s, who)]] + ByAge(DropOldest(s, who), who)
    ensures RemoveId(s, ByAge(s, who)[0].id) == DropOldest(s, who)
    ensures CountOf(DropOldest(s, who), who) == CountOf(s, who) - 1
    ensures Bytes(DropOldest(s, who)) == Bytes(s) - ByAge(s, who)[0].size
    ensures Distinct(DropOldest(s, who))
  {
    RemoveIdAt(s, Oldest(s, who));
    CountAt(s, Oldest(s, who), who);
    BytesAt(s, Oldest(s, who));
    RemoveAtWithin(s, Oldest(s, who));
  }

  lemma {:induction false} EvictOneMore(s: Results, who: Option<string>, k: nat)
    requires k < CountOf(s, who)
    ensures CountOf(EvictOldest(s, who, k), who) == CountOf(s, who) - k
    ensures EvictOldest(s, who, k + 1) == DropOldest(EvictOldest(s, who, k), who)
    decreases k
  {
    hide Oldest, RemoveAt, Counts, CountOf, Bytes;
    CountAt(s, Oldest(s, who), who);
    if k > 0 {
      EvictOneMore(DropOldest(s, who), who, k - 1);
    }
  }

  class QueryResultRegistry {
    const limits: Limits
    var results: Results

    ghost predicate Valid()
      reads this
    {
      ValidLimits(limits) && WithinBudget(limits, results)
    }

    constructor (limits: Limits)
      requires ValidLimits(limits)
      ensures Valid() && this.limits == limits && results == []
    {
      this.limits := limits;
      results := [];
    }

    method DropExpired(now: int)
      modifies `results
      ensures results == Live(old(results), now)
    {
      var i := 0;
      assert results[..0] + Live(results[0..], now) == Live(results, now) by {
        assert results[0..] == results;
      }
      while i < |results|
        invariant i <= |results|
        invariant results[..i] + Live(results[i..], now) == Live(old(results), now)
        decreases |results| - i
      {
        LiveAt(results, i, now);
        hide Live;
        if results[i].expires <= now {
          results := RemoveAt(results, i);
        } else {
          i := i + 1;
        }
      }
      assert results[i..] == [] && results[..i] == results;
    }

    /** The entry at `i` stays among the live ones if and only if it has not expired. */
    lemma LiveAt(s: Results, i: nat, now: int)
      requires i < |s|
      ensures s[..i] + Live(s[i..], now)
           == if s[i].expires <= now then RemoveAt(s, i)[..i] + Live(RemoveAt(s, i)[i..], now)
              else s[..i + 1] + Live(s[i + 1..], now)
    {
      var rest := Live(s[i + 1..], now);
      assert s[i..][1..] == s[i + 1..];
      if s[i].expires <= now {
        assert RemoveAt(s, i)[..i] == s[..i] && RemoveAt(s, i)[i..] == s[i + 1..];
      } else {
        assert s[..i] + ([s[i]] + rest) == s[..i + 1] + rest;
      }
    }

    /** Pops the `k` oldest counted entries in the order of the sorted list. */
    method PopOldestOf(who: Option<string>, k: nat)
      requires Distinct(results) && k <= CountOf(results, who)
      modifies `results
      ensures results == EvictOldest(old(results), who, k) && Distinct(results)
    {
      hide Oldest, Distinct, CountOf, Bytes, RemoveId, ByAge, DropOldest, EvictOldest;
      ghost var before := results;
      var oldest := ByAge(results, who);
      ByAgeIsSorted(results, who);
      EvictNone(results, who);
      for n := 0 to k
        invariant Distinct(results) && results == EvictOldest(before, who, n)
        invariant |oldest| == CountOf(before, who) == CountOf(results, who) + n
        invariant ByAge(results, who) == oldest[n..]
      {
        EvictOneMore(before, who, n);
        PopOldest(results, who);
        assert oldest[n..][0] == oldest[n] && oldest[n..][1..] == oldest[n + 1..];
        ghost var rest := ByAge(DropOldest(results, who), who);
        assert ([results[Oldest(results, who)]] + rest)[1..] == rest;
        results := RemoveId(results, oldest[n].id);
      }
    }

    lemma EvictNone(s: Results, who: Option<string>)
      ensures EvictOldest(s, who, 0) == s
    {
    }

    method Prune(now: int, reserve: nat)
      requires Distinct(results)
      modifies `results
      ensures results == Pruned(old(results), now, Max(0, limits.maxResults - reserve)) && Distinct(results)
    {
      hide Live, CountOf, Oldest, EvictOldest, Distinct, Bytes;
      LiveIsWithin(results, now);
      DropExpired(now);
      var allowed := Max(0, limits.maxResults - reserve);
      CountAll(results);
      EvictNone(results, None);
      if |results| > allowed {
        PopOldestOf(None, |results| - allowed);
      }
    }

    method MakeRoom(session: string, size: nat) returns (ok: bool)
      requires ValidLimits(limits) && Distinct(results)
      modifies `results
      ensures ok <==> size <= limits.maxBytesPerResult && size <= limits.maxTotalBytes
      ensures results == if ok then Room(limits, old(results), session, size) else old(results)
      ensures Distinct(results)
    {
      if size > limits.maxBytesPerResult || size > limits.maxTotalBytes {
        return false;
      }
      var owned := CountOf(results, Some(session));
      if owned >= limits.maxPerSession {
        PopOldestOf(Some(session), owned - limits.maxPerSession + 1);
      }
      ok := FitBytes(size);
    }

    /** Pops the oldest entries, keeping a running total, until `size` more bytes fit. */
    method FitBytes(size: nat) returns (ok: bool)
      requires Distinct(results) && size <= limits.maxTotalBytes
      modifies `results
      ensures ok && results == Fitted(old(results), size, limits.maxTotalBytes) && Distinct(results)
    {
      var totalBytes := Bytes(results);
      if totalBytes + size <= limits.maxTotalBytes {
        return true;
      }
      hide Oldest, Distinct, Bytes, CountOf, Counts, RemoveId, ByAge, DropOldest, Sorted, Fitted;
      var oldest := ByAge(results, None);
      ByAgeIsSorted(results, None);
      CountAll(results);
      ghost var before := results;
      var n := 0;
      while n < |oldest|
        invariant n <= |oldest| == |before| && |results| == |before| - n
        invariant Distinct(results) && CountOf(results, None) == |results|
        invariant ByAge(results, None) == oldest[n..]
        invariant totalBytes == Bytes(results) && totalBytes + size > limits.maxTotalBytes
        invariant Fitted(before, size, limits.maxTotalBytes) == Fitted(results, size, limits.maxTotalBytes)
      {
        FitOneLess(results, oldest, n, size, limits.maxTotalBytes);
        results := RemoveId(results, oldest[n].id);
        totalBytes := totalBytes - oldest[n].size;
        if totalBytes + size <= limits.maxTotalBytes {
          return true;
        }
        n := n + 1;
      }
      NoBytes(results);
      return totalBytes + size <= limits.maxTotalBytes;
    }

    /** One round of the loop: the next of the sorted entries is the oldest one that is left. */
    lemma FitOneLess(s: Results, oldest: seq<Item>, n: nat, size: nat, total: nat)
      requires Distinct(s) && size <= total && Bytes(s) + size > total
      requires n < |oldest| && ByAge(s, None) == oldest[n..] && CountOf(s, None) == |s| > 0
      ensures var next := RemoveId(s, oldest[n].id);
              && Distinct(next) && ByAge(next, None) == oldest[n + 1..]
              && CountOf(next, None) == |next| == |s| - 1
              && Bytes(next) == Bytes(s) - oldest[n].size
              && Fitted(s, size, total) == Fitted(next, size, total)
              && (Bytes(next) + size <= total ==> Fitted(next, size, total) == next)
    {
      PopOldest(s, None);
      CountAll(DropOldest(s, None));
      assert oldest[n..][0] == oldest[n] && oldest[n..][1..] == oldest[n + 1..];
      var rest := ByAge(DropOldest(s, None), None);
      assert ([s[Oldest(s, None)]] + rest)[1..] == rest;
      hide Oldest, Distinct, ByAge, CountOf, RemoveId;
    }

    lemma NoBytes(s: Results)
      ensures s == [] ==> Bytes(s) == 0
    {
    }

    /** Stores one result under a fresh id, or rejects it and leaves everything in place. */
    method StoreResult(id: string, session: string, payload: Payload, size: nat, now: int)
      returns (reply: Option<string>)
      requires Valid() && Fresh(results, id)
      modifies `results
      ensures Valid()
      ensures (results, reply) == Store(limits, old(results), StoreOp(id, session, payload, size, now))
    {
      StoreInSteps(limits, results, id, session, payload, size, now);
      IdsAreDistinct(limits, results);
      hide Room, Pruned, WithinBudget, SafeSession, Fresh, Distinct, ValidLimits, Store;
      if !SafeSession(session) || size > limits.maxBytesPerResult || size > limits.maxTotalBytes {
        return None;
      }
      var ok := Insert(Item(id, session, payload, now, now + limits.ttl, size), now);
      reply := if ok then Some(id) else None;
    }

    /** The locked section of a store: sweep with one slot reserved, make room, and insert. */
    method Insert(item: Item, now: int) returns (ok: bool)
      requires ValidLimits(limits) && Distinct(results)
      requires item.size <= limits.maxBytesPerResult && item.size <= limits.maxTotalBytes
      modifies `results
      ensures ok
      ensures results
           == Room(limits, Pruned(old(results), now, limits.maxResults - 1), item.session, item.size) + [item]
    {
      assert 0 < limits.maxResults;
      hide Room, Pruned, Distinct, ValidLimits;
      Prune(now, 1);
      ok := MakeRoom(item.session, item.size);
      if !ok {
        return;
      }
      results := results + [item];
    }

    lemma StoreInSteps(l: Limits, s: Results, id: string, session: string, payload: Payload, size: nat, now: int)
      requires ValidLimits(l) && WithinBudget(l, s) && Fresh(s, id)
      ensures 0 < l.maxResults
      ensures var stored := Store(l, s, StoreOp(id, session, payload, size, now));
              && WithinBudget(l, stored.0)
              && stored
                 == if !SafeSession(session) || size > l.maxBytesPerResult || size > l.maxTotalBytes then (s, None)
                    else (Room(l, Pruned(s, now, l.maxResults - 1), session, size)
                          + [Item(id, session, payload, now, now + l.ttl, size)], Some(id))
    {
      ApplyKeepsBudget(l, s, StoreOp(id, session, payload, size, now));
      hide Room, Pruned, WithinBudget, SafeSession, Fresh;
    }

    lemma IdsAreDistinct(l: Limits, s: Results)
      requires WithinBudget(l, s)
      ensures Distinct(s)
    {
    }

    method GetResult(id: string, session: string, now: int) returns (reply: Option<Item>)
      requires Valid()
      modifies `results
      ensures Valid()
      ensures (results, reply) == Fetch(limits, old(results), id, session, now)
    {
      ApplyKeepsBudget(limits, results, FetchOp(id, session, now));
      if !SafeSession(session) || !ValidResultId(id) {
        return None;
      }
      Prune(now, 0);
      var found := Find(results, id);
      if found.None? || found.value.session != session {
        return None;
      }
      reply := found;
    }
  }
}
