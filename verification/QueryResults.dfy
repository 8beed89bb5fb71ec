/** The bounded registry of query results: time, count, per-session and byte limits, oldest first out. */
module QueryResults {
  import opened Common
  import HermesRoutes
  import Text

  datatype Limits = Limits(ttl: int, maxResults: nat, maxPerSession: nat, maxBytesPerResult: nat, maxTotalBytes: nat)

  predicate ValidLimits(l: Limits) {
    && 60 <= l.ttl <= 86_400
    && 10 <= l.maxResults <= 5_000
    && 1 <= l.maxPerSession <= 1_000
    && 64 * 1024 <= l.maxBytesPerResult <= 50 * 1024 * 1024
    && 1024 * 1024 <= l.maxTotalBytes <= 1024 * 1024 * 1024
  }

  function Clamp(value: int, least: nat, most: nat): nat
    requires least <= most
  {
    Max(least, Min(most, value))
  }

  /** The limits that the service takes from its environment: each is clamped to its range. */
  function LimitsFrom(ttl: int, results: int, perSession: int, bytesPerResult: int, totalBytes: int): Limits {
    Limits(Clamp(ttl, 60, 86_400), Clamp(results, 10, 5_000), Clamp(perSession, 1, 1_000),
           Clamp(bytesPerResult, 65_536, 52_428_800), Clamp(totalBytes, 1_048_576, 1_073_741_824))
  }

  /** The valid limits are exactly those that some environment gives, and a value in its range is taken as it is. */
  lemma LimitsAreClamped(l: Limits)
    ensures ValidLimits(l)
       <==> l == LimitsFrom(l.ttl, l.maxResults, l.maxPerSession, l.maxBytesPerResult, l.maxTotalBytes)
    ensures forall a, b, c, d, e :: ValidLimits(LimitsFrom(a, b, c, d, e))
  {
  }

  datatype Payload = Payload(sql: string, columns: seq<string>, rows: seq<map<string, string>>, truncated: bool)

  datatype Item = Item(id: string, session: string, payload: Payload, created: int, expires: int, size: nat)

  /** The registry, in insertion order. */
  type Results = seq<Item>

  predicate SafeSession(session: string) {
    HermesRoutes.OwnerScope(session).Some? && !Text.Contains(session, "_reflection_")
  }

  predicate ValidResultId(id: string) {
    |id| == 39 && id[..7] == "result_" && forall i | 7 <= i < 39 :: HermesRoutes.HexDigit(id[i])
  }

  /** A session may use results exactly when it has an owner and "_reflection_" occurs nowhere in it. */
  lemma SafeSessionExactly(session: string)
    ensures SafeSession(session)
       <==> && HermesRoutes.OwnerScope(session).Some?
            && forall a: string, b: string :: session != a + "_reflection_" + b
  {
    var part := "_reflection_";
    if i :| 0 <= i <= |session| && Text.OccursAt(session, part, i) {
      assert session == session[..i] + part + session[i + |part|..];
    }
    if a: string, b: string :| session == a + part + b {
      assert session[|a|..|a| + |part|] == part;
      assert Text.OccursAt(session, part, |a|);
    }
  }

  /** A result id is "result_" and 32 lower-case hexadecimal digits. */
  lemma ValidResultIdExactly(id: string)
    ensures ValidResultId(id)
       <==> exists hex: string :: id == "result_" + hex && |hex| == 32
                                  && forall i :: 0 <= i < 32 ==> hex[i] in "0123456789abcdef"
  {
    HermesRoutes.HexDigits();
    if ValidResultId(id) {
      var hex := id[7..];
      assert id == "result_" + hex && forall i :: 0 <= i < 32 ==> hex[i] == id[i + 7];
    }
    if hex: string :| id == "result_" + hex && |hex| == 32
                      && forall i :: 0 <= i < 32 ==> hex[i] in "0123456789abcdef" {
      assert id[..7] == "result_" && forall i :: 7 <= i < 39 ==> id[i] == hex[i - 7];
    }
  }

  ghost predicate Distinct(s: Results) {
    forall i, j :: 0 <= i < j < |s| ==> s[i].id != s[j].id
  }

  ghost predicate Fresh(s: Results, id: string) {
    forall i :: 0 <= i < |s| ==> s[i].id != id
  }

  function Bytes(s: Results): nat {
    if s == [] then 0 else s[0].size + Bytes(s[1..])
  }

  function RemoveAt(s: Results, i: nat): Results
    requires i < |s|
  {
    s[..i] + s[i + 1..]
  }

  /** `dict.pop(id)`. */
  function RemoveId(s: Results, id: string): Results {
    if s == [] then [] else if s[0].id == id then s[1..] else [s[0]] + RemoveId(s[1..], id)
  }

  lemma {:induction false} RemoveIdAt(s: Results, i: nat)
    requires Distinct(s) && i < |s|
    ensures RemoveId(s, s[i].id) == RemoveAt(s, i)
  {
    if i > 0 {
      RemoveIdAt(s[1..], i - 1);
    }
  }

  lemma {:induction false} BytesAt(s: Results, i: nat)
    requires i < |s|
    ensures Bytes(RemoveAt(s, i)) == Bytes(s) - s[i].size
  {
    if i == 0 {
      assert RemoveAt(s, 0) == s[1..];
    } else {
      BytesAt(s[1..], i - 1);
      assert RemoveAt(s, i) == [s[0]] + RemoveAt(s[1..], i - 1);
      assert RemoveAt(s, i)[1..] == RemoveAt(s[1..], i - 1);
    }
  }

  lemma {:induction false} BytesAppend(s: Results, item: Item)
    ensures Bytes(s + [item]) == Bytes(s) + item.size
  {
    if s == [] {
      assert [item][1..] == [];
    } else {
      assert (s + [item])[1..] == s[1..] + [item];
      BytesAppend(s[1..], item);
    }
  }

  // ---------- age ----------

  /** The entries that a sweep looks at: all of them, or those of one session. */
  predicate Counts(item: Item, who: Option<string>) {
    who.None? || item.session == who.value
  }

  function CountOf(s: Results, who: Option<string>): nat {
    if s == [] then 0 else (if Counts(s[0], who) then 1 else 0) + CountOf(s[1..], who)
  }

  /** The position of the oldest counted entry; of equally old ones, the first inserted. */
  function Oldest(s: Results, who: Option<string>): (i: nat)
    requires CountOf(s, who) > 0
    ensures i < |s| && Counts(s[i], who)
    ensures forall j :: 0 <= j < |s| && Counts(s[j], who) ==>
                          s[i].created <= s[j].created && (j < i ==> s[i].created < s[j].created)
  {
    if CountOf(s[1..], who) == 0 then
      NoneCounted(s[1..], who); 0
    else
      var later := Oldest(s[1..], who);
      assert forall j :: 1 <= j < |s| ==> s[j] == s[1..][j - 1];
      if Counts(s[0], who) && s[0].created <= s[1..][later].created then 0 else later + 1
  }

  lemma {:induction false} NoneCounted(s: Results, who: Option<string>)
    ensures CountOf(s, who) == 0 <==> forall j :: 0 <= j < |s| ==> !Counts(s[j], who)
  {
    if s != [] {
      NoneCounted(s[1..], who);
      assert forall j :: 1 <= j < |s| ==> s[j] == s[1..][j - 1];
    }
  }

  function DropOldest(s: Results, who: Option<string>): Results
    requires CountOf(s, who) > 0
  {
    RemoveAt(s, Oldest(s, who))
  }

  lemma {:induction false} CountAt(s: Results, i: nat, who: Option<string>)
    requires i < |s|
    ensures CountOf(RemoveAt(s, i), who) == CountOf(s, who) - (if Counts(s[i], who) then 1 else 0)
  {
    if i == 0 {
      assert RemoveAt(s, 0) == s[1..];
    } else {
      CountAt(s[1..], i - 1, who);
      assert RemoveAt(s, i) == [s[0]] + RemoveAt(s[1..], i - 1);
      assert RemoveAt(s, i)[1..] == RemoveAt(s[1..], i - 1);
    }
  }

  lemma {:induction false} CountAll(s: Results)
    ensures CountOf(s, None) == |s|
  {
    if s != [] {
      CountAll(s[1..]);
    }
  }

  /** `sorted(...)` by creation time, stable: the counted entries, oldest first. */
  function ByAge(s: Results, who: Option<string>): seq<Item>
    decreases |s|
  {
    if CountOf(s, who) == 0 then [] else [s[Oldest(s, who)]] + ByAge(DropOldest(s, who), who)
  }

  predicate Sorted(items: seq<Item>) {
    forall i, j | 0 <= i < j < |items| :: items[i].created <= items[j].created
  }

  lemma {:induction false} ByAgeIsSorted(s: Results, who: Option<string>)
    ensures |ByAge(s, who)| == CountOf(s, who) && Sorted(ByAge(s, who))
    ensures forall x :: x in ByAge(s, who) ==> x in s && Counts(x, who)
    decreases |s|
  {
    if CountOf(s, who) > 0 {
      var rest := DropOldest(s, who);
      CountAt(s, Oldest(s, who), who);
      ByAgeIsSorted(rest, who);
      OldestComesFirst(s, who);
      assert ByAge(s, who) == [s[Oldest(s, who)]] + ByAge(rest, who);
      hide *;
      SortedAhead(s[Oldest(s, who)], ByAge(rest, who));
    }
  }

  lemma OldestComesFirst(s: Results, who: Option<string>)
    requires CountOf(s, who) > 0
    ensures forall x :: x in DropOldest(s, who) && Counts(x, who) ==> x in s && s[Oldest(s, who)].created <= x.created
  {
    forall x | x in DropOldest(s, who) && Counts(x, who) ensures x in s && s[Oldest(s, who)].created <= x.created {
      RemovedAtIsPart(s, Oldest(s, who), x);
    }
  }

  lemma SortedAhead(first: Item, items: seq<Item>)
    requires Sorted(items) && forall x :: x in items ==> first.created <= x.created
    ensures Sorted([first] + items)
  {
  }

  /** The counted entries, in insertion order. */
  function Counted(s: Results, who: Option<string>): Results {
    if s == [] then [] else (if Counts(s[0], who) then [s[0]] else []) + Counted(s[1..], who)
  }

  lemma {:induction false} CountedAppend(a: Results, b: Results, who: Option<string>)
    ensures Counted(a + b, who) == Counted(a, who) + Counted(b, who)
  {
    if a == [] {
      assert a + b == b;
    } else {
      assert (a + b)[0] == a[0] && (a + b)[1..] == a[1..] + b;
      CountedAppend(a[1..], b, who);
      var own := if Counts(a[0], who) then [a[0]] else [];
      assert Counted(a + b, who) == own + Counted(a[1..] + b, who);
      assert Counted(a, who) == own + Counted(a[1..], who);
    }
  }

  lemma CountedAt(s: Results, i: nat, who: Option<string>)
    requires i < |s| && Counts(s[i], who)
    ensures multiset(Counted(s, who)) == multiset{s[i]} + multiset(Counted(RemoveAt(s, i), who))
  {
    assert s == s[..i] + ([s[i]] + s[i + 1..]);
    assert Counted([s[i]], who) == [s[i]];
    CountedAppend([s[i]], s[i + 1..], who);
    CountedAppend(s[..i], [s[i]] + s[i + 1..], who);
    CountedAppend(s[..i], s[i + 1..], who);
  }

  /** The sort drops and duplicates nothing. */
  lemma {:induction false} ByAgePermutes(s: Results, who: Option<string>)
    ensures multiset(ByAge(s, who)) == multiset(Counted(s, who))
    decreases |s|
  {
    if CountOf(s, who) == 0 {
      NoneCounted(s, who);
      NothingCounted(s, who);
    } else {
      var i := Oldest(s, who);
      CountedAt(s, i, who);
      hide Counted;
      ByAgePermutes(DropOldest(s, who), who);
      assert ByAge(s, who) == [s[i]] + ByAge(DropOldest(s, who), who);
    }
  }

  lemma {:induction false} NothingCounted(s: Results, who: Option<string>)
    requires forall j :: 0 <= j < |s| ==> !Counts(s[j], who)
    ensures Counted(s, who) == []
  {
    if s != [] {
      NothingCounted(s[1..], who);
    }
  }

  /** The counted entries of one age, in insertion order. */
  function Cohort(s: Results, who: Option<string>, at: int): Results {
    if s == [] then []
    else (if Counts(s[0], who) && s[0].created == at then [s[0]] else []) + Cohort(s[1..], who, at)
  }

  lemma {:induction false} CohortAppend(a: Results, b: Results, who: Option<string>, at: int)
    ensures Cohort(a + b, who, at) == Cohort(a, who, at) + Cohort(b, who, at)
  {
    if a == [] {
      assert a + b == b;
    } else {
      assert (a + b)[0] == a[0] && (a + b)[1..] == a[1..] + b;
      CohortAppend(a[1..], b, who, at);
      var own := if Counts(a[0], who) && a[0].created == at then [a[0]] else [];
      assert Cohort(a + b, who, at) == own + Cohort(a[1..] + b, who, at);
      assert Cohort(a, who, at) == own + Cohort(a[1..], who, at);
    }
  }

  lemma CohortParts(s: Results, i: nat, who: Option<string>, at: int)
    requires i < |s|
    ensures Cohort(s, who, at) == Cohort(s[..i], who, at) + (Cohort([s[i]], who, at) + Cohort(s[i + 1..], who, at))
    ensures Cohort(RemoveAt(s, i), who, at) == Cohort(s[..i], who, at) + Cohort(s[i + 1..], who, at)
  {
    assert s == s[..i] + ([s[i]] + s[i + 1..]);
    hide Cohort;
    CohortAppend([s[i]], s[i + 1..], who, at);
    CohortAppend(s[..i], [s[i]] + s[i + 1..], who, at);
    CohortAppend(s[..i], s[i + 1..], who, at);
  }

  lemma CohortOfOne(item: Item, who: Option<string>, at: int)
    ensures Cohort([item], who, at) == if Counts(item, who) && item.created == at then [item] else []
  {
    assert [item][1..] == [] && Cohort([], who, at) == [];
  }

  lemma CohortAt(s: Results, i: nat, who: Option<string>, at: int)
    requires i < |s| && Counts(s[i], who)
    requires forall j :: 0 <= j < i && Counts(s[j], who) ==> s[j].created > s[i].created
    ensures Cohort(s, who, at) == (if s[i].created == at then [s[i]] else []) + Cohort(RemoveAt(s, i), who, at)
  {
    hide Cohort, RemoveAt;
    CohortParts(s, i, who, at);
    CohortOfOne(s[i], who, at);
    if s[i].created == at {
      NoCohort(s[..i], who, at);
    }
  }

  /** The sort is stable: entries of equal age keep their insertion order. */
  lemma {:induction false} ByAgeIsStable(s: Results, who: Option<string>, at: int)
    ensures Cohort(ByAge(s, who), who, at) == Cohort(s, who, at)
    decreases |s|
  {
    if CountOf(s, who) == 0 {
      NoneCounted(s, who);
      NoCohort(s, who, at);
    } else {
      var i := Oldest(s, who);
      CohortAt(s, i, who, at);
      ByAgeIsStable(DropOldest(s, who), who, at);
      var rest := ByAge(DropOldest(s, who), who);
      assert ([s[i]] + rest)[1..] == rest;
    }
  }

  lemma {:induction false} NoCohort(s: Results, who: Option<string>, at: int)
    requires forall j :: 0 <= j < |s| && Counts(s[j], who) ==> s[j].created != at
    ensures Cohort(s, who, at) == []
  {
    if s != [] {
      NoCohort(s[1..], who, at);
    }
  }

  lemma RemovedAtIsPart(s: Results, i: nat, x: Item)
    requires i < |s|
    ensures x in RemoveAt(s, i) ==> x in s
    ensures x in s ==> x in RemoveAt(s, i) || x == s[i]
  {
    forall j | 0 <= j < |s| && j != i ensures s[j] in RemoveAt(s, i) {
      assert RemoveAt(s, i)[if j < i then j else j - 1] == s[j];
    }
  }

  /** The registry after its `k` oldest counted entries are gone. */
  function EvictOldest(s: Results, who: Option<string>, k: nat): Results
    requires k <= CountOf(s, who)
  {
    if k == 0 then s
    else
      CountAt(s, Oldest(s, who), who);
      EvictOldest(DropOldest(s, who), who, k - 1)
  }

  /** `small` is left of `s` when some entries are taken out. */
  predicate Subsequence(small: Results, s: Results) {
    small == []
    || (s != [] && if small[0] == s[0] then Subsequence(small[1..], s[1..]) else Subsequence(small, s[1..]))
  }

  lemma {:induction false} SubsequenceTail(small: Results, s: Results)
    requires Subsequence(small, s) && small != []
    ensures Subsequence(small[1..], s)
    decreases |s|
  {
    if small[0] == s[0] {
      SubsequenceOfMore(small[1..], s);
    } else {
      SubsequenceTail(small, s[1..]);
      SubsequenceOfMore(small[1..], s);
    }
  }

  lemma {:induction false} SubsequenceOfMore(small: Results, s: Results)
    requires s != [] && Subsequence(small, s[1..])
    ensures Subsequence(small, s)
    decreases |s|, 0
  {
    if small != [] && small[0] == s[0] {
      SubsequenceTail(small, s[1..]);
    }
  }

  lemma {:induction false} SubsequenceTransitive(a: Results, b: Results, c: Results)
    requires Subsequence(a, b) && Subsequence(b, c)
    ensures Subsequence(a, c)
    decreases |c|
  {
    if a != [] {
      if b[0] != c[0] {
        SubsequenceTransitive(a, b, c[1..]);
      } else if a[0] == b[0] {
        SubsequenceTransitive(a[1..], b[1..], c[1..]);
      } else {
        SubsequenceTransitive(a, b[1..], c[1..]);
      }
      SubsequenceStep(a, c);
    }
  }

  lemma SubsequenceStep(a: Results, c: Results)
    requires a != [] && c != []
    requires Subsequence(a, c[1..]) || (a[0] == c[0] && Subsequence(a[1..], c[1..]))
    ensures Subsequence(a, c)
  {
    if Subsequence(a, c[1..]) {
      SubsequenceOfMore(a, c);
    }
  }

  lemma {:induction false} RemoveAtSubsequence(s: Results, i: nat)
    requires i < |s|
    ensures Subsequence(s, s) && Subsequence(RemoveAt(s, i), s)
  {
    AllOfIt(s);
    if i == 0 {
      assert RemoveAt(s, 0) == s[1..];
      SubsequenceTail(s, s);
    } else {
      RemoveAtSubsequence(s[1..], i - 1);
      assert RemoveAt(s, i)[0] == s[0] && RemoveAt(s, i)[1..] == RemoveAt(s[1..], i - 1);
    }
  }

  lemma {:induction false} AllOfIt(s: Results)
    ensures Subsequence(s, s)
  {
    if s != [] {
      AllOfIt(s[1..]);
    }
  }

  /** `small` keeps part of `s`, in order. */
  ghost predicate Within(small: Results, s: Results) {
    && Subsequence(small, s)
    && |small| <= |s| && Bytes(small) <= Bytes(s)
    && (Distinct(s) ==> Distinct(small))
    && (forall who :: CountOf(small, who) <= CountOf(s, who))
    && (forall x :: x in small ==> x in s)
  }

  lemma WithinItself(s: Results)
    ensures Within(s, s)
  {
    AllOfIt(s);
  }

  lemma RemoveAtWithin(s: Results, i: nat)
    requires i < |s|
    ensures Within(RemoveAt(s, i), s)
  {
    hide Subsequence, Bytes, CountOf;
    BytesAt(s, i);
    RemoveAtSubsequence(s, i);
    RemoveAtKeepsIds(s, i);
    forall who ensures CountOf(RemoveAt(s, i), who) <= CountOf(s, who) {
      CountAt(s, i, who);
    }
    hide RemoveAt, Distinct;
  }

  lemma RemoveAtKeepsIds(s: Results, i: nat)
    requires i < |s|
    ensures |RemoveAt(s, i)| == |s| - 1
    ensures Distinct(s) ==> Distinct(RemoveAt(s, i))
    ensures forall x :: x in RemoveAt(s, i) ==> x in s
  {
    var rest := s[..i] + s[i + 1..];
    assert forall j :: 0 <= j < |rest| ==> rest[j] == if j < i then s[j] else s[j + 1];
  }

  lemma WithinTransitive(a: Results, b: Results, c: Results)
    requires Within(a, b) && Within(b, c)
    ensures Within(a, c)
  {
    hide Subsequence, Distinct, Bytes, CountOf;
    SubsequenceTransitive(a, b, c);
    forall who ensures CountOf(a, who) <= CountOf(c, who) {
      assert CountOf(a, who) <= CountOf(b, who) <= CountOf(c, who);
    }
  }

  lemma {:induction false} EvictedIsWithin(s: Results, who: Option<string>, k: nat)
    requires k <= CountOf(s, who)
    ensures var kept := EvictOldest(s, who, k);
            CountOf(kept, who) == CountOf(s, who) - k && |kept| == |s| - k && Within(kept, s)
    decreases k
  {
    hide Within, CountOf, Oldest, Subsequence, Distinct;
    WithinItself(s);
    if k > 0 {
      CountAt(s, Oldest(s, who), who);
      RemoveAtWithin(s, Oldest(s, who));
      EvictedIsWithin(DropOldest(s, who), who, k - 1);
      WithinTransitive(EvictOldest(s, who, k), DropOldest(s, who), s);
    }
  }

  /** What of `s` is not kept is counted, and not younger than any counted entry that is kept. */
  ghost predicate OldestGone(s: Results, kept: Results, who: Option<string>) {
    forall x, y :: x in s && x !in kept && y in kept && Counts(y, who) ==> Counts(x, who) && x.created <= y.created
  }

  lemma OldestGoneToo(s: Results, kept: Results, who: Option<string>)
    requires CountOf(s, who) > 0 && OldestGone(DropOldest(s, who), kept, who)
    requires forall y :: y in kept ==> y in DropOldest(s, who)
    ensures OldestGone(s, kept, who)
  {
    var i := Oldest(s, who);
    hide RemoveAt, CountOf;
    forall x, y | x in s && x !in kept && y in kept && Counts(y, who) ensures Counts(x, who) && x.created <= y.created {
      RemovedAtIsPart(s, i, x);
      RemovedAtIsPart(s, i, y);
    }
  }

  lemma OnlyMembers(small: Results, s: Results)
    requires Within(small, s)
    ensures forall x :: x in small ==> x in s
  {
  }

  /** Eviction removes exactly `k` counted entries, and none of them is younger than one that stays. */
  lemma {:induction false} EvictedAreOldest(s: Results, who: Option<string>, k: nat)
    requires k <= CountOf(s, who)
    ensures var kept := EvictOldest(s, who, k);
            && CountOf(kept, who) == CountOf(s, who) - k && |kept| == |s| - k && Within(kept, s)
            && OldestGone(s, kept, who)
    decreases k
  {
    hide Within, CountOf, Oldest, RemoveAt;
    EvictedIsWithin(s, who, k);
    if k > 0 {
      var rest := DropOldest(s, who);
      CountAt(s, Oldest(s, who), who);
      EvictedIsWithin(rest, who, k - 1);
      OnlyMembers(EvictOldest(rest, who, k - 1), rest);
      hide OldestGone;
      EvictedAreOldest(rest, who, k - 1);
      OldestGoneToo(s, EvictOldest(rest, who, k - 1), who);
    }
  }

  // ---------- sweeps ----------

  /** What has not expired at `now`. */
  function Live(s: Results, now: int): Results {
    if s == [] then [] else (if s[0].expires <= now then [] else [s[0]]) + Live(s[1..], now)
  }

  /** `_prune`: drops what has expired, then the oldest entries beyond `allowed`. */
  function Pruned(s: Results, now: int, allowed: nat): Results {
    var live := Live(s, now);
    CountAll(live);
    EvictOldest(live, None, Max(0, |live| - allowed))
  }

  /** Evicts the session's oldest entries until fewer than `limit` are left. */
  function SessionTrimmed(s: Results, session: string, limit: nat): Results
    requires limit >= 1
  {
    EvictOldest(s, Some(session), Max(0, CountOf(s, Some(session)) - limit + 1))
  }

  /** Evicts the oldest entries until `size` more bytes fit. */
  function Fitted(s: Results, size: nat, total: nat): Results
    requires size <= total
    decreases |s|
  {
    if Bytes(s) + size <= total then s
    else
      CountAll(s);
      Fitted(DropOldest(s, None), size, total)
  }

  function Room(l: Limits, s: Results, session: string, size: nat): Results
    requires ValidLimits(l) && size <= l.maxTotalBytes
  {
    Fitted(SessionTrimmed(s, session, l.maxPerSession), size, l.maxTotalBytes)
  }

  /** Exactly the unexpired entries, in insertion order. */
  lemma {:induction false} LiveIsWithin(s: Results, now: int)
    ensures Within(Live(s, now), s)
    ensures forall x :: x in Live(s, now) <==> x in s && x.expires > now
  {
    if s != [] {
      var rest := Live(s[1..], now);
      LiveIsWithin(s[1..], now);
      assert s == [s[0]] + s[1..];
      if s[0].expires > now {
        assert Live(s, now) == [s[0]] + rest;
        hide Live;
        WithinPrepended(rest, s);
      } else {
        assert Live(s, now) == rest;
        hide Live;
        WithinMore(rest, s);
      }
    }
  }

  lemma WithinPrepended(small: Results, s: Results)
    requires s != [] && Within(small, s[1..])
    ensures Within([s[0]] + small, s)
  {
    var longer := [s[0]] + small;
    assert longer[1..] == small;
    if Distinct(s) {
      assert forall j :: 0 <= j < |small| ==> small[j] in s[1..];
    }
  }

  lemma WithinMore(small: Results, s: Results)
    requires s != [] && Within(small, s[1..])
    ensures Within(small, s)
  {
    SubsequenceOfMore(small, s);
    hide Subsequence;
  }

  /** Dropping the `k` oldest makes room for `size`, and dropping fewer does not. */
  ghost predicate Suffices(s: Results, size: nat, total: nat, k: nat) {
    && CountOf(s, None) == |s| && k <= |s|
    && Bytes(EvictOldest(s, None, k)) + size <= total
    && forall j: nat :: j < k ==> Bytes(EvictOldest(s, None, j)) + size > total
  }

  lemma SufficesOneMore(s: Results, size: nat, total: nat, k: nat)
    requires CountOf(s, None) == |s| > 0 && Bytes(s) + size > total && Suffices(DropOldest(s, None), size, total, k)
    ensures Suffices(s, size, total, k + 1)
    ensures EvictOldest(s, None, k + 1) == EvictOldest(DropOldest(s, None), None, k)
  {
    var rest := DropOldest(s, None);
    hide CountOf, Oldest, Bytes, RemoveAt;
    forall j: nat | j < k + 1 ensures Bytes(EvictOldest(s, None, j)) + size > total {
      if j > 0 {
        assert EvictOldest(s, None, j) == EvictOldest(rest, None, j - 1);
      }
    }
  }

  /** Byte eviction removes the shortest oldest-first prefix that makes room. */
  lemma {:induction false} FittedIsShortest(s: Results, size: nat, total: nat) returns (k: nat)
    requires size <= total
    ensures Suffices(s, size, total, k) && Fitted(s, size, total) == EvictOldest(s, None, k)
    decreases |s|
  {
    CountAll(s);
    if Bytes(s) + size <= total {
      k := 0;
    } else {
      hide Suffices;
      k := FittedIsShortest(DropOldest(s, None), size, total);
      SufficesOneMore(s, size, total, k);
      k := k + 1;
    }
  }

  // ---------- operations ----------

  datatype Op =
    | StoreOp(id: string, session: string, payload: Payload, size: nat, now: int)
    | FetchOp(id: string, session: string, now: int)

  function MakeItem(l: Limits, op: Op): Item
    requires op.StoreOp?
  {
    Item(op.id, op.session, op.payload, op.now, op.now + l.ttl, op.size)
  }

  predicate Admitted(l: Limits, op: Op)
    requires op.StoreOp?
  {
    SafeSession(op.session) && op.size <= l.maxBytesPerResult && op.size <= l.maxTotalBytes
  }

  function Store(l: Limits, s: Results, op: Op): (Results, Option<string>)
    requires ValidLimits(l) && op.StoreOp?
  {
    if !Admitted(l, op) then (s, None)
    else (Room(l, Pruned(s, op.now, l.maxResults - 1), op.session, op.size) + [MakeItem(l, op)], Some(op.id))
  }

  function Find(s: Results, id: string): Option<Item> {
    if s == [] then None else if s[0].id == id then Some(s[0]) else Find(s[1..], id)
  }

  function Fetch(l: Limits, s: Results, id: string, session: string, now: int): (Results, Option<Item>) {
    if !SafeSession(session) || !ValidResultId(id) then (s, None)
    else
      var live := Pruned(s, now, l.maxResults);
      var found := Find(live, id);
      (live, if found.Some? && found.value.session == session then found else None)
  }

  function Apply(l: Limits, s: Results, op: Op): Results
    requires ValidLimits(l)
  {
    if op.StoreOp? then Store(l, s, op).0 else Fetch(l, s, op.id, op.session, op.now).0
  }

  function ApplyAll(l: Limits, s: Results, ops: seq<Op>): Results
    requires ValidLimits(l)
    decreases |ops|
  {
    if ops == [] then s else ApplyAll(l, Apply(l, s, ops[0]), ops[1..])
  }

  // ---------- budgets ----------

  ghost predicate WithinBudget(l: Limits, s: Results) {
    && Distinct(s)
    && |s| <= l.maxResults
    && Bytes(s) <= l.maxTotalBytes
    && forall session: string :: CountOf(s, Some(session)) <= l.maxPerSession
  }

  lemma PrunedIsWithin(s: Results, now: int, allowed: nat)
    ensures Within(Pruned(s, now, allowed), s) && |Pruned(s, now, allowed)| <= allowed
    ensures |Live(s, now)| <= allowed ==> Pruned(s, now, allowed) == Live(s, now)
  {
    var live := Live(s, now);
    var k := Max(0, |live| - allowed);
    CountAll(live);
    assert Pruned(s, now, allowed) == EvictOldest(live, None, k);
    assert k == 0 ==> EvictOldest(live, None, k) == live;
    hide Within, CountOf, Live, EvictOldest, Pruned;
    LiveIsWithin(s, now);
    EvictedIsWithin(live, None, k);
    WithinTransitive(Pruned(s, now, allowed), live, s);
  }

  lemma RoomIsMade(l: Limits, s: Results, session: string, size: nat)
    requires ValidLimits(l) && size <= l.maxTotalBytes
    ensures var room := Room(l, s, session, size);
            && Within(room, s) && Bytes(room) + size <= l.maxTotalBytes
            && CountOf(room, Some(session)) < l.maxPerSession
  {
    hide EvictOldest, Fitted, Distinct, Subsequence, Bytes, CountOf;
    var trimmed := SessionTrimmed(s, session, l.maxPerSession);
    EvictedIsWithin(s, Some(session), Max(0, CountOf(s, Some(session)) - l.maxPerSession + 1));
    var k := FittedIsShortest(trimmed, size, l.maxTotalBytes);
    EvictedIsWithin(trimmed, None, k);
    WithinTransitive(Room(l, s, session, size), trimmed, s);
    assert CountOf(Room(l, s, session, size), Some(session)) <= CountOf(trimmed, Some(session));
  }

  lemma {:induction false} CountAppend(s: Results, item: Item, who: Option<string>)
    ensures CountOf(s + [item], who) == CountOf(s, who) + (if Counts(item, who) then 1 else 0)
  {
    if s == [] {
      assert [item][1..] == [];
    } else {
      assert (s + [item])[1..] == s[1..] + [item];
      CountAppend(s[1..], item, who);
    }
  }

  lemma AppendKeepsBudget(l: Limits, s: Results, item: Item)
    requires Distinct(s) && Fresh(s, item.id) && |s| < l.maxResults && Bytes(s) + item.size <= l.maxTotalBytes
    requires forall session: string :: CountOf(s, Some(session)) <= l.maxPerSession
    requires CountOf(s, Some(item.session)) < l.maxPerSession
    ensures WithinBudget(l, s + [item])
  {
    BytesAppend(s, item);
    forall session: string ensures CountOf(s + [item], Some(session)) <= l.maxPerSession {
      CountAppend(s, item, Some(session));
    }
  }

  lemma ApplyKeepsBudget(l: Limits, s: Results, op: Op)
    requires ValidLimits(l) && WithinBudget(l, s) && (op.StoreOp? ==> Fresh(s, op.id))
    ensures WithinBudget(l, Apply(l, s, op))
  {
    hide Counts, CountOf, Bytes, Live, SafeSession, ValidResultId;
    if op.FetchOp? {
      PrunedIsWithin(s, op.now, l.maxResults);
    } else if Admitted(l, op) {
      var pruned := Pruned(s, op.now, l.maxResults - 1);
      PrunedIsWithin(s, op.now, l.maxResults - 1);
      RoomIsMade(l, pruned, op.session, op.size);
      var room := Room(l, pruned, op.session, op.size);
      WithinTransitive(room, pruned, s);
      hide Room, Pruned;
      forall i | 0 <= i < |room| ensures room[i].id != op.id {
        assert room[i] in s;
      }
      AppendKeepsBudget(l, room, MakeItem(l, op));
    }
  }

  /** Result ids are fresh random values. */
  ghost predicate FreshIds(s: Results, ops: seq<Op>) {
    && (forall i :: 0 <= i < |ops| && ops[i].StoreOp? ==> Fresh(s, ops[i].id))
    && (forall i, j :: 0 <= i < j < |ops| && ops[i].StoreOp? && ops[j].StoreOp? ==> ops[i].id != ops[j].id)
  }

  /** An entry was put there by one of `ops`, unchanged. */
  ghost predicate StoredBy(l: Limits, ops: seq<Op>, x: Item) {
    exists i :: 0 <= i < |ops| && ops[i].StoreOp? && Admitted(l, ops[i]) && x == MakeItem(l, ops[i])
  }

  lemma ApplyAddsOnlyItsOwn(l: Limits, s: Results, op: Op, x: Item)
    requires ValidLimits(l) && x in Apply(l, s, op)
    ensures x in s || (op.StoreOp? && Admitted(l, op) && x == MakeItem(l, op))
  {
    hide Counts, CountOf, Bytes, Live, Pruned, Room, Subsequence, SafeSession, ValidResultId;
    if op.FetchOp? {
      PrunedIsWithin(s, op.now, l.maxResults);
    } else if Admitted(l, op) {
      PrunedIsWithin(s, op.now, l.maxResults - 1);
      RoomIsMade(l, Pruned(s, op.now, l.maxResults - 1), op.session, op.size);
    }
  }

  lemma FreshIdsStep(l: Limits, s: Results, ops: seq<Op>)
    requires ValidLimits(l) && ops != [] && FreshIds(s, ops)
    ensures FreshIds(Apply(l, s, ops[0]), ops[1..])
  {
    var t := Apply(l, s, ops[0]);
    forall i | 0 <= i < |ops[1..]| && ops[1..][i].StoreOp? ensures Fresh(t, ops[1..][i].id) {
      assert ops[1..][i] == ops[i + 1];
      forall j | 0 <= j < |t| ensures t[j].id != ops[i + 1].id {
        ApplyAddsOnlyItsOwn(l, s, ops[0], t[j]);
      }
    }
  }

  /** After every sequence of operations all three budgets hold, and every entry is exactly what some store
      call of its own session put there. */
  lemma {:induction false} BudgetsAlwaysHold(l: Limits, s: Results, ops: seq<Op>)
    requires ValidLimits(l) && WithinBudget(l, s) && FreshIds(s, ops)
    ensures WithinBudget(l, ApplyAll(l, s, ops))
    ensures forall x :: x in ApplyAll(l, s, ops) ==> x in s || StoredBy(l, ops, x)
    decreases |ops|
  {
    if ops != [] {
      var t := Apply(l, s, ops[0]);
      ApplyKeepsBudget(l, s, ops[0]);
      FreshIdsStep(l, s, ops);
      BudgetsAlwaysHold(l, t, ops[1..]);
      forall x | x in ApplyAll(l, s, ops) ensures x in s || StoredBy(l, ops, x) {
        if x in t {
          ApplyAddsOnlyItsOwn(l, s, ops[0], x);
        } else {
          var i :| 0 <= i < |ops[1..]| && ops[1..][i].StoreOp? && Admitted(l, ops[1..][i])
                   && x == MakeItem(l, ops[1..][i]);
          assert ops[1..][i] == ops[i + 1];
        }
      }
    }
  }

  lemma {:induction false} FindFinds(s: Results, id: string)
    ensures Find(s, id).Some? ==> Find(s, id).value in s && Find(s, id).value.id == id
    ensures Find(s, id).None? <==> Fresh(s, id)
  {
    if s != [] {
      FindFinds(s[1..], id);
      assert forall j :: 1 <= j < |s| ==> s[j] == s[1..][j - 1];
    }
  }

  /** Whatever a fetch returns was stored, exactly so, by a store call of the same session, and is not expired.
      Within the budgets a fetch evicts only what has expired. */
  lemma FetchReturnsOwnResult(l: Limits, ops: seq<Op>, id: string, session: string, now: int)
    requires ValidLimits(l) && FreshIds([], ops)
    ensures var s := ApplyAll(l, [], ops);
            var (rest, reply) := Fetch(l, s, id, session, now);
            && (reply.Some? ==> reply.value.id == id && reply.value.session == session && reply.value.expires > now
                                && StoredBy(l, ops, reply.value))
            && (rest == s || rest == Live(s, now))
            && (SafeSession(session) && ValidResultId(id) ==>
                  (reply.Some? <==> exists x :: x in s && x.id == id && x.session == session && x.expires > now))
  {
    BudgetsAlwaysHold(l, [], ops);
    var s := ApplyAll(l, [], ops);
    LiveIsWithin(s, now);
    PrunedIsWithin(s, now, l.maxResults);
    FindFinds(Live(s, now), id);
    hide ApplyAll, WithinBudget, Live, Find, SafeSession, ValidResultId, StoredBy, FreshIds;
    if Find(Live(s, now), id).Some? {
      SameId(s, Find(Live(s, now), id).value, id);
    }
  }

  lemma SameId(s: Results, x: Item, id: string)
    requires Distinct(s) && x in s && x.id == id
    ensures forall y :: y in s && y.id == id ==> y == x
  {
  }

  /** A rejected store evicts nothing; a store is rejected only for its session id or its size. */
  lemma StoreIsAllOrNothing(l: Limits, s: Results, op: Op)
    requires ValidLimits(l) && op.StoreOp?
    ensures var (t, reply) := Store(l, s, op);
            if Admitted(l, op) then reply == Some(op.id) && MakeItem(l, op) in t else reply.None? && t == s
  {
    if Admitted(l, op) {
      var t := Store(l, s, op).0;
      assert t[|t| - 1] == MakeItem(l, op);
    }
  }

  /** An admitted store within every limit keeps all that has not expired and adds exactly what was given. */
  lemma RoomyStoreKeepsAll(l: Limits, s: Results, op: Op)
    requires ValidLimits(l) && op.StoreOp? && SafeSession(op.session) && op.size <= l.maxBytesPerResult
    requires |Live(s, op.now)| < l.maxResults && CountOf(Live(s, op.now), Some(op.session)) < l.maxPerSession
    requires Bytes(Live(s, op.now)) + op.size <= l.maxTotalBytes
    ensures Store(l, s, op)
         == (Live(s, op.now) + [Item(op.id, op.session, op.payload, op.now, op.now + l.ttl, op.size)], Some(op.id))
  {
    var live := Live(s, op.now);
    CountAll(live);
    assert EvictOldest(live, None, 0) == live && EvictOldest(live, Some(op.session), 0) == live;
    hide Live, CountOf, Bytes, EvictOldest, SafeSession;
    assert Pruned(s, op.now, l.maxResults - 1) == live;
  }

  /** Exactly what an admitted store evicts beyond what has expired: first the oldest entries that leave no place in the
      registry, then the session's oldest entries that leave it no place, then the shortest oldest-first prefix that
      leaves no room for the bytes. */
  lemma StoreEvictsExactly(l: Limits, s: Results, op: Op) returns (a: nat, b: nat, k: nat)
    requires ValidLimits(l) && op.StoreOp? && Admitted(l, op)
    ensures var live := Live(s, op.now);
            && a == (if |live| < l.maxResults then 0 else |live| - l.maxResults + 1) && a <= CountOf(live, None)
            && var placed := EvictOldest(live, None, a);
               var owned := CountOf(placed, Some(op.session));
               && b == (if owned < l.maxPerSession then 0 else owned - l.maxPerSession + 1) && b <= owned
               && var trimmed := EvictOldest(placed, Some(op.session), b);
                  && Suffices(trimmed, op.size, l.maxTotalBytes, k)
                  && Store(l, s, op).0 == EvictOldest(trimmed, None, k) + [MakeItem(l, op)]
  {
    var live := Live(s, op.now);
    CountAll(live);
    hide Live, CountOf, Bytes, EvictOldest, Fitted, Suffices, Admitted;
    a := if |live| < l.maxResults then 0 else |live| - l.maxResults + 1;
    var placed := Pruned(s, op.now, l.maxResults - 1);
    assert placed == EvictOldest(live, None, a);
    var owned := CountOf(placed, Some(op.session));
    b := if owned < l.maxPerSession then 0 else owned - l.maxPerSession + 1;
    var trimmed := SessionTrimmed(placed, op.session, l.maxPerSession);
    assert trimmed == EvictOldest(placed, Some(op.session), b);
    AdmittedFits(l, op);
    k := FittedIsShortest(trimmed, op.size, l.maxTotalBytes);
  }

  lemma AdmittedFits(l: Limits, op: Op)
    requires op.StoreOp? && Admitted(l, op)
    ensures op.size <= l.maxTotalBytes
  {
  }

  /** Directly after an admitted store, a fetch returns exactly what was stored, to the same session only and until it
      expires. */
  lemma StoredIsFetched(l: Limits, s: Results, op: Op, session: string, now: int)
    requires ValidLimits(l) && op.StoreOp? && Admitted(l, op)
    requires WithinBudget(l, s) && Fresh(s, op.id) && ValidResultId(op.id)
    ensures Fetch(l, Store(l, s, op).0, op.id, session, now).1
         == if session == op.session && now < op.now + l.ttl then Some(MakeItem(l, op)) else None
  {
    StoreIsAllOrNothing(l, s, op);
    ApplyKeepsBudget(l, s, op);
    FetchFinds(l, Store(l, s, op).0, MakeItem(l, op), session, now);
  }

  /** A malformed id or an unsafe session gets nothing and evicts nothing, not even what has expired. */
  lemma MalformedFetchChangesNothing(l: Limits, s: Results, id: string, session: string, now: int)
    ensures !SafeSession(session) || !ValidResultId(id) ==> Fetch(l, s, id, session, now) == (s, None)
  {
  }

  /** A fetch within the budgets finds a stored entry by its id until it expires, for its own session only. */
  lemma FetchFinds(l: Limits, s: Results, item: Item, session: string, now: int)
    requires WithinBudget(l, s) && item in s && SafeSession(item.session) && ValidResultId(item.id)
    ensures Fetch(l, s, item.id, session, now).1
         == if session == item.session && now < item.expires then Some(item) else None
  {
    LiveIsWithin(s, now);
    PrunedIsWithin(s, now, l.maxResults);
    FindFinds(Live(s, now), item.id);
    assert Distinct(s) && |Live(s, now)| <= |s|;
    hide WithinBudget, Live, Find, SafeSession, ValidResultId, Pruned, Within, Distinct;
    SameId(s, item, item.id);
    FreshMeansAbsent(Live(s, now), item);
  }

  lemma FreshMeansAbsent(s: Results, item: Item)
    ensures Fresh(s, item.id) ==> item !in s
  {
  }
}
