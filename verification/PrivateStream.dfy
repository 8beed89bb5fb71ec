/**
 The filter that hides machine envelopes from streamed answer text.

 `Fold` reads one character at a time, so how the text is cut into chunks cannot matter to it. The class
 buffers, searches and slices whole chunks; every call is proved to do what `Fold` does.
 `Erase` says independently of both what is visible.
 */
module PrivateStream {
  import opened Common
  import Text

  datatype Block = Block(start: string, end: string)

  const PRIVATE_STREAM_BLOCKS: seq<Block> := [
    Block("<XPD_CLARIFICATION_REQUEST>", "</XPD_CLARIFICATION_REQUEST>"),
    Block("<XPD_ANALYSIS_JSON>", "</XPD_ANALYSIS_JSON>")
  ]

  /** '<' occurs at index 0 of a marker and nowhere else. */
  predicate Marker(m: string) {
    |m| >= 2 && m[0] == '<' && forall i | 1 <= i < |m| :: m[i] != '<'
  }

  predicate Markers(ms: seq<string>) {
    && (forall i | 0 <= i < |ms| :: Marker(ms[i]))
    && (forall i, j | 0 <= i < |ms| && 0 <= j < |ms| && i != j :: !(ms[i] <= ms[j]))
  }

  function Starts(bs: seq<Block>): (ms: seq<string>)
    ensures |ms| == |bs| && forall i | 0 <= i < |bs| :: ms[i] == bs[i].start
  {
    if bs == [] then [] else Starts(bs[..|bs| - 1]) + [bs[|bs| - 1].start]
  }

  predicate WellFormed(bs: seq<Block>) {
    bs != [] && Markers(Starts(bs)) && forall i | 0 <= i < |bs| :: Marker(bs[i].end)
  }

  lemma ShippedMarkers()
    ensures Marker("<XPD_CLARIFICATION_REQUEST>") && Marker("</XPD_CLARIFICATION_REQUEST>")
    ensures Marker("<XPD_ANALYSIS_JSON>") && Marker("</XPD_ANALYSIS_JSON>")
    ensures "<XPD_CLARIFICATION_REQUEST>"[5] != "<XPD_ANALYSIS_JSON>"[5]
  {
  }

  /** The four markers that the service ships satisfy what the proofs below ask of them. */
  lemma ShippedBlocksAreWellFormed()
    ensures WellFormed(PRIVATE_STREAM_BLOCKS)
  {
    ShippedMarkers();
  }

  // ---------- occurrences ----------

  ghost predicate At(ms: seq<string>, t: string, p: nat, i: nat) {
    i < |ms| && p + |ms[i]| <= |t| && t[p..p + |ms[i]|] == ms[i]
  }

  ghost predicate Clean(ms: seq<string>, t: string) {
    forall p: nat, i: nat :: !At(ms, t, p, i)
  }

  ghost predicate First(ms: seq<string>, t: string, p: nat, i: nat) {
    At(ms, t, p, i) && forall q: nat, j: nat :: q < p ==> !At(ms, t, q, j)
  }

  /** The marker in `ms` that is a prefix of `t`. */
  function MatchHere(ms: seq<string>, t: string): (r: Option<nat>)
    ensures r.Some? ==> r.value < |ms| && ms[r.value] <= t
    ensures r.None? ==> forall i | 0 <= i < |ms| :: !(ms[i] <= t)
  {
    if ms == [] then None
    else if ms[|ms| - 1] <= t then Some(|ms| - 1)
    else MatchHere(ms[..|ms| - 1], t)
  }

  /** The leftmost occurrence of a marker, and which marker it is. */
  function FirstMatch(ms: seq<string>, t: string): (r: Option<(nat, nat)>)
    ensures r.Some? ==> r.value.1 < |ms| && r.value.0 + |ms[r.value.1]| <= |t|
    decreases |t|
  {
    var here := MatchHere(ms, t);
    if here.Some? then Some((0, here.value))
    else if t == "" then None
    else
      var later := FirstMatch(ms, t[1..]);
      if later.None? then None else Some((later.value.0 + 1, later.value.1))
  }

  lemma {:induction false} FirstMatchCorrect(ms: seq<string>, t: string)
    ensures var r := FirstMatch(ms, t);
            if r.None? then Clean(ms, t) else First(ms, t, r.value.0, r.value.1)
    decreases |t|
  {
    var here := MatchHere(ms, t);
    assert here.Some? ==> t[0..0 + |ms[here.value]|] == ms[here.value];
    forall i: nat | here.None? ensures !At(ms, t, 0, i) {
      assert i < |ms| && |ms[i]| <= |t| ==> t[0..0 + |ms[i]|] <= t;
    }
    if here.None? && t != "" {
      FirstMatchCorrect(ms, t[1..]);
      forall p: nat, i: nat ensures At(ms, t, p + 1, i) <==> At(ms, t[1..], p, i) {
        assert i < |ms| && p + |ms[i]| < |t| ==> t[1..][p..p + |ms[i]|] == t[p + 1..p + 1 + |ms[i]|];
      }
      forall q: nat, j: nat ensures At(ms, t, q, j) ==> q > 0 && At(ms, t[1..], q - 1, j) {
        if At(ms, t, q, j) {
          assert q != 0;
          assert At(ms, t, (q - 1) + 1, j);
        }
      }
    }
  }

  // ---------- the character automaton ----------

  datatype FilterState = FilterState(buffer: string, privateEnd: Option<string>)

  const START := FilterState("", None)

  predicate ProperPrefix(ms: seq<string>, h: string) {
    exists i | 0 <= i < |ms| :: h < ms[i]
  }

  datatype Scan = Hit(which: nat) | Miss(held: string, released: string)

  /** One character after the held text `h`. */
  function ScanChar(ms: seq<string>, h: string, c: char): Scan {
    var b := h + [c];
    var i := WhichMarker(ms, b);
    if i.Some? then Hit(i.value)
    else if ProperPrefix(ms, b) then Miss(b, "")
    else if ProperPrefix(ms, [c]) then Miss([c], h)
    else Miss("", b)
  }

  function WhichMarker(ms: seq<string>, b: string): (r: Option<nat>)
    ensures r.Some? ==> r.value < |ms| && ms[r.value] == b
    ensures r.None? ==> b !in ms
  {
    if ms == [] then None
    else if ms[|ms| - 1] == b then Some(|ms| - 1)
    else WhichMarker(ms[..|ms| - 1], b)
  }

  /** The markers that matter: the opening ones outside a block, its closing one inside. */
  function Sought(bs: seq<Block>, mode: Option<string>): seq<string> {
    match mode
    case None => Starts(bs)
    case Some(end) => [end]
  }

  predicate ValidMode(bs: seq<Block>, mode: Option<string>) {
    mode.Some? ==> Marker(mode.value)
  }

  function StepChar(bs: seq<Block>, st: FilterState, c: char): (FilterState, string) {
    match ScanChar(Sought(bs, st.privateEnd), st.buffer, c)
    case Hit(i) =>
      (FilterState("", if st.privateEnd.None? && i < |bs| then Some(bs[i].end) else None), "")
    case Miss(held, released) =>
      (FilterState(held, st.privateEnd), if st.privateEnd.None? then released else "")
  }

  type Step = (FilterState, char) -> (FilterState, string)

  /** Feeds `t` to `step` one character at a time and joins what is released. */
  function Feed(step: Step, st: FilterState, t: string): (FilterState, string)
    decreases |t|
  {
    if t == "" then (st, "")
    else
      var (st1, out1) := step(st, t[0]);
      var (st2, out2) := Feed(step, st1, t[1..]);
      (st2, out1 + out2)
  }

  lemma {:induction false} FeedAppend(step: Step, st: FilterState, a: string, b: string)
    ensures Feed(step, st, a + b).0 == Feed(step, Feed(step, st, a).0, b).0
    ensures Feed(step, st, a + b).1 == Feed(step, st, a).1 + Feed(step, Feed(step, st, a).0, b).1
    decreases |a|
  {
    if a == "" {
      assert a + b == b;
    } else {
      assert (a + b)[0] == a[0] && (a + b)[1..] == a[1..] + b;
      FeedAppend(step, step(st, a[0]).0, a[1..], b);
    }
  }

  lemma FeedNone(step: Step, st: FilterState)
    ensures Feed(step, st, "") == (st, "")
  {
  }

  lemma FeedOne(step: Step, st: FilterState, c: char)
    ensures Feed(step, st, [c]) == step(st, c)
  {
    assert [c][1..] == "";
    assert step(st, c).1 + "" == step(st, c).1;
  }

  function Stepper(bs: seq<Block>): Step {
    (st, c) => StepChar(bs, st, c)
  }

  function Fold(bs: seq<Block>, st: FilterState, t: string): (FilterState, string) {
    Feed(Stepper(bs), st, t)
  }

  // ---------- what the automaton holds back ----------

  function Suffix(t: string, k: nat): string
    requires k <= |t|
  {
    t[|t| - k..]
  }

  /** The last `k` characters of `t` are the only ones that may still become a marker. */
  ghost predicate Tail(ms: seq<string>, t: string, k: nat) {
    && k <= |t|
    && (k > 0 ==> ProperPrefix(ms, Suffix(t, k)))
    && forall j: nat :: 0 < j <= |t| && j != k ==> !ProperPrefix(ms, Suffix(t, j))
  }

  lemma TailUnique(ms: seq<string>, t: string, k: nat, k': nat)
    requires Tail(ms, t, k) && Tail(ms, t, k')
    ensures k == k'
  {
  }

  lemma PrefixShortens(ms: seq<string>, h: string, c: char)
    requires ProperPrefix(ms, h + [c]) || h + [c] in ms
    ensures ProperPrefix(ms, h)
  {
    var i :| 0 <= i < |ms| && h + [c] <= ms[i];
    assert h < h + [c];
  }

  lemma LateBracketIsNoPrefix(ms: seq<string>, h: string)
    requires Markers(ms) && h != ""
    ensures !ProperPrefix(ms, h + ['<'])
  {
    forall i | 0 <= i < |ms| ensures !(h + ['<'] < ms[i]) {
      assert (h + ['<'])[|h|] == '<';
      assert |h| < |ms[i]| ==> ms[i][|h|] != '<';
    }
  }

  lemma OneCharPrefix(ms: seq<string>, c: char)
    requires Markers(ms) && ProperPrefix(ms, [c])
    ensures c == '<'
  {
    var i :| 0 <= i < |ms| && [c] < ms[i];
    assert Marker(ms[i]) && [c][0] == ms[i][0];
  }

  /** Only the held text, or the new character alone, can become a prefix. */
  lemma PrefixesAfter(ms: seq<string>, t: string, k: nat, c: char, j: nat)
    requires Markers(ms) && Tail(ms, t, k) && 0 < j <= |t| + 1
    requires ProperPrefix(ms, Suffix(t + [c], j)) || Suffix(t + [c], j) in ms
    ensures j == 1 || j == k + 1
  {
    if j > 1 {
      assert Suffix(t + [c], j) == Suffix(t, j - 1) + [c];
      PrefixShortens(ms, Suffix(t, j - 1), c);
    }
  }

  lemma TailAfterMiss(ms: seq<string>, t: string, k: nat, c: char)
    requires Markers(ms) && Tail(ms, t, k) && ScanChar(ms, Suffix(t, k), c).Miss?
    ensures var held := ScanChar(ms, Suffix(t, k), c).held;
            |held| <= |t| + 1 && held == Suffix(t + [c], |held|) && Tail(ms, t + [c], |held|)
  {
    var h := Suffix(t, k);
    var u := t + [c];
    assert Suffix(u, k + 1) == h + [c];
    assert Suffix(u, 1) == [c];
    if ProperPrefix(ms, h + [c]) && h != "" && ProperPrefix(ms, [c]) {
      OneCharPrefix(ms, c);
      LateBracketIsNoPrefix(ms, h);
    }
    forall j: nat | 0 < j <= |u| && ProperPrefix(ms, Suffix(u, j)) ensures j == 1 || j == k + 1 {
      PrefixesAfter(ms, t, k, c, j);
    }
  }

  lemma CleanShortens(ms: seq<string>, u: string, c: char)
    requires Clean(ms, u + [c])
    ensures Clean(ms, u)
  {
    forall p: nat, i: nat ensures !At(ms, u, p, i) {
      if At(ms, u, p, i) {
        AtExtends(ms, u, u + [c], p, i);
      }
    }
  }

  lemma SoughtAreMarkers(bs: seq<Block>, mode: Option<string>)
    requires WellFormed(bs) && ValidMode(bs, mode)
    ensures Markers(Sought(bs, mode))
  {
  }

  /** The mode after marker `i` of the sought ones. */
  function Next(bs: seq<Block>, mode: Option<string>, i: nat): Option<string>
    requires mode.None? ==> i < |bs|
  {
    if mode.None? then Some(bs[i].end) else None
  }

  lemma SoughtFacts(bs: seq<Block>, mode: Option<string>, i: nat)
    requires WellFormed(bs) && ValidMode(bs, mode) && i < |Sought(bs, mode)|
    ensures |Sought(bs, mode)[i]| >= 2 && ValidMode(bs, Next(bs, mode, i))
  {
    SoughtAreMarkers(bs, mode);
    assert Marker(Sought(bs, mode)[i]);
  }

  /** On a text without a sought marker the automaton releases everything but the tail. */
  lemma {:induction false} FoldClean(bs: seq<Block>, mode: Option<string>, t: string) returns (k: nat)
    requires WellFormed(bs) && ValidMode(bs, mode) && Clean(Sought(bs, mode), t)
    ensures Tail(Sought(bs, mode), t, k)
    ensures Fold(bs, FilterState("", mode), t)
         == (FilterState(Suffix(t, k), mode), if mode.None? then t[..|t| - k] else "")
    decreases |t|
  {
    hide Feed, StepChar, Stepper, ScanChar, Starts, WellFormed, Markers, Marker;
    var ms := Sought(bs, mode);
    SoughtAreMarkers(bs, mode);
    if t == "" {
      FeedNone(Stepper(bs), FilterState("", mode));
      k := 0;
    } else {
      var u, c := t[..|t| - 1], t[|t| - 1];
      assert t == u + [c];
      CleanShortens(ms, u, c);
      var k0 := FoldClean(bs, mode, u);
      HitCompletesMarker(ms, u, k0, c);
      TailAfterMiss(ms, u, k0, c);
      k := |ScanChar(ms, Suffix(u, k0), c).held|;
      FeedAppend(Stepper(bs), FilterState("", mode), u, [c]);
      FeedOne(Stepper(bs), FilterState(Suffix(u, k0), mode), c);
      StepMisses(bs, mode, Suffix(u, k0), c);
      ReleasedSoFar(ms, u, k0, c);
    }
  }

  lemma HitCompletesMarker(ms: seq<string>, u: string, k: nat, c: char)
    requires Tail(ms, u, k)
    ensures var scan := ScanChar(ms, Suffix(u, k), c);
            scan.Hit? ==> At(ms, u + [c], |u| - k, scan.which)
  {
    assert (u + [c])[|u| - k..|u| + 1] == Suffix(u, k) + [c];
  }

  lemma StepMisses(bs: seq<Block>, mode: Option<string>, h: string, c: char)
    requires ScanChar(Sought(bs, mode), h, c).Miss?
    ensures var scan := ScanChar(Sought(bs, mode), h, c);
            Stepper(bs)(FilterState(h, mode), c)
            == (FilterState(scan.held, mode), if mode.None? then scan.released else "")
  {
  }

  lemma ReleasedSoFar(ms: seq<string>, u: string, k: nat, c: char)
    requires k <= |u| && ScanChar(ms, Suffix(u, k), c).Miss?
    ensures var scan := ScanChar(ms, Suffix(u, k), c);
            |scan.held| <= |u| + 1 && u[..|u| - k] + scan.released == (u + [c])[..|u| + 1 - |scan.held|]
  {
    assert u[..|u| - k] + Suffix(u, k) == u;
  }

  /** A marker cannot begin inside a marker, nor at the same place as a longer one. */
  lemma NoOtherMarkerWithin(ms: seq<string>, t: string, p: nat, i: nat, q: nat, j: nat)
    requires Markers(ms) && At(ms, t, p, i) && At(ms, t, q, j)
    ensures q <= p || q >= p + |ms[i]|
    ensures q == p ==> j == i
    ensures |ms[j]| >= 2
  {
    assert Marker(ms[i]) && Marker(ms[j]);
    CharAt(ms, t, q, j, 0);
    if p < q < p + |ms[i]| {
      CharAt(ms, t, p, i, q - p);
    }
    assert q == p ==> ms[i] <= ms[j] || ms[j] <= ms[i];
  }

  lemma CharAt(ms: seq<string>, t: string, p: nat, i: nat, d: nat)
    requires At(ms, t, p, i) && d < |ms[i]|
    ensures t[p + d] == ms[i][d]
  {
    assert t[p + d] == t[p..p + |ms[i]|][d];
  }

  /** Up to the last character of the leftmost marker nothing is complete yet. */
  lemma CleanBeforeEnd(ms: seq<string>, t: string, p: nat, i: nat)
    requires Markers(ms) && First(ms, t, p, i)
    ensures Clean(ms, t[..p + |ms[i]| - 1])
  {
    var u := t[..p + |ms[i]| - 1];
    forall q: nat, j: nat ensures !At(ms, u, q, j) {
      if At(ms, u, q, j) {
        AtExtends(ms, u, t, q, j);
        assert q >= p;
        NoOtherMarkerWithin(ms, t, p, i, q, j);
        assert false;
      }
    }
  }

  lemma TailBeforeEnd(ms: seq<string>, t: string, p: nat, i: nat, k: nat)
    requires Markers(ms) && First(ms, t, p, i) && Tail(ms, t[..p + |ms[i]| - 1], k)
    ensures k == |ms[i]| - 1 && Suffix(t[..p + |ms[i]| - 1], k) == ms[i][..k]
  {
    var m := ms[i];
    var u := t[..p + |m| - 1];
    assert Marker(m);
    assert At(ms, t, p, i) && t[p..p + |m|] == m;
    assert Suffix(u, |m| - 1) == u[p..] == t[p..p + |m|][..|m| - 1];
    assert m[..|m| - 1] < ms[i];
  }

  lemma StepHits(bs: seq<Block>, mode: Option<string>, h: string, c: char, i: nat)
    requires WellFormed(bs) && ValidMode(bs, mode)
    requires i < |Sought(bs, mode)| && h + [c] == Sought(bs, mode)[i]
    ensures Stepper(bs)(FilterState(h, mode), c)
         == (FilterState("", if mode.None? then Some(bs[i].end) else None), "")
  {
    var ms := Sought(bs, mode);
    SoughtAreMarkers(bs, mode);
    assert h + [c] in ms;
    var which := WhichMarker(ms, h + [c]);
    assert ms[which.value] <= ms[i];
  }

  /** Up to and including the leftmost marker the automaton releases what stands before it. */
  lemma FoldToFirst(bs: seq<Block>, mode: Option<string>, t: string, p: nat, i: nat)
    requires WellFormed(bs) && ValidMode(bs, mode) && First(Sought(bs, mode), t, p, i)
    ensures Fold(bs, FilterState("", mode), t[..p + |Sought(bs, mode)[i]|])
         == (FilterState("", if mode.None? then Some(bs[i].end) else None), if mode.None? then t[..p] else "")
  {
    hide Feed, StepChar, Stepper, ScanChar, Starts, WellFormed, Markers, Marker, Clean, Tail;
    var ms := Sought(bs, mode);
    SoughtAreMarkers(bs, mode);
    SoughtFacts(bs, mode, i);
    var m := ms[i];
    var e := p + |m|;
    var u, c := t[..e - 1], t[e - 1];
    assert t[..e] == u + [c];
    CleanBeforeEnd(ms, t, p, i);
    var k := FoldClean(bs, mode, u);
    TailBeforeEnd(ms, t, p, i, k);
    assert Suffix(u, k) + [c] == m by {
      assert c == t[p..e][|m| - 1] == m[|m| - 1];
    }
    FeedAppend(Stepper(bs), FilterState("", mode), u, [c]);
    FeedOne(Stepper(bs), FilterState(Suffix(u, k), mode), c);
    StepHits(bs, mode, Suffix(u, k), c, i);
    assert t[..p] + "" == t[..p] == u[..|u| - k];
  }

  /** What the automaton does with a text that holds a sought marker. */
  lemma FoldPastFirst(bs: seq<Block>, mode: Option<string>, t: string, p: nat, i: nat, next: Option<string>,
                      rest: string)
    requires WellFormed(bs) && ValidMode(bs, mode) && First(Sought(bs, mode), t, p, i)
    requires next == Next(bs, mode, i) && rest == t[p + |Sought(bs, mode)[i]|..]
    ensures Fold(bs, FilterState("", mode), t).0 == Fold(bs, FilterState("", next), rest).0
    ensures Fold(bs, FilterState("", mode), t).1
         == (if mode.None? then t[..p] else "") + Fold(bs, FilterState("", next), rest).1
  {
    hide Feed, StepChar, Stepper, ScanChar, Starts, WellFormed, Markers, Marker;
    var e := p + |Sought(bs, mode)[i]|;
    FoldToFirst(bs, mode, t, p, i);
    FeedAppend(Stepper(bs), FilterState("", mode), t[..e], rest);
    assert t[..e] + rest == t;
  }

  // ---------- any state, any chunking ----------

  /** The states that the filter can be in: what it holds is a proper prefix of a sought marker. */
  ghost predicate Reachable(bs: seq<Block>, st: FilterState) {
    && ValidMode(bs, st.privateEnd)
    && (st.buffer == "" || ProperPrefix(Sought(bs, st.privateEnd), st.buffer))
  }

  lemma PrefixIsClean(ms: seq<string>, h: string)
    requires Markers(ms) && (h == "" || ProperPrefix(ms, h))
    ensures Clean(ms, h)
  {
    if h == "" {
      assert forall j | 0 <= j < |ms| :: Marker(ms[j]);
    } else {
      var i :| 0 <= i < |ms| && h < ms[i];
      assert At(ms, ms[i], 0, i) by {
        assert ms[i][0..0 + |ms[i]|] == ms[i];
      }
      forall q: nat, j: nat ensures !At(ms, h, q, j) {
        if At(ms, h, q, j) {
          AtExtends(ms, h, ms[i], q, j);
          NoOtherMarkerWithin(ms, ms[i], 0, i, q, j);
        }
      }
    }
  }

  lemma AtExtends(ms: seq<string>, h: string, t: string, q: nat, j: nat)
    requires h <= t && At(ms, h, q, j)
    ensures At(ms, t, q, j)
  {
    assert t[q..q + |ms[j]|] == h[q..q + |ms[j]|];
  }

  /** Holding `h` is the same as having just read `h`. */
  lemma HoldingIsReading(bs: seq<Block>, st: FilterState)
    requires WellFormed(bs) && Reachable(bs, st)
    ensures Fold(bs, FilterState("", st.privateEnd), st.buffer) == (st, "")
  {
    var ms := Sought(bs, st.privateEnd);
    SoughtAreMarkers(bs, st.privateEnd);
    PrefixIsClean(ms, st.buffer);
    var k := FoldClean(bs, st.privateEnd, st.buffer);
    assert Suffix(st.buffer, |st.buffer|) == st.buffer;
  }

  lemma FoldFromHeld(bs: seq<Block>, st: FilterState, t: string)
    requires WellFormed(bs) && Reachable(bs, st)
    ensures Fold(bs, FilterState("", st.privateEnd), st.buffer + t) == Fold(bs, st, t)
  {
    HoldingIsReading(bs, st);
    FeedAppend(Stepper(bs), FilterState("", st.privateEnd), st.buffer, t);
    assert "" + Fold(bs, st, t).1 == Fold(bs, st, t).1;
  }

  function FoldChunks(bs: seq<Block>, st: FilterState, chunks: seq<string>): (FilterState, string)
    decreases |chunks|
  {
    if chunks == [] then (st, "")
    else
      var (st1, out1) := Fold(bs, st, chunks[0]);
      var (st2, out2) := FoldChunks(bs, st1, chunks[1..]);
      (st2, out1 + out2)
  }

  /** However a text is cut into chunks, the released text and the final state are those of the whole. */
  lemma {:induction false} ChunkingDoesNotMatter(bs: seq<Block>, st: FilterState, chunks: seq<string>)
    ensures FoldChunks(bs, st, chunks) == Fold(bs, st, Text.Join(chunks))
    decreases |chunks|
  {
    if chunks != [] {
      var st1 := Fold(bs, st, chunks[0]).0;
      ChunkingDoesNotMatter(bs, st1, chunks[1..]);
      FeedAppend(Stepper(bs), st, chunks[0], Text.Join(chunks[1..]));
    }
  }

  // ---------- what is visible, independently of any automaton ----------

  /** The visible stretches of a text: what stands before the leftmost opening marker, then what follows the
      leftmost closing marker after it, and so on. An unclosed block hides the rest. */
  function Segments(bs: seq<Block>, mode: Option<string>, t: string): seq<string>
    requires WellFormed(bs) && ValidMode(bs, mode)
    decreases |t|
  {
    var ms := Sought(bs, mode);
    SoughtAreMarkers(bs, mode);
    var found := FirstMatch(ms, t);
    if found.None? then if mode.None? then [t] else []
    else
      var p, i := found.value.0, found.value.1;
      assert Marker(ms[i]);
      (if mode.None? then [t[..p]] else []) + Segments(bs, Next(bs, mode, i), t[p + |ms[i]|..])
  }

  function Erase(bs: seq<Block>, t: string): string
    requires WellFormed(bs)
  {
    Text.Join(Segments(bs, None, t))
  }

  /** What the automaton has released, and what it would still release at the end of the text. */
  function Shown(outcome: (FilterState, string)): string {
    outcome.1 + (if outcome.0.privateEnd.None? then outcome.0.buffer else "")
  }

  lemma SegmentsPastFirst(bs: seq<Block>, mode: Option<string>, t: string, p: nat, i: nat)
    requires WellFormed(bs) && ValidMode(bs, mode) && First(Sought(bs, mode), t, p, i)
    requires ValidMode(bs, Next(bs, mode, i))
    ensures Segments(bs, mode, t) == (if mode.None? then [t[..p]] else [])
                                     + Segments(bs, Next(bs, mode, i), t[p + |Sought(bs, mode)[i]|..])
  {
    hide Feed, FirstMatch, Starts, WellFormed, Markers, Marker;
    assert FirstMatch(Sought(bs, mode), t) == Some((p, i)) by {
      SoughtAreMarkers(bs, mode);
      FirstMatchIs(Sought(bs, mode), t, p, i);
    }
  }

  lemma JoinOfClean(bs: seq<Block>, t: string)
    requires WellFormed(bs) && Clean(Starts(bs), t)
    ensures Segments(bs, None, t) == [t]
    ensures Text.Join([t]) == t
  {
    CleanHasNoFirst(Starts(bs), t);
    assert [t][1..] == [] && t + "" == t;
  }

  lemma JoinPastFirst(bs: seq<Block>, mode: Option<string>, t: string, p: nat, i: nat)
    requires WellFormed(bs) && ValidMode(bs, mode) && First(Sought(bs, mode), t, p, i)
    ensures ValidMode(bs, Next(bs, mode, i))
    ensures Text.Join(Segments(bs, mode, t))
         == (if mode.None? then t[..p] else "")
            + Text.Join(Segments(bs, Next(bs, mode, i), t[p + |Sought(bs, mode)[i]|..]))
  {
    SoughtFacts(bs, mode, i);
    SegmentsPastFirst(bs, mode, t, p, i);
    var later := Segments(bs, Next(bs, mode, i), t[p + |Sought(bs, mode)[i]|..]);
    if mode.None? {
      assert ([t[..p]] + later)[1..] == later;
    } else {
      assert [] + later == later;
    }
  }

  lemma FoldShowsClean(bs: seq<Block>, mode: Option<string>, t: string)
    requires WellFormed(bs) && ValidMode(bs, mode) && Clean(Sought(bs, mode), t)
    ensures Shown(Fold(bs, FilterState("", mode), t)) == Text.Join(Segments(bs, mode, t))
    ensures Reachable(bs, Fold(bs, FilterState("", mode), t).0)
  {
    hide Feed, StepChar, Stepper, ScanChar, Starts, WellFormed, Markers, Marker, FirstMatch;
    var k := FoldClean(bs, mode, t);
    CleanHasNoFirst(Sought(bs, mode), t);
    assert t[..|t| - k] + Suffix(t, k) == t;
    assert [t][1..] == [] && t + "" == t;
  }

  lemma {:induction false} FoldShowsSegments(bs: seq<Block>, mode: Option<string>, t: string)
    requires WellFormed(bs) && ValidMode(bs, mode)
    ensures Shown(Fold(bs, FilterState("", mode), t)) == Text.Join(Segments(bs, mode, t))
    ensures Reachable(bs, Fold(bs, FilterState("", mode), t).0)
    decreases |t|
  {
    hide Feed, StepChar, Stepper, ScanChar, Starts, WellFormed, Markers, Marker;
    FirstMatchCorrect(Sought(bs, mode), t);
    var found := FirstMatch(Sought(bs, mode), t);
    if found.None? {
      FoldShowsClean(bs, mode, t);
    } else {
      var (p, i) := found.value;
      SoughtFacts(bs, mode, i);
      JoinPastFirst(bs, mode, t, p, i);
      var next, rest := Next(bs, mode, i), t[p + |Sought(bs, mode)[i]|..];
      FoldPastFirst(bs, mode, t, p, i, next, rest);
      FoldShowsSegments(bs, next, rest);
      ShownAfter(if mode.None? then t[..p] else "", Fold(bs, FilterState("", next), rest));
    }
  }

  lemma ShownAfter(before: string, outcome: (FilterState, string))
    ensures Shown((outcome.0, before + outcome.1)) == before + Shown(outcome)
  {
  }

  /** The filter refines erasure: over any chunking, what was released plus the held suffix is exactly the
      text with every block removed, and the held suffix could still become a marker. */
  lemma FilterErasesBlocks(bs: seq<Block>, chunks: seq<string>)
    requires WellFormed(bs)
    ensures Shown(FoldChunks(bs, START, chunks)) == Erase(bs, Text.Join(chunks))
    ensures Reachable(bs, FoldChunks(bs, START, chunks).0)
  {
    ChunkingDoesNotMatter(bs, START, chunks);
    FoldShowsSegments(bs, None, Text.Join(chunks));
  }

  /** What is held is shorter than the longest sought marker. */
  lemma HeldIsShort(bs: seq<Block>, st: FilterState)
    requires WellFormed(bs) && Reachable(bs, st)
    ensures |st.buffer| < MaxLength(Sought(bs, st.privateEnd))
  {
    SoughtAreMarkers(bs, st.privateEnd);
    var ms := Sought(bs, st.privateEnd);
    LengthBound(ms, 0);
    assert Marker(ms[0]);
    if st.buffer != "" {
      var i :| 0 <= i < |ms| && st.buffer < ms[i];
      LengthBound(ms, i);
    }
  }

  function MaxLength(ms: seq<string>): nat {
    if ms == [] then 0 else Max(|ms[0]|, MaxLength(ms[1..]))
  }

  lemma {:induction false} LengthBound(ms: seq<string>, i: nat)
    requires i < |ms|
    ensures |ms[i]| <= MaxLength(ms)
  {
    if i > 0 {
      LengthBound(ms[1..], i - 1);
    }
  }

  /** No visible stretch contains an opening marker. */
  lemma {:induction false} SegmentsAreClean(bs: seq<Block>, mode: Option<string>, t: string)
    requires WellFormed(bs) && ValidMode(bs, mode)
    ensures forall segment :: segment in Segments(bs, mode, t) ==> Clean(Starts(bs), segment)
    decreases |t|
  {
    FirstMatchCorrect(Sought(bs, mode), t);
    var found := FirstMatch(Sought(bs, mode), t);
    if found.Some? {
      var (p, i) := found.value;
      SoughtFacts(bs, mode, i);
      SegmentsPastFirst(bs, mode, t, p, i);
      SegmentsAreClean(bs, Next(bs, mode, i), t[p + |Sought(bs, mode)[i]|..]);
      if mode.None? {
        CleanBeforeFirst(Starts(bs), t, p, i);
      }
    }
  }

  lemma CleanBeforeFirst(ms: seq<string>, t: string, p: nat, i: nat)
    requires Markers(ms) && First(ms, t, p, i)
    ensures Clean(ms, t[..p])
  {
    forall q: nat, j: nat ensures !At(ms, t[..p], q, j) {
      if At(ms, t[..p], q, j) {
        assert Marker(ms[j]);
        AtExtends(ms, t[..p], t, q, j);
      }
    }
  }

  /** A block leaves no trace, whatever it holds: what stands before its opening marker meets what follows the
      leftmost closing marker after it. */
  lemma BlockIsErased(bs: seq<Block>, t: string, p: nat, j: nat, e: string, inner: string, q: nat)
    requires WellFormed(bs) && First(Sought(bs, None), t, p, j) && j < |bs| && e == bs[j].end
    requires inner == t[p + |Sought(bs, None)[j]|..] && First([e], inner, q, 0)
    ensures q + |e| <= |inner| && Erase(bs, t) == t[..p] + Erase(bs, inner[q + |e|..])
  {
    assert Marker(e);
    hide *;
    OpeningSplits(bs, t, p, j, inner);
    BlockCloses(bs, e, inner, q);
  }

  /** A block that is never closed hides everything from its opening marker on. */
  lemma OpenBlockHidesRest(bs: seq<Block>, t: string, p: nat, j: nat, inner: string)
    requires WellFormed(bs) && First(Starts(bs), t, p, j)
    requires inner == t[p + |bs[j].start|..] && Clean([bs[j].end], inner)
    ensures Erase(bs, t) == t[..p]
  {
    OpeningSplits(bs, t, p, j, inner);
    CleanHasNoFirst([bs[j].end], inner);
  }

  lemma OpeningSplits(bs: seq<Block>, t: string, p: nat, j: nat, inner: string)
    requires WellFormed(bs) && First(Sought(bs, None), t, p, j)
    requires inner == t[p + |Sought(bs, None)[j]|..]
    ensures Erase(bs, t) == t[..p] + Text.Join(Segments(bs, Some(bs[j].end), inner))
  {
    JoinPastFirst(bs, None, t, p, j);
  }

  /** The joined output may still spell an opening marker: a block inside a marker splices its two halves.
      This holds of every opening marker, every way of cutting it in two and every block. */
  lemma SplicedMarkerIsShown(bs: seq<Block>, i: nat, k: nat, j: nat)
    requires WellFormed(bs) && i < |bs| && j < |bs| && 0 < k < |bs[i].start|
    ensures Erase(bs, Spliced(bs[i].start, k, bs[j])) == bs[i].start
  {
    var m := bs[i].start;
    assert Starts(bs)[i] == m && Starts(bs)[j] == bs[j].start;
    FirstAfterHalf(Starts(bs), i, k, j, bs[j].end + m[k..]);
    SplicedParts(m, k, bs[j]);
    BeginsWith(bs[j].end, m[k..]);
    BlockIsErased(bs, Spliced(m, k, bs[j]), k, j, bs[j].end, bs[j].end + m[k..], 0);
    SecondHalfIsClean(Starts(bs), i, k);
    JoinOfClean(bs, m[k..]);
  }

  lemma BeginsWith(e: string, rest: string)
    ensures First([e], e + rest, 0, 0) && (e + rest)[|e|..] == rest
  {
    assert (e + rest)[0..0 + |e|] == e;
    assert At([e], e + rest, 0, 0);
  }

  /** A block put inside a text after `k` characters. */
  function Spliced(m: string, k: nat, block: Block): string
    requires k <= |m|
  {
    m[..k] + (block.start + (block.end + m[k..]))
  }

  lemma SplicedParts(m: string, k: nat, block: Block)
    requires k <= |m|
    ensures k + |block.start| <= |Spliced(m, k, block)|
    ensures Spliced(m, k, block)[k + |block.start|..] == block.end + m[k..]
    ensures Spliced(m, k, block)[..k] == m[..k]
    ensures m[..k] + m[k..] == m
  {
  }

  lemma BlockCloses(bs: seq<Block>, e: string, inner: string, q: nat)
    requires WellFormed(bs) && Marker(e) && First([e], inner, q, 0)
    ensures q + |e| <= |inner| && ValidMode(bs, Some(e))
    ensures Text.Join(Segments(bs, Some(e), inner)) == Erase(bs, inner[q + |e|..])
  {
    hide Feed, FirstMatch, Markers, Marker;
    JoinPastFirst(bs, Some(e), inner, q, 0);
  }

  lemma FirstAfterHalf(ms: seq<string>, i: nat, k: nat, j: nat, inner: string)
    requires Markers(ms) && i < |ms| && j < |ms| && 0 < k < |ms[i]|
    ensures First(ms, ms[i][..k] + (ms[j] + inner), k, j)
  {
    var m := ms[i];
    var t := m[..k] + (ms[j] + inner);
    assert t[k..k + |ms[j]|] == ms[j];
    assert Marker(m) && forall x | 0 <= x < |ms| :: Marker(ms[x]);
    forall q: nat, x: nat | q < k ensures !At(ms, t, q, x) {
      assert t[q] == m[q];
      if At(ms, t, q, x) {
        CharAt(ms, t, q, x, 0);
        NoOtherMarkerWithin(ms, t, q, x, k, j);
        PrefixOfMarker(ms, t, i, k, x);
      }
    }
  }

  lemma PrefixOfMarker(ms: seq<string>, t: string, i: nat, k: nat, x: nat)
    requires Markers(ms) && i < |ms| && x < |ms| && k < |ms[i]| && |ms[x]| <= k && ms[i][..k] <= t
    ensures !At(ms, t, 0, x)
  {
    assert |ms[x]| <= |t| ==> t[0..|ms[x]|] == ms[i][..|ms[x]|] <= ms[i];
    assert x != i && !(ms[x] <= ms[i]);
  }

  lemma NoBracketNoMarker(ms: seq<string>, t: string, q: nat, x: nat)
    requires Markers(ms) && forall y | 0 <= y < |t| :: t[y] != '<'
    ensures !At(ms, t, q, x)
  {
    if x < |ms| && q + |ms[x]| <= |t| {
      assert Marker(ms[x]);
      assert t[q] != '<';
      assert t[q..q + |ms[x]|][0] == t[q];
    }
  }

  lemma SecondHalfIsClean(ms: seq<string>, i: nat, k: nat)
    requires Markers(ms) && i < |ms| && 0 < k < |ms[i]|
    ensures Clean(ms, ms[i][k..])
  {
    assert Marker(ms[i]);
    forall q: nat, x: nat ensures !At(ms, ms[i][k..], q, x) {
      NoBracketNoMarker(ms, ms[i][k..], q, x);
    }
  }

  lemma FirstMatchIs(ms: seq<string>, t: string, p: nat, i: nat)
    requires Markers(ms) && First(ms, t, p, i)
    ensures FirstMatch(ms, t) == Some((p, i))
  {
    FirstMatchCorrect(ms, t);
    var (q, j) := FirstMatch(ms, t).value;
    assert q == p;
    NoOtherMarkerWithin(ms, t, p, i, q, j);
  }

  lemma CleanHasNoFirst(ms: seq<string>, t: string)
    requires Clean(ms, t)
    ensures FirstMatch(ms, t).None?
  {
    FirstMatchCorrect(ms, t);
  }
}
