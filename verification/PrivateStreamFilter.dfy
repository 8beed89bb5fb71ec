/** The incremental filter: buffers, searches and slices whole chunks. */
module PrivateStreamFilter {
  import opened Common
  import opened PrivateStream
  import Text

  /** `text.find(marker)`. */
  function Find(text: string, marker: string): int {
    var found := FirstMatch([marker], text);
    if found.None? then -1 else found.value.0
  }

  lemma FindCorrect(text: string, marker: string)
    ensures Find(text, marker) < 0 ==> Clean([marker], text)
    ensures Find(text, marker) >= 0 ==> First([marker], text, Find(text, marker), 0)
  {
    FirstMatchCorrect([marker], text);
  }

  lemma AtAmong(ms: seq<string>, i: nat, t: string, p: nat)
    requires i < |ms|
    ensures At(ms, t, p, i) <==> At([ms[i]], t, p, 0)
  {
  }

  predicate SomeStartsWith(ms: seq<string>, h: string) {
    exists i | 0 <= i < |ms| :: h <= ms[i]
  }

  /** The length of the longest suffix, shorter than the longest marker, that begins some marker. */
  method LongestPrivateMarkerPrefix(value: string, markers: seq<string>) returns (keep: nat)
    requires markers != []
    ensures keep <= Min(|value|, MaxLength(markers) - 1) || keep == 0
    ensures keep > 0 ==> keep <= |value| && SomeStartsWith(markers, Suffix(value, keep))
    ensures forall n: nat :: keep < n <= |value| && n < MaxLength(markers) ==>
                               !SomeStartsWith(markers, Suffix(value, n))
  {
    var length := Min(|value|, MaxLength(markers) - 1);
    while length > 0
      invariant length <= |value| && length <= Max(0, MaxLength(markers) - 1)
      invariant forall n: nat :: length < n <= |value| && n < MaxLength(markers) ==>
                                   !SomeStartsWith(markers, Suffix(value, n))
    {
      if SomeStartsWith(markers, Suffix(value, length)) {
        return length;
      }
      length := length - 1;
    }
    return 0;
  }

  /** On a text without a complete marker, that suffix is exactly what may still become a marker. */
  lemma LongestPrefixIsTail(ms: seq<string>, t: string, k: nat)
    requires Markers(ms) && Clean(ms, t) && k <= |t|
    requires k > 0 ==> SomeStartsWith(ms, Suffix(t, k))
    requires forall n: nat :: k < n <= |t| && n < MaxLength(ms) ==> !SomeStartsWith(ms, Suffix(t, n))
    ensures Tail(ms, t, k)
  {
    if k > 0 {
      var i :| 0 <= i < |ms| && Suffix(t, k) <= ms[i];
      SuffixAt(ms, t, i);
      assert Suffix(t, k) < ms[i];
    }
    forall j: nat | 0 < j <= |t| && j != k ensures !ProperPrefix(ms, Suffix(t, j)) {
      if j < k {
        BracketOnce(ms, t, j, k);
      }
      forall i | 0 <= i < |ms| ensures |ms[i]| <= MaxLength(ms) {
        LengthBound(ms, i);
      }
    }
  }

  lemma SuffixAt(ms: seq<string>, t: string, i: nat)
    requires i < |ms|
    ensures |ms[i]| <= |t| && Suffix(t, |ms[i]|) == ms[i] ==> At(ms, t, |t| - |ms[i]|, i)
  {
  }

  /** What one search-free pass over the buffer does, in terms of the kept suffix. */
  lemma KeepSuffix(bs: seq<Block>, mode: Option<string>, ms: seq<string>, t: string, keep: nat)
    requires WellFormed(bs) && ValidMode(bs, mode) && ms == Sought(bs, mode) && Clean(ms, t) && keep <= |t|
    requires keep > 0 ==> SomeStartsWith(ms, Suffix(t, keep))
    requires forall n: nat :: keep < n <= |t| && n < MaxLength(ms) ==> !SomeStartsWith(ms, Suffix(t, n))
    ensures Fold(bs, FilterState("", mode), t)
         == (FilterState(Suffix(t, keep), mode), if mode.None? then t[..|t| - keep] else "")
  {
    hide Feed, StepChar, Stepper, ScanChar, Starts, Markers, Marker;
    assert Markers(ms) by {
      SoughtAreMarkers(bs, mode);
    }
    var k := FoldClean(bs, mode, t);
    LongestPrefixIsTail(ms, t, keep);
    TailUnique(ms, t, k, keep);
  }

  /** Reading `buffer` from `mode` completes `visible` to the outcome `whole`. */
  ghost predicate OnTrack(bs: seq<Block>, whole: (FilterState, string), mode: Option<string>, buffer: string,
                          visible: string) {
    && WellFormed(bs) && ValidMode(bs, mode)
    && whole.0 == Fold(bs, FilterState("", mode), buffer).0
    && whole.1 == visible + Fold(bs, FilterState("", mode), buffer).1
  }

  lemma OpeningFits(bs: seq<Block>, t: string, p: nat, i: nat)
    requires WellFormed(bs) && First(Starts(bs), t, p, i)
    ensures i < |bs| && p + |bs[i].start| <= |t| && |bs[i].start| >= 2 && Marker(bs[i].end)
  {
    assert Marker(Starts(bs)[i]);
  }

  lemma TrackOpens(bs: seq<Block>, whole: (FilterState, string), buffer: string, visible: string, p: nat, i: nat,
                   rest: string)
    requires OnTrack(bs, whole, None, buffer, visible) && First(Starts(bs), buffer, p, i)
    requires i < |bs| && p + |bs[i].start| <= |buffer| && rest == buffer[p + |bs[i].start|..]
    ensures OnTrack(bs, whole, Some(bs[i].end), rest, visible + buffer[..p])
  {
    hide Feed, StepChar, Stepper, ScanChar, Starts, Markers, Marker;
    OpeningFits(bs, buffer, p, i);
    FoldPastFirst(bs, None, buffer, p, i, Some(bs[i].end), rest);
    var later := Fold(bs, FilterState("", Some(bs[i].end)), rest).1;
    assert visible + (buffer[..p] + later) == (visible + buffer[..p]) + later;
  }

  lemma TrackCloses(bs: seq<Block>, whole: (FilterState, string), end: string, buffer: string, visible: string, p: nat)
    requires OnTrack(bs, whole, Some(end), buffer, visible) && First([end], buffer, p, 0)
    ensures p + |end| <= |buffer| && OnTrack(bs, whole, None, buffer[p + |end|..], visible)
  {
    hide Feed, StepChar, Stepper, ScanChar, Starts, Markers, Marker;
    FoldPastFirst(bs, Some(end), buffer, p, 0, None, buffer[p + |end|..]);
    var later := Fold(bs, FilterState("", None), buffer[p + |end|..]).1;
    assert "" + later == later;
  }

  lemma TrackEnds(bs: seq<Block>, whole: (FilterState, string), mode: Option<string>, ms: seq<string>,
                  buffer: string, visible: string, keep: nat)
    requires OnTrack(bs, whole, mode, buffer, visible) && ms == Sought(bs, mode) && Clean(ms, buffer)
    requires keep <= |buffer| && (keep > 0 ==> SomeStartsWith(ms, Suffix(buffer, keep)))
    requires forall n: nat :: keep < n <= |buffer| && n < MaxLength(ms) ==> !SomeStartsWith(ms, Suffix(buffer, n))
    ensures whole == (FilterState(Suffix(buffer, keep), mode),
                      visible + (if mode.None? then buffer[..|buffer| - keep] else ""))
  {
    hide Feed, StepChar, Stepper, ScanChar, Starts, Markers, Marker;
    KeepSuffix(bs, mode, ms, buffer, keep);
  }

  lemma TrackStarts(bs: seq<Block>, st: FilterState, value: string)
    requires WellFormed(bs) && Reachable(bs, st)
    ensures OnTrack(bs, Fold(bs, st, value), st.privateEnd, st.buffer + value, "")
    ensures Reachable(bs, Fold(bs, st, value).0)
  {
    FoldFromHeld(bs, st, value);
    FoldShowsSegments(bs, st.privateEnd, st.buffer + value);
    assert "" + Fold(bs, st, value).1 == Fold(bs, st, value).1;
  }

  lemma TrackDone(bs: seq<Block>, whole: (FilterState, string), mode: Option<string>, visible: string)
    requires OnTrack(bs, whole, mode, "", visible)
    ensures whole == (FilterState("", mode), visible)
  {
    assert visible + "" == visible;
  }

  /** Two suffixes of different length cannot both begin a marker: each starts with the only '<' it holds. */
  lemma BracketOnce(ms: seq<string>, t: string, j: nat, k: nat)
    requires Markers(ms) && 0 < j < k <= |t|
    requires SomeStartsWith(ms, Suffix(t, k))
    ensures !SomeStartsWith(ms, Suffix(t, j))
  {
    var i :| 0 <= i < |ms| && Suffix(t, k) <= ms[i];
    assert Marker(ms[i]);
    assert Suffix(t, j)[0] == Suffix(t, k)[k - j] == ms[i][k - j];
    forall x | 0 <= x < |ms| ensures !(Suffix(t, j) <= ms[x]) {
      assert Marker(ms[x]);
    }
  }

  class PrivateProtocolDeltaFilter {
    const blocks: seq<Block>
    var buffer: string
    var privateEnd: Option<string>

    function State(): FilterState
      reads this
    {
      FilterState(buffer, privateEnd)
    }

    ghost predicate Valid()
      reads this
    {
      WellFormed(blocks) && Reachable(blocks, State())
    }

    constructor ()
      ensures Valid() && State() == START && blocks == PRIVATE_STREAM_BLOCKS
    {
      blocks := PRIVATE_STREAM_BLOCKS;
      buffer := "";
      privateEnd := None;
      new;
      ShippedBlocksAreWellFormed();
    }

    /** The leftmost opening marker in the buffer. */
    method EarliestOpening() returns (opening: Option<(nat, nat)>)
      requires WellFormed(blocks)
      ensures opening.None? ==> Clean(Starts(blocks), buffer)
      ensures opening.Some? ==> First(Starts(blocks), buffer, opening.value.0, opening.value.1)
    {
      var ms := Starts(blocks);
      opening := None;
      var j := 0;
      while j < |blocks|
        invariant 0 <= j <= |blocks|
        invariant opening.None? ==> forall q: nat, i: nat :: i < j ==> !At(ms, buffer, q, i)
        invariant opening.Some? ==>
                    && opening.value.1 < j && At(ms, buffer, opening.value.0, opening.value.1)
                    && forall q: nat, i: nat :: i < j && q < opening.value.0 ==> !At(ms, buffer, q, i)
      {
        var at := Find(buffer, blocks[j].start);
        FindCorrect(buffer, blocks[j].start);
        forall q: nat ensures At(ms, buffer, q, j) <==> At([blocks[j].start], buffer, q, 0) {
          AtAmong(ms, j, buffer, q);
        }
        if at >= 0 && (opening.None? || at < opening.value.0) {
          opening := Some((at, j));
        }
        j := j + 1;
      }
    }

    /** No sought marker is complete: keeps the suffix that may still become one and cuts off the rest. */
    method HoldTail(ms: seq<string>, ghost whole: (FilterState, string), ghost visible: string)
      returns (cutOff: string)
      requires OnTrack(blocks, whole, privateEnd, buffer, visible)
      requires ms == Sought(blocks, privateEnd) && ms != [] && Clean(ms, buffer)
      modifies `buffer
      ensures whole == (State(), visible + (if privateEnd.None? then cutOff else ""))
    {
      var keep := LongestPrivateMarkerPrefix(buffer, ms);
      TrackEnds(blocks, whole, privateEnd, ms, buffer, visible, keep);
      if keep > 0 {
        cutOff := buffer[..|buffer| - keep];
        buffer := Suffix(buffer, keep);
      } else {
        assert buffer[..|buffer|] == buffer;
        cutOff := buffer;
        buffer := "";
      }
    }

    /** Releases what of `value` the caller may see, and keeps what may still become a marker. */
    method FeedDelta(value: string) returns (visible: string)
      requires Valid()
      modifies `buffer, `privateEnd
      ensures Valid()
      ensures (State(), visible) == Fold(blocks, old(State()), value)
    {
      ghost var whole := Fold(blocks, State(), value);
      TrackStarts(blocks, State(), value);
      visible := "";
      if value == "" {
        return;
      }
      buffer := buffer + value;
      while buffer != ""
        invariant OnTrack(blocks, whole, privateEnd, buffer, visible)
        decreases |buffer|
      {
        if privateEnd.Some? {
          var end := privateEnd.value;
          var endAt := Find(buffer, end);
          FindCorrect(buffer, end);
          if endAt < 0 {
            var dropped := HoldTail([end], whole, visible);
            assert visible + "" == visible;
            return;
          }
          TrackCloses(blocks, whole, end, buffer, visible, endAt);
          buffer := buffer[endAt + |end|..];
          privateEnd := None;
          continue;
        }
        var opening := EarliestOpening();
        if opening.Some? {
          var (startAt, i) := opening.value;
          OpeningFits(blocks, buffer, startAt, i);
          TrackOpens(blocks, whole, buffer, visible, startAt, i, buffer[startAt + |blocks[i].start|..]);
          visible := visible + buffer[..startAt];
          buffer := buffer[startAt + |blocks[i].start|..];
          privateEnd := Some(blocks[i].end);
          continue;
        }
        var released := HoldTail(Starts(blocks), whole, visible);
        visible := visible + released;
        return;
      }
      TrackDone(blocks, whole, privateEnd, visible);
    }

    /** Ends the stream: whatever is held is dropped, never shown. */
    method Finish() returns (visible: string)
      requires Valid()
      modifies `buffer, `privateEnd
      ensures Valid() && State() == START && visible == ""
    {
      buffer := "";
      privateEnd := None;
      visible := "";
    }
  }

  /** The deltas of one streamed answer, fed in the order in which they arrive. */
  method RelayDeltas(filter: PrivateProtocolDeltaFilter, deltas: seq<string>) returns (visible: string)
    requires filter.Valid() && filter.State() == START
    modifies filter`buffer, filter`privateEnd
    ensures filter.Valid()
    ensures (filter.State(), visible) == Fold(filter.blocks, START, Text.Join(deltas))
    ensures Shown((filter.State(), visible)) == Erase(filter.blocks, Text.Join(deltas))
  {
    visible := "";
    for n := 0 to |deltas|
      invariant filter.Valid()
      invariant (filter.State(), visible) == Fold(filter.blocks, START, Text.Join(deltas[..n]))
    {
      FeedAppend(Stepper(filter.blocks), START, Text.Join(deltas[..n]), deltas[n]);
      Text.JoinAppend(deltas[..n], [deltas[n]]);
      assert deltas[..n + 1] == deltas[..n] + [deltas[n]];
      Text.JoinOne(deltas[n]);
      var part := filter.FeedDelta(deltas[n]);
      visible := visible + part;
    }
    assert deltas[..|deltas|] == deltas;
    FoldShowsSegments(filter.blocks, None, Text.Join(deltas));
  }

  /** The text that the caller may see of a raw answer. */
  function CallerVisible(content: string): string {
    Text.Strip(Fold(PRIVATE_STREAM_BLOCKS, START, content).1)
  }

  /** `_caller_visible_content`: the erased text without the suffix that might have become a marker, stripped. */
  method VisibleContent(content: string) returns (visible: string)
    ensures visible == CallerVisible(content)
    ensures WellFormed(PRIVATE_STREAM_BLOCKS)
    ensures exists shown, held :: shown + held == Erase(PRIVATE_STREAM_BLOCKS, content)
                                  && |held| < MaxLength(Starts(PRIVATE_STREAM_BLOCKS)) && visible == Text.Strip(shown)
  {
    var filter := new PrivateProtocolDeltaFilter();
    FoldShowsSegments(filter.blocks, None, content);
    var shown := filter.FeedDelta(content);
    ghost var held := if filter.privateEnd.None? then filter.buffer else "";
    LongestStart();
    if filter.privateEnd.None? {
      HeldIsShort(filter.blocks, filter.State());
    }
    assert shown + held == Erase(PRIVATE_STREAM_BLOCKS, content);
    var rest := filter.Finish();
    visible := Text.Strip(shown);
  }

  lemma LongestStart()
    ensures MaxLength(Starts(PRIVATE_STREAM_BLOCKS)) > 0
  {
  }

  // ---------- what was streamed, and the final text ----------

  /** What the caller has seen after the first `n` deltas of an answer. */
  function Released(deltas: seq<string>, n: nat): string
    requires n <= |deltas|
  {
    Fold(PRIVATE_STREAM_BLOCKS, START, Text.Join(deltas[..n])).1
  }

  /** Exactly when the streamed text begins the final text: nothing was released yet, or what was released begins
      without white space and does not reach into the white space at the end, which the final text is stripped of. */
  lemma ReleasedBeginsFinal(deltas: seq<string>, n: nat)
    requires n <= |deltas|
    ensures var released, final := Released(deltas, n), CallerVisible(Text.Join(deltas));
            released <= final <==> released == "" || (!Text.IsSpace(released[0]) && |released| <= |final|)
  {
    var whole := Released(deltas, |deltas|);
    assert deltas[..|deltas|] == deltas && deltas[..n] + deltas[n..] == deltas;
    Text.JoinAppend(deltas[..n], deltas[n..]);
    FeedAppend(Stepper(PRIVATE_STREAM_BLOCKS), START, Text.Join(deltas[..n]), Text.Join(deltas[n..]));
    hide Fold, Text.Strip, Text.Join;
    Text.BeginsStripped(Released(deltas, n), whole);
  }

  /** At the end of the stream: the streamed text begins the final text exactly when it has no white space around it,
      and then it is the final text. */
  lemma AllReleasedIsFinal(deltas: seq<string>)
    ensures var released, final := Released(deltas, |deltas|), CallerVisible(Text.Join(deltas));
            && (released <= final <==> Text.Strip(released) == released)
            && (released <= final <==> released == final)
  {
    assert deltas[..|deltas|] == deltas;
    Text.StripIsShorter(Released(deltas, |deltas|));
  }

  /** Exactly when filtering a stored, already stripped answer once more shows it unchanged: it holds no opening marker
      and no suffix of it begins one. */
  lemma ShownAgainExactly(content: string)
    requires Text.Strip(content) == content
    ensures WellFormed(PRIVATE_STREAM_BLOCKS)
    ensures CallerVisible(content) == content
       <==> Clean(Starts(PRIVATE_STREAM_BLOCKS), content) && Tail(Starts(PRIVATE_STREAM_BLOCKS), content, 0)
  {
    ShippedBlocksAreWellFormed();
    var bs := PRIVATE_STREAM_BLOCKS;
    Text.StripIsShorter(Fold(bs, START, content).1);
    FoldKeepsAllExactly(bs, content);
    FoldShrinks(bs, START, content);
  }

  /** So the second filtering of a stored answer can lose its end: a bracket before an empty block is released, but
      alone it may still become a marker. */
  lemma SecondFilteringCutsBracket(j: nat)
    requires j < |PRIVATE_STREAM_BLOCKS|
    ensures var block := PRIVATE_STREAM_BLOCKS[j];
            CallerVisible("<" + (block.start + block.end)) == "<" && CallerVisible("<") != "<"
  {
    ShippedBlocksAreWellFormed();
    var bs := PRIVATE_STREAM_BLOCKS;
    BracketIsStripped();
    BracketAlone(bs);
    BracketBeforeBlock(bs, j);
    hide Fold, Text.Strip, Starts, WellFormed, Tail, Clean;
    ShownAgainExactly("<");
  }

  lemma BracketIsStripped()
    ensures Text.Strip("<") == "<"
  {
  }

  lemma BracketAlone(bs: seq<Block>)
    requires WellFormed(bs)
    ensures !Tail(Starts(bs), "<", 0)
  {
    var ms := Starts(bs);
    assert Marker(ms[0]) && Suffix("<", 1) == "<" < ms[0];
    assert ProperPrefix(ms, Suffix("<", 1));
  }

  lemma BracketBeforeBlock(bs: seq<Block>, j: nat)
    requires WellFormed(bs) && j < |bs|
    ensures Fold(bs, START, "<" + (bs[j].start + bs[j].end)).1 == "<"
  {
    var ms, e := Starts(bs), bs[j].end;
    var t := "<" + (bs[j].start + e);
    assert Marker(ms[j]) && Marker(e) && ms[j][..1] == "<";
    FirstAfterHalf(ms, j, 1, j, e);
    assert t[1 + |bs[j].start|..] == e && t[..1] == "<";
    BeginsWith(e, "");
    assert e + "" == e;
    hide Feed, StepChar, Stepper, ScanChar, Starts, Markers, Marker, Fold, First;
    FoldPastFirst(bs, None, t, 1, j, Some(e), e);
    FoldPastFirst(bs, Some(e), e, 0, 0, None, "");
    FoldNothing(bs, START);
  }

  lemma FoldNothing(bs: seq<Block>, st: FilterState)
    ensures Fold(bs, st, "") == (st, "")
  {
  }

  /** The automaton releases a whole text exactly when there is no marker in it and none begun at its end. */
  lemma FoldKeepsAllExactly(bs: seq<Block>, t: string)
    requires WellFormed(bs)
    ensures Fold(bs, START, t).1 == t <==> Clean(Starts(bs), t) && Tail(Starts(bs), t, 0)
  {
    hide Feed, StepChar, Stepper, ScanChar, Starts, Markers, Marker, Fold;
    FirstMatchCorrect(Starts(bs), t);
    var found := FirstMatch(Starts(bs), t);
    if found.None? {
      var k := FoldClean(bs, None, t);
      if Tail(Starts(bs), t, 0) {
        TailUnique(Starts(bs), t, 0, k);
      }
    } else {
      var p, i := found.value.0, found.value.1;
      OpeningFits(bs, t, p, i);
      var rest := t[p + |bs[i].start|..];
      FoldPastFirst(bs, None, t, p, i, Some(bs[i].end), rest);
      FoldShrinks(bs, FilterState("", Some(bs[i].end)), rest);
    }
  }

  lemma {:induction false} FoldShrinks(bs: seq<Block>, st: FilterState, t: string)
    ensures |Fold(bs, st, t).1| + |Fold(bs, st, t).0.buffer| <= |st.buffer| + |t|
    decreases |t|
  {
    if t != "" {
      FoldShrinks(bs, Stepper(bs)(st, t[0]).0, t[1..]);
    }
  }

  // ---------- the two envelopes that the service hides ----------

  /** What the caller sees of a whole text, up to the final strip and a marker begun at its end. */
  function Visible(t: string): string {
    ShippedBlocksAreWellFormed();
    Erase(PRIVATE_STREAM_BLOCKS, t)
  }

  predicate PlainText(t: string) {
    !Text.Contains(t, "<XPD_CLARIFICATION_REQUEST>") && !Text.Contains(t, "<XPD_ANALYSIS_JSON>")
  }

  /** A text without either opening marker is shown as it is. */
  lemma PlainTextIsShown(t: string)
    requires PlainText(t)
    ensures Visible(t) == t
  {
    ShippedBlocksAreWellFormed();
    var bs := PRIVATE_STREAM_BLOCKS;
    forall q: nat, j: nat ensures !At(Starts(bs), t, q, j) {
      if j < 2 && q <= |t| {
        assert Starts(bs)[j] == bs[j].start && !Text.OccursAt(t, bs[j].start, q);
      }
    }
    JoinOfClean(bs, t);
  }

  /** A clarification envelope, whatever it holds, disappears; what stands before and after it is shown. */
  lemma ClarificationIsHidden(before: string, inner: string, after: string)
    requires PlainText(before) && !Text.Contains(inner, "</XPD_CLARIFICATION_REQUEST>")
    ensures Visible(before + ("<XPD_CLARIFICATION_REQUEST>" + (inner + ("</XPD_CLARIFICATION_REQUEST>" + after))))
         == before + Visible(after)
  {
    EnvelopeIsHidden(0, before, inner, after);
  }

  /** So does an analysis envelope. */
  lemma AnalysisIsHidden(before: string, inner: string, after: string)
    requires PlainText(before) && !Text.Contains(inner, "</XPD_ANALYSIS_JSON>")
    ensures Visible(before + ("<XPD_ANALYSIS_JSON>" + (inner + ("</XPD_ANALYSIS_JSON>" + after))))
         == before + Visible(after)
  {
    EnvelopeIsHidden(1, before, inner, after);
  }

  lemma EnvelopeIsHidden(j: nat, before: string, inner: string, after: string)
    requires j < |PRIVATE_STREAM_BLOCKS| && PlainText(before) && !Text.Contains(inner, PRIVATE_STREAM_BLOCKS[j].end)
    ensures var block := PRIVATE_STREAM_BLOCKS[j];
            Visible(before + (block.start + (inner + (block.end + after)))) == before + Visible(after)
  {
    ShippedBlocksAreWellFormed();
    var bs := PRIVATE_STREAM_BLOCKS;
    var start, e := bs[j].start, bs[j].end;
    var rest := inner + (e + after);
    var t := before + (start + rest);
    assert Starts(bs)[0] == "<XPD_CLARIFICATION_REQUEST>" && Starts(bs)[1] == "<XPD_ANALYSIS_JSON>";
    assert Marker(Starts(bs)[j]) && Marker(e);
    hide Erase, Starts, WellFormed, Feed;
    FirstAfterPlain(Starts(bs), before, j, rest);
    FirstAfterPlain([e], inner, 0, after);
    BehindParts(before, start, rest);
    BehindParts(inner, e, after);
    BlockIsErased(bs, t, |before|, j, e, rest, |inner|);
  }

  lemma BehindParts(before: string, marker: string, rest: string)
    ensures (before + (marker + rest))[|before| + |marker|..] == rest
    ensures (before + (marker + rest))[..|before|] == before
  {
  }

  /** Behind a text that holds no marker, a marker is the first one: no marker reaches across its bracket. */
  lemma FirstAfterPlain(ms: seq<string>, before: string, j: nat, rest: string)
    requires j < |ms| && (forall i | 0 <= i < |ms| :: Marker(ms[i]) && !Text.Contains(before, ms[i]))
    ensures First(ms, before + (ms[j] + rest), |before|, j)
  {
    var t := before + (ms[j] + rest);
    assert t[|before|..|before| + |ms[j]|] == ms[j];
    forall q: nat, i: nat | q < |before| ensures !At(ms, t, q, i) {
      if i < |ms| && q + |ms[i]| <= |before| {
        assert !Text.OccursAt(before, ms[i], q) && t[q..q + |ms[i]|] == before[q..q + |ms[i]|];
      } else if i < |ms| && q + |ms[i]| <= |t| {
        var d := |before| - q;
        assert ms[i][d] != '<' && t[q..q + |ms[i]|][d] == t[|before|] == '<';
      }
    }
  }
}
