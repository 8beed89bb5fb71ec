/**
 Cutting a server-sent event stream into complete events. An event ends at a blank line, here one of the
 three boundaries "\r\n\r\n", "\n\n" and "\r\r" (section 9.2.5 of the WHATWG HTML standard, restricted).
 */
module SseFraming {
  import opened Common
  import Text

  /** The length of the boundary that begins at `i`, or 0. */
  function BoundaryAt(s: string, i: nat): nat {
    if i + 4 <= |s| && s[i] == '\r' && s[i + 1] == '\n' && s[i + 2] == '\r' && s[i + 3] == '\n' then 4
    else if i + 2 <= |s| && s[i] == '\n' && s[i + 1] == '\n' then 2
    else if i + 2 <= |s| && s[i] == '\r' && s[i + 1] == '\r' then 2
    else 0
  }

  /** The boundaries are exactly the three blank lines, and the length is that of the one that stands there. */
  lemma BoundaryExactly(s: string, i: nat)
    requires i <= |s|
    ensures "\r\n\r\n" <= s[i..] ==> BoundaryAt(s, i) == |"\r\n\r\n"|
    ensures "\n\n" <= s[i..] ==> BoundaryAt(s, i) == |"\n\n"|
    ensures "\r\r" <= s[i..] ==> BoundaryAt(s, i) == |"\r\r"|
    ensures BoundaryAt(s, i) > 0 ==> "\r\n\r\n" <= s[i..] || "\n\n" <= s[i..] || "\r\r" <= s[i..]
  {
    var t := s[i..];
    assert forall k :: 0 <= k < |t| ==> t[k] == s[i + k];
  }

  predicate HasBoundary(s: string) {
    exists i | 0 <= i < |s| :: BoundaryAt(s, i) > 0
  }

  /** The leftmost boundary of `s` begins at `i`. */
  ghost predicate FirstBoundary(s: string, i: nat) {
    BoundaryAt(s, i) > 0 && forall j: nat :: j < i ==> BoundaryAt(s, j) == 0
  }

  /** `re.search`: the end of the leftmost boundary at or after `from`. */
  function SearchFrom(s: string, from: nat): Option<nat>
    decreases |s| - from
  {
    if from >= |s| then None
    else if BoundaryAt(s, from) > 0 then Some(from + BoundaryAt(s, from))
    else SearchFrom(s, from + 1)
  }

  lemma {:induction false} SearchFindsFirst(s: string, from: nat)
    requires forall j: nat :: j < from ==> BoundaryAt(s, j) == 0
    ensures SearchFrom(s, from).None? ==> forall j: nat :: BoundaryAt(s, j) == 0
    ensures SearchFrom(s, from).Some? ==>
              exists i: nat :: FirstBoundary(s, i) && SearchFrom(s, from).value == i + BoundaryAt(s, i) <= |s|
    decreases |s| - from
  {
    if from < |s| {
      if BoundaryAt(s, from) > 0 {
        assert FirstBoundary(s, from);
      } else {
        SearchFindsFirst(s, from + 1);
      }
    }
  }

  /** A complete event: its only boundary search result is its own end. */
  ghost predicate CompleteEvent(event: string) {
    SearchFrom(event, 0) == Some(|event|)
  }

  /** What the splitter returns: the complete events and the incomplete remainder. */
  function Split(s: string): (seq<string>, string)
    decreases |s|
  {
    var found := SearchFrom(s, 0);
    SearchFindsFirst(s, 0);
    if found.None? then ([], s)
    else
      var (events, rest) := Split(s[found.value..]);
      ([s[..found.value]] + events, rest)
  }

  method SplitCompleteSseEvents(input: string) returns (events: seq<string>, buffer: string)
    ensures (events, buffer) == Split(input)
  {
    events, buffer := [], input;
    assert [] + Split(input).0 == Split(input).0;
    var found := SearchFrom(buffer, 0);
    while found.Some?
      invariant found == SearchFrom(buffer, 0)
      invariant Split(input) == (events + Split(buffer).0, Split(buffer).1)
      decreases |buffer|
    {
      SearchFindsFirst(buffer, 0);
      ghost var before, unread := events, buffer;
      events := events + [buffer[..found.value]];
      buffer := buffer[found.value..];
      assert events + Split(buffer).0 == before + Split(unread).0;
      found := SearchFrom(buffer, 0);
    }
    assert events + [] == events;
  }

  // ---------- framing is lossless, and every event ends at its first boundary ----------

  lemma BoundaryInPrefix(s: string, end: nat, i: nat)
    requires end <= |s|
    ensures BoundaryAt(s[..end], i) == if i + BoundaryAt(s, i) <= end then BoundaryAt(s, i) else 0
  {
  }

  lemma PrefixIsComplete(s: string, i: nat)
    requires FirstBoundary(s, i)
    ensures i + BoundaryAt(s, i) <= |s| && CompleteEvent(s[..i + BoundaryAt(s, i)])
  {
    var end := i + BoundaryAt(s, i);
    var event := s[..end];
    BoundaryInPrefix(s, end, i);
    forall j: nat | j < i ensures BoundaryAt(event, j) == 0 {
      BoundaryInPrefix(s, end, j);
    }
    SearchFindsFirst(event, 0);
    SearchIsFirst(event, i);
  }

  lemma SearchIsFirst(s: string, i: nat)
    requires FirstBoundary(s, i)
    ensures SearchFrom(s, 0) == Some(i + BoundaryAt(s, i))
  {
    SearchFindsFirst(s, 0);
  }

  lemma JoinCons(head: string, events: seq<string>, rest: string)
    ensures Text.Join([head] + events) + rest == head + (Text.Join(events) + rest)
  {
    assert ([head] + events)[1..] == events;
  }

  /** The events and the remainder make up the input. */
  lemma {:induction false} SplitIsLossless(s: string)
    ensures Text.Join(Split(s).0) + Split(s).1 == s
    decreases |s|
  {
    hide BoundaryAt, SearchFrom;
    SearchFindsFirst(s, 0);
    if SearchFrom(s, 0).None? {
      assert "" + s == s;
    } else {
      var end := SearchFrom(s, 0).value;
      SplitIsLossless(s[end..]);
      JoinCons(s[..end], Split(s[end..]).0, Split(s[end..]).1);
      assert s[..end] + s[end..] == s;
    }
  }

  /** Each event ends at its own first boundary, and the remainder has no boundary. */
  lemma {:induction false} SplitIsExact(s: string)
    ensures forall k :: 0 <= k < |Split(s).0| ==> CompleteEvent(Split(s).0[k])
    ensures !HasBoundary(Split(s).1)
    decreases |s|
  {
    hide BoundaryAt, SearchFrom;
    SearchFindsFirst(s, 0);
    if SearchFrom(s, 0).Some? {
      var end := SearchFrom(s, 0).value;
      var i: nat :| FirstBoundary(s, i) && end == i + BoundaryAt(s, i) <= |s|;
      PrefixIsComplete(s, i);
      SplitIsExact(s[end..]);
    }
  }

  /** Losslessness determines the result: the only way to cut `s` into complete events and a remainder without
      a boundary is the one that the splitter finds. */
  lemma {:induction false} SplitIsUnique(s: string, events: seq<string>, rest: string)
    requires Text.Join(events) + rest == s && !HasBoundary(rest)
    requires forall k :: 0 <= k < |events| ==> CompleteEvent(events[k])
    ensures Split(s) == (events, rest)
    decreases |events|
  {
    if events == [] {
      assert s == rest;
      SearchFindsFirst(s, 0);
    } else {
      var head, tail := events[0], Text.Join(events[1..]) + rest;
      assert s == head + tail;
      assert CompleteEvent(events[0]);
      CompleteEventIsFirst(head, tail);
      assert s[..|head|] == head && s[|head|..] == tail;
      SplitIsUnique(tail, events[1..], rest);
      assert [head] + events[1..] == events;
    }
  }

  /** The leftmost match is stable under extension. */
  lemma CompleteEventIsFirst(head: string, more: string)
    requires CompleteEvent(head)
    ensures SearchFrom(head + more, 0) == Some(|head|)
  {
    SearchFindsFirst(head, 0);
    var i: nat :| FirstBoundary(head, i) && i + BoundaryAt(head, i) == |head|;
    StableUnderExtension(head, more, i);
    SearchIsFirst(head + more, i);
  }

  lemma StableUnderExtension(s: string, more: string, i: nat)
    requires FirstBoundary(s, i)
    ensures FirstBoundary(s + more, i) && BoundaryAt(s + more, i) == BoundaryAt(s, i)
  {
    var t := s + more;
    assert forall j | 0 <= j < |s| :: t[j] == s[j];
    forall j: nat | j < i ensures BoundaryAt(t, j) == 0 {
      assert BoundaryAt(s, j) == 0;
    }
  }

  // ---------- chunks ----------

  lemma Regroup(x: string, y: string, ra: string, rb: string, b: string)
    requires y + rb == ra + b
    ensures (x + y) + rb == (x + ra) + b
  {
    assert (x + y) + rb == x + (y + rb) && x + (ra + b) == (x + ra) + b;
  }

  /** Splitting a longer text is splitting the first part, then its remainder followed by the rest. */
  lemma SplitAppend(a: string, b: string)
    ensures Split(a + b) == (Split(a).0 + Split(Split(a).1 + b).0, Split(Split(a).1 + b).1)
  {
    hide Split, Text.Join;
    var (ea, ra) := Split(a);
    var (eb, rb) := Split(ra + b);
    SplitIsLossless(a);
    SplitIsLossless(ra + b);
    SplitIsExact(a);
    SplitIsExact(ra + b);
    Text.JoinAppend(ea, eb);
    Regroup(Text.Join(ea), Text.Join(eb), ra, rb, b);
    SplitIsUnique(a + b, ea + eb, rb);
  }

  /** Reads a stream chunk by chunk, as the relay does, and returns the frames in the order in which they are
      processed: the events of the whole text, wherever the chunks are cut, and at the end of the stream the
      remainder, unless it is blank. All that is dropped is such a blank remainder. */
  method ConsumeStream(chunks: seq<string>) returns (frames: seq<string>)
    ensures var (events, rest) := Split(Text.Join(chunks));
            frames == events + (if Text.Strip(rest) != "" then [rest] else [])
    ensures exists dropped :: Text.Join(frames) + dropped == Text.Join(chunks) && Text.Strip(dropped) == ""
  {
    var buffer := "";
    frames := [];
    SplitIsUnique("", [], "");
    for n := 0 to |chunks|
      invariant (frames, buffer) == Split(Text.Join(chunks[..n]))
    {
      ghost var soFar := Text.Join(chunks[..n]);
      Text.JoinAppend(chunks[..n], [chunks[n]]);
      assert chunks[..n + 1] == chunks[..n] + [chunks[n]];
      Text.JoinOne(chunks[n]);
      SplitAppend(soFar, chunks[n]);
      if chunks[n] == "" {
        assert soFar + "" == soFar;
        continue;
      }
      buffer := buffer + chunks[n];
      var complete;
      complete, buffer := SplitCompleteSseEvents(buffer);
      frames := frames + complete;
    }
    assert chunks[..|chunks|] == chunks;
    SplitIsLossless(Text.Join(chunks));
    if Text.Strip(buffer) != "" {
      Text.JoinAppend(frames, [buffer]);
      Text.JoinOne(buffer);
      frames := frames + [buffer];
      assert Text.Join(frames) + "" == Text.Join(chunks) && Text.Strip("") == "";
    } else {
      assert Text.Join(frames) + buffer == Text.Join(chunks);
    }
  }
}
