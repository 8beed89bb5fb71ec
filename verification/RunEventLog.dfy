/** The replay log of one run's events: append with de-duplication, poll after an id, and buffered text. */
module RunEventLog {
  import opened Common

  datatype Event = Progress | AnswerDelta | ClarificationRequired | ErrorEvent | ArtifactReady | RunCompleted

  /** The de-duplication keys that the service forms. A digest of a text stands for the text. */
  datatype Key =
    | StatusKey(attempt: nat, status: string)
    | TerminalKey(attempt: nat, kind: string)
    | ResultProgress(attempt: nat, step: string)
    | FinalAnswer(attempt: nat, offset: nat)
    | ArtifactKey(artifact: string)

  datatype Entry = Entry(id: nat, event: Event, attempt: nat, text: string, key: Option<Key>)

  type Entries = seq<Entry>

  const MAX_ENTRIES := 2_000
  const MAX_RUNS := 512
  const MAX_SSE_EVENT_ID := 0x1F_FFFF_FFFF_FFFF

  predicate HasKey(entries: Entries, key: Key) {
    exists i | 0 <= i < |entries| :: entries[i].key == Some(key)
  }

  /** One publication, before trimming: unchanged if the key is already there, else one entry longer. */
  function Published(entries: Entries, id: nat, event: Event, attempt: nat, text: string, key: Option<Key>): Entries {
    if key.Some? && HasKey(entries, key.value) then entries else entries + [Entry(id, event, attempt, text, key)]
  }

  function Trimmed(entries: Entries): Entries {
    if |entries| > MAX_ENTRIES then entries[|entries| - MAX_ENTRIES..] else entries
  }

  /** A log keeps its 2,000 newest events. */
  lemma TrimmedKeepsNewest(entries: Entries)
    ensures |Trimmed(entries)| == (if |entries| < 2_000 then |entries| else 2_000)
    ensures entries[|entries| - |Trimmed(entries)|..] == Trimmed(entries)
  {
  }

  /** A publication adds exactly the given event at the end, unless its key is already there. */
  lemma PublishedAddsExactly(entries: Entries, id: nat, event: Event, attempt: nat, text: string, key: Option<Key>)
    ensures var later := Published(entries, id, event, attempt, text, key);
            if exists i :: 0 <= i < |entries| && key.Some? && entries[i].key == key then later == entries
            else |later| == |entries| + 1 && later[..|entries|] == entries
                 && var e := later[|entries|];
                    e.id == id && e.event == event && e.attempt == attempt && e.text == text && e.key == key
  {
  }

  ghost predicate Increasing(entries: Entries) {
    forall i, j :: 0 <= i < j < |entries| ==> entries[i].id < entries[j].id
  }

  ghost predicate KeysOnce(entries: Entries) {
    forall i, j :: 0 <= i < j < |entries| && entries[i].key.Some? ==> entries[i].key != entries[j].key
  }

  ghost predicate Below(entries: Entries, nextId: nat) {
    forall i :: 0 <= i < |entries| ==> entries[i].id < nextId
  }

  /** Strictly increasing ids below the counter, and at most one live entry per key. */
  ghost predicate WellLogged(entries: Entries, nextId: nat) {
    Increasing(entries) && KeysOnce(entries) && Below(entries, nextId) && |entries| <= MAX_ENTRIES
  }

  lemma PublishedIsWellLogged(entries: Entries, nextId: nat, event: Event, attempt: nat, text: string, key: Option<Key>)
    requires WellLogged(entries, nextId)
    ensures WellLogged(Trimmed(Published(entries, nextId, event, attempt, text, key)), nextId + 1)
    ensures key.Some? && HasKey(entries, key.value) ==>
              Trimmed(Published(entries, nextId, event, attempt, text, key)) == entries
  {
    if !(key.Some? && HasKey(entries, key.value)) {
      AppendIsOrdered(entries, Entry(nextId, event, attempt, text, key));
    }
    var longer := Published(entries, nextId, event, attempt, text, key);
    assert Increasing(longer) && KeysOnce(longer) && Below(longer, nextId + 1);
    hide Increasing, KeysOnce, Below, Published, HasKey;
    if |longer| > MAX_ENTRIES {
      SuffixIsOrdered(longer, |longer| - MAX_ENTRIES, nextId + 1);
    }
  }

  lemma AppendIsOrdered(entries: Entries, e: Entry)
    requires Increasing(entries) && KeysOnce(entries) && Below(entries, e.id)
    requires e.key.Some? ==> !HasKey(entries, e.key.value)
    ensures Increasing(entries + [e]) && KeysOnce(entries + [e]) && Below(entries + [e], e.id + 1)
  {
  }

  lemma SuffixIsOrdered(entries: Entries, cut: nat, nextId: nat)
    requires Increasing(entries) && KeysOnce(entries) && Below(entries, nextId) && cut <= |entries|
    ensures Increasing(entries[cut..]) && KeysOnce(entries[cut..]) && Below(entries[cut..], nextId)
  {
  }

  // ---------- polling ----------

  /** What a client that has seen `last` is sent. */
  function After(entries: Entries, last: nat): Entries {
    if entries == [] then [] else (if entries[0].id > last then [entries[0]] else []) + After(entries[1..], last)
  }

  /** The client's cursor after it was sent `sent`. */
  function Cursor(last: nat, sent: Entries): nat
    decreases |sent|
  {
    if sent == [] then last else Cursor(Max(last, sent[0].id), sent[1..])
  }

  /** One step in the life of a run's log: a publication for this run, one for another run, which takes the
      next id, or a poll of the client that last saw `cursor`. */
  datatype LogOp =
    | Publish(event: Event, attempt: nat, text: string, key: Option<Key>)
    | Elsewhere
    | Poll

  datatype LogState = LogState(entries: Entries, nextId: nat, cursor: nat, received: Entries)

  function Play(s: LogState, op: LogOp): LogState {
    match op
    case Publish(event, attempt, text, key) =>
      s.(entries := Trimmed(Published(s.entries, s.nextId, event, attempt, text, key)),
         nextId := if key.Some? && HasKey(s.entries, key.value) then s.nextId else s.nextId + 1)
    case Elsewhere => s.(nextId := s.nextId + 1)
    case Poll =>
      var sent := After(s.entries, s.cursor);
      s.(cursor := Cursor(s.cursor, sent), received := s.received + sent)
  }

  function PlayAll(s: LogState, ops: seq<LogOp>): LogState
    decreases |ops|
  {
    if ops == [] then s else PlayAll(Play(s, ops[0]), ops[1..])
  }

  /** No publication of the history trims the log. */
  predicate Untrimmed(s: LogState, ops: seq<LogOp>)
    decreases |ops|
  {
    ops == []
    || ((ops[0].Publish? ==>
           |Published(s.entries, s.nextId, ops[0].event, ops[0].attempt, ops[0].text, ops[0].key)| <= MAX_ENTRIES)
        && Untrimmed(Play(s, ops[0]), ops[1..]))
  }

  lemma {:induction false} AfterAppend(a: Entries, b: Entries, last: nat)
    ensures After(a + b, last) == After(a, last) + After(b, last)
  {
    if a == [] {
      assert a + b == b;
    } else {
      assert (a + b)[0] == a[0] && (a + b)[1..] == a[1..] + b;
      AfterAppend(a[1..], b, last);
    }
  }

  lemma {:induction false} AfterIsExact(entries: Entries, last: nat)
    ensures forall e :: e in After(entries, last) <==> e in entries && e.id > last
    ensures (forall e :: e in entries ==> e.id <= last) ==> After(entries, last) == []
    ensures (forall e :: e in entries ==> e.id > last) ==> After(entries, last) == entries
  {
    if entries != [] {
      AfterIsExact(entries[1..], last);
      assert entries == [entries[0]] + entries[1..];
    }
  }

  lemma {:induction false} CursorIsHighest(last: nat, sent: Entries)
    ensures Cursor(last, sent) >= last && forall e :: e in sent ==> e.id <= Cursor(last, sent)
    ensures Cursor(last, sent) == last || exists e :: e in sent && e.id == Cursor(last, sent)
    decreases |sent|
  {
    if sent != [] {
      CursorIsHighest(Max(last, sent[0].id), sent[1..]);
      assert sent == [sent[0]] + sent[1..];
    }
  }

  /** Polling a log and then its extension from the new cursor is polling the extension at once. */
  lemma PollTwice(a: Entries, b: Entries, last: nat)
    requires Increasing(a + b)
    ensures After(a, last) + After(a + b, Cursor(last, After(a, last))) == After(a + b, last)
  {
    var cursor := Cursor(last, After(a, last));
    AfterAppend(a, b, last);
    AfterAppend(a, b, cursor);
    hide Cursor, Increasing, After;
    CursorIsSeen(a, last);
    SameTail(a, b, last, cursor);
  }

  /** The cursor after a poll is the old one or that of an event of the log, and nothing lies beyond it. */
  lemma CursorIsSeen(a: Entries, last: nat)
    ensures var cursor := Cursor(last, After(a, last));
            && (cursor == last || exists e :: e in a && e.id == cursor && cursor > last)
            && After(a, cursor) == []
  {
    CursorIsHighest(last, After(a, last));
    AfterIsExact(a, last);
    hide Cursor, After;
    NothingBeyondCursor(a, last, Cursor(last, After(a, last)));
  }

  lemma NothingBeyondCursor(a: Entries, last: nat, cursor: nat)
    requires cursor >= last && forall e :: e in After(a, last) ==> e.id <= cursor
    ensures After(a, cursor) == []
  {
    AfterIsExact(a, last);
    AfterIsExact(a, cursor);
    hide After;
    assert forall e :: e in a ==> e.id <= cursor;
  }

  lemma SameTail(a: Entries, b: Entries, last: nat, cursor: nat)
    requires Increasing(a + b)
    requires cursor == last || exists e :: e in a && e.id == cursor && cursor > last
    ensures After(b, cursor) == After(b, last)
  {
    if cursor != last {
      var i :| 0 <= i < |a| && a[i].id == cursor;
      forall j | 0 <= j < |b| ensures b[j].id > cursor {
        assert (a + b)[i] == a[i] && (a + b)[|a| + j] == b[j];
      }
      AfterIsExact(b, last);
      AfterIsExact(b, cursor);
    }
  }

  lemma PlayKeepsLog(s: LogState, op: LogOp)
    requires WellLogged(s.entries, s.nextId)
    requires op.Publish? ==> |Published(s.entries, s.nextId, op.event, op.attempt, op.text, op.key)| <= MAX_ENTRIES
    ensures WellLogged(Play(s, op).entries, Play(s, op).nextId) && s.entries <= Play(s, op).entries
  {
    if op.Publish? {
      PublishedIsWellLogged(s.entries, s.nextId, op.event, op.attempt, op.text, op.key);
    }
  }

  /** Over every history of publications and polls in which nothing is trimmed: what the client received, followed
      by what its next poll would send, is exactly the events after its first cursor. So none is lost, none is sent
      twice, and the order is that of the log. */
  lemma {:induction false} PollsLoseNothing(s: LogState, ops: seq<LogOp>)
    requires WellLogged(s.entries, s.nextId) && Untrimmed(s, ops)
    ensures var t := PlayAll(s, ops);
            && WellLogged(t.entries, t.nextId) && s.entries <= t.entries
            && t.received + After(t.entries, t.cursor) == s.received + After(t.entries, s.cursor)
    decreases |ops|
  {
    if ops != [] {
      var next, t := Play(s, ops[0]), PlayAll(s, ops);
      PlayKeepsLog(s, ops[0]);
      hide *;
      PollsLoseNothing(next, ops[1..]);
      LogIncreases(t.entries, t.nextId);
      StepReceives(s, ops[0], t.entries);
    }
  }

  /** Measured against a later log, a poll moves events from "to be sent" to "received" and nothing else. */
  lemma StepReceives(s: LogState, op: LogOp, later: Entries)
    requires s.entries <= later && Increasing(later)
    ensures Play(s, op).received + After(later, Play(s, op).cursor) == s.received + After(later, s.cursor)
  {
    if op.Poll? {
      var sent, next := After(s.entries, s.cursor), Play(s, op).cursor;
      assert s.entries + later[|s.entries|..] == later;
      hide After, Increasing;
      PollTwice(s.entries, later[|s.entries|..], s.cursor);
      assert (s.received + sent) + After(later, next) == s.received + (sent + After(later, next));
    }
  }

  lemma LogIncreases(entries: Entries, nextId: nat)
    requires WellLogged(entries, nextId)
    ensures Increasing(entries)
  {
  }

  /** A poll keeps the ids strictly increasing. */
  lemma {:induction false} AfterIsIncreasing(entries: Entries, last: nat)
    requires Increasing(entries)
    ensures Increasing(After(entries, last))
  {
    if entries != [] {
      var rest := After(entries[1..], last);
      TailIsHigher(entries);
      AfterIsIncreasing(entries[1..], last);
      assert After(entries, last) == (if entries[0].id > last then [entries[0]] + rest else rest);
      hide After, Increasing;
      AfterIsExact(entries[1..], last);
      PrependIncreasing(entries[0], rest);
    }
  }

  lemma TailIsHigher(entries: Entries)
    requires Increasing(entries) && entries != []
    ensures Increasing(entries[1..]) && forall e :: e in entries[1..] ==> e.id > entries[0].id
  {
  }

  lemma PrependIncreasing(e: Entry, rest: Entries)
    requires Increasing(rest) && forall x :: x in rest ==> x.id > e.id
    ensures Increasing([e] + rest)
  {
  }

  /** Trimming costs a client events exactly when it had not yet seen the newest trimmed one. */
  lemma TrimmingLosesExactly(entries: Entries, cut: nat, last: nat)
    requires Increasing(entries) && cut <= |entries|
    ensures After(entries[cut..], last) == After(entries, last) <==> cut == 0 || entries[cut - 1].id <= last
  {
    assert entries[..cut] + entries[cut..] == entries;
    AfterAppend(entries[..cut], entries[cut..], last);
    AfterIsExact(entries[..cut], last);
    if cut > 0 {
      assert entries[..cut][cut - 1] == entries[cut - 1];
      if entries[cut - 1].id <= last {
        forall e | e in entries[..cut] ensures e.id <= last {
          var i :| 0 <= i < cut && entries[i] == e;
        }
      } else {
        assert entries[cut - 1] in After(entries[..cut], last);
        assert |After(entries[..cut], last)| > 0;
      }
    } else {
      assert entries[cut..] == entries;
    }
  }

  // ---------- buffered answer text ----------

  /** The answer text that clients can replay for one attempt. */
  function Buffered(entries: Entries, attempt: nat): string {
    if entries == [] then ""
    else
      Buffered(entries[..|entries| - 1], attempt)
      + (var e := entries[|entries| - 1]; if e.event.AnswerDelta? && e.attempt == attempt then e.text else "")
  }

  lemma BufferedAppend(entries: Entries, e: Entry, attempt: nat)
    ensures Buffered(entries + [e], attempt)
         == Buffered(entries, attempt) + (if e.event.AnswerDelta? && e.attempt == attempt then e.text else "")
  {
    assert (entries + [e])[..|entries|] == entries;
  }

  /** A replayed piece of the final answer lies inside the text that is already buffered. */
  ghost predicate FinalKeysFit(entries: Entries) {
    forall i :: 0 <= i < |entries| && entries[i].key.Some? && entries[i].key.value.FinalAnswer? ==>
                  entries[i].key.value.offset < |Buffered(entries, entries[i].key.value.attempt)|
  }

  /** Publishing keeps that, if pieces of the final answer are published only where the buffered text ends. */
  lemma PublishedKeepsFinalKeys(entries: Entries, id: nat, event: Event, attempt: nat, text: string, key: Option<Key>)
    requires FinalKeysFit(entries)
    requires key.Some? && key.value.FinalAnswer? ==>
               event.AnswerDelta? && attempt == key.value.attempt && text != ""
               && key.value.offset <= |Buffered(entries, attempt)|
    ensures FinalKeysFit(Published(entries, id, event, attempt, text, key))
  {
    var e := Entry(id, event, attempt, text, key);
    var longer := entries + [e];
    forall i | 0 <= i < |longer| && longer[i].key.Some? && longer[i].key.value.FinalAnswer?
      ensures longer[i].key.value.offset < |Buffered(longer, longer[i].key.value.attempt)|
    {
      BufferedAppend(entries, e, longer[i].key.value.attempt);
    }
  }
}
