/** The process-wide table of replay logs, and the projection of a durable run into its log. */
module RunEventStreams {
  import opened Common
  import opened RunEventLog
  import opened AgentRunRecords
  import opened PrivateStreamFilter
  import Text

  /** What the projection reads of a stored run. */
  datatype RunView = RunView(
    runId: string,
    status: RunStatus,
    attempt: nat,
    clarificationId: string,
    question: string,
    errorMessage: string,
    progress: seq<string>,
    content: string,
    artifacts: seq<string>)

  /** The key of the one event that stands for a run that has not succeeded. */
  function StatusOf(run: RunView): Key {
    match run.status
    case Pending => StatusKey(run.attempt, "pending")
    case Running => StatusKey(run.attempt, "running")
    case WaitingInput => TerminalKey(run.attempt, "clarification:" + run.clarificationId)
    case Failed => TerminalKey(run.attempt, "failed")
    case Succeeded => TerminalKey(run.attempt, "succeeded")
  }

  /** A run that has not succeeded is announced as what it is: waiting for its slot, running, asking its question, or
      failed with its message. */
  ghost predicate TellsStatus(run: RunView, e: Entry) {
    && e.attempt == run.attempt
    && (run.status.Pending? ==> e.event.Progress? && e.text == "pending")
    && (run.status.Running? ==> e.event.Progress? && e.text == "running")
    && (run.status.WaitingInput? ==> e.event.ClarificationRequired? && e.text == run.question)
    && (run.status.Failed? ==> e.event.ErrorEvent? && e.text == run.errorMessage)
  }

  /** A pending run is announced under the key that its creation used, and a running one under that of its claim, so
      neither is announced twice. */
  lemma StatusKeysAreThoseOfTheService(run: RunView)
    ensures run.status.Pending? ==> StatusOf(run) == StatusKey(run.attempt, "pending")
    ensures run.status.Running? ==> StatusOf(run) == StatusKey(run.attempt, "running")
    ensures run.status.Succeeded? ==> StatusOf(run) == TerminalKey(run.attempt, "succeeded")
    ensures run.status.Failed? ==> StatusOf(run) == TerminalKey(run.attempt, "failed")
  {
  }

  /** What was announced before hides no later state: two runs share a status key only if they are in the same attempt
      and the same state, waiting for the same question. */
  lemma StatusKeysTellApart(a: RunView, b: RunView)
    ensures StatusOf(a) == StatusOf(b)
       <==> && a.attempt == b.attempt && a.status == b.status
            && (a.status.WaitingInput? ==> a.clarificationId == b.clarificationId)
  {
    var prefix := "clarification:";
    assert (prefix + a.clarificationId)[|prefix|..] == a.clarificationId;
    assert (prefix + b.clarificationId)[|prefix|..] == b.clarificationId;
    assert (prefix + a.clarificationId)[0] == (prefix + b.clarificationId)[0] == 'c';
  }

  ghost predicate StepsAnnounced(entries: Entries, run: RunView) {
    forall i :: 0 <= i < |run.progress| && Text.Strip(run.progress[i]) != "" ==>
                  HasKey(entries, ResultProgress(run.attempt, Text.Strip(run.progress[i])))
  }

  ghost predicate ArtifactsAnnounced(entries: Entries, run: RunView) {
    forall i :: 0 <= i < |run.artifacts| && run.artifacts[i] != "" ==> HasKey(entries, ArtifactKey(run.artifacts[i]))
  }

  /** Nothing is left to publish: every event is there, and the answer text, if it is replayed, is complete or
      cannot be continued. */
  ghost predicate Materialized(entries: Entries, run: RunView, replay: bool) {
    && StepsAnnounced(entries, run)
    && ArtifactsAnnounced(entries, run)
    && HasKey(entries, TerminalKey(run.attempt, "succeeded"))
    && (replay && Buffered(entries, run.attempt) <= CallerVisible(run.content) ==>
          Buffered(entries, run.attempt) == CallerVisible(run.content))
  }

  ghost predicate AllIssued(entries: Entries, issued: set<nat>) {
    forall i :: 0 <= i < |entries| ==> entries[i].id in issued
  }

  /** How many pieces of at most 24 characters a text of `n` characters is published in. */
  function Pieces(n: nat): nat {
    (n + 23) / 24
  }

  /** The log can take `n` more events without trimming. */
  ghost predicate Roomy(entries: Entries, n: nat) {
    |entries| + n <= MAX_ENTRIES
  }

  /** What is missing of the final answer when `streamed` was streamed; nothing, when that cannot be continued. */
  function Missing(streamed: string, content: string): nat {
    if streamed <= content then |content| - |streamed| else 0
  }

  /** The log can take every event that the projection of `run` may still have to publish. */
  ghost predicate HasRoomFor(entries: Entries, run: RunView) {
    Roomy(entries, |run.progress| + Pieces(Missing(Buffered(entries, run.attempt), CallerVisible(run.content)))
                   + |run.artifacts| + 1)
  }

  /** `later` continues `entries` by at most `n` events, with pieces of the final answer in place. */
  ghost predicate Continued(entries: Entries, later: Entries, n: nat) {
    entries <= later && |later| <= |entries| + n && (FinalKeysFit(entries) ==> FinalKeysFit(later))
  }

  /** The event announces a step of the run. */
  ghost predicate StepEntry(run: RunView, e: Entry) {
    && e.event.Progress? && e.attempt == run.attempt && e.key == Some(ResultProgress(run.attempt, e.text))
    && exists i :: 0 <= i < |run.progress| && Text.Strip(run.progress[i]) == e.text != ""
  }

  /** The event announces an artifact of the run. */
  ghost predicate ArtifactEntry(run: RunView, e: Entry) {
    && e.event.ArtifactReady? && e.attempt == run.attempt && e.key == Some(ArtifactKey(e.text))
    && e.text != "" && e.text in run.artifacts
  }

  /** The event carries a piece of the final answer. */
  ghost predicate PieceEntry(attempt: nat, e: Entry) {
    && e.event.AnswerDelta? && e.attempt == attempt && 1 <= |e.text| <= 24
    && e.key.Some? && e.key.value.FinalAnswer? && e.key.value.attempt == attempt
  }

  /** The event carries the authoritative final content. */
  ghost predicate CompletedEntry(run: RunView, e: Entry) {
    && e.event.RunCompleted? && e.attempt == run.attempt && e.text == CallerVisible(run.content)
    && e.key == Some(TerminalKey(run.attempt, "succeeded"))
  }

  ghost predicate AddsSteps(entries: Entries, later: Entries, run: RunView) {
    forall i :: |entries| <= i < |later| ==> StepEntry(run, later[i])
  }

  ghost predicate AddsArtifacts(entries: Entries, later: Entries, run: RunView) {
    forall i :: |entries| <= i < |later| ==> ArtifactEntry(run, later[i])
  }

  ghost predicate AddsPieces(entries: Entries, later: Entries, attempt: nat) {
    forall i :: |entries| <= i < |later| ==> PieceEntry(attempt, later[i])
  }

  /** What `later` has more than `entries` is the one given event. */
  ghost predicate AddsOnly(entries: Entries, later: Entries, event: Event, attempt: nat, text: string, key: Key) {
    forall i :: |entries| <= i < |later| ==> later[i] == Entry(later[i].id, event, attempt, text, Some(key))
  }

  /** Pieces of the final answer are published where the buffered text ends. */
  ghost predicate PieceInPlace(entries: Entries, event: Event, attempt: nat, text: string, key: Option<Key>) {
    key.Some? && key.value.FinalAnswer? ==>
      && event.AnswerDelta? && attempt == key.value.attempt && text != ""
      && key.value.offset <= |Buffered(entries, attempt)|
  }

  lemma HasKeyExtends(entries: Entries, later: Entries, key: Key)
    requires entries <= later && HasKey(entries, key)
    ensures HasKey(later, key)
  {
    var i :| 0 <= i < |entries| && entries[i].key == Some(key);
    assert later[i] == entries[i];
  }

  ghost predicate AllLogged(logs: map<string, Entries>, nextId: nat, issued: set<nat>) {
    forall r :: r in logs ==> WellLogged(logs[r], nextId) && AllIssued(logs[r], issued) && PiecesFit(logs[r])
  }

  /** A log that was never trimmed holds only pieces that lie inside the buffered text. */
  ghost predicate PiecesFit(entries: Entries) {
    |entries| < MAX_ENTRIES ==> FinalKeysFit(entries)
  }

  class AgentRunEventLog {
    var logs: map<string, Entries>
    /** The run ids in the order in which their logs were opened. */
    var order: seq<string>
    var nextId: nat
    /** Every id that was ever given to an event, also of logs that are gone. */
    ghost var issued: set<nat>

    ghost predicate Valid()
      reads this
    {
      && (forall r :: r in order <==> r in logs)
      && (forall i, j :: 0 <= i < j < |order| ==> order[i] != order[j])
      && |order| <= MAX_RUNS
      && AllLogged(logs, nextId, issued)
      && (forall id :: id in issued ==> id < nextId)
    }

    function Of(run: string): Entries
      reads this
    {
      if run in logs then logs[run] else []
    }

    constructor (firstId: nat)
      ensures Valid() && logs == map[] && nextId == firstId && issued == {}
    {
      logs, order, nextId, issued := map[], [], firstId, {};
    }

    /** Makes sure that the run has a log; past the limit the first opened log is dropped. */
    method OpenLog(run: string)
      requires Valid()
      modifies this
      ensures Valid() && nextId == old(nextId) && issued == old(issued) && run in logs && Of(run) == old(Of(run))
      ensures |order| <= 512
      ensures forall r :: r in logs && r != run ==> r in old(logs) && logs[r] == old(logs)[r]
      ensures run in old(logs) ==> logs == old(logs) && order == old(order)
      ensures |old(order)| < 512 ==> forall r :: r in old(logs) ==> r in logs
      ensures |old(order)| >= 512 ==> forall r :: r in old(logs) && r != old(order)[0] ==> r in logs
    {
      if run in logs {
        return;
      }
      if |order| >= MAX_RUNS {
        logs := logs - {order[0]};
        order := order[1..];
      }
      logs := logs[run := []];
      order := order + [run];
    }

    /** Appends one event and returns its id, or the id of the live event with the same key; None when the id
        space is exhausted. An appended event takes the counter's value, so no id is ever issued twice. */
    method PublishEvent(run: string, event: Event, attempt: nat, text: string, key: Option<Key>)
      returns (id: Option<nat>)
      requires Valid() && (|Of(run)| < MAX_ENTRIES ==> PieceInPlace(Of(run), event, attempt, text, key))
      modifies this
      ensures Valid() && old(nextId) <= nextId <= old(nextId) + 1
      ensures id.Some? ==> Of(run) == Trimmed(Published(old(Of(run)), old(nextId), event, attempt, text, key))
      ensures id.Some? ==> exists e :: e in Of(run) && e.id == id.value && (key.Some? ==> e.key == key)
      ensures id.Some? && !(key.Some? && HasKey(old(Of(run)), key.value)) ==>
                Entry(id.value, event, attempt, text, key) in Of(run)
      ensures id.Some? && !(key.Some? && HasKey(old(Of(run)), key.value)) ==>
                id.value !in old(issued) && issued == old(issued) + {id.value} && id.value == old(nextId) < nextId
      ensures issued >= old(issued)
      ensures key.Some? && HasKey(old(Of(run)), key.value) ==> id.Some? && logs == old(logs) && nextId == old(nextId)
      ensures id.None? ==> Of(run) == old(Of(run)) && nextId == old(nextId) > MAX_SSE_EVENT_ID
      ensures forall r :: r in logs && r != run ==> r in old(logs) && logs[r] == old(logs)[r]
    {
      hide WellLogged, AllIssued;
      OpenLog(run);
      var entries := logs[run];
      if key.Some? {
        var live := FindKey(entries, key.value);
        if live.Some? {
          PublishedIsWellLogged(entries, nextId, event, attempt, text, key);
          return Some(entries[live.value].id);
        }
      }
      if nextId > MAX_SSE_EVENT_ID {
        return None;
      }
      id := Some(nextId);
      Append(run, Entry(nextId, event, attempt, text, key));
    }

    method Append(run: string, entry: Entry)
      requires Valid() && run in logs && entry.id == nextId
      requires entry.key.Some? ==> !HasKey(logs[run], entry.key.value)
      requires |logs[run]| < MAX_ENTRIES ==> PieceInPlace(logs[run], entry.event, entry.attempt, entry.text, entry.key)
      modifies `logs, `nextId, `issued
      ensures Valid() && nextId == old(nextId) + 1 && issued == old(issued) + {entry.id}
      ensures logs == old(logs)[run := Trimmed(old(logs)[run] + [entry])]
      ensures entry in logs[run]
    {
      hide AllLogged, WellLogged, AllIssued, HasKey, Trimmed, Below, Increasing, KeysOnce;
      LogsStayLogged(logs, run, entry, issued);
      nextId := nextId + 1;
      issued := issued + {entry.id};
      var kept := Trim(logs[run] + [entry]);
      assert kept[|kept| - 1] == entry;
      logs := logs[run := kept];
    }

    method Trim(entries: Entries) returns (kept: Entries)
      requires entries != []
      ensures kept == Trimmed(entries) && kept != [] && kept[|kept| - 1] == entries[|entries| - 1]
    {
      kept := entries;
      if |kept| > MAX_ENTRIES {
        kept := kept[|kept| - MAX_ENTRIES..];
      }
    }

    method FindKey(entries: Entries, key: Key) returns (at: Option<nat>)
      ensures at.None? <==> !HasKey(entries, key)
      ensures at.Some? ==> at.value < |entries| && entries[at.value].key == Some(key)
    {
      for i := 0 to |entries|
        invariant forall j :: 0 <= j < i ==> entries[j].key != Some(key)
      {
        if entries[i].key == Some(key) {
          return Some(i);
        }
      }
      return None;
    }

    lemma NoPieceAtEnd(entries: Entries, attempt: nat)
      requires FinalKeysFit(entries)
      ensures !HasKey(entries, FinalAnswer(attempt, |Buffered(entries, attempt)|))
    {
    }

    lemma AppendIsIssued(entries: Entries, issued: set<nat>, e: Entry)
      requires AllIssued(entries, issued)
      ensures AllIssued(Trimmed(entries + [e]), issued + {e.id})
    {
    }

    lemma LogsStayLogged(logs: map<string, Entries>, run: string, entry: Entry, issued: set<nat>)
      requires AllLogged(logs, entry.id, issued) && run in logs
      requires entry.key.Some? ==> !HasKey(logs[run], entry.key.value)
      requires |logs[run]| < MAX_ENTRIES ==> PieceInPlace(logs[run], entry.event, entry.attempt, entry.text, entry.key)
      ensures AllLogged(logs[run := Trimmed(logs[run] + [entry])], entry.id + 1, issued + {entry.id})
    {
      hide HasKey, FinalKeysFit;
      PublishedIsWellLogged(logs[run], entry.id, entry.event, entry.attempt, entry.text, entry.key);
      if |logs[run]| < MAX_ENTRIES {
        PublishedKeepsFinalKeys(logs[run], entry.id, entry.event, entry.attempt, entry.text, entry.key);
      }
      AppendIsIssued(logs[run], issued, entry);
    }

    /** Exactly the live events that the client has not seen, in the order of their ids. */
    method EventsAfter(run: string, last: nat) returns (sent: Entries)
      requires Valid()
      ensures sent == After(Of(run), last)
      ensures forall e :: e in sent <==> e in Of(run) && e.id > last
      ensures Increasing(sent)
    {
      var entries := Of(run);
      sent := [];
      assert entries[..0] == [];
      for i := 0 to |entries|
        invariant sent == After(entries[..i], last)
      {
        AfterAppend(entries[..i], [entries[i]], last);
        assert entries[..i + 1] == entries[..i] + [entries[i]];
        assert [entries[i]][1..] == [];
        if entries[i].id > last {
          sent := sent + [entries[i]];
        }
      }
      assert entries[..|entries|] == entries;
      AfterIsExact(entries, last);
      AfterIsIncreasing(entries, last);
    }

    method BufferedAnswer(run: string, attempt: nat) returns (text: string)
      ensures text == Buffered(Of(run), attempt)
    {
      var entries := Of(run);
      text := "";
      for i := 0 to |entries|
        invariant text == Buffered(entries[..i], attempt)
      {
        assert entries[..i + 1][..i] == entries[..i];
        if entries[i].event.AnswerDelta? && entries[i].attempt == attempt {
          text := text + entries[i].text;
        }
      }
      assert entries[..|entries|] == entries;
    }

    /** The next piece lands right behind the buffered text. */
    lemma PieceFits(entries: Entries, id: nat, attempt: nat, streamed: string, missing: string, offset: nat, end: nat)
      requires FinalKeysFit(entries) && offset < end <= |missing| && |entries| < MAX_ENTRIES
      requires Buffered(entries, attempt) == streamed + missing[..offset]
      ensures var key := FinalAnswer(attempt, |streamed| + offset);
              var later := Trimmed(Published(entries, id, AnswerDelta, attempt, missing[offset..end], Some(key)));
              && !HasKey(entries, key) && entries <= later && |later| == |entries| + 1 && FinalKeysFit(later)
              && later[|entries|] == Entry(id, AnswerDelta, attempt, missing[offset..end], Some(key))
              && Buffered(later, attempt) == streamed + missing[..end]
    {
      hide FinalKeysFit, Buffered, HasKey;
      var key := FinalAnswer(attempt, |streamed| + offset);
      var piece := missing[offset..end];
      NoPieceAtEnd(entries, attempt);
      PublishedKeepsFinalKeys(entries, id, AnswerDelta, attempt, piece, Some(key));
      BufferedAppend(entries, Entry(id, AnswerDelta, attempt, piece, Some(key)), attempt);
      assert (streamed + missing[..offset]) + piece == streamed + missing[..end];
    }

    lemma LogFits(run: string)
      requires Valid()
      ensures PiecesFit(Of(run)) && |Of(run)| <= MAX_ENTRIES
    {
    }

    lemma PieceCounts(n: nat, offset: nat, end: nat)
      requires offset < n && offset % 24 == 0 && end == Min(offset + 24, n)
      ensures Pieces(end) == Pieces(offset) + 1 <= Pieces(n)
      ensures end % 24 == 0 || end == n
    {
    }

    lemma PiecesGrow(m: nat, n: nat)
      requires m <= n
      ensures Pieces(m) <= Pieces(n)
    {
    }

    /** How far the pieces have got: `offset` characters of `missing` follow the `streamed` text. */
    ghost predicate Streaming(before: Entries, entries: Entries, attempt: nat, streamed: string, missing: string,
                              offset: nat) {
      && offset <= |missing| && (offset % 24 == 0 || offset == |missing|)
      && |entries| <= MAX_ENTRIES
      && (Roomy(before, Pieces(|missing|)) ==>
            Continued(before, entries, Pieces(offset)) && AddsPieces(before, entries, attempt))
      && (|entries| < MAX_ENTRIES || Roomy(before, Pieces(|missing|)) ==>
            Buffered(entries, attempt) == streamed + missing[..offset])
    }

    lemma PieceFollows(before: Entries, entries: Entries, id: nat, attempt: nat, streamed: string, missing: string,
                       offset: nat, end: nat)
      requires Streaming(before, entries, attempt, streamed, missing, offset) && PiecesFit(entries)
      requires offset < |missing| && end == Min(offset + 24, |missing|)
      ensures var key := Some(FinalAnswer(attempt, |streamed| + offset));
              && (|entries| < MAX_ENTRIES ==> PieceInPlace(entries, AnswerDelta, attempt, missing[offset..end], key))
              && Streaming(before, Trimmed(Published(entries, id, AnswerDelta, attempt, missing[offset..end], key)),
                           attempt, streamed, missing, end)
    {
      PieceCounts(|missing|, offset, end);
      hide FinalKeysFit, Buffered, HasKey, Pieces;
      if |entries| < MAX_ENTRIES {
        PieceFits(entries, id, attempt, streamed, missing, offset, end);
      }
    }

    /** Publishes what is missing of the answer, in pieces of 24 characters, behind the `streamed` text. */
    method PublishAnswerPieces(run: string, attempt: nat, streamed: string, missing: string) returns (ok: bool)
      requires Valid() && streamed == Buffered(Of(run), attempt)
      modifies this
      ensures Valid()
      ensures old(Roomy(Of(run), Pieces(|missing|))) ==>
                && Continued(old(Of(run)), Of(run), Pieces(|missing|))
                && AddsPieces(old(Of(run)), Of(run), attempt)
                && (ok ==> Buffered(Of(run), attempt) == streamed + missing)
      ensures !ok ==> nextId > MAX_SSE_EVENT_ID
      ensures missing == "" ==> ok && logs == old(logs) && nextId == old(nextId)
    {
      hide FinalKeysFit, Published, Trimmed, Buffered, HasKey, Increasing, KeysOnce, Below, AllIssued, PieceInPlace;
      var offset := 0;
      ghost var before := Of(run);
      assert streamed + missing[..0] == streamed;
      while offset < |missing|
        invariant Valid() && Streaming(before, Of(run), attempt, streamed, missing, offset)
        invariant missing == "" ==> logs == old(logs) && nextId == old(nextId)
      {
        var end := Min(offset + 24, |missing|);
        LogFits(run);
        PiecesGrow(offset, |missing|);
        PieceFollows(before, Of(run), nextId, attempt, streamed, missing, offset, end);
        var key := FinalAnswer(attempt, |streamed| + offset);
        var id := PublishEvent(run, AnswerDelta, attempt, missing[offset..end], Some(key));
        if id.None? {
          return false;
        }
        offset := end;
      }
      assert missing[..offset] == missing;
      return true;
    }

    /** Completes the buffered answer to `content`, unless what was streamed does not begin it or answers are not
        replayed. */
    method PublishAnswer(run: string, attempt: nat, content: string, replay: bool) returns (ok: bool)
      requires Valid()
      modifies this
      ensures Valid()
      ensures var was := old(Buffered(Of(run), attempt));
              var pieces := Pieces(Missing(was, content));
              old(Roomy(Of(run), pieces)) ==>
                && Continued(old(Of(run)), Of(run), pieces) && AddsPieces(old(Of(run)), Of(run), attempt)
                && (ok ==> Buffered(Of(run), attempt) == if replay && was <= content then content else was)
      ensures (replay && old(Buffered(Of(run), attempt)) <= content ==> old(Buffered(Of(run), attempt)) == content) ==>
                ok && logs == old(logs) && nextId == old(nextId)
    {
      hide WellLogged, FinalKeysFit, Buffered, HasKey;
      var streamed := BufferedAnswer(run, attempt);
      if !replay || !(streamed <= content) {
        return true;
      }
      var missing := content[|streamed|..];
      assert streamed + missing == content;
      ok := PublishAnswerPieces(run, attempt, streamed, missing);
    }

    /** Publishes one event that carries no answer text. */
    method Announce(run: string, event: Event, attempt: nat, text: string, key: Key) returns (ok: bool)
      requires Valid() && !event.AnswerDelta? && !key.FinalAnswer?
      modifies this
      ensures Valid()
      ensures old(Roomy(Of(run), 1)) ==>
                && Continued(old(Of(run)), Of(run), 1)
                && (forall a :: Buffered(Of(run), a) == old(Buffered(Of(run), a)))
                && AddsOnly(old(Of(run)), Of(run), event, attempt, text, key)
      ensures ok ==> HasKey(Of(run), key)
      ensures ok && !HasKey(old(Of(run)), key) ==> exists id :: Entry(id, event, attempt, text, Some(key)) in Of(run)
      ensures HasKey(old(Of(run)), key) ==> ok && logs == old(logs) && nextId == old(nextId)
    {
      assert |Of(run)| <= MAX_ENTRIES;
      hide WellLogged, FinalKeysFit, Buffered, HasKey, Published, Trimmed;
      AnnouncementFits(Of(run), nextId, event, attempt, text, key);
      var id := PublishEvent(run, event, attempt, text, Some(key));
      return id.Some?;
    }

    lemma AnnouncementFits(entries: Entries, id: nat, event: Event, attempt: nat, text: string, key: Key)
      requires !event.AnswerDelta? && !key.FinalAnswer?
      ensures var later := Trimmed(Published(entries, id, event, attempt, text, Some(key)));
              && (Roomy(entries, 1) ==>
                    && Continued(entries, later, 1) && (forall a :: Buffered(later, a) == Buffered(entries, a))
                    && AddsOnly(entries, later, event, attempt, text, key))
              && (|entries| <= MAX_ENTRIES ==> HasKey(later, key))
    {
      var entry := Entry(id, event, attempt, text, Some(key));
      PublishedTrimmed(entries, entry, key);
      if HasKey(entries, key) {
        NothingAdded(entries, event, attempt, text, key);
      } else {
        NewestHasKey(entries, entry, key);
        EntryAdded(entries, entry, key);
      }
      hide Buffered, FinalKeysFit, HasKey, Trimmed, Published, Continued, AddsOnly;
    }

    lemma PublishedTrimmed(entries: Entries, entry: Entry, key: Key)
      requires entry.key == Some(key)
      ensures var later := Published(entries, entry.id, entry.event, entry.attempt, entry.text, entry.key);
              && (HasKey(entries, key) && |entries| <= MAX_ENTRIES ==> Trimmed(later) == entries)
              && (!HasKey(entries, key) ==> later == entries + [entry])
              && (!HasKey(entries, key) && |entries| < MAX_ENTRIES ==> Trimmed(later) == entries + [entry])
    {
    }

    lemma NothingAdded(entries: Entries, event: Event, attempt: nat, text: string, key: Key)
      ensures Continued(entries, entries, 1) && AddsOnly(entries, entries, event, attempt, text, key)
    {
    }

    lemma EntryAdded(entries: Entries, entry: Entry, key: Key)
      requires entry.key == Some(key) && !entry.event.AnswerDelta? && !key.FinalAnswer? && !HasKey(entries, key)
      ensures var longer := entries + [entry];
              && Continued(entries, longer, 1) && (forall a :: Buffered(longer, a) == Buffered(entries, a))
              && AddsOnly(entries, longer, entry.event, entry.attempt, entry.text, key)
    {
      BufferedStays(entries, entry);
      PublishedKeepsFit(entries, entry);
      hide Buffered, FinalKeysFit, HasKey;
    }

    lemma NewestHasKey(entries: Entries, entry: Entry, key: Key)
      requires entry.key == Some(key)
      ensures HasKey(Trimmed(entries + [entry]), key)
    {
      var longer := entries + [entry];
      var kept := Trimmed(longer);
      assert longer[|entries|] == entry;
      assert kept[|kept| - 1] == entry;
    }

    lemma BufferedStays(entries: Entries, entry: Entry)
      requires !entry.event.AnswerDelta?
      ensures forall a :: Buffered(entries + [entry], a) == Buffered(entries, a)
    {
      forall a ensures Buffered(entries + [entry], a) == Buffered(entries, a) {
        BufferedAppend(entries, entry, a);
        assert Buffered(entries, a) + "" == Buffered(entries, a);
      }
    }

    lemma PublishedKeepsFit(entries: Entries, entry: Entry)
      requires entry.key.Some? && !entry.key.value.FinalAnswer? && !HasKey(entries, entry.key.value)
      ensures FinalKeysFit(entries) ==> FinalKeysFit(entries + [entry])
    {
      if FinalKeysFit(entries) {
        PublishedKeepsFinalKeys(entries, entry.id, entry.event, entry.attempt, entry.text, entry.key);
      }
    }

    method PublishSteps(run: RunView) returns (ok: bool)
      requires Valid()
      modifies this
      ensures Valid()
      ensures old(Roomy(Of(run.runId), |run.progress|)) ==>
                && Continued(old(Of(run.runId)), Of(run.runId), |run.progress|)
                && (forall a :: Buffered(Of(run.runId), a) == old(Buffered(Of(run.runId), a)))
                && AddsSteps(old(Of(run.runId)), Of(run.runId), run)
                && (ok ==> StepsAnnounced(Of(run.runId), run))
      ensures StepsAnnounced(old(Of(run.runId)), run) ==> ok && logs == old(logs) && nextId == old(nextId)
    {
      hide WellLogged, FinalKeysFit, Buffered, HasKey;
      ghost var before := Of(run.runId);
      for i := 0 to |run.progress|
        invariant Valid()
        invariant Roomy(before, |run.progress|) ==>
                    && Continued(before, Of(run.runId), i) && AddsSteps(before, Of(run.runId), run)
                    && forall a :: Buffered(Of(run.runId), a) == Buffered(before, a)
        invariant Roomy(before, |run.progress|) ==>
                    forall j :: 0 <= j < i && Text.Strip(run.progress[j]) != "" ==>
                                  HasKey(Of(run.runId), ResultProgress(run.attempt, Text.Strip(run.progress[j])))
        invariant StepsAnnounced(before, run) ==> logs == old(logs) && nextId == old(nextId)
      {
        var step := Text.Strip(run.progress[i]);
        if step == "" {
          continue;
        }
        ghost var was := Of(run.runId);
        var done := Announce(run.runId, Progress, run.attempt, step, ResultProgress(run.attempt, step));
        if !done {
          return false;
        }
        forall key | was <= Of(run.runId) && HasKey(was, key) ensures HasKey(Of(run.runId), key) {
          HasKeyExtends(was, Of(run.runId), key);
        }
      }
      return true;
    }

    method PublishArtifacts(run: RunView) returns (ok: bool)
      requires Valid()
      modifies this
      ensures Valid()
      ensures old(Roomy(Of(run.runId), |run.artifacts|)) ==>
                && Continued(old(Of(run.runId)), Of(run.runId), |run.artifacts|)
                && (forall a :: Buffered(Of(run.runId), a) == old(Buffered(Of(run.runId), a)))
                && AddsArtifacts(old(Of(run.runId)), Of(run.runId), run)
                && (ok ==> ArtifactsAnnounced(Of(run.runId), run))
      ensures ArtifactsAnnounced(old(Of(run.runId)), run) ==> ok && logs == old(logs) && nextId == old(nextId)
    {
      hide WellLogged, FinalKeysFit, Buffered, HasKey;
      ghost var before := Of(run.runId);
      for i := 0 to |run.artifacts|
        invariant Valid()
        invariant Roomy(before, |run.artifacts|) ==>
                    && Continued(before, Of(run.runId), i) && AddsArtifacts(before, Of(run.runId), run)
                    && forall a :: Buffered(Of(run.runId), a) == Buffered(before, a)
        invariant Roomy(before, |run.artifacts|) ==>
                    forall j :: 0 <= j < i && run.artifacts[j] != "" ==>
                                  HasKey(Of(run.runId), ArtifactKey(run.artifacts[j]))
        invariant ArtifactsAnnounced(before, run) ==> logs == old(logs) && nextId == old(nextId)
      {
        if run.artifacts[i] == "" {
          continue;
        }
        ghost var was := Of(run.runId);
        var done := Announce(run.runId, ArtifactReady, run.attempt, run.artifacts[i], ArtifactKey(run.artifacts[i]));
        if !done {
          return false;
        }
        forall key | was <= Of(run.runId) && HasKey(was, key) ensures HasKey(Of(run.runId), key) {
          HasKeyExtends(was, Of(run.runId), key);
        }
      }
      return true;
    }

    /** Projects a succeeded run into its log. With room in the log, the buffered answer text then is exactly
        the final content whenever it is replayed and the streamed text began it; a second call publishes nothing. */
    method MaterializeSucceeded(run: RunView, replay: bool) returns (ok: bool)
      requires Valid()
      modifies this
      ensures Valid()
      ensures old(HasRoomFor(Of(run.runId), run)) && ok ==> Projected(old(Of(run.runId)), Of(run.runId), run, replay)
      ensures old(Materialized(Of(run.runId), run, replay)) ==> ok && logs == old(logs) && nextId == old(nextId)
    {
      hide WellLogged, FinalKeysFit, Buffered, HasKey, CallerVisible, StepsAnnounced, ArtifactsAnnounced, Projected,
           HasRoomFor, Roomy, Continued, Pieces, Missing, PiecesFit;
      ghost var before := Of(run.runId);
      LogFits(run.runId);
      ok := PublishSteps(run);
      if !ok {
        return false;
      }
      ghost var stepped := Of(run.runId);
      var content := VisibleContent(run.content);
      ok := PublishAnswer(run.runId, run.attempt, content, replay);
      if !ok {
        return false;
      }
      ghost var answered := Of(run.runId);
      ok := PublishArtifacts(run);
      if !ok {
        return false;
      }
      ghost var listed := Of(run.runId);
      ok := Announce(run.runId, RunCompleted, run.attempt, content, TerminalKey(run.attempt, "succeeded"));
      if ok && HasRoomFor(before, run) {
        ProjectionAddsUp(before, stepped, answered, listed, Of(run.runId), run, replay);
      }
    }

    /** The log after a complete projection: nothing was taken out, everything is announced, and the buffered text is
        the final content if it is replayed and the streamed text began it. */
    ghost predicate Projected(before: Entries, later: Entries, run: RunView, replay: bool) {
      && before <= later
      && FinalKeysFit(later)
      && Materialized(later, run, replay)
      && Buffered(later, run.attempt)
         == (if replay && Buffered(before, run.attempt) <= CallerVisible(run.content)
             then CallerVisible(run.content) else Buffered(before, run.attempt))
      && forall i :: |before| <= i < |later| ==>
           || StepEntry(run, later[i]) || ArtifactEntry(run, later[i])
           || PieceEntry(run.attempt, later[i]) || CompletedEntry(run, later[i])
    }

    /** What the four publications promise of their parts of the log adds up. */
    lemma ProjectionAddsUp(before: Entries, stepped: Entries, answered: Entries, listed: Entries, later: Entries,
                           run: RunView, replay: bool)
      requires HasRoomFor(before, run) && PiecesFit(before)
      requires Roomy(before, |run.progress|) ==>
                 && Continued(before, stepped, |run.progress|)
                 && (forall a :: Buffered(stepped, a) == Buffered(before, a)) && StepsAnnounced(stepped, run)
                 && AddsSteps(before, stepped, run)
      requires var was, content := Buffered(stepped, run.attempt), CallerVisible(run.content);
               Roomy(stepped, Pieces(Missing(was, content))) ==>
                 && Continued(stepped, answered, Pieces(Missing(was, content)))
                 && AddsPieces(stepped, answered, run.attempt)
                 && Buffered(answered, run.attempt) == if replay && was <= content then content else was
      requires Roomy(answered, |run.artifacts|) ==>
                 && Continued(answered, listed, |run.artifacts|)
                 && (forall a :: Buffered(listed, a) == Buffered(answered, a)) && ArtifactsAnnounced(listed, run)
                 && AddsArtifacts(answered, listed, run)
      requires Roomy(listed, 1) ==>
                 && Continued(listed, later, 1) && (forall a :: Buffered(later, a) == Buffered(listed, a))
                 && AddsOnly(listed, later, RunCompleted, run.attempt, CallerVisible(run.content),
                             TerminalKey(run.attempt, "succeeded"))
      requires HasKey(later, TerminalKey(run.attempt, "succeeded"))
      ensures Projected(before, later, run, replay)
    {
      hide FinalKeysFit, Buffered, HasKey, CallerVisible, StepsAnnounced, ArtifactsAnnounced, Pieces, Missing,
           StepEntry, ArtifactEntry, PieceEntry;
      KeysAreKept(stepped, later, run);
      KeysAreKept(listed, later, run);
      assert before <= stepped <= answered <= listed <= later;
      forall i | |before| <= i < |later|
        ensures StepEntry(run, later[i]) || ArtifactEntry(run, later[i])
                || PieceEntry(run.attempt, later[i]) || CompletedEntry(run, later[i])
      {
        assert i < |stepped| ==> later[i] == stepped[i];
        assert i < |answered| ==> later[i] == answered[i];
        assert i < |listed| ==> later[i] == listed[i];
      }
    }

    lemma KeysAreKept(entries: Entries, later: Entries, run: RunView)
      requires entries <= later
      ensures StepsAnnounced(entries, run) ==> StepsAnnounced(later, run)
      ensures ArtifactsAnnounced(entries, run) ==> ArtifactsAnnounced(later, run)
    {
      forall key | HasKey(entries, key) ensures HasKey(later, key) {
        HasKeyExtends(entries, later, key);
      }
    }

    /** Projects a run in any state into its log: one status, question, failure or result. */
    method MaterializeRun(run: RunView, replay: bool) returns (ok: bool)
      requires Valid()
      modifies this
      ensures Valid()
      ensures ok && !run.status.Succeeded? ==> HasKey(Of(run.runId), StatusOf(run))
      ensures ok && !run.status.Succeeded? && !HasKey(old(Of(run.runId)), StatusOf(run)) ==>
                exists e :: e in Of(run.runId) && e.key == Some(StatusOf(run)) && TellsStatus(run, e)
      ensures !run.status.Succeeded? && HasKey(old(Of(run.runId)), StatusOf(run)) ==>
                ok && logs == old(logs) && nextId == old(nextId)
      ensures run.status.Succeeded? && old(HasRoomFor(Of(run.runId), run)) && ok ==>
                Projected(old(Of(run.runId)), Of(run.runId), run, replay)
      ensures run.status.Succeeded? && old(Materialized(Of(run.runId), run, replay)) ==>
                ok && logs == old(logs) && nextId == old(nextId)
    {
      hide WellLogged, HasKey, Materialized;
      match run.status {
        case Pending => ok := Announce(run.runId, Progress, run.attempt, "pending", StatusOf(run));
        case Running => ok := Announce(run.runId, Progress, run.attempt, "running", StatusOf(run));
        case WaitingInput =>
          ok := Announce(run.runId, ClarificationRequired, run.attempt, run.question, StatusOf(run));
        case Failed => ok := Announce(run.runId, ErrorEvent, run.attempt, run.errorMessage, StatusOf(run));
        case Succeeded => ok := MaterializeSucceeded(run, replay);
      }
    }
  }
}
