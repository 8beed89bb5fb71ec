/** What becomes of a run: an outcome that was seen is what the client gets, a failure is stored as what it is, a run
    that may be retried is, and an undisturbed run succeeds with one POST. */
module AgentRunOutcomes {
  import opened Common
  import opened AgentRunRecords
  import opened AgentRunProtocol
  import opened AgentRunSafety
  import opened AgentRunLiveness
  import Text

  // ---------- an outcome that was seen ----------

  /** The record tells the client exactly this outcome. */
  predicate Shows(r: Run, outcome: Outcome) {
    match outcome
    case Completed(result) => r.status.Succeeded? && r.result == Some(result)
    case NeedsInput(question) =>
      r.status.WaitingInput? && r.clarification == NormalClarification(question)
  }

  lemma PersistedShows(r: Run, outcome: Outcome, now: nat)
    requires Resumable(r)
    ensures var later := Persisted(r, outcome, now);
            && Shows(later, outcome)
            && later.ownerScope == r.ownerScope && later.request == r.request && later.attempts == r.attempts
            && later.startedAt == r.startedAt && later.checkpoint.receipts == r.checkpoint.receipts
            && (outcome.Completed? ==> later.completedAt == Some(now) && later.checkpoint == r.checkpoint)
  {
  }

  /** The outcome that the environment reports in `l`. */
  function Reported(l: Label): Option<Outcome> {
    match l
    case RecoveryReturns(Sees(outcome, _), _) => outcome
    case HandlerReturns(Sees(outcome, _), _) => outcome
    case ReplyArrives(outcome, _) => Some(outcome)
    case _ => None
  }

  /** Wherever an outcome is reported, by the recovery inspection, the handler's inspection or the reply, and whatever
      progress or flag goes with it: the step is open, ends the pass, and the client gets exactly that outcome. */
  lemma ReportedOutcomeIsShown(max: nat, s: State, l: Label)
    requires max >= 1 && Base(max, s) && Reported(l).Some?
    requires (l.RecoveryReturns? && s.exec.Recovering?) || (l.HandlerReturns? && s.exec.Handling?)
             || (l.ReplyArrives? && s.exec.AwaitingReply?)
    ensures Step(max, s, l).Some?
    ensures var t := Step(max, s, l).value;
            t.exec.Idle? && t.posts == s.posts && t.record.Some? && Shows(t.record.value, Reported(l).value)
  {
    var r := s.record.value;
    hide Shape, Budget, History;
    match l
    case RecoveryReturns(Sees(outcome, _), now) => PersistedShows(r, outcome.value, now);
    case HandlerReturns(Sees(outcome, _), now) => PersistedShows(r, outcome.value, now);
    case ReplyArrives(outcome, now) => PersistedShows(r, outcome, now);
  }

  /** And only a reported outcome makes a run succeed or wait. */
  lemma OnlyReportedOutcomesAreShown(max: nat, s: State, l: Label)
    requires max >= 1 && Base(max, s) && Step(max, s, l).Some? && s.record.Some? && Resumable(s.record.value)
    requires var r := Step(max, s, l).value.record.value; r.status.Succeeded? || r.status.WaitingInput?
    ensures Reported(l).Some? && Shows(Step(max, s, l).value.record.value, Reported(l).value)
  {
    hide Shape, Budget, History;
  }

  // ---------- recovery without an outcome ----------

  /** The error that a client sees. */
  predicate FailsWith(t: State, error: RunError) {
    t.record.Some? && t.record.value.status.Failed? && t.record.value.error == Some(error)
  }

  /** A recovery inspection that sees no outcome: a submitted or progressed turn is never replayed, a spent budget ends
      the run, an interrupted attempt is requeued, and a run that only waited goes on to its attempt untouched. */
  lemma RecoveryDecides(max: nat, s: State, progressed: bool, now: nat)
    requires max >= 1 && Base(max, s) && s.exec.Recovering?
    ensures Step(max, s, RecoveryReturns(Sees(None, progressed), now)).Some?
    ensures var r, t := s.record.value, Step(max, s, RecoveryReturns(Sees(None, progressed), now)).value;
            && t.posts == s.posts
            && if r.checkpoint.submissionStarted || progressed then
                 t.exec.Idle? && FailsWith(t, RunError("AGENT_RUN_OUTCOME_UNKNOWN", false, true, false))
               else if EpochAttempts(r) >= max then
                 t.exec.Idle? && FailsWith(t, RunError("AGENT_RUN_RETRY_EXHAUSTED", false, false, true))
               else if r.status.Running? then
                 t.exec == Clearing(r)
                 && FailsWith(t, RunError("AGENT_RUN_INTERRUPTED_BEFORE_SUBMISSION", true, false, false))
               else
                 t == s.(exec := Queued(r))
  {
    hide Shape, Budget, History;
  }

  /** What the clearing and the requeueing make of a failure that is safe to retry: the run is pending again, its flag
      is clear, and no attempt is counted. */
  lemma RequeueingRequeues(max: nat, s: State)
    requires max >= 1 && Base(max, s) && s.exec.Clearing?
    ensures Run'(max, s, [Clear, Requeue, Wake]).Some?
    ensures var r, t := s.record.value, Run'(max, s, [Clear, Requeue, Wake]).value;
            && t.exec.Top? && t.posts == s.posts && t.record.Some?
            && t.record.value.status.Pending? && !t.record.value.checkpoint.submissionStarted
            && t.record.value.attempts == r.attempts && EpochAttempts(t.record.value) == EpochAttempts(r)
            && t.record.value.request == r.request && t.record.value.checkpoint.receipts == r.checkpoint.receipts
            && t.record.value.checkpoint.pendingInput == r.checkpoint.pendingInput
  {
    assert s.record.value.status.Failed? && EpochAttempts(s.record.value) < max;
    hide Step, Base, Run';
    RequeueThenTop(max, s);
  }

  // ---------- a failed attempt ----------

  /** The failure of an attempt, when the handler's inspection sees no outcome: seen progress makes the outcome unknown;
      otherwise the client sees the attempt's own error, which is retried exactly if it is safe to retry and an attempt
      is left, and is marked exhausted if only the attempts are missing. */
  lemma HandlerDecides(max: nat, s: State, seen: Inspection, now: nat)
    requires max >= 1 && Base(max, s) && s.exec.Handling? && (seen.Sees? ==> seen.outcome.None?)
    ensures Step(max, s, HandlerReturns(seen, now)).Some?
    ensures var r, e, t := s.record.value, s.exec.error, Step(max, s, HandlerReturns(seen, now)).value;
            && t.record.Some? && t.record.value.status.Failed? && t.record.value.completedAt == Some(now)
            && |t.posts| == |s.posts|
            && var stored := t.record.value.error.value;
               if seen.Sees? && seen.progressed then
                 t.exec.Idle? && FailsWith(t, RunError("AGENT_RUN_OUTCOME_UNKNOWN", false, true, e.retryExhausted))
               else if e.retryable && !e.outcomeUnknown && EpochAttempts(r) >= max then
                 t.exec.Idle? && FailsWith(t, RunError(e.code, false, false, true))
               else if e.retryable && !e.outcomeUnknown then
                 t.exec == Clearing(r) && stored == e
               else
                 t.exec.Idle? && stored == e
  {
    hide Shape, Budget, History;
  }

  /** A raising recovery inspection stores the error it raised; with the flag set it is never retried. */
  lemma RaisedErrorIsStored(max: nat, s: State, e: RunError, now: nat)
    requires max >= 1 && Base(max, s) && s.exec.Recovering?
    ensures Step(max, s, RecoveryReturns(Raises(e), now)).Some?
    ensures var r, t := s.record.value, Step(max, s, RecoveryReturns(Raises(e), now)).value;
            && t.posts == s.posts
            && if r.checkpoint.submissionStarted then
                 t.exec.Idle? && FailsWith(t, RunError(e.code, false, true, e.retryExhausted))
               else if e.retryable && !e.outcomeUnknown && EpochAttempts(r) >= max then
                 t.exec.Idle? && FailsWith(t, RunError(e.code, false, false, true))
               else
                 t.record.value.status.Failed? && t.record.value.error == Some(e)
                 && t.exec == if e.retryable && !e.outcomeUnknown then Clearing(r) else Idle
  {
    hide Shape, Budget, History;
  }

  /** A start that finds the chat session busy tells the client so, and may be retried. */
  lemma BusyStartFails(max: nat, s: State, now: nat)
    requires max >= 1 && Base(max, s) && s.exec.Idle? && s.record.Some? && Resumable(s.record.value)
    ensures Step(max, s, Spawn(true, now)).Some?
    ensures var t := Step(max, s, Spawn(true, now)).value;
            t.exec.Idle? && t.posts == s.posts && FailsWith(t, RunError("SESSION_BUSY", true, false, false))
  {
  }

  // ---------- the endpoints ----------

  /** The create endpoint retries exactly a failed run whose error is safe to retry and that has an attempt left; the
      run is then pending with a clear flag and all it had. */
  lemma ClientRetryIsGrantedExactly(max: nat, s: State)
    requires max >= 1 && Base(max, s) && s.record.Some? && !InsideRetry(s.exec)
    ensures var r := s.record.value;
            Step(max, s, EndpointRetry).Some?
            <==> r.status.Failed? && r.error.value.retryable && !r.error.value.outcomeUnknown && EpochAttempts(r) < max
    ensures Step(max, s, EndpointRetry).Some? ==>
              var r, later := s.record.value, Step(max, s, EndpointRetry).value.record.value;
              && later.status.Pending? && !later.checkpoint.submissionStarted
              && later.request == r.request && later.attempts == r.attempts && EpochAttempts(later) == EpochAttempts(r)
              && later.checkpoint.receipts == r.checkpoint.receipts
              && later.checkpoint.pendingInput == r.checkpoint.pendingInput
  {
    hide Budget, History;
  }

  /** A crash inside the retry of the endpoint leaves the run failed with a clear flag, and the next identical request
      retries it. */
  lemma CutShortRetryIsRepeated(max: nat, s: State)
    requires max >= 1 && Base(max, s) && Step(max, s, EndpointRetryCrash).Some?
    ensures var t := Step(max, s, EndpointRetryCrash).value;
            && t.exec.Idle? && t.posts == s.posts && t.record.Some?
            && t.record.value.status.Failed? && !t.record.value.checkpoint.submissionStarted
            && t.record.value.error == s.record.value.error && t.record.value.attempts == s.record.value.attempts
            && Step(max, t, EndpointRetry).Some? && Step(max, s, EndpointRetry).Some?
            && Step(max, t, EndpointRetry).value.record == Step(max, s, EndpointRetry).value.record
  {
    hide Budget, History;
  }

  /** A client's answer to a waiting run is always taken: the run is pending in a new leg with its attempts to spend.
      Any other use of the endpoint leaves the record as it is. */
  lemma ClientAnswerIsTaken(max: nat, s: State, key: string, answer: string, count: int, artifactIds: seq<string>)
    requires max >= 1 && Base(max, s) && s.record.Some?
    requires ValidKey(key) && 1 <= |Text.Strip(answer)| <= 2000 && key !in s.record.value.checkpoint.receipts
    ensures var r := s.record.value;
            r.status.WaitingInput? ==>
              && Step(max, s, Answer(key, answer, count, artifactIds)).Some?
              && var t := Step(max, s, Answer(key, answer, count, artifactIds)).value;
                 && t.exec == s.exec && t.posts == s.posts && t.record.Some?
                 && t.record.value.status.Pending? && Leg(t.record.value) == Leg(r) + 1
                 && EpochAttempts(t.record.value) == 0 && t.record.value.attempts == r.attempts
                 && t.record.value.checkpoint.pendingInput
                    == Some(PendingInput(r.clarification.value.id, r.clarification.value.question, Text.Strip(answer)))
    ensures var r := s.record.value;
            !r.status.WaitingInput? && Step(max, s, Answer(key, answer, count, artifactIds)).Some? ==>
              Step(max, s, Answer(key, answer, count, artifactIds)) == Some(s)
  {
    hide Budget, History;
  }

  // ---------- what is known of the POSTs ----------

  /** The history of POSTs only grows by a send, in the leg of the record and not yet known refused; and a POST becomes
      known as refused exactly when its own attempt fails, after it was sent and without any outcome or progress seen,
      with an error that is safe to retry. */
  lemma PostsChangeExactly(max: nat, s: State, l: Label)
    requires max >= 1 && Base(max, s) && Step(max, s, l).Some?
    ensures var t := Step(max, s, l).value;
            if l.Send? then t.posts == s.posts + [Post(|s.record.value.checkpoint.receipts|, false, l.accepted)]
            else if && l.HandlerReturns? && s.exec.sent && s.exec.error.retryable && !s.exec.error.outcomeUnknown
                    && (l.seen.Sees? ==> l.seen.outcome.None? && !l.seen.progressed)
            then && s.posts != [] && |t.posts| == |s.posts|
                 && t.posts[..|s.posts| - 1] == s.posts[..|s.posts| - 1]
                 && t.posts[|s.posts| - 1] == s.posts[|s.posts| - 1].(refused := true)
            else t.posts == s.posts
  {
    hide Shape, Budget, History, Apply, Persisted;
  }

  // ---------- an undisturbed run ----------

  /** The steps of an attempt on a claimed slot, up to the reply. */
  function AttemptLabels(outcome: Outcome, now: nat): seq<Label> {
    [ClaimSlot(now), SetFlag, Send(true), ReplyArrives(outcome, now)]
  }

  lemma AttemptSucceeds(max: nat, s: State, outcome: Outcome, now: nat)
    requires max >= 1 && Base(max, s) && s.exec.Queued?
    ensures Run'(max, s, AttemptLabels(outcome, now)).Some?
    ensures var r, t := s.record.value, Run'(max, s, AttemptLabels(outcome, now)).value;
            && t.exec.Idle? && t.record.Some? && Shows(t.record.value, outcome)
            && t.record.value.attempts == r.attempts + 1 && t.record.value.request == r.request
            && t.posts == s.posts + [Post(Leg(r), false, true)]
  {
    Positions(max, s);
    var r := s.record.value;
    var claimed := Apply(r, ClaimOp(now));
    var flagged := Apply(claimed, FlagOp(true));
    assert Resumable(flagged) && flagged.attempts == r.attempts + 1 && flagged.request == r.request;
    assert Leg(flagged) == Leg(r);
    hide Step, Base, Run', Apply, Leg, Persisted, Shows;
    var ls := AttemptLabels(outcome, now);
    var preparing := s.(record := Some(claimed), exec := Preparing(claimed));
    var submitting := s.(record := Some(flagged), exec := Submitting(flagged));
    var waiting := s.(record := Some(flagged), exec := AwaitingReply(flagged),
                      posts := s.posts + [Post(Leg(flagged), false, true)]);
    var done := waiting.(record := Some(Persisted(flagged, outcome, now)), exec := Idle);
    AttemptSteps(max, s, r, now);
    PrepareSteps(max, preparing, claimed);
    SubmitSteps(max, submitting, flagged, now);
    ReplySteps(max, waiting, flagged, now);
    PersistedShows(flagged, outcome, now);
    assert ls[1..][1..] == ls[2..] && ls[2..][1..] == ls[3..] && ls[3..][1..] == [];
    Advance(max, s, ls, preparing);
    Advance(max, preparing, ls[1..], submitting);
    Advance(max, submitting, ls[2..], waiting);
    Advance(max, waiting, ls[3..], done);
    RunOfNothing(max, done);
  }

  /** The undisturbed start of a pending run, first in its leg or retried. */
  function StartLabels(retried: bool, now: nat): seq<Label> {
    [Spawn(false, now), ReadRecord] + if retried then [RecoveryReturns(Sees(None, false), now)] else []
  }

  lemma PendingRunIsQueued(max: nat, s: State, now: nat)
    requires max >= 1 && Base(max, s) && s.exec.Idle? && s.record.Some? && s.record.value.status.Pending?
    ensures var r := s.record.value;
            Run'(max, s, StartLabels(EpochAttempts(r) > 0, now)) == Some(s.(exec := Queued(r)))
  {
    var r := s.record.value;
    var top, read, queued := s.(exec := Top), s.(exec := Recovering(r)), s.(exec := Queued(r));
    assert !r.checkpoint.submissionStarted && EpochAttempts(r) < max;
    assert Recovered(read, r, r, Sees(None, false), max, now) == queued;
    hide Step, Base, Run', Recovered, Shape;
    var ls := StartLabels(EpochAttempts(r) > 0, now);
    StartSteps(max, s, r, now);
    RecoverySteps(max, read, r, Sees(None, false), now);
    Advance(max, s, ls, top);
    assert ls[1..][1..] == ls[2..];
    if EpochAttempts(r) > 0 {
      Advance(max, top, ls[1..], read);
      assert ls[2..][1..] == [];
      Advance(max, read, ls[2..], queued);
    } else {
      assert ls[2..] == [];
      Advance(max, top, ls[1..], queued);
    }
    RunOfNothing(max, queued);
  }

  /** From every reachable state in which a run is pending and no executor is at work: started and undisturbed, it ends
      with exactly the outcome of its reply, after one more attempt and one more POST, in its own leg. */
  lemma UndisturbedRunSucceeds(max: nat, history: seq<Label>, outcome: Outcome, now: nat)
    requires max >= 1 && Run'(max, Init, history).Some?
    requires var s := Run'(max, Init, history).value;
             s.exec.Idle? && s.record.Some? && s.record.value.status.Pending?
    ensures var s := Run'(max, Init, history).value;
            var ls := StartLabels(EpochAttempts(s.record.value) > 0, now) + AttemptLabels(outcome, now);
            && Run'(max, s, ls).Some?
            && var r, t := s.record.value, Run'(max, s, ls).value;
               && t.exec.Idle? && t.record.Some? && Shows(t.record.value, outcome)
               && t.record.value.attempts == r.attempts + 1 && t.record.value.request == r.request
               && t.posts == s.posts + [Post(Leg(r), false, true)]
  {
    RunKeepsBase(max, Init, history);
    var s := Run'(max, Init, history).value;
    var r := s.record.value;
    var start := StartLabels(EpochAttempts(r) > 0, now);
    PendingRunIsQueued(max, s, now);
    RunKeepsBase(max, s, start);
    AttemptSucceeds(max, s.(exec := Queued(r)), outcome, now);
    hide Step, Base, Run', Shows, Leg;
    RunAppend(max, s, start, s.(exec := Queued(r)), AttemptLabels(outcome, now));
  }

  lemma {:induction false} RunAppend(max: nat, s: State, a: seq<Label>, t: State, b: seq<Label>)
    requires Run'(max, s, a) == Some(t)
    ensures Run'(max, s, a + b) == Run'(max, t, b)
    decreases |a|
  {
    if a == [] {
      assert a + b == b;
    } else {
      assert (a + b)[0] == a[0] && (a + b)[1..] == a[1..] + b;
      RunAppend(max, Step(max, s, a[0]).value, a[1..], t, b);
    }
  }
}
