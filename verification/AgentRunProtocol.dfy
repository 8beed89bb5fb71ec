/**
 The execution protocol of one Agent run: the durable record, the executor that drives it, the endpoints
 that create, retry and answer it, and crashes between any two durable writes.

 A state holds the record, the executor's position and the history of upstream POSTs. A label carries
 everything the environment decides, so a protocol run is a sequence of labels.
 */
module AgentRunProtocol {
  import opened Common
  import opened AgentRunRecords

  /** One upstream POST. `leg` counts the answers accepted before it. `refused` records that the executor
      learned that it took no effect; `accepted` is the upstream's own knowledge that it did. */
  datatype Post = Post(leg: nat, refused: bool, accepted: bool)

  /** A clarification request as the result parser admits it. */
  type Question = c: Clarification | NormalClarification(c).Some? witness Clarification("c", "q", [])

  datatype Outcome = Completed(result: string) | NeedsInput(question: Question)

  /** What reading the upstream session back can yield. */
  datatype Inspection = Raises(error: RunError) | Sees(outcome: Option<Outcome>, progressed: bool)

  /** Where the executor stands; `rec` is the record it last read or wrote. */
  datatype Position =
    | Idle
    | Top
    | Recovering(rec: Run)
    | Clearing(rec: Run)
    | Requeueing(rec: Run)
    | Sleeping
    | Queued(rec: Run)
    | Preparing(rec: Run)
    | Submitting(rec: Run)
    | AwaitingReply(rec: Run)
    | Handling(rec: Run, error: RunError, sent: bool)

  datatype State = State(record: Option<Run>, exec: Position, posts: seq<Post>)

  datatype Label =
    // the endpoints and the process
    | Create(scope: string, request: string, baseline: nat, artifactIds: seq<string>)
    | EndpointRetry
    | EndpointRetryCrash
    | Answer(key: string, answer: string, messageCount: int, artifactIds: seq<string>)
    | Crash
    | Spawn(busy: bool, now: nat)
    // the executor
    | ReadRecord
    | RecoveryReturns(seen: Inspection, now: nat)
    | Clear
    | Requeue
    | Wake
    | SlotFails(error: RunError)
    | ClaimSlot(now: nat)
    | PrepareFails(error: RunError)
    | SetFlag
    | SubmitFails(error: RunError)
    | Send(accepted: bool)
    | ReplyFails(error: RunError)
    | ReplyArrives(outcome: Outcome, now: nat)
    | HandlerReturns(seen: Inspection, now: nat)

  const Init := State(None, Idle, [])

  // ---------- errors ----------

  predicate SafeToRetry(e: RunError) {
    e.retryable && !e.outcomeUnknown
  }

  const SESSION_BUSY := RunError("SESSION_BUSY", true, false, false)
  const OUTCOME_UNKNOWN := RunError("AGENT_RUN_OUTCOME_UNKNOWN", false, true, false)
  const RETRY_EXHAUSTED := RunError("AGENT_RUN_RETRY_EXHAUSTED", false, false, true)
  const INTERRUPTED := RunError("AGENT_RUN_INTERRUPTED_BEFORE_SUBMISSION", true, false, false)

  /** The error that `_fail_or_retry_agent_run` stores. */
  function StoredError(rec: Run, e: RunError, max: nat): RunError {
    if SafeToRetry(e) && EpochAttempts(rec) >= max then e.(retryable := false, retryExhausted := true) else e
  }

  // ---------- the executor's atomic steps ----------

  function Persisted(r: Run, outcome: Outcome, now: nat): Run {
    match outcome
    case Completed(result) => Apply(r, SucceedOp(result, now))
    case NeedsInput(question) => Apply(r, AwaitInputOp(question))
  }

  lemma PersistSettles(r: Run, outcome: Outcome, now: nat)
    requires Resumable(r)
    ensures var next := Persisted(r, outcome, now);
            (next.status.Succeeded? || next.status.WaitingInput?) && EpochAttempts(next) == EpochAttempts(r)
  {
  }

  /** Stores `e`, then either stops or goes on to clear the flag and requeue. */
  function FailOrRetry(s: State, r: Run, rec: Run, e: RunError, max: nat, now: nat): State {
    var stored := StoredError(rec, e, max);
    s.(record := Some(Apply(r, FailOp(stored, now))), exec := if SafeToRetry(stored) then Clearing(rec) else Idle)
  }

  function FailAndStop(s: State, r: Run, e: RunError, now: nat): State {
    s.(record := Some(Apply(r, FailOp(e, now))), exec := Idle)
  }

  function Recovered(s: State, r: Run, rec: Run, seen: Inspection, max: nat, now: nat): State {
    var started := rec.checkpoint.submissionStarted;
    match seen
    case Raises(e) =>
      FailOrRetry(s, r, rec, if started then e.(retryable := false, outcomeUnknown := true) else e, max, now)
    case Sees(outcome, progressed) =>
      if outcome.Some? then s.(record := Some(Persisted(r, outcome.value, now)), exec := Idle)
      else if started || progressed then FailAndStop(s, r, OUTCOME_UNKNOWN, now)
      else if EpochAttempts(rec) >= max then FailAndStop(s, r, RETRY_EXHAUSTED, now)
      else if rec.status.Running? then FailOrRetry(s, r, rec, INTERRUPTED, max, now)
      else s.(exec := Queued(rec))
  }

  function RefuseLast(posts: seq<Post>): seq<Post> {
    if posts == [] then posts else posts[|posts| - 1 := posts[|posts| - 1].(refused := true)]
  }

  /** The exception handler after its inspection. A failure that was sent and is safe to retry is the
      executor's proof that the last POST took no effect. */
  function Handled(s: State, r: Run, seen: Inspection, max: nat, now: nat): State
    requires s.exec.Handling?
  {
    if seen.Sees? && seen.outcome.Some? then
      s.(record := Some(Persisted(r, seen.outcome.value, now)), exec := Idle)
    else
      var e := if seen.Sees? && seen.progressed
               then s.exec.error.(code := OUTCOME_UNKNOWN.code, retryable := false, outcomeUnknown := true)
               else s.exec.error;
      var learned := if s.exec.sent && SafeToRetry(e) then s.(posts := RefuseLast(s.posts)) else s;
      FailOrRetry(learned, r, s.exec.rec, e, max, now)
  }

  /** No `await` separates the failing write, the clearing write and the requeueing write, so no endpoint
      runs between them; a crash may. */
  predicate InsideRetry(exec: Position) {
    exec.Clearing? || exec.Requeueing?
  }

  predicate EndpointMayRetry(r: Run, max: nat) {
    r.status.Failed? && r.error.Some? && SafeToRetry(r.error.value) && EpochAttempts(r) < max
  }

  function Leg(r: Run): nat {
    |r.checkpoint.receipts|
  }

  /** The state after `l`, or None where `l` cannot happen. */
  function Step(max: nat, s: State, l: Label): Option<State> {
    if l.Create? then
      if s.record.Some? || !ValidIdentity(l.scope) then None
      else Some(s.(record := Some(NewRun(l.scope, l.request, l.baseline, l.artifactIds))))
    else if s.record.None? then None
    else
      var r := s.record.value;
      match l
      case EndpointRetry =>
        if InsideRetry(s.exec) || !EndpointMayRetry(r, max) then None
        else Some(s.(record := Some(Apply(Apply(r, FlagOp(false)), RetryOp(max)))))
      case EndpointRetryCrash =>
        if InsideRetry(s.exec) || !EndpointMayRetry(r, max) then None
        else Some(s.(record := Some(Apply(r, FlagOp(false))), exec := Idle))
      case Answer(key, answer, messageCount, artifactIds) =>
        if InsideRetry(s.exec) then None
        else Some(s.(record := Some(Apply(r, ResumeOp(key, answer, messageCount, artifactIds)))))
      case Crash => Some(s.(exec := Idle))
      case Spawn(busy, now) =>
        if !s.exec.Idle? || !Resumable(r) then None
        else if busy then Some(FailAndStop(s, r, SESSION_BUSY, now))
        else Some(s.(exec := Top))
      case ReadRecord =>
        if !s.exec.Top? then None
        else if !Resumable(r) then Some(s.(exec := Idle))
        else if EpochAttempts(r) > 0 || r.checkpoint.submissionStarted then Some(s.(exec := Recovering(r)))
        else Some(s.(exec := Queued(r)))
      case RecoveryReturns(seen, now) =>
        if !s.exec.Recovering? then None else Some(Recovered(s, r, s.exec.rec, seen, max, now))
      case Clear =>
        if !s.exec.Clearing? then None
        else Some(s.(record := Some(Apply(r, FlagOp(false))), exec := Requeueing(s.exec.rec)))
      case Requeue =>
        if !s.exec.Requeueing? then None
        else if Retry(r, max).Err? then Some(s.(exec := Idle))
        else Some(s.(record := Some(Apply(r, RetryOp(max))), exec := Sleeping))
      case Wake => if s.exec.Sleeping? then Some(s.(exec := Top)) else None
      case SlotFails(e) =>
        // Waiting for a slot and claiming raise only internal and store errors, which are never safe to retry.
        if s.exec.Queued? && !SafeToRetry(e) then Some(s.(exec := Handling(s.exec.rec, e, false))) else None
      case ClaimSlot(now) =>
        if !s.exec.Queued? then None
        else if !Claim(r, now).1 then Some(s.(exec := Idle))
        else Some(s.(record := Some(Apply(r, ClaimOp(now))), exec := Preparing(Apply(r, ClaimOp(now)))))
      case PrepareFails(e) => if s.exec.Preparing? then Some(s.(exec := Handling(s.exec.rec, e, false))) else None
      case SetFlag =>
        if !s.exec.Preparing? then None
        else Some(s.(record := Some(Apply(r, FlagOp(true))), exec := Submitting(Apply(r, FlagOp(true)))))
      case SubmitFails(e) => if s.exec.Submitting? then Some(s.(exec := Handling(s.exec.rec, e, false))) else None
      case Send(accepted) =>
        if !s.exec.Submitting? then None
        else Some(s.(exec := AwaitingReply(s.exec.rec), posts := s.posts + [Post(Leg(r), false, accepted)]))
      case ReplyFails(e) => if s.exec.AwaitingReply? then Some(s.(exec := Handling(s.exec.rec, e, true))) else None
      case ReplyArrives(outcome, now) =>
        if !s.exec.AwaitingReply? then None else Some(s.(record := Some(Persisted(r, outcome, now)), exec := Idle))
      case HandlerReturns(seen, now) =>
        if !s.exec.Handling? then None else Some(Handled(s, r, seen, max, now))
  }

  function Run'(max: nat, s: State, ls: seq<Label>): Option<State>
    decreases |ls|
  {
    if ls == [] then Some(s)
    else match Step(max, s, ls[0])
         case None => None
         case Some(t) => Run'(max, t, ls[1..])
  }

  // ---------- what holds in every reachable state ----------

  ghost predicate Budget(max: nat, r: Run) {
    && EpochAttempts(r) <= max
    && r.checkpoint.epochStart <= max * |r.checkpoint.receipts|
    && (r.status.Pending? ==> !r.checkpoint.submissionStarted && EpochAttempts(r) < max)
    && (r.status.WaitingInput? ==> !r.checkpoint.submissionStarted)
  }

  ghost predicate History(r: Run, posts: seq<Post>) {
    && |posts| <= r.attempts
    && forall i :: 0 <= i < |posts| ==> posts[i].leg <= Leg(r) && (posts[i].leg == Leg(r) ==> EpochAttempts(r) >= 1)
  }

  ghost predicate Placed(max: nat, r: Run, exec: Position, posts: seq<Post>) {
    match exec
    case Idle => true
    case Top => true
    case Recovering(rec) => rec == r && Resumable(r)
    case Clearing(rec) => EndpointMayRetry(r, max)
    case Requeueing(rec) => EndpointMayRetry(r, max) && !r.checkpoint.submissionStarted
    case Sleeping => r.status.Pending?
    case Queued(rec) => rec == r && r.status.Pending?
    case Preparing(rec) => rec == r && r.status.Running? && !r.checkpoint.submissionStarted && |posts| < r.attempts
    case Submitting(rec) => rec == r && r.status.Running? && r.checkpoint.submissionStarted && |posts| < r.attempts
    case AwaitingReply(rec) => rec == r && r.status.Running? && r.checkpoint.submissionStarted && posts != []
    case Handling(rec, e, sent) => rec == r && Resumable(r) && (sent ==> posts != [])
  }

  ghost predicate Base(max: nat, s: State) {
    match s.record
    case None => s.exec.Idle? && s.posts == []
    case Some(r) => Shape(r) && Budget(max, r) && History(r, s.posts) && Placed(max, r, s.exec, s.posts)
  }

  /** What a transaction needs of the record so that the budget survives it. */
  predicate OpInOrder(max: nat, r: Run, op: Op) {
    match op
    case RetryOp(maxAttempts) => maxAttempts == max && !r.checkpoint.submissionStarted
    case FlagOp(started) => started ==> r.status.Running?
    case _ => true
  }

  lemma OpKeepsBudget(max: nat, r: Run, op: Op)
    requires max >= 1 && Shape(r) && Budget(max, r) && OpInOrder(max, r, op)
    ensures Shape(Apply(r, op)) && Budget(max, Apply(r, op))
  {
    ShapePreserved(r, op);
    if op.ResumeOp? && Apply(r, op) != r {
      assert |Apply(r, op).checkpoint.receipts| == |r.checkpoint.receipts| + 1;
      assert max * (|r.checkpoint.receipts| + 1) == max * |r.checkpoint.receipts| + max;
    }
  }

  lemma OpKeepsHistory(r: Run, op: Op, posts: seq<Post>)
    requires History(r, posts)
    ensures History(Apply(r, op), posts)
  {
    var next := Apply(r, op);
    assert next.attempts >= r.attempts;
    if op.ResumeOp? && next != r {
      assert Leg(next) == Leg(r) + 1;
    } else {
      assert Leg(next) == Leg(r) && EpochAttempts(next) >= EpochAttempts(r);
    }
  }

  /** A record change by `op` that leaves the executor idle. */
  lemma OpThenIdle(max: nat, s: State, op: Op)
    requires max >= 1 && Base(max, s) && s.record.Some? && OpInOrder(max, s.record.value, op)
    ensures Base(max, s.(record := Some(Apply(s.record.value, op)), exec := Idle))
  {
    OpKeepsBudget(max, s.record.value, op);
    OpKeepsHistory(s.record.value, op, s.posts);
  }

  lemma FailOrRetryKeepsBase(max: nat, s: State, r: Run, e: RunError, now: nat)
    requires max >= 1 && Base(max, s) && s.record == Some(r) && Resumable(r)
    ensures Base(max, FailOrRetry(s, r, r, e, max, now))
  {
    OpThenIdle(max, s, FailOp(StoredError(r, e, max), now));
  }

  lemma RefusingKeepsBase(max: nat, s: State)
    requires Base(max, s)
    ensures Base(max, s.(posts := RefuseLast(s.posts)))
  {
  }

  lemma EndpointRetryKeepsBase(max: nat, s: State)
    requires max >= 1 && Base(max, s) && Step(max, s, EndpointRetry).Some?
    ensures Base(max, Step(max, s, EndpointRetry).value)
  {
    var r := s.record.value;
    OpThenIdle(max, s, FlagOp(false));
    OpThenIdle(max, s.(record := Some(Apply(r, FlagOp(false))), exec := Idle), RetryOp(max));
  }

  lemma RequeueingKeepsBase(max: nat, s: State, l: Label)
    requires max >= 1 && Base(max, s) && Step(max, s, l).Some? && (l.Clear? || l.Requeue?)
    ensures Base(max, Step(max, s, l).value)
  {
    OpThenIdle(max, s, if l.Clear? then FlagOp(false) else RetryOp(max));
  }

  lemma ClaimingKeepsBase(max: nat, s: State, now: nat)
    requires max >= 1 && Base(max, s) && Step(max, s, ClaimSlot(now)).Some?
    ensures Base(max, Step(max, s, ClaimSlot(now)).value)
  {
    OpThenIdle(max, s, ClaimOp(now));
  }

  lemma FlaggingKeepsBase(max: nat, s: State)
    requires max >= 1 && Base(max, s) && Step(max, s, SetFlag).Some?
    ensures Base(max, Step(max, s, SetFlag).value)
  {
    OpThenIdle(max, s, FlagOp(true));
  }

  lemma PersistKeepsBase(max: nat, s: State, outcome: Outcome, now: nat)
    requires max >= 1 && Base(max, s) && s.record.Some?
    ensures Base(max, s.(record := Some(Persisted(s.record.value, outcome, now)), exec := Idle))
  {
    match outcome
    case Completed(result) => OpThenIdle(max, s, SucceedOp(result, now));
    case NeedsInput(question) => OpThenIdle(max, s, AwaitInputOp(question));
  }

  lemma RecoveryKeepsBase(max: nat, s: State, seen: Inspection, now: nat)
    requires max >= 1 && Base(max, s) && s.exec.Recovering?
    ensures Base(max, Recovered(s, s.record.value, s.exec.rec, seen, max, now))
  {
    var r := s.record.value;
    OpThenIdle(max, s, FailOp(OUTCOME_UNKNOWN, now));
    OpThenIdle(max, s, FailOp(RETRY_EXHAUSTED, now));
    FailOrRetryKeepsBase(max, s, r, INTERRUPTED, now);
    match seen
    case Raises(e) =>
      FailOrRetryKeepsBase(max, s, r, e, now);
      FailOrRetryKeepsBase(max, s, r, e.(retryable := false, outcomeUnknown := true), now);
    case Sees(outcome, progressed) =>
      if outcome.Some? {
        PersistKeepsBase(max, s, outcome.value, now);
      }
  }

  lemma HandlerKeepsBase(max: nat, s: State, seen: Inspection, now: nat)
    requires max >= 1 && Base(max, s) && s.exec.Handling?
    ensures Base(max, Handled(s, s.record.value, seen, max, now))
  {
    var r := s.record.value;
    RefusingKeepsBase(max, s);
    if seen.Sees? && seen.outcome.Some? {
      PersistKeepsBase(max, s, seen.outcome.value, now);
    } else {
      var e := if seen.Sees? && seen.progressed
               then s.exec.error.(code := OUTCOME_UNKNOWN.code, retryable := false, outcomeUnknown := true)
               else s.exec.error;
      FailOrRetryKeepsBase(max, s, r, e, now);
      FailOrRetryKeepsBase(max, s.(posts := RefuseLast(s.posts)), r, e, now);
    }
  }

  lemma EndpointKeepsBase(max: nat, s: State, l: Label)
    requires max >= 1 && Base(max, s) && Step(max, s, l).Some?
    requires l.Create? || l.EndpointRetryCrash? || l.Answer? || l.Spawn?
    ensures Base(max, Step(max, s, l).value)
  {
    match l
    case Create(scope, request, baseline, artifactIds) =>
    case EndpointRetryCrash => OpThenIdle(max, s, FlagOp(false));
    case Answer(key, answer, messageCount, artifactIds) =>
      OpThenIdle(max, s, ResumeOp(key, answer, messageCount, artifactIds));
    case Spawn(busy, now) => OpThenIdle(max, s, FailOp(SESSION_BUSY, now));
  }

  lemma InspectionKeepsBase(max: nat, s: State, l: Label)
    requires max >= 1 && Base(max, s) && Step(max, s, l).Some?
    requires l.RecoveryReturns? || l.HandlerReturns? || l.ReplyArrives?
    ensures Base(max, Step(max, s, l).value)
  {
    hide Recovered, Handled, Persisted, Shape, Budget, History;
    match l
    case RecoveryReturns(seen, now) => RecoveryKeepsBase(max, s, seen, now);
    case HandlerReturns(seen, now) => HandlerKeepsBase(max, s, seen, now);
    case ReplyArrives(outcome, now) => PersistKeepsBase(max, s, outcome, now);
  }

  /** The steps that only move the executor or send. */
  predicate MovesOnly(l: Label) {
    || l.Crash? || l.ReadRecord? || l.Wake?
    || l.SlotFails? || l.PrepareFails? || l.SubmitFails? || l.Send? || l.ReplyFails?
  }

  lemma MovingKeepsBase(max: nat, s: State, l: Label)
    requires max >= 1 && Base(max, s) && Step(max, s, l).Some? && MovesOnly(l)
    ensures Base(max, Step(max, s, l).value)
  {
    hide Apply, FailOrRetry, Recovered, Handled, Persisted;
  }

  lemma StepKeepsBase(max: nat, s: State, l: Label)
    requires max >= 1 && Base(max, s) && Step(max, s, l).Some?
    ensures Base(max, Step(max, s, l).value)
  {
    hide Step, Base;
    match l
    case EndpointRetry => EndpointRetryKeepsBase(max, s);
    case RecoveryReturns(seen, now) => InspectionKeepsBase(max, s, l);
    case HandlerReturns(seen, now) => InspectionKeepsBase(max, s, l);
    case ReplyArrives(outcome, now) => InspectionKeepsBase(max, s, l);
    case Clear => RequeueingKeepsBase(max, s, l);
    case Requeue => RequeueingKeepsBase(max, s, l);
    case ClaimSlot(now) => ClaimingKeepsBase(max, s, now);
    case SetFlag => FlaggingKeepsBase(max, s);
    case Create(_, _, _, _) => EndpointKeepsBase(max, s, l);
    case EndpointRetryCrash => EndpointKeepsBase(max, s, l);
    case Answer(_, _, _, _) => EndpointKeepsBase(max, s, l);
    case Spawn(_, _) => EndpointKeepsBase(max, s, l);
    case _ => MovingKeepsBase(max, s, l);
  }

  // ---------- the executor's steps, one lemma for each position ----------

  /** What every reachable state says about the position. */
  lemma Positions(max: nat, s: State)
    requires Base(max, s)
    ensures s.exec.Recovering? || s.exec.Handling? ==> s.record == Some(s.exec.rec) && Resumable(s.exec.rec)
    ensures s.exec.Clearing? ==> s.record.Some? && s.record.value.status.Failed?
    ensures s.exec.Preparing? ==> s.record == Some(s.exec.rec) && s.exec.rec.status.Running?
    ensures s.exec.Queued? ==> s.record == Some(s.exec.rec) && s.exec.rec.status.Pending?
    ensures s.exec.Submitting? || s.exec.AwaitingReply? ==> s.record == Some(s.exec.rec) && s.exec.rec.status.Running?
  {
  }

  lemma RecoverySteps(max: nat, s: State, rec: Run, seen: Inspection, now: nat)
    requires s.record == Some(rec) && s.exec == Recovering(rec)
    ensures Step(max, s, RecoveryReturns(seen, now)) == Some(Recovered(s, rec, rec, seen, max, now))
  {
  }

  lemma HandlerSteps(max: nat, s: State, rec: Run, e: RunError, sent: bool, seen: Inspection, now: nat)
    requires s.record == Some(rec) && s.exec == Handling(rec, e, sent)
    ensures Step(max, s, HandlerReturns(seen, now)) == Some(Handled(s, rec, seen, max, now))
  {
  }

  lemma AttemptSteps(max: nat, s: State, rec: Run, now: nat)
    requires s.record == Some(rec) && s.exec == Queued(rec) && rec.status.Pending?
    ensures forall e :: !SafeToRetry(e) ==> Step(max, s, SlotFails(e)) == Some(s.(exec := Handling(rec, e, false)))
    ensures var claimed := Apply(rec, ClaimOp(now));
            Step(max, s, ClaimSlot(now)) == Some(s.(record := Some(claimed), exec := Preparing(claimed)))
  {
  }

  lemma PrepareSteps(max: nat, s: State, rec: Run)
    requires s.record == Some(rec) && s.exec == Preparing(rec)
    ensures forall e :: Step(max, s, PrepareFails(e)) == Some(s.(exec := Handling(rec, e, false)))
    ensures var flagged := Apply(rec, FlagOp(true));
            Step(max, s, SetFlag) == Some(s.(record := Some(flagged), exec := Submitting(flagged)))
  {
  }

  lemma CrashStep(max: nat, s: State)
    requires s.record.Some?
    ensures Step(max, s, Crash) == Some(s.(exec := Idle))
  {
  }

  lemma SubmitSteps(max: nat, s: State, rec: Run, now: nat)
    requires s.record == Some(rec) && s.exec == Submitting(rec)
    ensures forall e :: Step(max, s, SubmitFails(e)) == Some(s.(exec := Handling(rec, e, false)))
    ensures forall accepted ::
              Step(max, s, Send(accepted))
              == Some(s.(exec := AwaitingReply(rec), posts := s.posts + [Post(Leg(rec), false, accepted)]))
  {
  }

  lemma StartSteps(max: nat, s: State, r: Run, now: nat)
    requires s.record == Some(r) && s.exec.Idle? && Resumable(r)
    ensures Step(max, s, Spawn(false, now)) == Some(s.(exec := Top))
    ensures Step(max, s.(exec := Top), ReadRecord)
         == Some(s.(exec := if EpochAttempts(r) > 0 || r.checkpoint.submissionStarted then Recovering(r)
                            else Queued(r)))
  {
  }

  lemma ReplySteps(max: nat, s: State, rec: Run, now: nat)
    requires s.record == Some(rec) && s.exec == AwaitingReply(rec)
    ensures forall e :: Step(max, s, ReplyFails(e)) == Some(s.(exec := Handling(rec, e, true)))
    ensures forall outcome :: Step(max, s, ReplyArrives(outcome, now))
                              == Some(s.(record := Some(Persisted(rec, outcome, now)), exec := Idle))
  {
  }

  lemma ClearStep(max: nat, s: State, rec: Run)
    requires s.record.Some? && s.exec == Clearing(rec)
    ensures var cleared := Apply(s.record.value, FlagOp(false));
            && Step(max, s, Clear) == Some(s.(record := Some(cleared), exec := Requeueing(rec)))
            && cleared.status == s.record.value.status && EpochAttempts(cleared) == EpochAttempts(s.record.value)
  {
  }

  lemma RequeueStep(max: nat, s: State, rec: Run)
    requires s.record.Some? && s.exec == Requeueing(rec)
    ensures var r := s.record.value;
            && Step(max, s, Requeue)
               == Some(if Retry(r, max).Err? then s.(exec := Idle)
                       else s.(record := Some(Apply(r, RetryOp(max))), exec := Sleeping))
            && Apply(r, RetryOp(max)) == (if Retry(r, max).Err? then r else Retry(r, max).value)
            && (r.status.Failed? && Retry(r, max).Err? ==> !Resumable(r))
  {
  }

  lemma WakeStep(max: nat, s: State)
    requires s.record.Some? && s.exec.Sleeping?
    ensures Step(max, s, Wake) == Some(s.(exec := Top))
  {
  }
}
