/**
 The durable record of one Agent run and the state changes that a store transaction may apply to it.
 A SHA-256 digest stands for the text it was computed from, so equal digests mean equal texts.
 */
module AgentRunRecords {
  import opened Common
  import Text

  datatype RunStatus = Pending | Running | WaitingInput | Succeeded | Failed

  /** The triple that `stable_run_id` hashes. */
  datatype RunId = RunId(scope: string, session: string, key: string)

  datatype RunError = RunError(code: string, retryable: bool, outcomeUnknown: bool, retryExhausted: bool)

  datatype Clarification = Clarification(id: string, question: string, choices: seq<string>)

  datatype Receipt = Receipt(clarificationId: string, answer: string)

  datatype PendingInput = PendingInput(clarificationId: string, question: string, answer: string)

  datatype Checkpoint = Checkpoint(
    baseline: nat,
    artifactIds: seq<string>,
    submissionStarted: bool,
    epochStart: nat,
    receipts: map<string, Receipt>,
    pendingInput: Option<PendingInput>)

  datatype Run = Run(
    ownerScope: string,
    request: string,
    checkpoint: Checkpoint,
    status: RunStatus,
    attempts: nat,
    clarification: Option<Clarification>,
    error: Option<RunError>,
    result: Option<string>,
    startedAt: Option<nat>,
    completedAt: Option<nat>)

  datatype StoreError = InvalidValue | IdempotencyConflict | InvalidTransition | RetryNotAllowed | InputNotAllowed

  // ---------- input validation ----------

  predicate ValidKey(key: string) {
    && 1 <= |key| <= 255
    && forall i | 0 <= i < |key| :: 0x21 <= key[i] as int <= 0x7E
  }

  predicate ValidIdentity(value: string) {
    && 1 <= |value| <= 512
    && forall i | 0 <= i < |value| :: value[i] != '\r' && value[i] != '\n' && value[i] != '\0'
  }

  function NormalAnswer(answer: string): Option<string> {
    var normal := Text.Strip(answer);
    if normal == "" || |normal| > 2000 then None else Some(normal)
  }

  function NormalClarification(c: Clarification): Option<Clarification> {
    var id, question, choices := Text.Strip(c.id), Text.Strip(c.question), Text.StripAll(c.choices);
    if id == "" || question == "" then None
    else Some(Clarification(id, question, choices[..Min(4, |choices|)]))
  }

  // ---------- transitions ----------

  predicate Resumable(r: Run) {
    r.status.Pending? || r.status.Running?
  }

  /** Attempts made in the current retry epoch: `run_retry_attempt_count`. */
  function EpochAttempts(r: Run): nat {
    r.attempts - Min(r.attempts, r.checkpoint.epochStart)
  }

  function NewRun(owner: string, request: string, baseline: nat, artifactIds: seq<string>): Run {
    Run(owner, request, Checkpoint(baseline, artifactIds, false, 0, map[], None),
        Pending, 0, None, None, None, None, None)
  }

  function Claim(r: Run, now: nat): (Run, bool) {
    if !r.status.Pending? then (r, false)
    else (r.(status := Running, attempts := r.attempts + 1, error := None, completedAt := None,
             startedAt := if r.startedAt.Some? then r.startedAt else Some(now)), true)
  }

  function Succeed(r: Run, result: string, now: nat): Result<Run, StoreError> {
    if r.status.Succeeded? then Ok(r)
    else if !Resumable(r) then Err(InvalidTransition)
    else Ok(r.(status := Succeeded, result := Some(result), clarification := None, error := None,
               completedAt := Some(now)))
  }

  function Fail(r: Run, error: RunError, now: nat): Result<Run, StoreError> {
    if r.status.Failed? then Ok(r)
    else if !Resumable(r) then Err(InvalidTransition)
    else Ok(r.(status := Failed, error := Some(error), result := None, clarification := None,
               completedAt := Some(now)))
  }

  function Retry(r: Run, maxAttempts: int): Result<Run, StoreError> {
    if maxAttempts < 1 then Err(InvalidValue)
    else if !r.status.Failed? then Err(RetryNotAllowed)
    else if EpochAttempts(r) >= maxAttempts then Err(RetryNotAllowed)
    else Ok(r.(status := Pending, error := None, result := None, clarification := None, completedAt := None))
  }

  function AwaitInput(r: Run, c: Clarification): Result<Run, StoreError> {
    var normal := NormalClarification(c);
    if normal.None? then Err(InvalidValue)
    else if r.status.WaitingInput? then
      if r.clarification.Some? && r.clarification.value.id == normal.value.id then Ok(r)
      else Err(InvalidTransition)
    else if !Resumable(r) then Err(InvalidTransition)
    else Ok(r.(checkpoint := r.checkpoint.(submissionStarted := false, pendingInput := None),
               status := WaitingInput, clarification := normal, error := None, result := None,
               completedAt := None))
  }

  function ReplayInput(r: Run, key: string, answer: string): Result<Option<Run>, StoreError> {
    var normal := NormalAnswer(answer);
    if !ValidKey(key) || normal.None? then Err(InvalidValue)
    else if key !in r.checkpoint.receipts then Ok(None)
    else if r.checkpoint.receipts[key].answer != normal.value then Err(IdempotencyConflict)
    else Ok(Some(r))
  }

  function ResumeWithInput(r: Run, key: string, answer: string, baseline: int, artifactIds: seq<string>)
    : Result<(Run, bool), StoreError>
  {
    var normal := NormalAnswer(answer);
    if !ValidKey(key) || normal.None? then Err(InvalidValue)
    else if key in r.checkpoint.receipts then
      if r.checkpoint.receipts[key].answer != normal.value then Err(IdempotencyConflict) else Ok((r, false))
    else if !r.status.WaitingInput? then Err(InputNotAllowed)
    else if r.clarification.None? then Err(InvalidTransition)
    else
      var c := r.clarification.value;
      var question := Text.Strip(c.question);
      if c.id == "" || question == "" then Err(InvalidTransition)
      else
        var checkpoint := Checkpoint(
          Max(0, baseline), artifactIds, false, r.attempts,
          r.checkpoint.receipts[key := Receipt(c.id, normal.value)],
          Some(PendingInput(c.id, question, normal.value)));
        Ok((r.(checkpoint := checkpoint, status := Pending, clarification := None, error := None,
               result := None, completedAt := None), true))
  }

  /** `set_checkpoint` as the service calls it: only the write-ahead flag is ever passed. */
  function SetSubmissionStarted(r: Run, started: bool): Run {
    r.(checkpoint := r.checkpoint.(submissionStarted := started))
  }

  // ---------- sequences of transactions ----------

  datatype Op =
    | ClaimOp(now: nat)
    | SucceedOp(result: string, now: nat)
    | FailOp(error: RunError, now: nat)
    | RetryOp(maxAttempts: int)
    | AwaitInputOp(clarification: Clarification)
    | ResumeOp(key: string, answer: string, baseline: int, artifactIds: seq<string>)
    | FlagOp(started: bool)

  /** The stored record after one transaction; a rejected transaction stores nothing. */
  function Apply(r: Run, op: Op): Run {
    match op
    case ClaimOp(now) => Claim(r, now).0
    case SucceedOp(result, now) => Kept(r, Succeed(r, result, now))
    case FailOp(error, now) => Kept(r, Fail(r, error, now))
    case RetryOp(maxAttempts) => Kept(r, Retry(r, maxAttempts))
    case AwaitInputOp(c) => Kept(r, AwaitInput(r, c))
    case ResumeOp(key, answer, baseline, artifactIds) =>
      var outcome := ResumeWithInput(r, key, answer, baseline, artifactIds);
      if outcome.Ok? then outcome.value.0 else r
    case FlagOp(started) => SetSubmissionStarted(r, started)
  }

  function Kept(r: Run, outcome: Result<Run, StoreError>): Run {
    if outcome.Ok? then outcome.value else r
  }

  function ApplyAll(r: Run, ops: seq<Op>): Run
    decreases |ops|
  {
    if ops == [] then r else ApplyAll(Apply(r, ops[0]), ops[1..])
  }

  // ---------- the shape of every stored record ----------

  ghost predicate Shape(r: Run) {
    && (r.completedAt.Some? <==> r.status.Succeeded? || r.status.Failed?)
    && (r.startedAt.Some? <==> r.attempts > 0)
    && (r.clarification.Some? <==> r.status.WaitingInput?)
    && (r.error.Some? <==> r.status.Failed?)
    && (r.result.Some? <==> r.status.Succeeded?)
    && r.checkpoint.epochStart <= r.attempts
    && (r.status.WaitingInput? ==> Askable(r.clarification.value) && r.checkpoint.pendingInput.None?)
    && (r.status.Running? ==> EpochAttempts(r) >= 1)
    && (r.checkpoint.pendingInput.Some? ==> Receipted(r.checkpoint))
  }

  predicate Askable(c: Clarification) {
    c.id != "" && c.question != "" && Text.Strip(c.question) == c.question && |c.choices| <= 4
  }

  ghost predicate Receipted(c: Checkpoint)
    requires c.pendingInput.Some?
  {
    var p := c.pendingInput.value;
    && p.question != ""
    && exists key :: key in c.receipts && c.receipts[key] == Receipt(p.clarificationId, p.answer)
  }

  lemma ShapePreserved(r: Run, op: Op)
    requires Shape(r)
    ensures Shape(Apply(r, op))
  {
    match op
    case AwaitInputOp(c) =>
      Text.StripIdempotent(c.question);
    case ResumeOp(key, answer, baseline, artifactIds) =>
      var next := Apply(r, op);
      if next != r {
        assert key in next.checkpoint.receipts;
      }
    case _ =>
  }

  lemma {:induction false} ShapeKept(r: Run, ops: seq<Op>)
    requires Shape(r)
    ensures Shape(ApplyAll(r, ops))
    decreases |ops|
  {
    if ops != [] {
      ShapePreserved(r, ops[0]);
      ShapeKept(Apply(r, ops[0]), ops[1..]);
    }
  }

  lemma NewRunHasShape(owner: string, request: string, baseline: nat, artifactIds: seq<string>)
    ensures Shape(NewRun(owner, request, baseline, artifactIds))
  {
  }

  /** Every record reachable from creation by any sequence of transactions has the documented shape. */
  lemma ShapeForever(owner: string, request: string, baseline: nat, artifactIds: seq<string>, ops: seq<Op>)
    ensures Shape(ApplyAll(NewRun(owner, request, baseline, artifactIds), ops))
  {
    NewRunHasShape(owner, request, baseline, artifactIds);
    ShapeKept(NewRun(owner, request, baseline, artifactIds), ops);
  }

  /** The two defensive rejections of a waiting record are unreachable: with a valid key and answer an
      answer is rejected only for a reused key or for a record that is not waiting. */
  lemma WaitingAlwaysAcceptsFreshAnswer(r: Run, key: string, answer: string, baseline: int, artifactIds: seq<string>)
    requires Shape(r)
    requires ValidKey(key) && NormalAnswer(answer).Some? && key !in r.checkpoint.receipts
    ensures var outcome := ResumeWithInput(r, key, answer, baseline, artifactIds);
            if r.status.WaitingInput?
            then outcome.Ok? && outcome.value.1 && outcome.value.0.status.Pending?
                 && EpochAttempts(outcome.value.0) == 0
            else outcome == Err(InputNotAllowed)
  {
  }

  // ---------- what no transaction changes ----------

  /** `later` may follow `r`: same owner and request, receipts only grow, success is final. */
  ghost predicate Extends(r: Run, later: Run) {
    && later.ownerScope == r.ownerScope
    && later.request == r.request
    && later.attempts >= r.attempts
    && (r.status.Succeeded? ==>
          later.status.Succeeded? && later.result == r.result && later.completedAt == r.completedAt)
    && forall key :: key in r.checkpoint.receipts ==>
                       key in later.checkpoint.receipts && later.checkpoint.receipts[key] == r.checkpoint.receipts[key]
  }

  lemma {:induction false} HistoryIsKept(r: Run, ops: seq<Op>)
    ensures Extends(r, ApplyAll(r, ops))
    decreases |ops|
  {
    if ops != [] {
      HistoryIsKept(Apply(r, ops[0]), ops[1..]);
    }
  }

  // ---------- exactly-once clarification answers ----------

  /** Once an answer is accepted, its key answers every later replay with the current record and changes
      nothing, and the same key with another answer is a conflict, whatever happened in between. */
  lemma AcceptedAnswerIsForever(r: Run, key: string, answer: string, baseline: int, artifactIds: seq<string>,
                                ops: seq<Op>, again: string, baseline': int, artifactIds': seq<string>)
    requires ResumeWithInput(r, key, answer, baseline, artifactIds).Ok?
    requires NormalAnswer(again).Some?
    ensures var later := ApplyAll(ResumeWithInput(r, key, answer, baseline, artifactIds).value.0, ops);
            if NormalAnswer(again) == NormalAnswer(answer)
            then ReplayInput(later, key, again) == Ok(Some(later))
                 && ResumeWithInput(later, key, again, baseline', artifactIds') == Ok((later, false))
            else ReplayInput(later, key, again) == Err(IdempotencyConflict)
                 && ResumeWithInput(later, key, again, baseline', artifactIds') == Err(IdempotencyConflict)
  {
    var accepted := ResumeWithInput(r, key, answer, baseline, artifactIds).value.0;
    HistoryIsKept(accepted, ops);
    assert key in accepted.checkpoint.receipts;
  }

  /** The replay read foretells the answering transaction, whatever message count and artifacts come with it. */
  lemma ReplayForetellsAnswer(r: Run, key: string, answer: string)
    ensures ReplayInput(r, key, answer) == Ok(Some(r)) <==>
              forall n, ids :: ResumeWithInput(r, key, answer, n, ids) == Ok((r, false))
    ensures ReplayInput(r, key, answer) == Err(IdempotencyConflict) <==>
              forall n, ids :: ResumeWithInput(r, key, answer, n, ids) == Err(IdempotencyConflict)
    ensures ReplayInput(r, key, answer) == Err(InvalidValue) <==>
              forall n, ids :: ResumeWithInput(r, key, answer, n, ids) == Err(InvalidValue)
  {
    assert ResumeWithInput(r, key, answer, 0, []) == Ok((r, false)) ==> ReplayInput(r, key, answer) == Ok(Some(r));
  }

  /** The transaction starts a waiting episode: it moves the record into waiting_input. Rejected questions and
      repetitions of the open question do not. */
  predicate OpensEpisode(r: Run, op: Op) {
    !r.status.WaitingInput? && Apply(r, op).status.WaitingInput?
  }

  function Episodes(r: Run, ops: seq<Op>): nat
    decreases |ops|
  {
    if ops == [] then 0 else (if OpensEpisode(r, ops[0]) then 1 else 0) + Episodes(Apply(r, ops[0]), ops[1..])
  }

  /** 1 while the record waits for an answer. */
  function OpenQuestions(r: Run): nat {
    if r.status.WaitingInput? then 1 else 0
  }

  /** Every waiting episode accepts exactly one answer, except that the one that is still open has accepted none:
      accepted answers and the open question together count the episodes. */
  lemma {:induction false} EachEpisodeAcceptsOneAnswer(r: Run, ops: seq<Op>)
    requires Shape(r)
    ensures var later := ApplyAll(r, ops);
            |later.checkpoint.receipts| + OpenQuestions(later)
            == |r.checkpoint.receipts| + OpenQuestions(r) + Episodes(r, ops)
    decreases |ops|
  {
    if ops != [] {
      ShapePreserved(r, ops[0]);
      EpisodeStep(r, ops[0]);
      EachEpisodeAcceptsOneAnswer(Apply(r, ops[0]), ops[1..]);
    }
  }

  lemma EpisodeStep(r: Run, op: Op)
    requires Shape(r)
    ensures |Apply(r, op).checkpoint.receipts| + OpenQuestions(Apply(r, op))
         == |r.checkpoint.receipts| + OpenQuestions(r) + (if OpensEpisode(r, op) then 1 else 0)
  {
  }
}
