/** What a client sees of each transaction on a run: every field of the record afterwards, and what stays. */
module AgentRunEffects {
  import opened Common
  import opened AgentRunRecords
  import Text

  /** Owner, request and the time of the first claim are those of `r`. */
  predicate SameRun(r: Run, later: Run) {
    later.ownerScope == r.ownerScope && later.request == r.request && later.startedAt == r.startedAt
  }

  /** A new run waits for its first attempt, with the baseline it was created with. */
  lemma CreatedRunIsPending(owner: string, request: string, baseline: nat, artifactIds: seq<string>)
    ensures var r := NewRun(owner, request, baseline, artifactIds);
            && r.status.Pending? && r.ownerScope == owner && r.request == request
            && r.attempts == 0 && EpochAttempts(r) == 0 && r.startedAt.None? && r.completedAt.None?
            && r.error.None? && r.result.None? && r.clarification.None?
            && r.checkpoint.baseline == baseline && r.checkpoint.artifactIds == artifactIds
            && !r.checkpoint.submissionStarted && r.checkpoint.receipts == map[] && r.checkpoint.pendingInput.None?
            && Submission(r) == Original(request)
  {
  }

  lemma ClaimCountsOneAttempt(r: Run, now: nat)
    ensures var (later, claimed) := Claim(r, now);
            && (claimed <==> r.status.Pending?)
            && (!claimed ==> later == r)
            && (claimed ==>
                  && later.status.Running? && later.attempts == r.attempts + 1 && later.checkpoint == r.checkpoint
                  && (Shape(r) ==> EpochAttempts(later) == EpochAttempts(r) + 1)
                  && later.ownerScope == r.ownerScope && later.request == r.request
                  && later.error.None? && later.completedAt.None?
                  && later.startedAt == Some(if r.startedAt.Some? then r.startedAt.value else now))
  {
  }

  /** An open run ends with exactly the given result, at the given time. */
  lemma ResultIsStored(r: Run, result: string, now: nat)
    ensures Resumable(r) ==>
              && Succeed(r, result, now).Ok?
              && var later := Succeed(r, result, now).value;
                 && later.status.Succeeded? && later.result == Some(result) && later.completedAt == Some(now)
                 && later.error.None? && later.clarification.None?
                 && SameRun(r, later) && later.attempts == r.attempts && later.checkpoint == r.checkpoint
    ensures r.status.Succeeded? ==> Succeed(r, result, now) == Ok(r)
    ensures r.status.Failed? || r.status.WaitingInput? ==> Succeed(r, result, now) == Err(InvalidTransition)
  {
  }

  /** An open run ends with exactly the given error, at the given time. */
  lemma ErrorIsStored(r: Run, error: RunError, now: nat)
    ensures Resumable(r) ==>
              && Fail(r, error, now).Ok?
              && var later := Fail(r, error, now).value;
                 && later.status.Failed? && later.error == Some(error) && later.completedAt == Some(now)
                 && later.result.None? && later.clarification.None?
                 && SameRun(r, later) && later.attempts == r.attempts && later.checkpoint == r.checkpoint
    ensures r.status.Failed? ==> Fail(r, error, now) == Ok(r)
    ensures r.status.Succeeded? || r.status.WaitingInput? ==> Fail(r, error, now) == Err(InvalidTransition)
  {
  }

  /** A retry is granted exactly to a failed run with an attempt left in its epoch, and forgets only the failure. */
  lemma RetryIsGrantedExactly(r: Run, maxAttempts: int)
    ensures maxAttempts >= 1 ==> (Retry(r, maxAttempts).Ok? <==> r.status.Failed? && EpochAttempts(r) < maxAttempts)
    ensures maxAttempts >= 1 && Retry(r, maxAttempts).Err? ==> Retry(r, maxAttempts) == Err(RetryNotAllowed)
    ensures maxAttempts < 1 ==> Retry(r, maxAttempts) == Err(InvalidValue)
    ensures Retry(r, maxAttempts).Ok? ==>
              var later := Retry(r, maxAttempts).value;
              && later.status.Pending? && later.error.None? && later.completedAt.None?
              && later.result.None? && later.clarification.None?
              && SameRun(r, later) && later.attempts == r.attempts && later.checkpoint == r.checkpoint
  {
  }

  /** A question is asked as the client will read it: stripped, with the first four choices that are not blank. */
  lemma QuestionIsAsked(r: Run, c: Clarification)
    requires Resumable(r) && Text.Strip(c.id) != "" && Text.Strip(c.question) != ""
    ensures AwaitInput(r, c).Ok?
    ensures var later := AwaitInput(r, c).value;
            && later.status.WaitingInput? && later.clarification.Some?
            && later.clarification.value.id == Text.Strip(c.id)
            && later.clarification.value.question == Text.Strip(c.question)
            && later.clarification.value.choices <= Text.StripAll(c.choices)
            && |later.clarification.value.choices| == Min(4, |Text.StripAll(c.choices)|)
            && later.error.None? && later.result.None? && later.completedAt.None?
            && SameRun(r, later) && later.attempts == r.attempts
            && !later.checkpoint.submissionStarted && later.checkpoint.pendingInput.None?
            && later.checkpoint.receipts == r.checkpoint.receipts
            && later.checkpoint.epochStart == r.checkpoint.epochStart
            && later.checkpoint.baseline == r.checkpoint.baseline
            && later.checkpoint.artifactIds == r.checkpoint.artifactIds
  {
  }

  /** A blank question is never asked, a run that is not open asks none, and an open question is not replaced. */
  lemma QuestionIsRefusedExactly(r: Run, c: Clarification)
    requires Shape(r)
    ensures AwaitInput(r, c).Ok?
       <==> && Text.Strip(c.id) != "" && Text.Strip(c.question) != ""
            && (Resumable(r) || (r.status.WaitingInput? && r.clarification.value.id == Text.Strip(c.id)))
    ensures r.status.WaitingInput? && AwaitInput(r, c).Ok? ==> AwaitInput(r, c).value == r
  {
  }

  /** Asking and then answering: the new leg starts at the answer's message count, with a full retry budget, and what
      will be submitted is the answer to that question. */
  lemma AnswerOpensLeg(r: Run, c: Clarification, key: string, answer: string, count: int, artifactIds: seq<string>)
    requires Resumable(r) && Text.Strip(c.id) != "" && Text.Strip(c.question) != ""
    requires ValidKey(key) && key !in r.checkpoint.receipts && 1 <= |Text.Strip(answer)| <= 2000
    ensures AwaitInput(r, c).Ok? && ResumeWithInput(AwaitInput(r, c).value, key, answer, count, artifactIds).Ok?
    ensures var (later, accepted) := ResumeWithInput(AwaitInput(r, c).value, key, answer, count, artifactIds).value;
            && accepted && later.status.Pending? && later.clarification.None? && later.error.None? && later.result.None?
            && later.completedAt.None? && SameRun(r, later) && later.attempts == r.attempts && EpochAttempts(later) == 0
            && later.checkpoint.baseline == (if count > 0 then count else 0)
            && later.checkpoint.artifactIds == artifactIds && !later.checkpoint.submissionStarted
            && later.checkpoint.receipts == r.checkpoint.receipts[key := Receipt(Text.Strip(c.id), Text.Strip(answer))]
            && Submission(later) == Answered(Text.Strip(c.question), Text.Strip(answer))
  {
    Text.StripIdempotent(c.question);
    Text.StripIdempotent(answer);
  }

  /** Whatever record was stored, a fresh answer is accepted exactly if the record waits with an id and a question that
      is not blank; a record that waits without them is refused as inconsistent. */
  lemma FreshAnswerIsAcceptedExactly(r: Run, key: string, answer: string, count: int, artifactIds: seq<string>)
    requires ValidKey(key) && NormalAnswer(answer).Some? && key !in r.checkpoint.receipts
    ensures var c := r.clarification;
            var asked := c.Some? && c.value.id != "" && Text.Strip(c.value.question) != "";
            var reply := ResumeWithInput(r, key, answer, count, artifactIds);
            if !r.status.WaitingInput? then reply == Err(InputNotAllowed)
            else if asked then
              && reply.Ok? && reply.value.1
              && var later := reply.value.0;
                 && later.status.Pending? && later.clarification.None? && later.error.None? && later.result.None?
                 && later.completedAt.None? && SameRun(r, later) && later.attempts == r.attempts
            else reply == Err(InvalidTransition)
  {
  }

  // ---------- what is submitted upstream ----------

  datatype Prompt = Original(message: string) | Answered(question: string, answer: string)

  /** `_agent_run_submission_message`: the request, or the answer to the last question. */
  function Submission(r: Run): Prompt {
    match r.checkpoint.pendingInput
    case None => Original(r.request)
    case Some(p) =>
      var question, answer := Text.Strip(p.question), Text.Strip(p.answer);
      if question == "" || answer == "" then Original(r.request) else Answered(question, answer)
  }

  /** The answer is submitted exactly when neither it nor its question is blank. */
  lemma AnswerIsSubmittedExactly(r: Run)
    ensures Submission(r).Answered?
       <==> && r.checkpoint.pendingInput.Some?
            && Text.Strip(r.checkpoint.pendingInput.value.question) != ""
            && Text.Strip(r.checkpoint.pendingInput.value.answer) != ""
  {
  }

  /** No transaction of the sequence asks a question or accepts an answer. */
  ghost predicate SameLeg(r: Run, ops: seq<Op>)
    decreases |ops|
  {
    ops == []
    || (!Apply(r, ops[0]).status.WaitingInput? && Apply(r, ops[0]).checkpoint.receipts == r.checkpoint.receipts
        && SameLeg(Apply(r, ops[0]), ops[1..]))
  }

  lemma StepKeepsSubmission(r: Run, op: Op)
    requires !Apply(r, op).status.WaitingInput? && Apply(r, op).checkpoint.receipts == r.checkpoint.receipts
    ensures Submission(Apply(r, op)) == Submission(r)
  {
  }

  /** Within a leg every attempt submits the same text: the request, or the answer that opened the leg. */
  lemma {:induction false} LegSubmitsOneText(r: Run, ops: seq<Op>)
    requires SameLeg(r, ops)
    ensures Submission(ApplyAll(r, ops)) == Submission(r)
    decreases |ops|
  {
    if ops != [] {
      StepKeepsSubmission(r, ops[0]);
      LegSubmitsOneText(Apply(r, ops[0]), ops[1..]);
    }
  }

  // ---------- times ----------

  /** The time of the first claim never changes. */
  lemma {:induction false} FirstClaimTimeIsKept(r: Run, ops: seq<Op>)
    requires r.startedAt.Some?
    ensures ApplyAll(r, ops).startedAt == r.startedAt
    decreases |ops|
  {
    if ops != [] {
      FirstClaimTimeIsKept(Apply(r, ops[0]), ops[1..]);
    }
  }

  // ---------- input rules ----------

  /** Keys have 1 to 255 visible ASCII characters, answers 1 to 2,000 characters without the white space around. */
  lemma InputRules(key: string, answer: string)
    ensures ValidKey(key) <==> 1 <= |key| < 256 && forall i :: 0 <= i < |key| ==> '!' <= key[i] <= '~'
    ensures NormalAnswer(answer) == if 1 <= |Text.Strip(answer)| <= 2000 then Some(Text.Strip(answer)) else None
    ensures ValidIdentity(key) <==> 1 <= |key| <= 512 && forall i :: 0 <= i < |key| ==> key[i] !in {'\r', '\n', '\0'}
  {
  }
}
