/** One executor pass ends, settles the run, and is never stuck; the one exception is shown. */
module AgentRunLiveness {
  import opened Common
  import opened AgentRunRecords
  import opened AgentRunProtocol
  import opened AgentRunSafety

  predicate ExecutorLabel(l: Label) {
    && !l.Create? && !l.EndpointRetry? && !l.EndpointRetryCrash? && !l.Answer? && !l.Crash? && !l.Spawn?
  }

  /** The one failure that goes round without consuming an attempt: a recovery inspection that raises an error which
      is safe to retry. */
  predicate Free(l: Label) {
    l.RecoveryReturns? && l.seen.Raises? && SafeToRetry(l.seen.error)
  }

  function FreeSteps(ls: seq<Label>): nat {
    if ls == [] then 0 else (if Free(ls[0]) then 1 else 0) + FreeSteps(ls[1..])
  }

  ghost predicate Pass(ls: seq<Label>) {
    forall i :: 0 <= i < |ls| ==> ExecutorLabel(ls[i])
  }

  function Rank(exec: Position): nat {
    match exec
    case Preparing(_) => 17
    case Submitting(_) => 16
    case AwaitingReply(_) => 15
    case Handling(_, e, _) => if SafeToRetry(e) then 14 else 7
    case Clearing(_) => 13
    case Requeueing(_) => 12
    case Sleeping => 11
    case Top => 10
    case Recovering(_) => 9
    case Queued(_) => 8
    case Idle => 0
  }

  /** A weighted sum: 20 for each attempt left in the epoch, 10 for an open attempt, and the rank of the position. */
  function Work(max: nat, s: State): nat {
    if s.record.None? then 0
    else
      var r := s.record.value;
      20 * Max(0, max - EpochAttempts(r)) + (if r.status.Running? then 10 else 0) + Rank(s.exec)
  }

  lemma StepDoesWork(max: nat, s: State, l: Label)
    requires max >= 1 && Base(max, s) && ExecutorLabel(l) && Step(max, s, l).Some?
    ensures var t := Step(max, s, l).value;
            if Free(l) then Work(max, t) <= Work(max, s) + 4 else Work(max, t) < Work(max, s)
    ensures var t := Step(max, s, l).value;
            t.exec.Idle? ==> t.record.Some? && !Resumable(t.record.value)
  {
    hide Persisted, FailOrRetry, Recovered, Handled, Apply, Retry, Claim;
    match l
    case RecoveryReturns(seen, now) => RecoveryDoesWork(max, s, seen, now);
    case HandlerReturns(seen, now) => HandlerDoesWork(max, s, seen, now);
    case Clear => RequeueingDoesWork(max, s, l);
    case Requeue => RequeueingDoesWork(max, s, l);
    case ClaimSlot(now) => ClaimingDoesWork(max, s, now);
    case SetFlag => FlaggingDoesWork(max, s);
    case ReplyArrives(outcome, now) => PersistSettles(s.record.value, outcome, now);
    case _ =>
  }

  lemma RequeueingDoesWork(max: nat, s: State, l: Label)
    requires Base(max, s) && Step(max, s, l).Some? && (l.Clear? || l.Requeue?)
    ensures var t := Step(max, s, l).value;
            Work(max, t) < Work(max, s) && !t.exec.Idle?
  {
    var r := s.record.value;
    assert EpochAttempts(Apply(r, FlagOp(false))) == EpochAttempts(r);
    assert EpochAttempts(Apply(r, RetryOp(max))) == EpochAttempts(r);
  }

  lemma ClaimingDoesWork(max: nat, s: State, now: nat)
    requires Base(max, s) && Step(max, s, ClaimSlot(now)).Some?
    ensures var t := Step(max, s, ClaimSlot(now)).value;
            Work(max, t) < Work(max, s) && !t.exec.Idle?
  {
    assert EpochAttempts(Apply(s.record.value, ClaimOp(now))) == EpochAttempts(s.record.value) + 1;
  }

  lemma FlaggingDoesWork(max: nat, s: State)
    requires Base(max, s) && Step(max, s, SetFlag).Some?
    ensures var t := Step(max, s, SetFlag).value;
            Work(max, t) < Work(max, s) && !t.exec.Idle?
  {
    assert EpochAttempts(Apply(s.record.value, FlagOp(true))) == EpochAttempts(s.record.value);
  }

  lemma FailingDoesWork(max: nat, s: State, r: Run, e: RunError, now: nat)
    requires s.record == Some(r) && Resumable(r)
    ensures var t := FailOrRetry(s, r, r, e, max, now);
            && t.record.Some? && t.record.value.status.Failed?
            && Work(max, t) <= Work(max, s) - Rank(s.exec) - (if r.status.Running? then 10 else 0) + 13
  {
  }

  lemma RecoveryDoesWork(max: nat, s: State, seen: Inspection, now: nat)
    requires max >= 1 && Base(max, s) && s.exec.Recovering?
    ensures var t := Recovered(s, s.record.value, s.exec.rec, seen, max, now);
            && (if seen.Raises? && SafeToRetry(seen.error)
                then Work(max, t) <= Work(max, s) + 4 else Work(max, t) < Work(max, s))
            && (t.exec.Idle? ==> t.record.Some? && !Resumable(t.record.value))
  {
    var r := s.record.value;
    match seen
    case Raises(e) =>
      var stored := if r.checkpoint.submissionStarted then e.(retryable := false, outcomeUnknown := true) else e;
      FailingDoesWork(max, s, r, stored, now);
    case Sees(outcome, progressed) =>
      if outcome.Some? {
        PersistSettles(r, outcome.value, now);
      } else {
        FailingDoesWork(max, s, r, INTERRUPTED, now);
      }
  }

  lemma HandlerDoesWork(max: nat, s: State, seen: Inspection, now: nat)
    requires max >= 1 && Base(max, s) && s.exec.Handling?
    ensures var t := Handled(s, s.record.value, seen, max, now);
            && Work(max, t) < Work(max, s)
            && (t.exec.Idle? ==> t.record.Some? && !Resumable(t.record.value))
  {
    var r := s.record.value;
    if seen.Sees? && seen.outcome.Some? {
      PersistSettles(r, seen.outcome.value, now);
    } else {
      var e := if seen.Sees? && seen.progressed
               then s.exec.error.(code := OUTCOME_UNKNOWN.code, retryable := false, outcomeUnknown := true)
               else s.exec.error;
      FailingDoesWork(max, s, r, e, now);
      FailingDoesWork(max, s.(posts := RefuseLast(s.posts)), r, e, now);
    }
  }

  lemma {:induction false} PassDoesWork(max: nat, s: State, ls: seq<Label>)
    requires max >= 1 && Base(max, s) && Pass(ls) && Run'(max, s, ls).Some?
    ensures |ls| + Work(max, Run'(max, s, ls).value) <= Work(max, s) + 5 * FreeSteps(ls)
    decreases |ls|
  {
    if ls != [] {
      PassUnfolds(max, s, ls);
      StepDoesWork(max, s, ls[0]);
      StepKeepsBase(max, s, ls[0]);
      hide *;
      PassDoesWork(max, Step(max, s, ls[0]).value, ls[1..]);
    }
  }

  lemma {:induction false} PassSettles(max: nat, s: State, ls: seq<Label>)
    requires max >= 1 && Base(max, s) && Pass(ls) && Run'(max, s, ls).Some? && !s.exec.Idle?
    ensures var t := Run'(max, s, ls).value;
            t.exec.Idle? ==> t.record.Some? && !Resumable(t.record.value)
    decreases |ls|
  {
    if ls != [] {
      PassUnfolds(max, s, ls);
      StepDoesWork(max, s, ls[0]);
      StepKeepsBase(max, s, ls[0]);
      var t := Step(max, s, ls[0]).value;
      if t.exec.Idle? {
        IdlePassIsOver(max, t, ls[1..]);
      } else {
        hide *;
        PassSettles(max, t, ls[1..]);
      }
    }
  }

  lemma IdlePassIsOver(max: nat, s: State, ls: seq<Label>)
    requires s.exec.Idle? && Pass(ls) && Run'(max, s, ls).Some?
    ensures ls == []
  {
    if ls != [] {
      PassUnfolds(max, s, ls);
    }
  }

  lemma PassUnfolds(max: nat, s: State, ls: seq<Label>)
    requires ls != [] && Pass(ls) && Run'(max, s, ls).Some?
    ensures ExecutorLabel(ls[0]) && Step(max, s, ls[0]).Some? && Pass(ls[1..])
    ensures Run'(max, Step(max, s, ls[0]).value, ls[1..]) == Run'(max, s, ls)
    ensures FreeSteps(ls) == (if Free(ls[0]) then 1 else 0) + FreeSteps(ls[1..])
  {
    hide Step, ExecutorLabel, Free;
  }

  /** The executor is never stuck: away from idle some step is open that is not a free failure. */
  lemma ExecutorIsNeverStuck(max: nat, s: State)
    requires max >= 1 && Base(max, s) && !s.exec.Idle?
    ensures exists l :: ExecutorLabel(l) && !Free(l) && Step(max, s, l).Some?
  {
    var l := match s.exec
      case Top => ReadRecord
      case Recovering(_) => RecoveryReturns(Sees(None, false), 0)
      case Clearing(_) => Clear
      case Requeueing(_) => Requeue
      case Sleeping => Wake
      case Queued(_) => ClaimSlot(0)
      case Preparing(_) => SetFlag
      case Submitting(_) => Send(false)
      case AwaitingReply(_) => ReplyFails(OUTCOME_UNKNOWN)
      case Handling(_, _, _) => HandlerReturns(Sees(None, false), 0)
      case Idle => Wake;
    assert ExecutorLabel(l) && !Free(l) && Step(max, s, l).Some?;
  }

  /** An uninterrupted pass over a reachable run has at most 20 * max + 20 steps, plus 5 for each free
      failure; and when the executor stops, the run is settled: succeeded, failed or waiting for input. */
  lemma PassEndsSettled(max: nat, history: seq<Label>, now: nat, ls: seq<Label>)
    requires max >= 1 && Run'(max, Init, history).Some?
    requires var s := Run'(max, Init, history).value; Step(max, s, Spawn(false, now)).Some?
    requires Pass(ls)
    requires var s := Run'(max, Init, history).value; Run'(max, Step(max, s, Spawn(false, now)).value, ls).Some?
    ensures |ls| <= 20 * max + 20 + 5 * FreeSteps(ls)
    ensures var s := Run'(max, Init, history).value;
            var t := Run'(max, Step(max, s, Spawn(false, now)).value, ls).value;
            t.exec.Idle? ==> t.record.Some? && !Resumable(t.record.value)
  {
    RunKeepsBase(max, Init, history);
    var s := Run'(max, Init, history).value;
    StepKeepsBase(max, s, Spawn(false, now));
    PassDoesWork(max, Step(max, s, Spawn(false, now)).value, ls);
    PassSettles(max, Step(max, s, Spawn(false, now)).value, ls);
  }

  /** A failure while waiting for a slot or claiming settles the run, whatever the handler's inspection sees. */
  lemma SlotFailureSettles(max: nat, s: State, e: RunError, seen: Inspection, now: nat)
    requires max >= 1 && Base(max, s) && s.exec.Queued? && !SafeToRetry(e)
    ensures var t := Run'(max, s, [SlotFails(e), HandlerReturns(seen, now)]);
            t.Some? && t.value.exec.Idle? && t.value.record.Some? && !Resumable(t.value.record.value)
  {
    var handling := s.(exec := Handling(s.exec.rec, e, false));
    var ls := [SlotFails(e), HandlerReturns(seen, now)];
    var r := s.record.value;
    assert ls[1..] == [HandlerReturns(seen, now)] && ls[1..][1..] == [];
    HandlerSteps(max, handling, r, e, false, seen, now);
    if seen.Sees? && seen.outcome.Some? {
      PersistSettles(r, seen.outcome.value, now);
    }
    var settled := Handled(handling, r, seen, max, now);
    assert settled.exec.Idle? && !Resumable(settled.record.value);
    assert Step(max, s, ls[0]) == Some(handling);
    hide Step, Handled;
    Advance(max, s, ls, handling);
    Advance(max, handling, ls[1..], settled);
    RunOfNothing(max, settled);
  }

  /** Which raising recovery inspections keep a pass going: those whose error is safe to retry, on a record with
      a clear flag and an attempt left. Every other one settles the run. */
  lemma RaisingInspectionContinuesExactly(max: nat, s: State, e: RunError, now: nat)
    requires max >= 1 && Base(max, s) && s.exec.Recovering?
    ensures var t := Step(max, s, RecoveryReturns(Raises(e), now)).value;
            var goesOn := SafeToRetry(e) && !s.exec.rec.checkpoint.submissionStarted && EpochAttempts(s.exec.rec) < max;
            && t.exec == (if goesOn then Clearing(s.exec.rec) else Idle)
            && (goesOn ==>
                  var back := Run'(max, t, [Clear, Requeue, Wake]);
                  && back.Some? && back.value.exec.Top? && back.value.record.Some?
                  && back.value.record.value.status.Pending?
                  && EpochAttempts(back.value.record.value) == EpochAttempts(s.exec.rec))
            && (!goesOn ==> t.record.Some? && !Resumable(t.record.value))
  {
    var rec := s.exec.rec;
    RecoverySteps(max, s, rec, Raises(e), now);
    if SafeToRetry(e) && !rec.checkpoint.submissionStarted && EpochAttempts(rec) < max {
      RequeueThenTop(max, s.(record := Some(Apply(rec, FailOp(e, now))), exec := Clearing(rec)));
    }
  }

  /** Clearing, requeueing and the pause bring a failed run with an attempt left back to the loop. */
  lemma RequeueThenTop(max: nat, s: State)
    requires max >= 1 && s.exec.Clearing? && s.record.Some? && s.record.value.status.Failed?
    requires EpochAttempts(s.record.value) < max
    ensures var requeued := Apply(Apply(s.record.value, FlagOp(false)), RetryOp(max));
            && Run'(max, s, [Clear, Requeue, Wake]) == Some(s.(record := Some(requeued), exec := Top))
            && requeued.status.Pending? && EpochAttempts(requeued) == EpochAttempts(s.record.value)
  {
    var cleared := Apply(s.record.value, FlagOp(false));
    var requeued := Apply(cleared, RetryOp(max));
    assert EpochAttempts(cleared) == EpochAttempts(s.record.value) && Retry(cleared, max).Ok?;
    var clearing := s.(record := Some(cleared), exec := Requeueing(s.exec.rec));
    var sleeping := s.(record := Some(requeued), exec := Sleeping);
    ClearStep(max, s, s.exec.rec);
    RequeueStep(max, clearing, s.exec.rec);
    WakeStep(max, sleeping);
    var ls := [Clear, Requeue, Wake];
    assert ls[1..] == [Requeue, Wake] && ls[1..][1..] == [Wake] && [Wake][1..] == [];
    hide Step, Apply, Retry;
    Advance(max, s, ls, clearing);
    Advance(max, clearing, ls[1..], sleeping);
    Advance(max, sleeping, [Wake], sleeping.(exec := Top));
    RunOfNothing(max, sleeping.(exec := Top));
  }

  function RaisingRound(e: RunError): seq<Label> {
    [ReadRecord, RecoveryReturns(Raises(e), 0), Clear, Requeue, Wake]
  }

  /** Why the free failures must be counted: a recovery inspection that keeps raising an error that is safe to
      retry brings a requeued run back to exactly the same state, so nothing bounds the pass. */
  lemma RaisingInspectionGoesRound(max: nat, s: State, e: RunError)
    requires max >= 1 && Base(max, s) && s.exec.Top? && s.record.Some?
    requires s.record.value.status.Pending? && EpochAttempts(s.record.value) > 0
    requires SafeToRetry(e)
    ensures Run'(max, s, RaisingRound(e)) == Some(s)
  {
    var r := s.record.value;
    var ls := RaisingRound(e);
    var failed := Apply(r, FailOp(e, 0));
    var read, clearing := s.(exec := Recovering(r)), s.(record := Some(failed), exec := Clearing(r));
    assert Step(max, s, ReadRecord) == Some(read);
    assert Recovered(read, r, r, Raises(e), max, 0) == clearing;
    assert Apply(failed, FlagOp(false)) == failed;
    assert Retry(failed, max).Ok? && Apply(failed, RetryOp(max)) == r;
    hide Step, Apply, Run', Retry, Recovered;
    RecoverySteps(max, read, r, Raises(e), 0);
    ClearStep(max, clearing, r);
    RequeueStep(max, s.(record := Some(failed), exec := Requeueing(r)), r);
    WakeStep(max, s.(exec := Sleeping));
    assert ls[1..][1..] == ls[2..] && ls[2..][1..] == ls[3..] && ls[3..][1..] == ls[4..] && ls[4..][1..] == [];
    Advance(max, s, ls, read);
    Advance(max, read, ls[1..], clearing);
    Advance(max, clearing, ls[2..], clearing.(exec := Requeueing(r)));
    Advance(max, clearing.(exec := Requeueing(r)), ls[3..], s.(exec := Sleeping));
    Advance(max, s.(exec := Sleeping), ls[4..], s);
    RunOfNothing(max, s);
  }
}
