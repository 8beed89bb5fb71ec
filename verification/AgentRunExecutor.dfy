/**
 The executor as the loop that it is: reads and durable writes on the run store, with every await answered
 by a script. A pass of this code is proved to be a run of the protocol's executor steps, so everything that
 is proved of the protocol holds of it.
 */
module AgentRunExecutors {
  import opened Common
  import opened AgentRunRecords
  import opened AgentRunProtocol
  import opened AgentRunStores
  import opened AgentRunLiveness
  import opened AgentRunOutcomes

  /** What one await yields. The POST is two of them: that it was sent, and what came back. */
  datatype Reply =
    | Cancelled
    | Proceed
    | Raised(error: RunError)
    | Saw(outcome: Option<Outcome>, progressed: bool)
    | Posted(accepted: bool)
    | Replied(answer: Outcome)

  /** The replies that the await at a position can yield; any other one stands for its cancellation. */
  predicate Fits(exec: Position, reply: Reply) {
    match exec
    case Recovering(_) => reply.Raised? || reply.Saw?
    case Handling(_, _, _) => reply.Raised? || reply.Saw?
    case Queued(_) => reply.Proceed? || (reply.Raised? && !SafeToRetry(reply.error))
    case Preparing(_) => reply.Proceed? || reply.Raised?
    case Submitting(_) => reply.Posted? || reply.Raised?
    case AwaitingReply(_) => reply.Replied? || reply.Raised?
    case Sleeping => reply.Proceed?
    case _ => false
  }

  /** The outcome of the run that a reply carries. */
  function OutcomeIn(reply: Reply): Option<Outcome> {
    match reply
    case Saw(outcome, _) => outcome
    case Replied(outcome) => Some(outcome)
    case _ => None
  }

  /** The reply that a step of the protocol answers to. */
  function Said(l: Label): seq<Reply> {
    match l
    case RecoveryReturns(Raises(e), _) => [Raised(e)]
    case RecoveryReturns(Sees(outcome, progressed), _) => [Saw(outcome, progressed)]
    case HandlerReturns(Raises(e), _) => [Raised(e)]
    case HandlerReturns(Sees(outcome, progressed), _) => [Saw(outcome, progressed)]
    case SlotFails(e) => [Raised(e)]
    case PrepareFails(e) => [Raised(e)]
    case SubmitFails(e) => [Raised(e)]
    case ReplyFails(e) => [Raised(e)]
    case ClaimSlot(_) => [Proceed]
    case SetFlag => [Proceed]
    case Wake => [Proceed]
    case Send(accepted) => [Posted(accepted)]
    case ReplyArrives(outcome, _) => [Replied(outcome)]
    case _ => []
  }

  function AllSaid(trace: seq<Label>): seq<Reply> {
    if trace == [] then [] else AllSaid(trace[..|trace| - 1]) + Said(trace[|trace| - 1])
  }

  /** Of the replies in `whole`, those that the steps in `trace` answer to come first, then `due`, which was awaited
      but not yet acted on, then `script`. */
  ghost predicate Accounts(whole: seq<Reply>, trace: seq<Label>, due: seq<Reply>, script: seq<Reply>) {
    whole == AllSaid(trace) + due + script
  }

  lemma ReplyIsDue(whole: seq<Reply>, trace: seq<Label>, script: seq<Reply>)
    requires Accounts(whole, trace, [], script) && script != []
    ensures Accounts(whole, trace, [script[0]], script[1..])
  {
  }

  lemma ReplyIsActedOn(whole: seq<Reply>, trace: seq<Label>, due: seq<Reply>, script: seq<Reply>, l: Label)
    requires Accounts(whole, trace, due, script)
    ensures Said(l) == due ==> Accounts(whole, trace + [l], [], script)
    ensures Said(l) == [] ==> Accounts(whole, trace + [l], due, script)
  {
    assert (trace + [l])[..|trace|] == trace;
  }

  /** The executor's own steps in what it recorded: between its start and, if there was one, its crash. */
  function PassOf(trace: seq<Label>, cancelled: bool): seq<Label>
    requires |trace| > (if cancelled then 1 else 0)
  {
    trace[1..|trace| - (if cancelled then 1 else 0)]
  }

  ghost predicate OnePass(trace: seq<Label>, start: Label, cancelled: bool) {
    if trace == [] then !cancelled
    else && trace[0] == start && |trace| > (if cancelled then 1 else 0)
         && Pass(PassOf(trace, cancelled)) && (cancelled ==> trace[|trace| - 1].Crash?)
  }

  class AgentRunExecutor {
    const store: AgentRunStore
    const id: RunId
    const scope: string
    const max: nat
    const now: nat
    /** Another analysis holds the chat session of the run. */
    const busy: bool
    /** The answers to the awaits still to come; when none is left the task is cancelled. */
    var script: seq<Reply>
    /** How many POSTs this executor has sent. */
    var sent: nat
    /** Set when an await was cancelled; the durable state then is left for the next start. */
    var cancelled: bool
    /** The outcome that the last await told. */
    ghost var told: Option<Outcome>
    /** The reply that was awaited and not yet acted on. */
    ghost var due: seq<Reply>
    ghost const whole: seq<Reply>
    ghost const origin: State
    ghost var trace: seq<Label>
    ghost var state: State

    ghost predicate Valid()
      reads this, store
    {
      && max >= 1
      && store.Valid()
      && ValidIdentity(scope)
      && Owned(store.runs, id, scope).Some?
      && Run'(max, origin, trace) == Some(state)
      && state.record == Some(store.runs[id])
      && Base(max, origin) && Base(max, state)
      && |state.posts| == |origin.posts| + sent
      && OnePass(trace, Spawn(busy, now), cancelled)
      && (trace == [] ==> state.exec.Idle? && told.None? && due == [])
      && Accounts(whole, trace, due, script)
    }

    /** The executor is at a position and has acted on every reply so far. */
    ghost predicate At(exec: Position)
      reads this, store
    {
      Valid() && !cancelled && state.exec == exec && due == []
    }

    constructor (store: AgentRunStore, id: RunId, scope: string, max: nat, now: nat, busy: bool,
                 script: seq<Reply>, ghost posts: seq<Post>)
      requires max >= 1 && store.Valid() && ValidIdentity(scope) && Owned(store.runs, id, scope).Some?
      requires Base(max, State(Some(store.runs[id]), Idle, posts))
      ensures Valid() && this.store == store && this.id == id && this.scope == scope && this.max == max
      ensures this.now == now && this.busy == busy && this.script == script && whole == script
      ensures state == origin == State(Some(store.runs[id]), Idle, posts) && trace == [] && !cancelled
    {
      this.store, this.id, this.scope, this.max, this.now := store, id, scope, max, now;
      this.busy, this.script := busy, script;
      this.sent, this.cancelled := 0, false;
      this.origin := State(Some(store.runs[id]), Idle, posts);
      this.told, this.due, this.whole := None, [], script;
      this.trace := [];
      this.state := State(Some(store.runs[id]), Idle, posts);
    }

    /** Nothing is under way: the executor was cancelled, or the run is settled. */
    ghost predicate AtRest()
      reads this, store
    {
      Valid() && state.exec.Idle? && (cancelled || !Resumable(store.runs[id]))
    }

    /** The executor has stopped after it started. Unless it was cancelled, what it did answers to exactly the replies
        that it used up, and an outcome that it was told is what the client gets. */
    ghost predicate Stopped()
      reads this, store
    {
      && AtRest() && trace != []
      && (!cancelled ==> whole == AllSaid(trace) + script && (told.Some? ==> Shows(store.runs[id], told.value)))
    }

    /** The executor goes on with its loop. */
    ghost predicate Looping()
      reads this, store
    {
      At(Top) && told.None?
    }

    /** Records one protocol step that the code has just taken. It answers to the reply that is due. */
    ghost method Note(l: Label)
      requires max >= 1 && Run'(max, origin, trace) == Some(state) && Base(max, state)
      requires Step(max, state, l).Some? && Said(l) == due && Accounts(whole, trace, due, script)
      requires OnePass(trace, Spawn(busy, now), false) && !cancelled
      requires if trace == [] then l == Spawn(busy, now) else ExecutorLabel(l)
      modifies `trace, `state, `due
      ensures trace == old(trace) + [l] && Some(state) == Step(max, old(state), l) && due == []
      ensures Run'(max, origin, trace) == Some(state) && Base(max, state)
      ensures OnePass(trace, Spawn(busy, now), false) && Accounts(whole, trace, due, script)
    {
      PassGrows(trace, Spawn(busy, now), l);
      RunSnoc(max, origin, trace, state, l);
      StepKeepsBase(max, state, l);
      ReplyIsActedOn(whole, trace, due, script, l);
      trace := trace + [l];
      state := Step(max, state, l).value;
      due := [];
    }

    /** The next reply is due; when none is left the task is cancelled. */
    method Await() returns (reply: Reply)
      requires Valid() && !cancelled && !state.exec.Idle? && due == []
      modifies `script, `told, `due
      ensures Valid() && told == OutcomeIn(reply)
      ensures old(script) == [] ==> reply == Cancelled && script == [] && due == []
      ensures old(script) != [] ==> reply == old(script)[0] && script == old(script)[1..] && due == [reply]
    {
      hide AllWellShaped, ValidIdentity, Owned, Base, Run', OnePass, Accounts;
      if script == [] {
        told := None;
        return Cancelled;
      }
      ReplyIsDue(whole, trace, script);
      reply := script[0];
      script := script[1..];
      told, due := OutcomeIn(reply), [reply];
    }

    ghost predicate Owns()
      reads store
    {
      store.Valid() && ValidIdentity(scope) && Owned(store.runs, id, scope).Some?
    }

    /** `_persist_agent_run_outcome`. */
    method Persist(outcome: Outcome)
      requires Owns()
      modifies store
      ensures Owns() && store.runs == old(store.runs)[id := Persisted(old(store.runs)[id], outcome, now)]
    {
      match outcome {
        case NeedsInput(question) => var reply := store.MarkWaitingInput(id, scope, question);
        case Completed(result) => var reply := store.MarkSucceeded(id, scope, result, now);
      }
      assert store.runs == old(store.runs)[id := store.runs[id]];
    }

    method FailRun(e: RunError)
      requires Owns()
      modifies store
      ensures Owns() && store.runs == old(store.runs)[id := Apply(old(store.runs)[id], FailOp(e, now))]
    {
      var reply := store.MarkFailed(id, scope, e, now);
      assert store.runs == old(store.runs)[id := store.runs[id]];
    }

    method WriteFlag(started: bool)
      requires Owns()
      modifies store
      ensures Owns() && store.runs == old(store.runs)[id := Apply(old(store.runs)[id], FlagOp(started))]
    {
      var reply := store.SetCheckpoint(id, scope, started);
    }

    method RetryRun() returns (ok: bool)
      requires Owns() && max >= 1
      modifies store
      ensures Owns() && ok == Retry(old(store.runs)[id], max).Ok?
      ensures store.runs == old(store.runs)[id := Apply(old(store.runs)[id], RetryOp(max))]
    {
      var reply := store.RetryFailed(id, scope, max);
      ok := reply.Ok?;
      assert store.runs == old(store.runs)[id := store.runs[id]];
    }

    /** The task is cancelled at an await. */
    method Cancel(ghost reply: Reply)
      requires Valid() && !cancelled && !state.exec.Idle? && !Fits(state.exec, reply)
      modifies `cancelled, `trace, `state
      ensures Stopped() && cancelled
    {
      hide AllWellShaped, ValidIdentity, Owned, Step, Base, Run', OnePass, Accounts;
      ReplyIsActedOn(whole, trace, due, script, Crash);
      CrashStep(max, state);
      PassStops(trace, Spawn(busy, now));
      RunSnoc(max, origin, trace, state, Crash);
      StepKeepsBase(max, state, Crash);
      trace := trace + [Crash];
      state := state.(exec := Idle);
      cancelled := true;
    }

    /** Stores an outcome; that settles the run. */
    method Settle(rec: Run, outcome: Outcome, ghost l: Label)
      requires told == Some(outcome) && Said(l) == due
      requires Valid() && !cancelled && !state.exec.Idle? && Resumable(rec) && state.record == Some(rec)
      requires ExecutorLabel(l)
               && Step(max, state, l) == Some(state.(record := Some(Persisted(rec, outcome, now)), exec := Idle))
      modifies `trace, `state, `due, store
      ensures Stopped()
    {
      hide AllWellShaped, ValidIdentity, Owned, Step, Base, Run', OnePass, Accounts, Shape, Persisted, Shows;
      PersistSettles(rec, outcome, now);
      PersistedShows(rec, outcome, now);
      Persist(outcome);
      Note(l);
    }

    /** Stores a failure that is not retried; that settles the run. */
    method Abandon(rec: Run, error: RunError, ghost l: Label)
      requires told.None? && Said(l) == due
      requires Valid() && !cancelled && !state.exec.Idle? && Resumable(rec) && state.record == Some(rec)
      requires ExecutorLabel(l)
               && Step(max, state, l) == Some(state.(record := Some(Apply(rec, FailOp(error, now))), exec := Idle))
      modifies `trace, `state, `due, store
      ensures Stopped()
    {
      hide AllWellShaped, ValidIdentity, Owned, Step, Base, Run', OnePass, Accounts, Shape, Apply;
      FailSettles(rec, error, now);
      FailRun(error);
      Note(l);
    }

    /** `_fail_or_retry_agent_run`: true only when the run was requeued and the pause is over. */
    method FailOrRetryRun(rec: Run, error: RunError, ghost l: Label) returns (again: bool)
      requires Valid() && !cancelled && Resumable(rec) && state.record == Some(rec) && told.None? && Said(l) == due
      requires !state.exec.Idle? && ExecutorLabel(l) && Step(max, state, l).Some?
      requires var t := Step(max, state, l).value;
               && t.record == Some(Apply(rec, FailOp(StoredError(rec, error, max), now)))
               && t.exec == (if SafeToRetry(StoredError(rec, error, max)) then Clearing(rec) else Idle)
               && |t.posts| == |state.posts|
      modifies this, store
      ensures |script| <= |old(script)|
      ensures if again then Looping() else Stopped()
    {
      hide AllWellShaped, ValidIdentity, Owned, Step, Base, Run', OnePass, Accounts, Shape;
      var attempts := EpochAttempts(rec);
      var canRetry := error.retryable && !error.outcomeUnknown;
      var stored := error;
      if canRetry && attempts >= max {
        stored := error.(retryable := false, retryExhausted := true);
        canRetry := false;
      }
      FailRun(stored);
      Note(l);
      if !canRetry {
        return false;
      }
      again := RequeueRun(rec);
    }

    /** The two writes after a retryable failure, and the pause. */
    method RequeueRun(ghost rec: Run) returns (again: bool)
      requires At(Clearing(rec)) && told.None?
      modifies this, store
      ensures |script| <= |old(script)|
      ensures if again then Looping() else Stopped()
    {
      hide AllWellShaped, ValidIdentity, Owned, Step, Base, Apply, Run', OnePass, Accounts, Shape, Retry;
      var retried := Requeued(rec);
      if !retried {
        return false;
      }
      var reply := Await();
      if !reply.Proceed? {
        Cancel(reply);
        return false;
      }
      WakeStep(max, state);
      Note(Wake);
      return true;
    }

    method Requeued(ghost rec: Run) returns (retried: bool)
      requires At(Clearing(rec)) && told.None?
      modifies `trace, `state, `due, store
      ensures if retried then At(Sleeping) else Stopped()
    {
      hide AllWellShaped, ValidIdentity, Owned, Step, Base, Apply, Run', OnePass, Accounts, Shape, Retry;
      ClearFlag(rec);
      RequeueStep(max, state, rec);
      retried := RetryRun();
      Note(Requeue);
    }

    method ClearFlag(ghost rec: Run)
      requires At(Clearing(rec))
      modifies `trace, `state, `due, store
      ensures At(Requeueing(rec)) && state.record.value.status.Failed?
    {
      hide AllWellShaped, ValidIdentity, Owned, Step, Base, Apply, Run', OnePass, Accounts, Shape, Retry;
      Positions(max, state);
      ClearStep(max, state, rec);
      WriteFlag(false);
      Note(Clear);
    }

    /** The reconciliation at the top of the loop. None: go on to an attempt; otherwise whether to loop. */
    method Recover(rec: Run) returns (loop: Option<bool>)
      requires At(Recovering(rec))
      modifies this, store
      ensures |script| <= |old(script)|
      ensures match loop
              case None => At(Queued(rec))
              case Some(again) => if again then Looping() && |script| < |old(script)| else Stopped()
    {
      hide AllWellShaped, ValidIdentity, Owned, Step, Base, Run', OnePass, Accounts, Shape, Apply, Retry;
      Positions(max, state);
      var reply := Await();
      if reply.Raised? {
        var started := rec.checkpoint.submissionStarted;
        var e := if started then reply.error.(retryable := false, outcomeUnknown := true) else reply.error;
        RecoverySteps(max, state, rec, Raises(reply.error), now);
        var again := FailOrRetryRun(rec, e, RecoveryReturns(Raises(reply.error), now));
        return Some(again);
      }
      if !reply.Saw? {
        Cancel(reply);
        return Some(false);
      }
      loop := Reconcile(rec, reply.outcome, reply.progressed);
    }

    /** What the recovery inspection saw decides. */
    method Reconcile(rec: Run, outcome: Option<Outcome>, progressed: bool) returns (loop: Option<bool>)
      requires Valid() && !cancelled && state.exec == Recovering(rec)
      requires told == outcome && due == [Saw(outcome, progressed)]
      modifies this, store
      ensures |script| <= |old(script)|
      ensures match loop
              case None => At(Queued(rec))
              case Some(again) => if again then Looping() else Stopped()
    {
      hide AllWellShaped, ValidIdentity, Owned, Step, Base, Run', OnePass, Accounts, Shape, Apply, Retry, Persisted;
      Positions(max, state);
      ghost var l := RecoveryReturns(Sees(outcome, progressed), now);
      RecoverySteps(max, state, rec, Sees(outcome, progressed), now);
      if outcome.Some? {
        Settle(rec, outcome.value, l);
        return Some(false);
      }
      if rec.checkpoint.submissionStarted || progressed || EpochAttempts(rec) >= max {
        var e := if rec.checkpoint.submissionStarted || progressed then OUTCOME_UNKNOWN else RETRY_EXHAUSTED;
        Abandon(rec, e, l);
        return Some(false);
      }
      if rec.status.Running? {
        var again := FailOrRetryRun(rec, INTERRUPTED, l);
        return Some(again);
      }
      Note(l);
      return None;
    }

    /** The exception handler: one more inspection, then failure, retry or the recovered outcome. */
    method Handle(rec: Run, error: RunError, ghost hasSent: bool) returns (again: bool)
      requires At(Handling(rec, error, hasSent))
      modifies this, store
      ensures |script| <= |old(script)|
      ensures if again then Looping() else Stopped()
    {
      hide AllWellShaped, ValidIdentity, Owned, Step, Base, Run', OnePass, Accounts, Shape, Apply, Retry;
      Positions(max, state);
      var reply := Await();
      if !reply.Raised? && !reply.Saw? {
        Cancel(reply);
        return false;
      }
      ghost var seen := if reply.Raised? then Raises(reply.error) else Sees(reply.outcome, reply.progressed);
      HandlerSteps(max, state, rec, error, hasSent, seen, now);
      if reply.Saw? && reply.outcome.Some? {
        Settle(rec, reply.outcome.value, HandlerReturns(seen, now));
        return false;
      }
      var e := if reply.Saw? && reply.progressed
               then error.(code := OUTCOME_UNKNOWN.code, retryable := false, outcomeUnknown := true) else error;
      again := FailOrRetryRun(rec, e, HandlerReturns(seen, now));
    }

    /** The attempt raises `error`: on to the handler. */
    method FailAttempt(rec: Run, error: RunError, ghost hasSent: bool, ghost l: Label) returns (again: bool)
      requires Valid() && !cancelled && !state.exec.Idle? && Said(l) == due && ExecutorLabel(l)
      requires Step(max, state, l) == Some(state.(exec := Handling(rec, error, hasSent)))
      modifies this, store
      ensures |script| <= |old(script)|
      ensures if again then Looping() else Stopped()
    {
      hide AllWellShaped, ValidIdentity, Owned, Step, Base, Run', OnePass, Accounts, Shape, Said;
      Note(l);
      again := Handle(rec, error, hasSent);
    }

    /** One attempt: wait for a slot, claim, prepare, set the flag durably, and only then send. */
    method Attempt(rec: Run) returns (again: bool)
      requires At(Queued(rec))
      modifies this, store
      ensures if again then Looping() && |script| < |old(script)| else Stopped()
    {
      hide Step, Base, Shape, Apply;
      Positions(max, state);
      AttemptSteps(max, state, rec, now);
      hide Valid;
      var slot := Await();
      if slot.Raised? && !SafeToRetry(slot.error) {
        again := FailAttempt(rec, slot.error, false, SlotFails(slot.error));
        return;
      }
      if !slot.Proceed? {
        Cancel(slot);
        return false;
      }
      var claimed := ClaimRun(rec);
      again := Prepare(claimed);
    }

    method ClaimRun(rec: Run) returns (claimed: Run)
      requires Valid() && !cancelled && state.exec == Queued(rec) && due == [Proceed]
      modifies `trace, `state, `due, store
      ensures At(Preparing(claimed))
    {
      hide AllWellShaped, ValidIdentity, Step, Base, Run', OnePass, Accounts, Shape;
      Positions(max, state);
      AttemptSteps(max, state, rec, now);
      var reply := store.ClaimPending(id, scope, now);
      claimed := reply.value.0.value;
      Note(ClaimSlot(now));
    }

    /** The claimed run: preparation, the durable flag, and then the POST. */
    method Prepare(claimed: Run) returns (again: bool)
      requires At(Preparing(claimed))
      modifies this, store
      ensures |script| <= |old(script)|
      ensures if again then Looping() else Stopped()
    {
      hide Step, Base, Shape, Apply;
      Positions(max, state);
      PrepareSteps(max, state, claimed);
      hide Valid;
      var prepared := Await();
      if prepared.Raised? {
        again := FailAttempt(claimed, prepared.error, false, PrepareFails(prepared.error));
        return;
      }
      if !prepared.Proceed? {
        Cancel(prepared);
        return false;
      }
      var flagged := RaiseFlag(claimed);
      again := Submit(flagged);
    }

    method RaiseFlag(claimed: Run) returns (flagged: Run)
      requires Valid() && !cancelled && state.exec == Preparing(claimed) && due == [Proceed]
      modifies `trace, `state, `due, store
      ensures At(Submitting(flagged)) && flagged == store.runs[id]
    {
      hide AllWellShaped, ValidIdentity, Owned, Step, Base, Run', OnePass, Accounts, Shape, Apply;
      Positions(max, state);
      PrepareSteps(max, state, claimed);
      WriteFlag(true);
      Note(SetFlag);
      flagged := store.runs[id];
    }

    /** The POST, after the flag is durable. */
    method Submit(rec: Run) returns (again: bool)
      requires At(Submitting(rec))
      modifies this, store
      ensures |script| <= |old(script)|
      ensures if again then Looping() else Stopped()
    {
      hide Step, Base, Shape, Leg;
      Positions(max, state);
      SubmitSteps(max, state, rec, now);
      hide Valid;
      var reply := Await();
      if reply.Raised? {
        again := FailAttempt(rec, reply.error, false, SubmitFails(reply.error));
        return;
      }
      if !reply.Posted? {
        Cancel(reply);
        return false;
      }
      CountPost(rec, reply.accepted);
      again := Conclude(rec);
    }

    method CountPost(rec: Run, accepted: bool)
      requires Valid() && !cancelled && state.exec == Submitting(rec) && due == [Posted(accepted)]
      modifies `trace, `state, `due, `sent
      ensures At(AwaitingReply(rec)) && sent == old(sent) + 1
    {
      hide AllWellShaped, ValidIdentity, Owned, Step, Base, Run', OnePass, Accounts, Shape, Leg;
      Positions(max, state);
      SubmitSteps(max, state, rec, now);
      Note(Send(accepted));
      sent := sent + 1;
    }

    /** The upstream's reply to the POST. */
    method Conclude(rec: Run) returns (again: bool)
      requires At(AwaitingReply(rec))
      modifies this, store
      ensures |script| <= |old(script)|
      ensures if again then Looping() else Stopped()
    {
      hide Step, Base, Shape, Persisted;
      Positions(max, state);
      ReplySteps(max, state, rec, now);
      hide Valid;
      var reply := Await();
      if reply.Raised? {
        again := FailAttempt(rec, reply.error, true, ReplyFails(reply.error));
        return;
      }
      if !reply.Replied? {
        Cancel(reply);
        return false;
      }
      Settle(rec, reply.answer, ReplyArrives(reply.answer, now));
      return false;
    }

    /** One pass over a run that exists. A settled run is left alone. Otherwise what the pass did is a run of the
        protocol (`Valid`), of bounded length whatever the awaits yield, and unless it was cancelled it leaves the
        run settled. */
    method ExecuteExclusive()
      requires At(Idle) && trace == []
      modifies this, store
      ensures AtRest() && (Resumable(old(store.runs)[id]) ==> Stopped())
      ensures !Resumable(old(store.runs)[id]) ==> store.runs == old(store.runs) && trace == [] && sent == old(sent)
      ensures busy && Resumable(old(store.runs)[id]) ==> sent == old(sent) && trace == [Spawn(true, now)]
      ensures !busy && Resumable(old(store.runs)[id]) ==>
                && trace != [] && OnePass(trace, Spawn(false, now), cancelled)
                && |PassOf(trace, cancelled)| <= 20 * max + 20 + 5 * FreeSteps(PassOf(trace, cancelled))
    {
      hide AllWellShaped, ValidIdentity, Base, Run', Shape, Retry, Pass;
      if !Resumable(store.runs[id]) {
        return;
      }
      if busy {
        FailRun(SESSION_BUSY);
        Note(Spawn(true, now));
        return;
      }
      Note(Spawn(false, now));
      Drive();
      OnePassIsShort(max, origin, trace, cancelled, now);
    }

    /** The executor's loop. */
    method Drive()
      requires Looping()
      modifies this, store
      ensures Stopped()
    {
      hide AllWellShaped, ValidIdentity, Base, Run', OnePass, Accounts, Shape, Retry, Apply;
      while true
        invariant Looping()
        decreases |script|
      {
        var rec := store.runs[id];
        Note(ReadRecord);
        if !Resumable(rec) {
          return;
        }
        if EpochAttempts(rec) > 0 || rec.checkpoint.submissionStarted {
          var loop := Recover(rec);
          if loop == Some(false) {
            return;
          }
          if loop == Some(true) {
            continue;
          }
        }
        var again := Attempt(rec);
        if !again {
          return;
        }
      }
    }
  }

  /** `_execute_agent_run_exclusive`. A run that is missing or belongs to another scope is left alone. */
  method ExecuteRun(store: AgentRunStore, id: RunId, scope: string, max: nat, now: nat, busy: bool,
                    script: seq<Reply>, ghost posts: seq<Post>)
    returns (executor: AgentRunExecutor?)
    requires max >= 1 && store.Valid()
    requires Owned(store.runs, id, scope).Some? ==> Base(max, State(Some(store.runs[id]), Idle, posts))
    modifies store
    ensures Owned(old(store.runs), id, scope).None? ==> executor == null && store.runs == old(store.runs)
    ensures Owned(old(store.runs), id, scope).Some? ==>
              && executor != null && fresh(executor) && executor.store == store && executor.id == id
              && executor.AtRest() && (Resumable(old(store.runs)[id]) ==> executor.Stopped())
              && executor.origin == State(Some(old(store.runs)[id]), Idle, posts)
              && (!Resumable(old(store.runs)[id]) ==> store.runs == old(store.runs))
    ensures store.Valid()
  {
    if Owned(store.runs, id, scope).None? {
      return null;
    }
    executor := new AgentRunExecutor(store, id, scope, max, now, busy, script, posts);
    executor.ExecuteExclusive();
  }

  lemma FailSettles(r: Run, e: RunError, now: nat)
    requires Resumable(r)
    ensures Apply(r, FailOp(e, now)).status.Failed?
  {
  }

  lemma PassGrows(trace: seq<Label>, start: Label, l: Label)
    requires OnePass(trace, start, false) && (if trace == [] then l == start else ExecutorLabel(l))
    ensures OnePass(trace + [l], start, false)
  {
    if trace != [] {
      assert (trace + [l])[1..|trace| + 1] == trace[1..|trace|] + [l];
    }
  }

  lemma PassStops(trace: seq<Label>, start: Label)
    requires OnePass(trace, start, false) && trace != []
    ensures OnePass(trace + [Crash], start, true)
  {
    assert PassOf(trace + [Crash], true) == PassOf(trace, false);
  }

  lemma {:induction false} RunPrefix(max: nat, s: State, a: seq<Label>, b: seq<Label>)
    requires Run'(max, s, a + b).Some?
    ensures Run'(max, s, a).Some?
    decreases |a|
  {
    if a != [] {
      assert (a + b)[0] == a[0] && (a + b)[1..] == a[1..] + b;
      RunPrefix(max, Step(max, s, a[0]).value, a[1..], b);
    }
  }

  /** What one executor did is bounded, whatever its awaits yielded. */
  lemma OnePassIsShort(max: nat, origin: State, trace: seq<Label>, cancelled: bool, now: nat)
    requires max >= 1 && Base(max, origin) && Run'(max, origin, trace).Some?
    requires OnePass(trace, Spawn(false, now), cancelled) && trace != []
    ensures |PassOf(trace, cancelled)| <= 20 * max + 20 + 5 * FreeSteps(PassOf(trace, cancelled))
  {
    var pass := PassOf(trace, cancelled);
    assert Step(max, origin, trace[0]).Some?;
    var t := Step(max, origin, trace[0]).value;
    assert t == origin.(exec := Top) && origin.record.Some?;
    assert Work(max, t) <= 20 * max + 20;
    StepKeepsBase(max, origin, trace[0]);
    assert trace[1..] == pass + trace[|pass| + 1..];
    hide Step, Base, Work, Pass;
    RunPrefix(max, t, pass, trace[|pass| + 1..]);
    PassDoesWork(max, t, pass);
  }

  lemma {:induction false} RunSnoc(max: nat, s: State, ls: seq<Label>, t: State, l: Label)
    requires Run'(max, s, ls) == Some(t)
    ensures Run'(max, s, ls + [l]) == Step(max, t, l)
    decreases |ls|
  {
    if ls == [] {
      assert ([] + [l])[1..] == [];
      assert ls + [l] == [l];
    } else {
      assert (ls + [l])[0] == ls[0] && (ls + [l])[1..] == ls[1..] + [l];
      RunSnoc(max, Step(max, s, ls[0]).value, ls[1..], t, l);
    }
  }
}
