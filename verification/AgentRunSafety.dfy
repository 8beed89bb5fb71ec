/**
 Safety of whole protocol runs: attempt budgets, at-most-once submission, and exactly where the
 SESSION_BUSY write breaks it.
 */
module AgentRunSafety {
  import opened Common
  import opened AgentRunRecords
  import opened AgentRunProtocol
  import Stores = AgentRunStores

  // ---------- every run ----------

  lemma {:induction false} RunKeepsBase(max: nat, s: State, ls: seq<Label>)
    requires max >= 1 && Base(max, s) && Run'(max, s, ls).Some?
    ensures Base(max, Run'(max, s, ls).value)
    decreases |ls|
  {
    if ls != [] {
      StepKeepsBase(max, s, ls[0]);
      RunKeepsBase(max, Step(max, s, ls[0]).value, ls[1..]);
    }
  }

  /** Over every run with any crashes: attempts and POSTs are bounded by the limit per leg, a pending run
      has budget left and a clear flag, and no record ever leaves its documented shape. */
  lemma AttemptBudget(max: nat, ls: seq<Label>)
    requires max >= 1 && Run'(max, Init, ls).Some?
    ensures var s := Run'(max, Init, ls).value;
            s.record.Some? ==>
              var r := s.record.value;
              && Shape(r)
              && r.checkpoint.epochStart <= r.attempts
              && (r.status.Pending? ==> !r.checkpoint.submissionStarted && EpochAttempts(r) < max)
              && (r.status.Running? ==> 1 <= EpochAttempts(r) <= max)
              && r.attempts <= max * (1 + |r.checkpoint.receipts|)
              && |s.posts| <= r.attempts
  {
    RunKeepsBase(max, Init, ls);
    var s := Run'(max, Init, ls).value;
    if s.record.Some? {
      var receipts := |s.record.value.checkpoint.receipts|;
      assert max * (1 + receipts) == max * receipts + max;
    }
  }

  /** No run is stranded: in every reachable state a pending or running record is one that a restarted
      service takes up again. */
  lemma NoStrandedRun(max: nat, ls: seq<Label>)
    requires max >= 1 && Run'(max, Init, ls).Some?
    ensures var s := Run'(max, Init, ls).value;
            s.record.Some? ==> (Stores.Listed(s.record.value, Some(max)) <==> Resumable(s.record.value))
  {
    RunKeepsBase(max, Init, ls);
  }

  // ---------- at-most-once submission ----------

  /** Every earlier POST of the current leg is known to have taken no effect. */
  ghost predicate Quiet(r: Run, posts: seq<Post>) {
    forall i :: 0 <= i < |posts| && posts[i].leg == Leg(r) ==> posts[i].refused
  }

  /** The same, except perhaps for the last POST. */
  ghost predicate QuietBeforeLast(r: Run, posts: seq<Post>) {
    forall i :: 0 <= i < |posts| - 1 && posts[i].leg == Leg(r) ==> posts[i].refused
  }

  /** No POST of the run is sent unless every earlier POST of its leg is known to have taken no effect. */
  ghost predicate AtMostOnce(max: nat, s: State, ls: seq<Label>)
    decreases |ls|
  {
    ls == [] ||
    match Step(max, s, ls[0])
    case None => true
    case Some(t) => (ls[0].Send? ==> s.record.Some? && Quiet(s.record.value, s.posts)) && AtMostOnce(max, t, ls[1..])
  }

  /** What the SESSION_BUSY write would have to check: the write-ahead flag is clear, or no retry is left. */
  predicate BusyWriteIsSafe(max: nat, r: Run) {
    !r.checkpoint.submissionStarted || EpochAttempts(r) >= max
  }

  ghost predicate BusyWritesGuarded(max: nat, s: State, ls: seq<Label>)
    decreases |ls|
  {
    ls == [] ||
    match Step(max, s, ls[0])
    case None => true
    case Some(t) =>
      && (ls[0].Spawn? && ls[0].busy && s.record.Some? ==> BusyWriteIsSafe(max, s.record.value))
      && BusyWritesGuarded(max, t, ls[1..])
  }

  ghost predicate Accounted(max: nat, s: State) {
    s.record.Some? ==>
      var r := s.record.value;
      && (Resumable(r) && !r.checkpoint.submissionStarted ==> Quiet(r, s.posts))
      && (EndpointMayRetry(r, max) ==> Quiet(r, s.posts))
      && (s.exec.Submitting? ==> Quiet(r, s.posts))
      && (s.exec.AwaitingReply? ==> QuietBeforeLast(r, s.posts))
      && (s.exec.Handling? ==> if s.exec.sent then QuietBeforeLast(r, s.posts) else Quiet(r, s.posts))
  }

  lemma OpKeepsQuiet(r: Run, op: Op, posts: seq<Post>)
    requires History(r, posts)
    requires Quiet(r, posts) || Leg(Apply(r, op)) > Leg(r)
    ensures Quiet(Apply(r, op), posts)
  {
    assert Leg(Apply(r, op)) >= Leg(r);
  }

  lemma EndpointKeepsAccounted(max: nat, s: State, l: Label)
    requires max >= 1 && Base(max, s) && Accounted(max, s) && Step(max, s, l).Some?
    requires l.EndpointRetry? || l.EndpointRetryCrash? || l.Answer?
    ensures Accounted(max, Step(max, s, l).value)
  {
    var r := s.record.value;
    match l
    case EndpointRetry =>
      OpKeepsQuiet(r, FlagOp(false), s.posts);
      OpKeepsQuiet(Apply(r, FlagOp(false)), RetryOp(max), s.posts);
    case EndpointRetryCrash => OpKeepsQuiet(r, FlagOp(false), s.posts);
    case Answer(key, answer, messageCount, artifactIds) =>
      var op := ResumeOp(key, answer, messageCount, artifactIds);
      if Apply(r, op) != r {
        assert |Apply(r, op).checkpoint.receipts| == |r.checkpoint.receipts| + 1;
        OpKeepsQuiet(r, op, s.posts);
      }
  }

  lemma FailOrRetryKeepsAccounted(max: nat, s: State, r: Run, e: RunError, now: nat)
    requires max >= 1 && Base(max, s) && s.record == Some(r) && Resumable(r)
    requires SafeToRetry(e) && EpochAttempts(r) < max ==> Quiet(r, s.posts)
    ensures Accounted(max, FailOrRetry(s, r, r, e, max, now))
  {
    var failed := Apply(r, FailOp(StoredError(r, e, max), now));
    if EndpointMayRetry(failed, max) {
      OpKeepsQuiet(r, FailOp(StoredError(r, e, max), now), s.posts);
    }
  }

  lemma PersistKeepsAccounted(max: nat, s: State, outcome: Outcome, now: nat)
    requires max >= 1 && Base(max, s) && s.record.Some? && Resumable(s.record.value)
    ensures Accounted(max, s.(record := Some(Persisted(s.record.value, outcome, now)), exec := Idle))
  {
    var next := Persisted(s.record.value, outcome, now);
    assert next.status.Succeeded? || next.status.WaitingInput?;
  }

  lemma RecoveryKeepsAccounted(max: nat, s: State, seen: Inspection, now: nat)
    requires max >= 1 && Base(max, s) && Accounted(max, s) && s.exec.Recovering?
    ensures Accounted(max, Recovered(s, s.record.value, s.exec.rec, seen, max, now))
  {
    var r := s.record.value;
    match seen
    case Raises(e) =>
      FailOrRetryKeepsAccounted(max, s, r,
        if r.checkpoint.submissionStarted then e.(retryable := false, outcomeUnknown := true) else e, now);
    case Sees(outcome, progressed) =>
      if outcome.Some? {
        PersistKeepsAccounted(max, s, outcome.value, now);
      } else if !r.checkpoint.submissionStarted {
        FailOrRetryKeepsAccounted(max, s, r, INTERRUPTED, now);
      }
  }

  lemma HandlerKeepsAccounted(max: nat, s: State, seen: Inspection, now: nat)
    requires max >= 1 && Base(max, s) && Accounted(max, s) && s.exec.Handling?
    ensures Accounted(max, Handled(s, s.record.value, seen, max, now))
  {
    var r := s.record.value;
    if seen.Sees? && seen.outcome.Some? {
      PersistKeepsAccounted(max, s, seen.outcome.value, now);
    } else {
      var e := if seen.Sees? && seen.progressed
               then s.exec.error.(code := OUTCOME_UNKNOWN.code, retryable := false, outcomeUnknown := true)
               else s.exec.error;
      if s.exec.sent && SafeToRetry(e) {
        assert Quiet(r, RefuseLast(s.posts));
        RefusingKeepsBase(max, s);
        FailOrRetryKeepsAccounted(max, s.(posts := RefuseLast(s.posts)), r, e, now);
      } else {
        FailOrRetryKeepsAccounted(max, s, r, e, now);
      }
    }
  }

  lemma ExecutorWriteKeepsAccounted(max: nat, s: State, l: Label)
    requires max >= 1 && Base(max, s) && Accounted(max, s) && Step(max, s, l).Some?
    requires l.Clear? || l.Requeue? || l.ClaimSlot? || l.SetFlag? || l.ReplyArrives?
    ensures Accounted(max, Step(max, s, l).value)
  {
    var r := s.record.value;
    match l
    case Clear => OpKeepsQuiet(r, FlagOp(false), s.posts);
    case Requeue => OpKeepsQuiet(r, RetryOp(max), s.posts);
    case ClaimSlot(now) => OpKeepsQuiet(r, ClaimOp(now), s.posts);
    case SetFlag => OpKeepsQuiet(r, FlagOp(true), s.posts);
    case ReplyArrives(outcome, now) => PersistKeepsAccounted(max, s, outcome, now);
  }

  lemma BusyWriteKeepsAccounted(max: nat, s: State, now: nat)
    requires max >= 1 && Base(max, s) && Accounted(max, s) && Step(max, s, Spawn(true, now)).Some?
    requires Quiet(s.record.value, s.posts) || EpochAttempts(s.record.value) >= max
    ensures Accounted(max, Step(max, s, Spawn(true, now)).value)
  {
    if Quiet(s.record.value, s.posts) {
      OpKeepsQuiet(s.record.value, FailOp(SESSION_BUSY, now), s.posts);
    }
  }

  lemma InspectionKeepsAccounted(max: nat, s: State, l: Label)
    requires max >= 1 && Base(max, s) && Accounted(max, s) && Step(max, s, l).Some?
    requires l.RecoveryReturns? || l.HandlerReturns?
    ensures Accounted(max, Step(max, s, l).value)
  {
    hide Accounted, Recovered, Handled, Shape, Budget, History;
    match l
    case RecoveryReturns(seen, now) => RecoveryKeepsAccounted(max, s, seen, now);
    case HandlerReturns(seen, now) => HandlerKeepsAccounted(max, s, seen, now);
  }

  lemma MovingKeepsAccounted(max: nat, s: State, l: Label)
    requires max >= 1 && Base(max, s) && Accounted(max, s) && Step(max, s, l).Some?
    requires MovesOnly(l) || l.Create? || (l.Spawn? && !l.busy)
    ensures Accounted(max, Step(max, s, l).value)
  {
    hide Apply, FailOrRetry, Recovered, Handled, Persisted, Shape, Leg;
  }

  lemma StepKeepsAccounted(max: nat, s: State, l: Label)
    requires max >= 1 && Base(max, s) && Accounted(max, s) && Step(max, s, l).Some?
    requires l.Spawn? && l.busy && s.record.Some? ==> BusyWriteIsSafe(max, s.record.value)
    ensures Accounted(max, Step(max, s, l).value)
  {
    if l.Spawn? && l.busy {
      BusySpawnIsQuiet(max, s, l);
      BusyWriteKeepsAccounted(max, s, l.now);
      return;
    }
    hide Step, Base, Accounted;
    match l
    case EndpointRetry => EndpointKeepsAccounted(max, s, l);
    case EndpointRetryCrash => EndpointKeepsAccounted(max, s, l);
    case Answer(_, _, _, _) => EndpointKeepsAccounted(max, s, l);
    case RecoveryReturns(_, _) => InspectionKeepsAccounted(max, s, l);
    case HandlerReturns(_, _) => InspectionKeepsAccounted(max, s, l);
    case Clear => ExecutorWriteKeepsAccounted(max, s, l);
    case Requeue => ExecutorWriteKeepsAccounted(max, s, l);
    case ClaimSlot(_) => ExecutorWriteKeepsAccounted(max, s, l);
    case SetFlag => ExecutorWriteKeepsAccounted(max, s, l);
    case ReplyArrives(_, _) => ExecutorWriteKeepsAccounted(max, s, l);
    case _ => MovingKeepsAccounted(max, s, l);
  }

  /** A guarded SESSION_BUSY write hits a quiet leg or a spent budget. */
  lemma BusySpawnIsQuiet(max: nat, s: State, l: Label)
    requires max >= 1 && Base(max, s) && Accounted(max, s) && Step(max, s, l).Some?
    requires l.Spawn? && l.busy && s.record.Some? ==> BusyWriteIsSafe(max, s.record.value)
    ensures l.Spawn? && l.busy ==>
              s.record.Some? && (Quiet(s.record.value, s.posts) || EpochAttempts(s.record.value) >= max)
  {
    hide Quiet, Base;
  }

  lemma {:induction false} AccountedRunIsAtMostOnce(max: nat, s: State, ls: seq<Label>)
    requires max >= 1 && Base(max, s) && Accounted(max, s) && BusyWritesGuarded(max, s, ls)
    ensures AtMostOnce(max, s, ls)
    decreases |ls|
  {
    if ls != [] && Step(max, s, ls[0]).Some? {
      StepKeepsBase(max, s, ls[0]);
      StepKeepsAccounted(max, s, ls[0]);
      AccountedRunIsAtMostOnce(max, Step(max, s, ls[0]).value, ls[1..]);
    }
  }

  /** At-most-once submission, over every run with crashes between any two durable writes, as long as no
      SESSION_BUSY write hits a record whose write-ahead flag is set while a retry is left. */
  lemma SubmissionIsAtMostOnce(max: nat, ls: seq<Label>)
    requires max >= 1 && BusyWritesGuarded(max, Init, ls)
    ensures AtMostOnce(max, Init, ls)
  {
    AccountedRunIsAtMostOnce(max, Init, ls);
  }

  // ---------- exactly where the SESSION_BUSY write breaks it ----------

  /** No continuation of `t` whose later SESSION_BUSY writes are guarded sends a second live POST. */
  ghost predicate NeverResends(max: nat, t: State) {
    forall ls :: BusyWritesGuarded(max, t, ls) ==> AtMostOnce(max, t, ls)
  }

  /** An idle state that fits the durable record `r`. */
  ghost predicate Consistent(max: nat, r: Run, posts: seq<Post>) {
    var s := State(Some(r), Idle, posts);
    Base(max, s) && Accounted(max, s)
  }

  /** A client retry followed by a recovery inspection that sees nothing yet. */
  const PLAIN_RETRY: seq<Label> :=
    [EndpointRetry, Spawn(false, 0), ReadRecord, RecoveryReturns(Sees(None, false), 0),
     ClaimSlot(0), SetFlag, Send(false)]

  lemma Prepend(max: nat, s: State, ls: seq<Label>)
    requires ls != [] && Step(max, s, ls[0]).Some? && !(ls[0].Spawn? && ls[0].busy)
    requires BusyWritesGuarded(max, Step(max, s, ls[0]).value, ls[1..])
    requires !AtMostOnce(max, Step(max, s, ls[0]).value, ls[1..])
    ensures BusyWritesGuarded(max, s, ls) && !AtMostOnce(max, s, ls)
  {
  }

  lemma RequeuedRunResends(max: nat, t: State)
    requires max >= 1 && Base(max, t) && t.exec.Idle? && t.record.Some?
    requires t.record.value.status.Pending? && EpochAttempts(t.record.value) >= 1
    requires !Quiet(t.record.value, t.posts)
    ensures BusyWritesGuarded(max, t, PLAIN_RETRY[1..]) && !AtMostOnce(max, t, PLAIN_RETRY[1..])
  {
    var r := t.record.value;
    assert !r.checkpoint.submissionStarted && EpochAttempts(r) < max;
    var top, read := t.(exec := Top), t.(exec := Recovering(r));
    QueuedRunResends(max, t.(exec := Queued(r)), r);
    hide Step, Base, Run', Quiet, Apply;
    StartSteps(max, t, r, 0);
    RecoverySteps(max, read, r, Sees(None, false), 0);
    assert PLAIN_RETRY[3..][1..] == PLAIN_RETRY[4..];
    Prepend(max, read, PLAIN_RETRY[3..]);
    assert PLAIN_RETRY[2..][1..] == PLAIN_RETRY[3..];
    Prepend(max, top, PLAIN_RETRY[2..]);
    assert PLAIN_RETRY[1..][1..] == PLAIN_RETRY[2..];
    Prepend(max, t, PLAIN_RETRY[1..]);
  }

  lemma QueuedRunResends(max: nat, s: State, r: Run)
    requires s.record == Some(r) && s.exec == Queued(r) && r.status.Pending? && !Quiet(r, s.posts)
    ensures BusyWritesGuarded(max, s, PLAIN_RETRY[4..]) && !AtMostOnce(max, s, PLAIN_RETRY[4..])
  {
    var claimed := Apply(r, ClaimOp(0));
    var flagged := Apply(claimed, FlagOp(true));
    assert Leg(flagged) == Leg(r) && !Quiet(flagged, s.posts);
    hide Step, Quiet, Apply, Leg;
    var prepared := s.(record := Some(claimed), exec := Preparing(claimed));
    var submitting := s.(record := Some(flagged), exec := Submitting(flagged));
    AttemptSteps(max, s, r, 0);
    PrepareSteps(max, prepared, claimed);
    SubmitSteps(max, submitting, flagged, 0);
    LoudSend(max, submitting, PLAIN_RETRY[6..]);
    assert PLAIN_RETRY[5..][1..] == PLAIN_RETRY[6..];
    Prepend(max, prepared, PLAIN_RETRY[5..]);
    assert PLAIN_RETRY[4..][1..] == PLAIN_RETRY[5..];
    Prepend(max, s, PLAIN_RETRY[4..]);
  }

  lemma LoudSend(max: nat, s: State, ls: seq<Label>)
    requires |ls| == 1 && ls[0].Send? && Step(max, s, ls[0]).Some?
    requires s.record.Some? && !Quiet(s.record.value, s.posts)
    ensures BusyWritesGuarded(max, s, ls) && !AtMostOnce(max, s, ls)
  {
    assert BusyWritesGuarded(max, Step(max, s, ls[0]).value, ls[1..]);
  }

  lemma BusyWriteThenResend(max: nat, s: State, now: nat)
    requires max >= 1 && Base(max, s) && Step(max, s, Spawn(true, now)).Some?
    requires !Quiet(s.record.value, s.posts) && EpochAttempts(s.record.value) < max
    ensures !NeverResends(max, Step(max, s, Spawn(true, now)).value)
  {
    var r := s.record.value;
    var t := Step(max, s, Spawn(true, now)).value;
    var retried := Step(max, t, EndpointRetry).value;
    StepKeepsBase(max, s, Spawn(true, now));
    StepKeepsBase(max, t, EndpointRetry);
    RequeuedRunResends(max, retried);
    Prepend(max, t, PLAIN_RETRY);
  }

  /** For a state that fits every guarded run so far, the SESSION_BUSY write is harmless exactly when no
      POST of the leg is unaccounted for, or no retry is left. */
  lemma BusyWriteExactly(max: nat, s: State, now: nat)
    requires max >= 1 && Base(max, s) && Accounted(max, s) && Step(max, s, Spawn(true, now)).Some?
    ensures NeverResends(max, Step(max, s, Spawn(true, now)).value)
       <==> Quiet(s.record.value, s.posts) || EpochAttempts(s.record.value) >= max
  {
    var t := Step(max, s, Spawn(true, now)).value;
    if Quiet(s.record.value, s.posts) || EpochAttempts(s.record.value) >= max {
      StepKeepsBase(max, s, Spawn(true, now));
      BusyWriteKeepsAccounted(max, s, now);
      forall ls | BusyWritesGuarded(max, t, ls) ensures AtMostOnce(max, t, ls) {
        AccountedRunIsAtMostOnce(max, t, ls);
      }
    } else {
      BusyWriteThenResend(max, s, now);
    }
  }

  /** The guard is exact for what the service can read before it writes: it holds of a durable record if and
      only if the SESSION_BUSY write is harmless whatever POSTs lie behind that record. */
  lemma BusyGuardIsExact(max: nat, r: Run, now: nat)
    requires max >= 1 && Shape(r) && Budget(max, r) && Resumable(r)
    ensures BusyWriteIsSafe(max, r)
       <==> forall posts :: Consistent(max, r, posts) ==>
              NeverResends(max, FailAndStop(State(Some(r), Idle, posts), r, SESSION_BUSY, now))
  {
    if BusyWriteIsSafe(max, r) {
      forall posts | Consistent(max, r, posts)
        ensures NeverResends(max, FailAndStop(State(Some(r), Idle, posts), r, SESSION_BUSY, now))
      {
        BusyWriteExactly(max, State(Some(r), Idle, posts), now);
      }
    } else {
      var posts := [Post(Leg(r), false, true)];
      assert Consistent(max, r, posts);
      assert !posts[0].refused;
      BusyWriteExactly(max, State(Some(r), Idle, posts), now);
    }
  }

  /** A worker that dies after its POST was taken, then finds its chat session busy. */
  const DIES_AFTER_POST: seq<Label> :=
    [Create("owner", "report", 0, []), Spawn(false, 0), ReadRecord, ClaimSlot(0), SetFlag, Send(true), Crash]

  lemma Advance(max: nat, s: State, ls: seq<Label>, t: State)
    requires ls != [] && Step(max, s, ls[0]) == Some(t)
    ensures Run'(max, s, ls) == Run'(max, t, ls[1..])
  {
  }

  lemma DiesAfterPost(r1: Run, r2: Run)
    requires r1 == Apply(NewRun("owner", "report", 0, []), ClaimOp(0)) && r2 == Apply(r1, FlagOp(true))
    ensures Run'(2, Init, DIES_AFTER_POST) == Some(State(Some(r2), Idle, [Post(0, false, true)]))
  {
    var r0 := NewRun("owner", "report", 0, []);
    assert ValidIdentity("owner");
    var idle := State(Some(r0), Idle, []);
    assert Step(2, Init, DIES_AFTER_POST[0]) == Some(idle);
    assert Leg(r2) == 0;
    hide Step, Apply, Run', NewRun, Leg;
    var d := DIES_AFTER_POST;
    var queued := idle.(exec := Queued(r0));
    var preparing := State(Some(r1), Preparing(r1), []);
    var submitting := State(Some(r2), Submitting(r2), []);
    StartSteps(2, idle, r0, 0);
    AttemptSteps(2, queued, r0, 0);
    PrepareSteps(2, preparing, r1);
    assert d[1..][1..] == d[2..] && d[2..][1..] == d[3..] && d[3..][1..] == d[4..] && d[4..][1..] == d[5..];
    Advance(2, Init, d, idle);
    Advance(2, idle, d[1..], idle.(exec := Top));
    Advance(2, idle.(exec := Top), d[2..], queued);
    Advance(2, queued, d[3..], preparing);
    Advance(2, preparing, d[4..], submitting);
    assert d[5..] == [Send(true), Crash];
    SendsAndDies(2, submitting, r2);
  }

  lemma SendsAndDies(max: nat, s: State, r: Run)
    requires s == State(Some(r), Submitting(r), [])
    ensures Run'(max, s, [Send(true), Crash]) == Some(State(Some(r), Idle, [Post(Leg(r), false, true)]))
  {
    var ls := [Send(true), Crash];
    var waiting := s.(exec := AwaitingReply(r), posts := s.posts + [Post(Leg(r), false, true)]);
    assert waiting.posts == [Post(Leg(r), false, true)];
    assert ls[1..] == [Crash] && ls[1..][1..] == [];
    hide Step, Run', Leg;
    SubmitSteps(max, s, r, 0);
    CrashStep(max, waiting);
    Advance(max, s, ls, waiting);
    Advance(max, waiting, ls[1..], waiting.(exec := Idle));
    RunOfNothing(max, waiting.(exec := Idle));
  }

  lemma RunOfNothing(max: nat, s: State)
    ensures Run'(max, s, []) == Some(s)
  {
  }

  /** A concrete run that goes on to send the same leg again although its first POST was accepted. */
  lemma BusyWriteBreaksAtMostOnce()
    ensures Run'(2, Init, DIES_AFTER_POST).Some?
    ensures var died := Run'(2, Init, DIES_AFTER_POST).value;
            && died.posts == [Post(0, false, true)]
            && Step(2, died, Spawn(true, 0)).Some?
            && exists ls :: !AtMostOnce(2, Step(2, died, Spawn(true, 0)).value, ls)
  {
    var r1 := Apply(NewRun("owner", "report", 0, []), ClaimOp(0));
    DiesAfterPost(r1, Apply(r1, FlagOp(true)));
    RunKeepsBase(2, Init, DIES_AFTER_POST);
    var died := Run'(2, Init, DIES_AFTER_POST).value;
    assert !died.posts[0].refused;
    BusyWriteThenResend(2, died, 0);
  }

  // ---------- with an inspection that sees every accepted turn ----------

  /** Some POST of the current leg took effect upstream. */
  ghost predicate Taken(r: Run, posts: seq<Post>) {
    exists i :: 0 <= i < |posts| && posts[i].leg == Leg(r) && posts[i].accepted
  }

  /** A recovery inspection that does not raise shows every accepted turn of the leg. */
  ghost predicate Truthful(s: State, l: Label) {
    s.record.Some? && l.RecoveryReturns? && l.seen.Sees? && Taken(s.record.value, s.posts) ==>
      l.seen.outcome.Some? || l.seen.progressed
  }

  ghost predicate TruthfulRun(max: nat, s: State, ls: seq<Label>)
    decreases |ls|
  {
    ls == [] ||
    match Step(max, s, ls[0])
    case None => true
    case Some(t) => Truthful(s, ls[0]) && TruthfulRun(max, t, ls[1..])
  }

  /** No POST is sent while an earlier POST of its leg took effect. */
  ghost predicate NeverTakenTwice(max: nat, s: State, ls: seq<Label>)
    decreases |ls|
  {
    ls == [] ||
    match Step(max, s, ls[0])
    case None => true
    case Some(t) =>
      && (ls[0].Send? ==> s.record.Some? && !Taken(s.record.value, s.posts))
      && NeverTakenTwice(max, t, ls[1..])
  }

  ghost predicate Seen(s: State) {
    s.record.Some? && (s.exec.Queued? || s.exec.Preparing? || s.exec.Submitting?) ==> !Taken(s.record.value, s.posts)
  }

  lemma ClaimingKeepsSeen(max: nat, s: State, l: Label)
    requires Base(max, s) && Seen(s) && Step(max, s, l).Some? && (l.ClaimSlot? || l.SetFlag?)
    ensures Seen(Step(max, s, l).value)
  {
    hide Shape, Budget, History;
  }

  lemma RecoveryKeepsSeen(max: nat, s: State, l: Label)
    requires Base(max, s) && Step(max, s, l).Some? && Truthful(s, l) && l.RecoveryReturns?
    ensures Seen(Step(max, s, l).value)
  {
    hide Shape, Budget, History, Apply;
  }

  lemma EndpointKeepsSeen(max: nat, s: State, l: Label)
    requires Base(max, s) && Seen(s) && Step(max, s, l).Some?
    requires l.EndpointRetry? || l.Answer? || l.Create?
    ensures Seen(Step(max, s, l).value)
  {
    hide Shape, Budget;
  }

  /** Every other step leads to a position where `Seen` asks nothing, or only moves the executor. */
  lemma OtherStepKeepsSeen(max: nat, s: State, l: Label)
    requires Base(max, s) && Seen(s) && Step(max, s, l).Some?
    requires !l.ClaimSlot? && !l.SetFlag? && !l.RecoveryReturns? && !l.EndpointRetry? && !l.Answer? && !l.Create?
    ensures Seen(Step(max, s, l).value)
  {
    hide Apply, Retry, Persisted, Shape, Budget;
  }

  lemma StepKeepsSeen(max: nat, s: State, l: Label)
    requires max >= 1 && Base(max, s) && Seen(s) && Step(max, s, l).Some? && Truthful(s, l)
    ensures Seen(Step(max, s, l).value)
  {
    hide Step, Base, Seen, Truthful;
    match l
    case ClaimSlot(_) => ClaimingKeepsSeen(max, s, l);
    case SetFlag => ClaimingKeepsSeen(max, s, l);
    case RecoveryReturns(_, _) => RecoveryKeepsSeen(max, s, l);
    case EndpointRetry => EndpointKeepsSeen(max, s, l);
    case Answer(_, _, _, _) => EndpointKeepsSeen(max, s, l);
    case Create(_, _, _, _) => EndpointKeepsSeen(max, s, l);
    case _ => OtherStepKeepsSeen(max, s, l);
  }

  lemma {:induction false} SeenRunIsNeverTakenTwice(max: nat, s: State, ls: seq<Label>)
    requires max >= 1 && Base(max, s) && Seen(s) && TruthfulRun(max, s, ls)
    ensures NeverTakenTwice(max, s, ls)
    decreases |ls|
  {
    if ls != [] && Step(max, s, ls[0]).Some? {
      StepKeepsBase(max, s, ls[0]);
      StepKeepsSeen(max, s, ls[0]);
      SeenRunIsNeverTakenTwice(max, Step(max, s, ls[0]).value, ls[1..]);
    }
  }

  /** With truthful recovery inspections no leg takes effect twice, SESSION_BUSY writes and crashes included. */
  lemma TruthfulInspectionNeverTakenTwice(max: nat, ls: seq<Label>)
    requires max >= 1 && TruthfulRun(max, Init, ls)
    ensures NeverTakenTwice(max, Init, ls)
  {
    SeenRunIsNeverTakenTwice(max, Init, ls);
  }
}
