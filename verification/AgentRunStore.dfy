/** The store of Agent runs. One method call is one locked, durable transaction. */
module AgentRunStores {
  import opened Common
  import opened AgentRunRecords

  type Runs = map<RunId, Run>

  /** The record that `scope` may see under `id`. */
  function Owned(runs: Runs, id: RunId, scope: string): Option<Run> {
    if id in runs && runs[id].ownerScope != "" && runs[id].ownerScope == scope then Some(runs[id]) else None
  }

  /** The reply and the new map when `update` is applied to one owned record. */
  function Updated(runs: Runs, id: RunId, scope: string, update: Run -> Result<Run, StoreError>)
    : (Result<Option<Run>, StoreError>, Runs)
  {
    if !ValidIdentity(scope) then (Err(InvalidValue), runs)
    else if Owned(runs, id, scope).None? then (Ok(None), runs)
    else match update(runs[id])
         case Err(e) => (Err(e), runs)
         case Ok(run) => (Ok(Some(run)), runs[id := run])
  }

  function CreateReply(runs: Runs, id: RunId, request: string, baseline: nat, artifactIds: seq<string>)
    : Result<(Run, bool), StoreError>
  {
    if !ValidIdentity(id.scope) || !ValidIdentity(id.session) || !ValidKey(id.key) then Err(InvalidValue)
    else if id in runs then
      if runs[id].request == request then Ok((runs[id], false)) else Err(IdempotencyConflict)
    else Ok((NewRun(id.scope, request, baseline, artifactIds), true))
  }

  ghost predicate AllWellShaped(runs: Runs) {
    forall id :: id in runs ==> runs[id].ownerScope == id.scope && ValidIdentity(id.scope) && Shape(runs[id])
  }

  /** `later` keeps every record of `runs` and only lets it move forward. */
  ghost predicate MovesForward(runs: Runs, later: Runs) {
    forall id :: id in runs ==> id in later && Extends(runs[id], later[id])
  }

  /** A valid identity that is free creates a run for its scope with the given request. */
  lemma FreeIdentityCreates(runs: Runs, id: RunId, request: string, baseline: nat, artifactIds: seq<string>)
    ensures CreateReply(runs, id, request, baseline, artifactIds) == Err(InvalidValue)
       <==> !ValidIdentity(id.scope) || !ValidIdentity(id.session) || !ValidKey(id.key)
    ensures var reply := CreateReply(runs, id, request, baseline, artifactIds);
            (reply.Ok? && reply.value.1)
            <==> id !in runs && ValidIdentity(id.scope) && ValidIdentity(id.session) && ValidKey(id.key)
    ensures var reply := CreateReply(runs, id, request, baseline, artifactIds);
            reply.Ok? && reply.value.1 ==> reply.value.0 == NewRun(id.scope, request, baseline, artifactIds)
  {
  }

  /** An update reaches exactly one record, of its own scope, and only when it is granted. */
  lemma UpdateReachesExactly(runs: Runs, id: RunId, scope: string, update: Run -> Result<Run, StoreError>)
    requires AllWellShaped(runs)
    ensures var (reply, later) := Updated(runs, id, scope, update);
            if !ValidIdentity(scope) then reply == Err(InvalidValue) && later == runs
            else if id !in runs || id.scope != scope then reply == Ok(None) && later == runs
            else if update(runs[id]).Err? then reply == Err(update(runs[id]).error) && later == runs
            else && reply == Ok(Some(update(runs[id]).value)) && later.Keys == runs.Keys
                 && later[id] == update(runs[id]).value
                 && forall other :: other in runs && other != id ==> later[other] == runs[other]
  {
  }

  class AgentRunStore {
    var runs: Runs
    /** Where a run stands in the order of creation time and run id. Both are fixed when the run is created. */
    const age: RunId -> int

    ghost predicate Valid()
      reads this
    {
      AllWellShaped(runs)
    }

    constructor (age: RunId -> int)
      ensures Valid() && runs == map[] && this.age == age
    {
      runs := map[];
      this.age := age;
    }

    method CreateOrGet(scope: string, session: string, key: string, request: string,
                       baseline: nat, artifactIds: seq<string>)
      returns (reply: Result<(Run, bool), StoreError>)
      requires Valid()
      modifies this
      ensures Valid() && MovesForward(old(runs), runs)
      ensures reply == CreateReply(old(runs), RunId(scope, session, key), request, baseline, artifactIds)
      ensures runs == if reply.Ok? && reply.value.1
                      then old(runs)[RunId(scope, session, key) := reply.value.0] else old(runs)
    {
      if !ValidIdentity(scope) || !ValidIdentity(session) || !ValidKey(key) {
        return Err(InvalidValue);
      }
      var id := RunId(scope, session, key);
      if id in runs {
        if runs[id].request != request {
          return Err(IdempotencyConflict);
        }
        return Ok((runs[id], false));
      }
      var run := NewRun(scope, request, baseline, artifactIds);
      runs := runs[id := run];
      return Ok((run, true));
    }

    method GetOwned(id: RunId, scope: string) returns (reply: Result<Option<Run>, StoreError>)
      requires Valid()
      ensures !ValidIdentity(scope) ==> reply == Err(InvalidValue)
      ensures ValidIdentity(scope) ==>
                reply == Ok(if id in runs && id.scope == scope then Some(runs[id]) else None)
    {
      if !ValidIdentity(scope) {
        return Err(InvalidValue);
      }
      return Ok(Owned(runs, id, scope));
    }

    method UpdateOwned(id: RunId, scope: string, update: Run -> Result<Run, StoreError>)
      returns (reply: Result<Option<Run>, StoreError>)
      requires Valid()
      requires forall run :: Shape(run) && update(run).Ok? ==>
                               Shape(update(run).value) && Extends(run, update(run).value)
      modifies this
      ensures Valid() && MovesForward(old(runs), runs)
      ensures (reply, runs) == Updated(old(runs), id, scope, update)
    {
      if !ValidIdentity(scope) {
        return Err(InvalidValue);
      }
      if Owned(runs, id, scope).None? {
        return Ok(None);
      }
      var outcome := update(runs[id]);
      if outcome.Err? {
        return Err(outcome.error);
      }
      runs := runs[id := outcome.value];
      return Ok(Some(outcome.value));
    }

    /** Moves a pending run to running for exactly one caller. */
    method ClaimPending(id: RunId, scope: string, now: nat) returns (reply: Result<(Option<Run>, bool), StoreError>)
      requires Valid()
      modifies this
      ensures Valid() && MovesForward(old(runs), runs)
      ensures if !ValidIdentity(scope) then reply == Err(InvalidValue) && runs == old(runs)
              else match Owned(old(runs), id, scope)
                   case None => reply == Ok((None, false)) && runs == old(runs)
                   case Some(run) =>
                     && reply == Ok((Some(Claim(run, now).0), Claim(run, now).1))
                     && runs == old(runs)[id := Claim(run, now).0]
    {
      if !ValidIdentity(scope) {
        return Err(InvalidValue);
      }
      if Owned(runs, id, scope).None? {
        return Ok((None, false));
      }
      if !runs[id].status.Pending? {
        assert runs == runs[id := runs[id]];
        return Ok((Some(runs[id]), false));
      }
      var (run, claimed) := Claim(runs[id], now);
      ShapePreserved(runs[id], ClaimOp(now));
      runs := runs[id := run];
      return Ok((Some(run), claimed));
    }

    method MarkSucceeded(id: RunId, scope: string, result: string, now: nat)
      returns (reply: Result<Option<Run>, StoreError>)
      requires Valid()
      modifies this
      ensures Valid() && MovesForward(old(runs), runs)
      ensures (reply, runs) == Updated(old(runs), id, scope, run => Succeed(run, result, now))
    {
      reply := UpdateOwned(id, scope, run => Succeed(run, result, now));
    }

    method MarkFailed(id: RunId, scope: string, error: RunError, now: nat)
      returns (reply: Result<Option<Run>, StoreError>)
      requires Valid()
      modifies this
      ensures Valid() && MovesForward(old(runs), runs)
      ensures (reply, runs) == Updated(old(runs), id, scope, run => Fail(run, error, now))
    {
      reply := UpdateOwned(id, scope, run => Fail(run, error, now));
    }

    method RetryFailed(id: RunId, scope: string, maxAttempts: int) returns (reply: Result<Option<Run>, StoreError>)
      requires Valid()
      modifies this
      ensures Valid() && MovesForward(old(runs), runs)
      ensures maxAttempts < 1 ==> reply == Err(InvalidValue) && runs == old(runs)
      ensures maxAttempts >= 1 ==>
                (reply, runs) == Updated(old(runs), id, scope, run => Retry(run, maxAttempts))
    {
      if maxAttempts < 1 {
        return Err(InvalidValue);
      }
      reply := UpdateOwned(id, scope, run => Retry(run, maxAttempts));
    }

    method MarkWaitingInput(id: RunId, scope: string, clarification: Clarification)
      returns (reply: Result<Option<Run>, StoreError>)
      requires Valid()
      modifies this
      ensures Valid() && MovesForward(old(runs), runs)
      ensures NormalClarification(clarification).None? ==> reply == Err(InvalidValue) && runs == old(runs)
      ensures NormalClarification(clarification).Some? ==>
                (reply, runs) == Updated(old(runs), id, scope, run => AwaitInput(run, clarification))
    {
      if NormalClarification(clarification).None? {
        return Err(InvalidValue);
      }
      forall run | Shape(run) ensures Shape(Apply(run, AwaitInputOp(clarification))) {
        ShapePreserved(run, AwaitInputOp(clarification));
      }
      assert forall run :: AwaitInput(run, clarification).Ok? ==>
                             AwaitInput(run, clarification).value == Apply(run, AwaitInputOp(clarification));
      reply := UpdateOwned(id, scope, run => AwaitInput(run, clarification));
    }

    /** The read that precedes an answer. It foretells `AcceptInput`: a record is returned, or a conflict
        reported, exactly when accepting the same answer would return that record unchanged, or that conflict. */
    method ReplayAcceptedInput(id: RunId, scope: string, key: string, answer: string)
      returns (reply: Result<Option<Run>, StoreError>)
      ensures reply == if !ValidIdentity(scope) || !ValidKey(key) || NormalAnswer(answer).None? then Err(InvalidValue)
                       else match Owned(runs, id, scope)
                            case None => Ok(None)
                            case Some(run) => ReplayInput(run, key, answer)
      ensures reply.Ok? && reply.value.Some? ==>
                && Owned(runs, id, scope) == reply.value
                && forall n, ids :: ResumeWithInput(runs[id], key, answer, n, ids) == Ok((runs[id], false))
      ensures reply == Err(IdempotencyConflict) <==>
                && ValidIdentity(scope) && Owned(runs, id, scope).Some?
                && forall n, ids :: ResumeWithInput(runs[id], key, answer, n, ids) == Err(IdempotencyConflict)
      ensures reply == Ok(None) && Owned(runs, id, scope).Some? ==>
                forall n, ids :: ResumeWithInput(runs[id], key, answer, n, ids).Ok? ==>
                                   ResumeWithInput(runs[id], key, answer, n, ids).value.1
    {
      if id in runs {
        ReplayForetellsAnswer(runs[id], key, answer);
      }
      if !ValidIdentity(scope) || !ValidKey(key) || NormalAnswer(answer).None? {
        return Err(InvalidValue);
      }
      if Owned(runs, id, scope).None? {
        return Ok(None);
      }
      reply := ReplayInput(runs[id], key, answer);
    }

    method AcceptInput(id: RunId, scope: string, key: string, answer: string, baseline: int, artifactIds: seq<string>)
      returns (reply: Result<(Option<Run>, bool), StoreError>)
      requires Valid()
      modifies this
      ensures Valid() && MovesForward(old(runs), runs)
      ensures if !ValidIdentity(scope) || !ValidKey(key) || NormalAnswer(answer).None?
              then reply == Err(InvalidValue) && runs == old(runs)
              else match Owned(old(runs), id, scope)
                   case None => reply == Ok((None, false)) && runs == old(runs)
                   case Some(run) =>
                     match ResumeWithInput(run, key, answer, baseline, artifactIds)
                     case Err(e) => reply == Err(e) && runs == old(runs)
                     case Ok(resumed) => reply == Ok((Some(resumed.0), resumed.1)) && runs == old(runs)[id := resumed.0]
    {
      if !ValidIdentity(scope) || !ValidKey(key) || NormalAnswer(answer).None? {
        return Err(InvalidValue);
      }
      if Owned(runs, id, scope).None? {
        return Ok((None, false));
      }
      var outcome := ResumeWithInput(runs[id], key, answer, baseline, artifactIds);
      if outcome.Err? {
        return Err(outcome.error);
      }
      AnswerMovesForward(runs[id], key, answer, baseline, artifactIds);
      hide Shape, Extends, ResumeWithInput;
      runs := runs[id := outcome.value.0];
      return Ok((Some(outcome.value.0), outcome.value.1));
    }

    lemma AnswerMovesForward(r: Run, key: string, answer: string, baseline: int, artifactIds: seq<string>)
      requires Shape(r) && ResumeWithInput(r, key, answer, baseline, artifactIds).Ok?
      ensures var next := ResumeWithInput(r, key, answer, baseline, artifactIds).value.0;
              Shape(next) && Extends(r, next) && next.ownerScope == r.ownerScope
    {
      ShapePreserved(r, ResumeOp(key, answer, baseline, artifactIds));
    }

    method SetCheckpoint(id: RunId, scope: string, submissionStarted: bool)
      returns (reply: Result<Option<Run>, StoreError>)
      requires Valid()
      modifies this
      ensures Valid() && MovesForward(old(runs), runs)
      ensures (reply, runs)
           == Updated(old(runs), id, scope, run => Ok(SetSubmissionStarted(run, submissionStarted)))
    {
      reply := UpdateOwned(id, scope, run => Ok(SetSubmissionStarted(run, submissionStarted)));
    }

    /** The runs that a restarted service takes up again, each once, oldest first. */
    method ListResumable(maxAttempts: Option<int>, scope: Option<string>)
      returns (reply: Result<seq<RunId>, StoreError>)
      requires Valid()
      ensures if (maxAttempts.Some? && maxAttempts.value < 1) || (scope.Some? && !ValidIdentity(scope.value))
              then reply == Err(InvalidValue)
              else && reply.Ok? && OldestFirst(reply.value, age)
                   && forall id :: id in reply.value <==>
                                     && id in runs && (scope.None? || scope.value == id.scope)
                                     && (runs[id].status.Running?
                                         || (runs[id].status.Pending?
                                             && (maxAttempts.None? || EpochAttempts(runs[id]) < maxAttempts.value)))
    {
      if (maxAttempts.Some? && maxAttempts.value < 1) || (scope.Some? && !ValidIdentity(scope.value)) {
        return Err(InvalidValue);
      }
      var listed := set id | id in runs && Listed(runs[id], maxAttempts)
                             && (scope.None? || Owned(runs, id, scope.value).Some?);
      var sorted := ByAge(listed);
      return Ok(sorted);
    }

    method ByAge(ids: set<RunId>) returns (sorted: seq<RunId>)
      ensures OldestFirst(sorted, age) && forall id :: id in sorted <==> id in ids
    {
      var left := ids;
      sorted := [];
      while left != {}
        invariant OldestFirst(sorted, age)
        invariant forall id :: id in ids <==> id in sorted || id in left
        invariant forall i, id :: 0 <= i < |sorted| && id in left ==> sorted[i] != id && age(sorted[i]) <= age(id)
        decreases |left|
      {
        SomeIsOldest(left, age);
        var next :| next in left && forall id :: id in left ==> age(next) <= age(id);
        sorted := sorted + [next];
        left := left - {next};
      }
    }
  }

  /** No run twice, and none before an older one. */
  ghost predicate OldestFirst(ids: seq<RunId>, age: RunId -> int) {
    forall i, j :: 0 <= i < j < |ids| ==> ids[i] != ids[j] && age(ids[i]) <= age(ids[j])
  }

  lemma {:induction false} SomeIsOldest(ids: set<RunId>, age: RunId -> int)
    requires ids != {}
    ensures exists next :: next in ids && forall id :: id in ids ==> age(next) <= age(id)
    decreases |ids|
  {
    var one :| one in ids;
    var rest := ids - {one};
    if rest == {} {
      assert ids == {one};
    } else {
      SomeIsOldest(rest, age);
      var other :| other in rest && forall id :: id in rest ==> age(other) <= age(id);
      var next := if age(one) <= age(other) then one else other;
      forall id | id in ids ensures age(next) <= age(id) {
        assert id == one || id in rest;
      }
    }
  }

  predicate Listed(run: Run, maxAttempts: Option<int>) {
    Resumable(run) && (run.status.Running? || maxAttempts.None? || EpochAttempts(run) < maxAttempts.value)
  }

  /** Creation is exactly-once: while the store only moves forward, the same identity and request finds the
      created run again without creating, and a different request under it is always a conflict. */
  lemma CreationIsExactlyOnce(runs: Runs, id: RunId, request: string, baseline: nat, artifactIds: seq<string>,
                              later: Runs, again: string, baseline': nat, artifactIds': seq<string>)
    requires CreateReply(runs, id, request, baseline, artifactIds).Ok?
    requires MovesForward(runs[id := CreateReply(runs, id, request, baseline, artifactIds).value.0], later)
    ensures CreateReply(later, id, again, baseline', artifactIds')
         == if again == request then Ok((later[id], false)) else Err(IdempotencyConflict)
  {
    var created := runs[id := CreateReply(runs, id, request, baseline, artifactIds).value.0];
    assert id in created && Extends(created[id], later[id]);
  }

  lemma MovesForwardIsTransitive(a: Runs, b: Runs, c: Runs)
    requires MovesForward(a, b) && MovesForward(b, c)
    ensures MovesForward(a, c)
  {
    forall id | id in a ensures id in c && Extends(a[id], c[id]) {
      assert Extends(a[id], b[id]) && Extends(b[id], c[id]);
    }
  }
}
