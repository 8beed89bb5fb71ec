/**
 The store of scheduled reports: the idempotent claim of cron callbacks and the one-use manual trigger.
 A local date is its number of days since Thursday 1970-01-01 in the schedule's time zone.
 */
module Schedules {
  import opened Common

  datatype Frequency = Once | Daily | Weekly

  /** What the digest of a run id is taken of: the schedule and either a period or a manual marker. */
  datatype RunKey = OncePeriod | DayPeriod(date: int) | WeekPeriod(monday: int) | Manual(marker: string)

  datatype RunId = RunId(schedule: string, key: RunKey)

  datatype RunStatus = Pending | Running | Succeeded | Failed

  datatype Run = Run(session: string, manual: bool, scheduledFor: int, status: RunStatus)

  datatype Schedule = Schedule(
    owner: string,
    token: string,
    enabled: bool,
    frequency: Frequency,
    pendingManual: string,
    lastCallback: Option<(int, RunId)>,
    lastStatus: Option<RunStatus>)

  datatype State = State(schedules: map<string, Schedule>, runs: map<RunId, Run>)

  const EMPTY := State(map[], map[])

  // ---------- periods ----------

  /** Monday is 0. */
  function Weekday(date: int): nat {
    (date + 3) % 7
  }

  function PeriodKey(frequency: Frequency, date: int): RunKey {
    match frequency
    case Once => OncePeriod
    case Daily => DayPeriod(date)
    case Weekly => WeekPeriod(date - Weekday(date))
  }

  /** The seven days that begin with a Monday. Day 4 is Monday 1970-01-05. */
  predicate InWeekOf(date: int, monday: int) {
    (monday - 4) % 7 == 0 && monday <= date < monday + 7
  }

  lemma MondayBeginsWeek(date: int)
    ensures InWeekOf(date, date - Weekday(date))
    ensures forall monday :: InWeekOf(date, monday) ==> monday == date - Weekday(date)
  {
  }

  /** Two callbacks fall into the same weekly period exactly when their dates share a Monday-based week, and
      into the same daily period exactly on the same date. */
  lemma PeriodsCoincide(a: int, b: int)
    ensures PeriodKey(Weekly, a) == PeriodKey(Weekly, b)
       <==> exists monday :: InWeekOf(a, monday) && InWeekOf(b, monday)
    ensures PeriodKey(Daily, a) == PeriodKey(Daily, b) <==> a == b
    ensures PeriodKey(Once, a) == PeriodKey(Once, b)
  {
    MondayBeginsWeek(a);
    MondayBeginsWeek(b);
    if PeriodKey(Weekly, a) == PeriodKey(Weekly, b) {
      assert InWeekOf(a, a - Weekday(a)) && InWeekOf(b, a - Weekday(a));
    }
  }

  // ---------- transactions ----------

  datatype ClaimReply = Refused | Skipped | Existing(id: RunId) | Claimed(id: RunId)

  /** One callback: the token it carries, the local date and minute, the UTC second, and a fresh session id. */
  datatype Callback = Callback(schedule: string, token: string, date: int, minute: int, now: int, session: string)

  /** Within 90 seconds of the last accepted callback the same run is answered again. */
  predicate Repeats(s: State, schedule: Schedule, now: int) {
    schedule.lastCallback.Some? && now - schedule.lastCallback.value.0 <= 90 && schedule.lastCallback.value.1 in s.runs
  }

  function KeyOf(schedule: Schedule, date: int): RunKey {
    if schedule.pendingManual != "" then Manual(schedule.pendingManual) else PeriodKey(schedule.frequency, date)
  }

  function Claim(s: State, c: Callback): (State, ClaimReply) {
    if c.schedule !in s.schedules then (s, Skipped)
    else
      var schedule := s.schedules[c.schedule];
      if schedule.token == "" || schedule.token != c.token then (s, Refused)
      else if !schedule.enabled then (s, Skipped)
      else if Repeats(s, schedule, c.now) then (s, Existing(schedule.lastCallback.value.1))
      else
        var id := RunId(c.schedule, KeyOf(schedule, c.date));
        if id in s.runs then (s, Existing(id))
        else
          var claimed := schedule.(pendingManual := "", lastCallback := Some((c.now, id)), lastStatus := Some(Pending));
          (State(s.schedules[c.schedule := claimed],
                 s.runs[id := Run(c.session, schedule.pendingManual != "", c.minute, Pending)]),
           Claimed(id))
  }

  /** The marker that is pending afterwards; None when the schedule is missing or not owned. */
  function SetManual(s: State, id: string, owner: string, newMarker: string): (State, Option<string>) {
    if id !in s.schedules || s.schedules[id].owner != owner then (s, None)
    else if s.schedules[id].pendingManual != "" then (s, Some(s.schedules[id].pendingManual))
    else (s.(schedules := s.schedules[id := s.schedules[id].(pendingManual := newMarker)]), Some(newMarker))
  }

  function ClearManual(s: State, id: string, marker: string): State {
    if id in s.schedules && s.schedules[id].pendingManual == marker
    then s.(schedules := s.schedules[id := s.schedules[id].(pendingManual := "")])
    else s
  }

  function UpdateRun(s: State, id: RunId, status: RunStatus): State {
    if id !in s.runs then s
    else
      var runs := s.runs[id := s.runs[id].(status := status)];
      if id.schedule !in s.schedules then s.(runs := runs)
      else
        var schedule := s.schedules[id.schedule].(lastStatus := Some(status));
        var finished := schedule.frequency.Once? && (status.Succeeded? || status.Failed?);
        State(s.schedules[id.schedule := if finished then schedule.(enabled := false) else schedule], runs)
  }

  function DeleteRuns(s: State, session: string): State {
    s.(runs := map id | id in s.runs && s.runs[id].session != session :: s.runs[id])
  }

  datatype Op =
    | CreateOp(id: string, owner: string, token: string, frequency: Frequency)
    | ConfigureOp(id: string, enabled: bool, frequency: Frequency)
    | RemoveOp(id: string, owner: string)
    | SetManualOp(id: string, owner: string, marker: string)
    | ClearManualOp(id: string, marker: string)
    | ClaimOp(callback: Callback)
    | UpdateRunOp(run: RunId, status: RunStatus)
    | DeleteRunsOp(session: string)

  function Apply(s: State, op: Op): State {
    match op
    case CreateOp(id, owner, token, frequency) =>
      if id in s.schedules then s
      else s.(schedules := s.schedules[id := Schedule(owner, token, true, frequency, "", None, None)])
    case ConfigureOp(id, enabled, frequency) =>
      if id !in s.schedules then s
      else s.(schedules := s.schedules[id := s.schedules[id].(enabled := enabled, frequency := frequency)])
    case RemoveOp(id, owner) =>
      if id in s.schedules && s.schedules[id].owner == owner then s.(schedules := s.schedules - {id}) else s
    case SetManualOp(id, owner, marker) => SetManual(s, id, owner, marker).0
    case ClearManualOp(id, marker) => ClearManual(s, id, marker)
    case ClaimOp(callback) => Claim(s, callback).0
    case UpdateRunOp(run, status) => UpdateRun(s, run, status)
    case DeleteRunsOp(session) => DeleteRuns(s, session)
  }

  class ScheduleStore {
    var schedules: map<string, Schedule>
    var runs: map<RunId, Run>

    function Now(): State
      reads this
    {
      State(schedules, runs)
    }

    constructor ()
      ensures Now() == EMPTY
    {
      schedules, runs := map[], map[];
    }

    method ClaimRun(c: Callback) returns (reply: ClaimReply)
      modifies this
      ensures (Now(), reply) == Claim(old(Now()), c)
    {
      if c.schedule !in schedules {
        return Skipped;
      }
      var schedule := schedules[c.schedule];
      if schedule.token == "" || schedule.token != c.token {
        return Refused;
      }
      if !schedule.enabled {
        return Skipped;
      }
      if schedule.lastCallback.Some? {
        var (at, previous) := schedule.lastCallback.value;
        if c.now - at <= 90 && previous in runs {
          return Existing(previous);
        }
      }
      var manual := schedule.pendingManual != "";
      var key := if manual then Manual(schedule.pendingManual) else PeriodKey(schedule.frequency, c.date);
      schedule := schedule.(pendingManual := "");
      var id := RunId(c.schedule, key);
      if id in runs {
        // The cleared marker is not saved on this path.
        return Existing(id);
      }
      runs := runs[id := Run(c.session, manual, c.minute, Pending)];
      schedule := schedule.(lastStatus := Some(Pending), lastCallback := Some((c.now, id)));
      schedules := schedules[c.schedule := schedule];
      return Claimed(id);
    }

    /** From here on the next claim is for the returned marker, whatever its date, and asking again changes nothing. */
    method SetManualTrigger(id: string, owner: string, marker: string) returns (pending: Option<string>)
      modifies this
      ensures (Now(), pending) == SetManual(old(Now()), id, owner, marker)
      ensures pending.Some? && marker != "" ==>
                && id in schedules && (forall date :: KeyOf(schedules[id], date) == Manual(pending.value))
                && forall again :: SetManual(Now(), id, owner, again) == (Now(), pending)
    {
      if id !in schedules || schedules[id].owner != owner {
        return None;
      }
      if schedules[id].pendingManual != "" {
        return Some(schedules[id].pendingManual);
      }
      schedules := schedules[id := schedules[id].(pendingManual := marker)];
      return Some(marker);
    }

    method ClearManualTrigger(id: string, marker: string)
      modifies this
      ensures Now() == ClearManual(old(Now()), id, marker)
    {
      if id in schedules && schedules[id].pendingManual == marker {
        schedules := schedules[id := schedules[id].(pendingManual := "")];
      }
    }

    /** No run is added or removed, and a finished one-off schedule claims no further run. */
    method SetRunStatus(id: RunId, status: RunStatus)
      modifies this
      ensures Now() == UpdateRun(old(Now()), id, status)
      ensures runs.Keys == old(runs).Keys
      ensures id in runs && id.schedule in schedules && schedules[id.schedule].frequency.Once?
              && (status.Succeeded? || status.Failed?) ==>
                forall c: Callback :: c.schedule == id.schedule && c.token == schedules[id.schedule].token ==>
                                        Claim(Now(), c).0 == Now() && !Claim(Now(), c).1.Claimed?
    {
      if id !in runs {
        return;
      }
      runs := runs[id := runs[id].(status := status)];
      if id.schedule in schedules {
        var schedule := schedules[id.schedule].(lastStatus := Some(status));
        if schedule.frequency.Once? && (status.Succeeded? || status.Failed?) {
          schedule := schedule.(enabled := false);
        }
        schedules := schedules[id.schedule := schedule];
      }
    }
  }

  // ---------- what each transaction changes ----------

  /** Every schedule but `id` is as it was. */
  ghost predicate OtherSchedulesKept(s: State, t: State, id: string) {
    forall other :: other != id ==>
      && (other in t.schedules <==> other in s.schedules)
      && (other in s.schedules ==> t.schedules[other] == s.schedules[other])
  }

  /** Why a callback starts nothing: its token is wrong, or there is no enabled schedule. */
  lemma RefusedExactly(s: State, c: Callback)
    ensures var present := c.schedule in s.schedules;
            && (Claim(s, c).1.Refused? <==>
                  present && (s.schedules[c.schedule].token == "" || s.schedules[c.schedule].token != c.token))
            && (Claim(s, c).1.Skipped? <==>
                  !present || (s.schedules[c.schedule].token == c.token != "" && !s.schedules[c.schedule].enabled))
            && (!Claim(s, c).1.Claimed? ==> Claim(s, c).0 == s)
  {
  }

  /** A claim adds exactly one pending run, for the callback's session and minute, and notes it at the schedule. */
  lemma ClaimStartsExactly(s: State, c: Callback)
    requires Claim(s, c).1.Claimed?
    ensures var (t, id, was) := (Claim(s, c).0, Claim(s, c).1.id, s.schedules[c.schedule]);
            && id !in s.runs && t.runs == s.runs[id := t.runs[id]]
            && id == RunId(c.schedule, if was.pendingManual != "" then Manual(was.pendingManual)
                                       else PeriodKey(was.frequency, c.date))
            && t.runs[id].session == c.session && t.runs[id].scheduledFor == c.minute && t.runs[id].status.Pending?
            && t.runs[id].manual == (was.pendingManual != "")
            && t.schedules.Keys == s.schedules.Keys && OtherSchedulesKept(s, t, c.schedule)
            && var now := t.schedules[c.schedule];
               && now.owner == was.owner && now.token == was.token && now.enabled && now.frequency == was.frequency
               && now.pendingManual == "" && now.lastCallback == Some((c.now, id)) && now.lastStatus == Some(Pending)
  {
  }

  /** After a claim, a callback within 90 seconds is answered with the same run, whatever its date; a later one of the
      same period too; and a later one of another period starts another run, unless that is there already. */
  lemma RepetitionWindow(s: State, c: Callback, again: Callback)
    requires Claim(s, c).1.Claimed? && again.schedule == c.schedule && again.token == c.token
    ensures var (t, id, frequency) := (Claim(s, c).0, Claim(s, c).1.id, s.schedules[c.schedule].frequency);
            var next := RunId(c.schedule, PeriodKey(frequency, again.date));
            Claim(t, again).1
            == if again.now - c.now <= 90 then Existing(id)
               else if next in t.runs then Existing(next) else Claimed(next)
  {
  }

  /** A status is written to its run and to its schedule, and nowhere else. */
  lemma StatusIsWritten(s: State, id: RunId, status: RunStatus)
    ensures id !in s.runs ==> UpdateRun(s, id, status) == s
    ensures id in s.runs ==>
              var t := UpdateRun(s, id, status);
              && t.runs == s.runs[id := t.runs[id]]
              && t.runs[id].status == status && t.runs[id].session == s.runs[id].session
              && t.runs[id].manual == s.runs[id].manual && t.runs[id].scheduledFor == s.runs[id].scheduledFor
              && t.schedules.Keys == s.schedules.Keys && OtherSchedulesKept(s, t, id.schedule)
              && (id.schedule in s.schedules ==>
                    var was, now := s.schedules[id.schedule], t.schedules[id.schedule];
                    && now.lastStatus == Some(status)
                    && now.owner == was.owner && now.token == was.token && now.frequency == was.frequency
                    && now.pendingManual == was.pendingManual && now.lastCallback == was.lastCallback
                    && now.enabled == (was.enabled && !(was.frequency.Once? && (status.Succeeded? || status.Failed?))))
  {
  }

  /** A marker is set only by the owner, never replaces a waiting one, and is cleared only by its own value. */
  lemma MarkerChangesExactly(s: State, id: string, owner: string, marker: string)
    ensures var (t, pending) := SetManual(s, id, owner, marker);
            && (pending.Some? <==> id in s.schedules && s.schedules[id].owner == owner)
            && t.runs == s.runs && t.schedules.Keys == s.schedules.Keys && OtherSchedulesKept(s, t, id)
            && (pending.None? ==> t == s)
            && (pending.Some? ==>
                  && t.schedules[id].(pendingManual := "") == s.schedules[id].(pendingManual := "")
                  && pending == Some(t.schedules[id].pendingManual)
                  && t.schedules[id].pendingManual
                     == if s.schedules[id].pendingManual != "" then s.schedules[id].pendingManual else marker)
    ensures var t := ClearManual(s, id, marker);
            && t.runs == s.runs && t.schedules.Keys == s.schedules.Keys && OtherSchedulesKept(s, t, id)
            && (id in s.schedules ==>
                  && t.schedules[id].(pendingManual := "") == s.schedules[id].(pendingManual := "")
                  && t.schedules[id].pendingManual
                     == if s.schedules[id].pendingManual == marker then "" else s.schedules[id].pendingManual)
  {
  }

  /** What the other operations do to a schedule: a new one starts enabled and unused, a configured one keeps its owner,
      token and history, and only its owner removes it. */
  lemma SchedulesChangeExactly(s: State, id: string, owner: string, token: string, enabled: bool, frequency: Frequency)
    ensures var t := Apply(s, CreateOp(id, owner, token, frequency));
            t == if id in s.schedules then s
                 else State(s.schedules[id := Schedule(owner, token, true, frequency, "", None, None)], s.runs)
    ensures id in s.schedules ==>
              var was, t := s.schedules[id], Apply(s, ConfigureOp(id, enabled, frequency));
              && t.runs == s.runs && OtherSchedulesKept(s, t, id) && id in t.schedules
              && t.schedules[id] == Schedule(was.owner, was.token, enabled, frequency, was.pendingManual,
                                             was.lastCallback, was.lastStatus)
    ensures id !in s.schedules ==> Apply(s, ConfigureOp(id, enabled, frequency)) == s
    ensures var t := Apply(s, RemoveOp(id, owner));
            && t.runs == s.runs && OtherSchedulesKept(s, t, id)
            && (id in t.schedules <==> id in s.schedules && s.schedules[id].owner != owner)
            && (id in t.schedules ==> t.schedules[id] == s.schedules[id])
  {
  }

  /** Deleting a session removes exactly the runs of that session. */
  lemma DeletionRemovesExactly(s: State, session: string)
    ensures var t := DeleteRuns(s, session);
            && t.schedules == s.schedules
            && forall id :: (id in t.runs <==> id in s.runs && s.runs[id].session != session)
                            && (id in t.runs ==> t.runs[id] == s.runs[id])
  {
  }

  // ---------- single claims ----------

  function StateAt(s: State, ops: seq<Op>, n: nat): State
    requires n <= |ops|
    decreases n
  {
    if n == 0 then s else StateAt(Apply(s, ops[0]), ops[1..], n - 1)
  }

  /** Call `i` of `ops` is a callback that is told to start run `id`. */
  ghost predicate Starts(s: State, ops: seq<Op>, i: nat, id: RunId) {
    i < |ops| && ops[i].ClaimOp? && Claim(StateAt(s, ops, i), ops[i].callback).1 == Claimed(id)
  }

  ghost predicate KeepsRuns(ops: seq<Op>) {
    forall i :: 0 <= i < |ops| ==> !ops[i].DeleteRunsOp?
  }

  lemma {:induction false} StateAtNext(s: State, ops: seq<Op>, n: nat)
    requires n < |ops|
    ensures StateAt(s, ops, n + 1) == Apply(StateAt(s, ops, n), ops[n])
    decreases n
  {
    if n > 0 {
      StateAtNext(Apply(s, ops[0]), ops[1..], n - 1);
    } else {
      assert StateAt(Apply(s, ops[0]), ops[1..], 0) == Apply(s, ops[0]);
    }
  }

  /** Call `k` of `ops` deletes run `id`. */
  ghost predicate Deletes(s: State, ops: seq<Op>, k: nat, id: RunId) {
    k < |ops| && ops[k].DeleteRunsOp?
    && id in StateAt(s, ops, k).runs && StateAt(s, ops, k).runs[id].session == ops[k].session
  }

  lemma {:induction false} RunsAreKept(s: State, ops: seq<Op>, i: nat, j: nat, id: RunId)
    requires i <= j <= |ops| && id in StateAt(s, ops, i).runs
    requires forall k: nat :: i <= k < j ==> !Deletes(s, ops, k, id)
    ensures id in StateAt(s, ops, j).runs
    decreases j - i
  {
    if i < j {
      StateAtNext(s, ops, i);
      assert !Deletes(s, ops, i, id);
      RunsAreKept(s, ops, i + 1, j, id);
    }
  }

  /** Whatever else happens, a run id is claimed a second time only after that very run was deleted. */
  lemma ReclaimNeedsDeletion(s: State, ops: seq<Op>, i: nat, j: nat, id: RunId)
    requires Starts(s, ops, i, id) && Starts(s, ops, j, id) && i < j
    ensures exists k: nat :: i < k < j && Deletes(s, ops, k, id)
  {
    StateAtNext(s, ops, i);
    if forall k: nat :: i < k < j ==> !Deletes(s, ops, k, id) {
      RunsAreKept(s, ops, i + 1, j, id);
      assert false;
    }
  }

  /** So without run deletion no run id is claimed twice: at most one run per schedule and period, and at most one
      run per manual marker. */
  lemma ClaimedAtMostOnce(s: State, ops: seq<Op>, i: nat, j: nat, id: RunId)
    requires KeepsRuns(ops) && Starts(s, ops, i, id) && Starts(s, ops, j, id)
    ensures i == j
  {
    if i < j {
      ReclaimNeedsDeletion(s, ops, i, j, id);
    } else if j < i {
      ReclaimNeedsDeletion(s, ops, j, i, id);
    }
  }

  /** The callback passes every check and is for run `id`: the schedule exists and is enabled, the token matches, and
      the 90-second repetition does not answer it. */
  predicate Asks(s: State, c: Callback, id: RunId) {
    && c.schedule in s.schedules
    && var schedule := s.schedules[c.schedule];
       && schedule.token == c.token != "" && schedule.enabled && !Repeats(s, schedule, c.now)
       && RunId(c.schedule, KeyOf(schedule, c.date)) == id
  }

  ghost predicate AsksAt(s: State, ops: seq<Op>, j: nat, id: RunId) {
    j < |ops| && ops[j].ClaimOp? && Asks(StateAt(s, ops, j), ops[j].callback, id)
  }

  lemma StartsExactly(s: State, ops: seq<Op>, j: nat, id: RunId)
    ensures Starts(s, ops, j, id) <==> AsksAt(s, ops, j, id) && id !in StateAt(s, ops, j).runs
  {
  }

  /** A run that is absent stays absent until it is started. */
  lemma {:induction false} AbsentUntilStarted(s: State, ops: seq<Op>, k: nat, j: nat, id: RunId)
    requires k <= j <= |ops| && id !in StateAt(s, ops, k).runs
    requires forall m: nat :: k <= m < j ==> !Starts(s, ops, m, id)
    ensures id !in StateAt(s, ops, j).runs
    decreases j - k
  {
    if k < j {
      StateAtNext(s, ops, k);
      assert !Starts(s, ops, k, id);
      AbsentUntilStarted(s, ops, k + 1, j, id);
    }
  }

  /** After a deletion, the first callback that asks for the run starts it. */
  lemma DeletedRunStarts(s: State, ops: seq<Op>, k: nat, j: nat, id: RunId)
    requires k < j && Deletes(s, ops, k, id) && AsksAt(s, ops, j, id)
    ensures exists m: nat :: k < m <= j && Starts(s, ops, m, id)
  {
    if forall m: nat :: k < m < j ==> !Starts(s, ops, m, id) {
      StateAtNext(s, ops, k);
      AbsentUntilStarted(s, ops, k + 1, j, id);
      StartsExactly(s, ops, j, id);
    }
  }

  /** Which callback claims a run again, in every history: after a start of the run and with no other start in
      between, a later callback is told to start it if and only if it asks for it and the run was deleted since. */
  lemma ReclaimedExactly(s: State, ops: seq<Op>, i: nat, j: nat, id: RunId)
    requires Starts(s, ops, i, id) && i < j && forall m: nat :: i < m < j ==> !Starts(s, ops, m, id)
    ensures Starts(s, ops, j, id) <==> AsksAt(s, ops, j, id) && exists k: nat :: i < k < j && Deletes(s, ops, k, id)
  {
    StartsExactly(s, ops, j, id);
    hide Starts, AsksAt, Deletes, StateAt;
    if Starts(s, ops, j, id) {
      ReclaimNeedsDeletion(s, ops, i, j, id);
    }
    if k: nat :| i < k < j && Deletes(s, ops, k, id) && AsksAt(s, ops, j, id) {
      DeletedRunStarts(s, ops, k, j, id);
    }
  }

  /** Exactly when a period or a marker is claimed twice, in every history: its run is started, then deleted, and then
      a callback asks for it. */
  lemma ClaimedTwiceExactly(s: State, ops: seq<Op>, id: RunId)
    ensures (exists i: nat, j: nat :: i < j && Starts(s, ops, i, id) && Starts(s, ops, j, id))
       <==> (exists i: nat, k: nat, j: nat :: i < k < j && Starts(s, ops, i, id) && Deletes(s, ops, k, id)
                                              && AsksAt(s, ops, j, id))
  {
    if i: nat, j: nat :| i < j && Starts(s, ops, i, id) && Starts(s, ops, j, id) {
      StartsExactly(s, ops, j, id);
      hide Starts, AsksAt, Deletes, StateAt;
      ReclaimNeedsDeletion(s, ops, i, j, id);
    }
    if i: nat, k: nat, j: nat :| i < k < j && Starts(s, ops, i, id) && Deletes(s, ops, k, id) && AsksAt(s, ops, j, id) {
      hide Starts, AsksAt, Deletes, StateAt;
      DeletedRunStarts(s, ops, k, j, id);
    }
  }

  /** For instance: when the session of a run is deleted right after its claim, a callback of the same period claims
      it again, however soon it comes. Without the deletion the same callback is answered with the existing run. */
  lemma DeletionReopensPeriod(s: State, c: Callback, again: Callback)
    requires c.schedule in s.schedules && s.schedules[c.schedule].pendingManual == ""
    requires Claim(s, c).1.Claimed? && again.schedule == c.schedule && again.token == c.token
    requires var frequency := s.schedules[c.schedule].frequency;
             PeriodKey(frequency, again.date) == PeriodKey(frequency, c.date)
    ensures Claim(Claim(s, c).0, again).1 == Existing(Claim(s, c).1.id)
    ensures Claim(DeleteRuns(Claim(s, c).0, c.session), again).1 == Claim(s, c).1
  {
    var ops := [ClaimOp(c), DeleteRunsOp(c.session), ClaimOp(again)];
    var id := Claim(s, c).1.id;
    StateAtNext(s, ops, 0);
    StateAtNext(s, ops, 1);
    assert Deletes(s, ops, 1, id) && AsksAt(s, ops, 2, id);
    ReclaimedExactly(s, ops, 0, 2, id);
  }

  // ---------- manual triggers ----------

  /** The marker waiting at a schedule has not been used for a run. */
  ghost predicate MarkersUnused(s: State) {
    forall id :: id in s.schedules && s.schedules[id].pendingManual != "" ==>
                   RunId(id, Manual(s.schedules[id].pendingManual)) !in s.runs
  }

  /** New markers are fresh random values: never empty, and not those of an earlier run. */
  ghost predicate FreshMarker(s: State, op: Op) {
    op.SetManualOp? ==> op.marker != "" && RunId(op.id, Manual(op.marker)) !in s.runs
  }

  lemma ApplyKeepsMarkersUnused(s: State, op: Op)
    requires MarkersUnused(s) && FreshMarker(s, op)
    ensures MarkersUnused(Apply(s, op))
  {
  }

  /** Each callback either leaves a waiting marker in place or uses it up for exactly one new manual run; in
      particular the 90-second repetition and every refusal leave it in place. */
  lemma MarkerIsUsedOnce(s: State, c: Callback)
    requires MarkersUnused(s) && c.schedule in s.schedules && s.schedules[c.schedule].pendingManual != ""
    ensures var schedule := s.schedules[c.schedule];
            var (t, reply) := Claim(s, c);
            var id := RunId(c.schedule, Manual(schedule.pendingManual));
            if schedule.token == c.token != "" && schedule.enabled && !Repeats(s, schedule, c.now)
            then reply == Claimed(id) && t.runs[id].manual && t.schedules[c.schedule].pendingManual == ""
            else t == s && !reply.Claimed?
  {
  }

  ghost predicate FreshMarkers(s: State, ops: seq<Op>) {
    forall n :: 0 <= n < |ops| ==> FreshMarker(StateAt(s, ops, n), ops[n])
  }

  /** So in every history a waiting marker is one that no run has used yet. */
  lemma {:induction false} MarkersStayUnused(s: State, ops: seq<Op>, n: nat)
    requires MarkersUnused(s) && FreshMarkers(s, ops) && n <= |ops|
    ensures MarkersUnused(StateAt(s, ops, n))
    decreases n
  {
    if n > 0 {
      MarkersStayUnused(s, ops, n - 1);
      StateAtNext(s, ops, n - 1);
      ApplyKeepsMarkersUnused(StateAt(s, ops, n - 1), ops[n - 1]);
    }
  }
}
