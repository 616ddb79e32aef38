/** What holds of a scheduled task over every sequence of scheduler operations. */
module SchedulerRuns {
  import opened Common
  import opened Backoff
  import opened Scheduler

  function Run(env: Env, db: Db, ops: seq<Op>): Db {
    if ops == [] then db else Step(env, Run(env, db, ops[..|ops| - 1]), ops[|ops| - 1])
  }

  /** Random identifiers do not repeat: `id` is not added again. */
  predicate NotAdded(id: Uuid, ops: seq<Op>) {
    forall op :: op in ops ==> op.id == id ==> !op.AddCron? && !op.AddOneShot?
  }

  predicate Untouched(id: Uuid, ops: seq<Op>) {
    forall op :: op in ops ==> op.id != id
  }

  /** A failure of `id` is recorded: the task exists and its retry, if any, can be scheduled. */
  predicate Records(env: Env, db: Db, op: Op, id: Uuid) {
    op.RecordFailure? && op.id == id && id in db && AfterFailure(env, db[id], op.reason, op.now).Some?
  }

  /** The failures of `id` that a run records. */
  function Failures(env: Env, db: Db, ops: seq<Op>, id: Uuid): nat {
    if ops == [] then 0
    else
      var init := ops[..|ops| - 1];
      Failures(env, db, init, id) + if Records(env, Run(env, db, init), ops[|ops| - 1], id) then 1 else 0
  }

  /** An operation that writes the run time of `id`: an add, a rescheduling that
      goes through, or a recorded failure. */
  predicate Writes(env: Env, before: Db, op: Op, id: Uuid) {
    op.id == id &&
    match op
    case AddCron(_, _, expr, _, _, _) => ParseSchedule(env, expr).Some?
    case AddOneShot(_, _, _, _, _) => true
    case RecordFailure(_, _, _) => Records(env, before, op, id)
    case Reschedule(_, now) => id in before && AfterReschedule(env, before[id], now).Some?
    case _ => false
  }

  /** The operation gives `id` a run time, be it the one it had already, or leaves it with another one. */
  predicate Arms(env: Env, before: Db, op: Op, id: Uuid) {
    var after := Step(env, before, op);
    id in after && after[id].nextRun.Some? &&
    (Writes(env, before, op, id) || id !in before || before[id].nextRun != after[id].nextRun)
  }

  /** How often a run gives `id` a run time. */
  function Armings(env: Env, db: Db, ops: seq<Op>, id: Uuid): nat {
    if ops == [] then 0
    else
      var init := ops[..|ops| - 1];
      Armings(env, db, init, id) + if Arms(env, Run(env, db, init), ops[|ops| - 1], id) then 1 else 0
  }

  lemma SplitLast(id: Uuid, ops: seq<Op>)
    requires ops != [] && NotAdded(id, ops)
    ensures NotAdded(id, ops[..|ops| - 1])
    ensures ops[|ops| - 1].id == id ==> !ops[|ops| - 1].AddCron? && !ops[|ops| - 1].AddOneShot?
  {
    assert ops[|ops| - 1] in ops;
  }

  // ── Counting failures ────────────────────────────────────────────────────

  lemma CountStep(env: Env, db: Db, op: Op, id: Uuid)
    requires id in db && !(op.id == id && (op.AddCron? || op.AddOneShot?))
    ensures var after := Step(env, db, op);
            id in after ==>
              after[id].retryCount == (if Records(env, db, op, id) then NextCount(db[id].retryCount) else db[id].retryCount) &&
              after[id].kind == db[id].kind && after[id].retryPolicy == db[id].retryPolicy
  {
  }

  lemma StepKeepsAbsent(env: Env, db: Db, op: Op, id: Uuid)
    requires id !in db && !(op.id == id && (op.AddCron? || op.AddOneShot?))
    ensures id !in Step(env, db, op)
  {
  }

  lemma CountModulo(n: nat)
    ensures NextCount(n % U32_LIMIT) == (n + 1) % U32_LIMIT
  {
  }

  /** `retry_count` counts every failure ever recorded, modulo the width of the
      counter and whether consecutive or not: no other operation changes it, or
      the task's kind and policy. */
  lemma {:induction false} CountsEveryFailure(env: Env, db: Db, ops: seq<Op>, id: Uuid)
    requires id in db && NotAdded(id, ops)
    ensures var after := Run(env, db, ops);
            id in after ==>
              after[id].retryCount == (db[id].retryCount + Failures(env, db, ops, id)) % U32_LIMIT &&
              after[id].kind == db[id].kind && after[id].retryPolicy == db[id].retryPolicy
  {
    hide Step, Records;
    if ops != [] {
      var init, last := ops[..|ops| - 1], ops[|ops| - 1];
      SplitLast(id, ops);
      CountsEveryFailure(env, db, init, id);
      var before := Run(env, db, init);
      if id in before {
        CountStep(env, before, last, id);
        CountModulo(db[id].retryCount + Failures(env, db, init, id));
      } else {
        StepKeepsAbsent(env, before, last, id);
      }
    }
  }

  lemma {:induction false} FailuresBounded(env: Env, db: Db, ops: seq<Op>, id: Uuid)
    ensures Failures(env, db, ops, id) <= |ops|
  {
    if ops != [] {
      FailuresBounded(env, db, ops[..|ops| - 1], id);
    }
  }

  /** The task succeeds: it is rescheduled, and its expression parses, or it is set to completed. */
  predicate Succeeds(env: Env, db: Db, op: Op, id: Uuid) {
    op.id == id && id in db &&
    ((op.Reschedule? && AfterReschedule(env, db[id], op.now).Some?) || (op.UpdateState? && op.state == Completed))
  }

  /** The failures of `id` recorded since it last succeeded. */
  function Consecutive(env: Env, db: Db, ops: seq<Op>, id: Uuid): nat {
    if ops == [] then 0
    else
      var init, last := ops[..|ops| - 1], ops[|ops| - 1];
      var before := Run(env, db, init);
      if Succeeds(env, before, last, id) then 0
      else Consecutive(env, db, init, id) + if Records(env, before, last, id) then 1 else 0
  }

  /** The task succeeded at some point after a recorded failure. */
  predicate Recovered(env: Env, db: Db, ops: seq<Op>, id: Uuid) {
    ops != [] &&
      var init := ops[..|ops| - 1];
      Recovered(env, db, init, id) ||
      (Failures(env, db, init, id) > 0 && Succeeds(env, Run(env, db, init), ops[|ops| - 1], id))
  }

  lemma {:induction false} ConsecutiveExactly(env: Env, db: Db, ops: seq<Op>, id: Uuid)
    ensures Consecutive(env, db, ops, id) <= Failures(env, db, ops, id)
    ensures Consecutive(env, db, ops, id) == Failures(env, db, ops, id) <==> !Recovered(env, db, ops, id)
  {
    if ops != [] {
      ConsecutiveExactly(env, db, ops[..|ops| - 1], id);
    }
  }

  /** The comment on the field calls it the number of consecutive failures. For a
      task that started at zero it is that, while the counter does not wrap,
      exactly as long as the task has not succeeded after a failure: success
      does not reset the count. */
  lemma CountIsConsecutiveExactly(env: Env, db: Db, ops: seq<Op>, id: Uuid)
    requires id in db && db[id].retryCount == 0 && NotAdded(id, ops) && id in Run(env, db, ops)
    requires Failures(env, db, ops, id) <= U32_MAX
    ensures Run(env, db, ops)[id].retryCount == Consecutive(env, db, ops, id) <==> !Recovered(env, db, ops, id)
  {
    hide Run, Failures, Consecutive, Recovered;
    CountsEveryFailure(env, db, ops, id);
    ConsecutiveExactly(env, db, ops, id);
  }

  /** A success between two failures: the count grows by two, and one failure is consecutive. */
  lemma NotConsecutive(env: Env, db: Db, id: Uuid, reason: string, t1: Instant, t2: Instant, t3: Instant)
    requires id in db && db[id].retryPolicy.maxRetries <= db[id].retryCount && db[id].retryCount + 2 <= U32_MAX
    requires AfterReschedule(env, db[id], t2).Some?
    ensures var ops := [RecordFailure(id, reason, t1), Reschedule(id, t2), RecordFailure(id, reason, t3)];
            id in Run(env, db, ops) && Run(env, db, ops)[id].retryCount == db[id].retryCount + 2 &&
            Consecutive(env, db, ops, id) == 1
  {
    var a, b, c := RecordFailure(id, reason, t1), Reschedule(id, t2), RecordFailure(id, reason, t3);
    assert [a, b, c][..2] == [a, b] && [a, b][..1] == [a] && [a][..0] == [];
    var d1 := Step(env, db, a);
    var d2 := Step(env, d1, b);
    assert Run(env, db, [a]) == d1;
    assert Run(env, db, [a, b]) == d2;
    assert Run(env, db, [a, b, c]) == Step(env, d2, c);
    assert Consecutive(env, db, [a, b], id) == 0;
  }

  // ── A run of failures ────────────────────────────────────────────────────

  predicate OnlyFailures(id: Uuid, ops: seq<Op>) {
    forall op :: op in ops ==> op.RecordFailure? && op.id == id
  }

  lemma FailureStep(env: Env, db: Db, op: Op, id: Uuid)
    requires Records(env, db, op, id) && db[id].retryCount < U32_MAX
    ensures var after := Step(env, db, op);
            id in after && after[id].retryCount == db[id].retryCount + 1 &&
            if after[id].retryCount <= db[id].retryPolicy.maxRetries then after[id].state == Pending && after[id].nextRun.Some?
            else after[id].state == Failed(op.reason) && after[id].nextRun == None
  {
  }

  /** After n < 2^32 recorded failures and nothing else, a fresh task has counted n; it
      is pending with a run time while retries remain, and otherwise failed with
      the last reason and without a run time. */
  lemma {:induction false} FailureRun(env: Env, db: Db, ops: seq<Op>, id: Uuid)
    requires id in db && db[id].retryCount == 0 && OnlyFailures(id, ops) && ops != []
    requires Failures(env, db, ops, id) == |ops| <= U32_MAX
    ensures var after := Run(env, db, ops);
            id in after && after[id].retryCount == |ops| &&
            if |ops| <= db[id].retryPolicy.maxRetries then after[id].state == Pending && after[id].nextRun.Some?
            else after[id].state == Failed(ops[|ops| - 1].reason) && after[id].nextRun == None
  {
    hide Step, DelaySecs;
    var init, last := ops[..|ops| - 1], ops[|ops| - 1];
    assert last in ops;
    FailuresBounded(env, db, init, id);
    assert NotAdded(id, init);
    CountsEveryFailure(env, db, init, id);
    FailureStep(env, Run(env, db, init), last, id);
  }

  // ── One-shot tasks ───────────────────────────────────────────────────────

  /** `ops` starts by adding the one-shot task `id` and does not add it again. */
  predicate OneShotLife(id: Uuid, db: Db, ops: seq<Op>) {
    ops != [] && ops[0].AddOneShot? && ops[0].id == id && id !in db && NotAdded(id, ops[1..])
  }

  predicate LifeInvariant(db: Db, id: Uuid, policy: RetryPolicy, armings: nat, failures: nat) {
    armings <= 1 + policy.maxRetries && armings <= 1 + failures &&
    (id in db ==>
      var task := db[id];
      task.kind == OneShot && task.retryPolicy == policy && task.retryCount == failures &&
      (failures > policy.maxRetries ==> task.nextRun == None))
  }

  lemma LifeStep(env: Env, db: Db, op: Op, id: Uuid, policy: RetryPolicy, armings: nat, failures: nat)
    requires LifeInvariant(db, id, policy, armings, failures)
    requires !(op.id == id && (op.AddCron? || op.AddOneShot?))
    requires failures + (if Records(env, db, op, id) then 1 else 0) <= U32_MAX
    ensures LifeInvariant(Step(env, db, op), id, policy,
                          armings + if Arms(env, db, op, id) then 1 else 0,
                          failures + if Records(env, db, op, id) then 1 else 0)
  {
  }

  lemma {:induction false} LifeHolds(env: Env, db: Db, ops: seq<Op>, id: Uuid)
    requires OneShotLife(id, db, ops) && Failures(env, db, ops, id) <= U32_MAX
    ensures LifeInvariant(Run(env, db, ops), id, ops[0].policy, Armings(env, db, ops, id), Failures(env, db, ops, id))
  {
    hide Arms, Records, LifeInvariant, Step;
    var init, last := ops[..|ops| - 1], ops[|ops| - 1];
    if |ops| == 1 {
      assert init == [] && Run(env, db, init) == db;
      LifeStarts(env, db, last, id);
    } else {
      assert ops[1..][..|ops| - 2] == init[1..] && last in ops[1..];
      LifeHolds(env, db, init, id);
      LifeStep(env, Run(env, db, init), last, id, ops[0].policy, Armings(env, db, init, id), Failures(env, db, init, id));
    }
  }

  lemma LifeStarts(env: Env, db: Db, op: Op, id: Uuid)
    requires op.AddOneShot? && op.id == id && id !in db
    ensures Arms(env, db, op, id) && !Records(env, db, op, id)
    ensures LifeInvariant(Step(env, db, op), id, op.policy, 1, 0)
  {
  }

  /** Bounded retries: over any sequence of operations with fewer than 2^32
      recorded failures, a one-shot task is given a run time at most once when
      it is added and once for each retry. */
  lemma OneShotArmedAtMost(env: Env, db: Db, ops: seq<Op>, id: Uuid)
    requires OneShotLife(id, db, ops) && Failures(env, db, ops, id) <= U32_MAX
    ensures Armings(env, db, ops, id) <= 1 + ops[0].policy.maxRetries
  {
    LifeHolds(env, db, ops, id);
  }

  lemma {:induction false} FailuresGrow(env: Env, db: Db, ops: seq<Op>, more: seq<Op>, id: Uuid)
    ensures Failures(env, db, ops, id) <= Failures(env, db, ops + more, id)
  {
    if more == [] {
      assert ops + more == ops;
    } else {
      FailuresGrow(env, db, ops, more[..|more| - 1], id);
      assert (ops + more)[..|ops + more| - 1] == ops + more[..|more| - 1];
    }
  }

  /** Exhaustion is final: once its recorded failures exceed the retries, a
      one-shot task is never due again, at any time and whatever is done next,
      even when `update_state` makes it pending, until the counter wraps. */
  lemma ExhaustedOneShotNeverDue(env: Env, db: Db, ops: seq<Op>, more: seq<Op>, id: Uuid, now: Instant)
    requires OneShotLife(id, db, ops) && NotAdded(id, more)
    requires Failures(env, db, ops, id) > ops[0].policy.maxRetries
    requires Failures(env, db, ops + more, id) <= U32_MAX
    ensures var after := Run(env, db, ops + more); id in after ==> !IsDue(after[id], now)
  {
    hide Run, Failures, Armings;
    assert (ops + more)[1..] == ops[1..] + more;
    FailuresGrow(env, db, ops, more, id);
    LifeHolds(env, db, ops + more, id);
  }

  /** The failure that wraps the counter, and no other, brings an exhausted task
      back: the count is zero again and a retry is granted. */
  lemma WrapRevivesExactly(env: Env, db: Db, id: Uuid, reason: string, now: Instant)
    requires id in db && db[id].nextRun == None && db[id].retryCount > db[id].retryPolicy.maxRetries
    ensures (exists t :: IsDue(Step(env, db, RecordFailure(id, reason, now))[id], t)) <==>
            db[id].retryCount == 0xFFFF_FFFF && RetryAt(env, now, DelaySecs(db[id].retryPolicy, 0)).Some?
  {
    var after := Step(env, db, RecordFailure(id, reason, now))[id];
    if after.state == Pending && after.nextRun.Some? {
      assert IsDue(after, after.nextRun.value);
    }
  }

  /** For a cron task exhaustion is not final: rescheduling makes an exhausted
      task due again exactly when it is a cron task whose expression parses and
      fires once more. */
  lemma RevivedExactly(env: Env, db: Db, id: Uuid, now: Instant)
    requires id in db && db[id].nextRun == None && db[id].state.Failed?
    ensures (exists t :: IsDue(Step(env, db, Reschedule(id, now))[id], t)) <==>
            db[id].kind.Cron? &&
            var schedule := ParseSchedule(env, db[id].kind.expr);
            schedule.Some? && env.upcoming(schedule.value, now).Some?
  {
    var after := Step(env, db, Reschedule(id, now))[id];
    if after.state == Pending && after.nextRun.Some? {
      assert IsDue(after, after.nextRun.value);
    }
  }

  /** A one-shot task does not repeat: once it is rescheduled, that is completed,
      it is never due again unless a failure is recorded. */
  lemma {:induction false} CompletedOneShotRests(env: Env, db: Db, id: Uuid, at: Instant, ops: seq<Op>, now: Instant)
    requires id in db && db[id].kind == OneShot && NotAdded(id, ops)
    requires forall op :: op in ops ==> !(op.RecordFailure? && op.id == id)
    ensures var after := Run(env, db, [Reschedule(id, at)] + ops);
            id in after ==> after[id].kind == OneShot && after[id].nextRun == None && !IsDue(after[id], now)
  {
    var all := [Reschedule(id, at)] + ops;
    if ops == [] {
      assert all[..0] == [] && Run(env, db, all[..0]) == db;
    } else {
      SplitLast(id, ops);
      CompletedOneShotRests(env, db, id, at, ops[..|ops| - 1], now);
      assert all[..|all| - 1] == [Reschedule(id, at)] + ops[..|ops| - 1];
      assert all[|all| - 1] in ops;
    }
  }

  // ── What is reported due ─────────────────────────────────────────────────

  /** A task that was set to any other state than pending is in no report of due
      tasks, at any time, until an operation on it. */
  lemma NotPendingNotReported(env: Env, db: Db, id: Uuid, state: TaskState, at: Instant, more: seq<Op>, now: Instant,
                              due: seq<ScheduledTask>)
    requires id in db && Keyed(db) && state != Pending && Untouched(id, more)
    requires ReportsDue(Run(env, db, [UpdateState(id, state, at)] + more), now, due)
    ensures id in Run(env, db, [UpdateState(id, state, at)] + more)
    ensures forall t :: t in due ==> t.id != id
  {
    RunFrom(env, db, UpdateState(id, state, at), more);
    UntouchedKept(env, Step(env, db, UpdateState(id, state, at)), more, id);
    hide Run;
  }

  /** A one-shot task is in exactly the reports from its time on, as it was added, until an operation on it. */
  lemma OneShotReportedExactly(env: Env, db: Db, id: Uuid, agent: string, at: Instant, input: string, policy: RetryPolicy,
                               more: seq<Op>, now: Instant, due: seq<ScheduledTask>)
    requires Untouched(id, more)
    requires ReportsDue(Run(env, db, [AddOneShot(id, agent, at, input, policy)] + more), now, due)
    ensures forall t :: t in due && t.id == id ==> t == ScheduledTask(id, agent, OneShot, input, Pending, None, Some(at), policy, 0)
    ensures (exists t :: t in due && t.id == id) <==> at <= now
  {
    var op := AddOneShot(id, agent, at, input, policy);
    RunFrom(env, db, op, more);
    UntouchedKept(env, Step(env, db, op), more, id);
    var task := ScheduledTask(id, agent, OneShot, input, Pending, None, Some(at), policy, 0);
    assert Step(env, db, op)[id] == task;
    hide Run;
    assert task in due <==> at <= now;
  }

  /** A cron task is in exactly the reports from its next firing time on, the
      expression being taken as given or else with a seconds field in front. */
  lemma CronReportedExactly(env: Env, db: Db, id: Uuid, agent: string, expr: string, input: string, policy: RetryPolicy,
                            at: Instant, more: seq<Op>, now: Instant, due: seq<ScheduledTask>)
    requires Untouched(id, more) && (env.parses(expr) || env.parses("0 " + expr))
    requires ReportsDue(Run(env, db, [AddCron(id, agent, expr, input, policy, at)] + more), now, due)
    ensures var first := env.upcoming(if env.parses(expr) then expr else "0 " + expr, at);
            ((exists t :: t in due && t.id == id) <==> first.Some? && first.value <= now) &&
            forall t :: t in due && t.id == id ==>
              t == ScheduledTask(id, agent, Cron(expr), input, Pending, None, first, policy, 0)
  {
    var op := AddCron(id, agent, expr, input, policy, at);
    RunFrom(env, db, op, more);
    UntouchedKept(env, Step(env, db, op), more, id);
    var first := env.upcoming(if env.parses(expr) then expr else "0 " + expr, at);
    var task := ScheduledTask(id, agent, Cron(expr), input, Pending, None, first, policy, 0);
    assert Step(env, db, op)[id] == task;
    hide Run;
    assert task in due <==> first.Some? && first.value <= now;
  }

  // ── When a retry is due ──────────────────────────────────────────────────

  lemma {:induction false} UntouchedKept(env: Env, db: Db, ops: seq<Op>, id: Uuid)
    requires Untouched(id, ops)
    ensures id in Run(env, db, ops) <==> id in db
    ensures id in db ==> Run(env, db, ops)[id] == db[id]
  {
    if ops != [] {
      assert ops[|ops| - 1] in ops;
      UntouchedKept(env, db, ops[..|ops| - 1], id);
    }
  }

  lemma {:induction false} RunFrom(env: Env, db: Db, op: Op, more: seq<Op>)
    ensures Run(env, db, [op] + more) == Run(env, Step(env, db, op), more)
  {
    if more == [] {
      assert [op] + more == [op] && [op][..0] == [];
      assert Run(env, db, []) == db;
    } else {
      RunFrom(env, db, op, more[..|more| - 1]);
      assert ([op] + more)[..|[op] + more| - 1] == [op] + more[..|more| - 1];
    }
  }

  /** A failure that is granted a retry with a representable delay makes the
      task due from exactly that delay on, until an operation on the task, and
      leaves every other task alone. */
  lemma RetryDueExactly(env: Env, db: Db, id: Uuid, reason: string, now: Instant, more: seq<Op>, t: Instant)
    requires id in db && db[id].retryCount < db[id].retryPolicy.maxRetries && Untouched(id, more)
    requires var delay := DelaySecs(db[id].retryPolicy, db[id].retryCount + 1);
             delay <= MAX_DURATION && env.earliest <= now && now + delay * NANOS <= env.latest
    ensures var after := Run(env, db, [RecordFailure(id, reason, now)] + more);
            var delay := DelaySecs(db[id].retryPolicy, db[id].retryCount + 1);
            id in after && after[id].state == Pending && after[id].nextRun == Some(now + delay * 1_000_000_000) &&
            (IsDue(after[id], t) <==> now + delay * 1_000_000_000 <= t)
    ensures forall other :: other != id && other in db ==> Step(env, db, RecordFailure(id, reason, now))[other] == db[other]
  {
    var op := RecordFailure(id, reason, now);
    RunFrom(env, db, op, more);
    UntouchedKept(env, Step(env, db, op), more, id);
  }

  /** A delay that the cast to i64 turns into a span of the past that the calendar holds. */
  predicate LiesInThePast(env: Env, now: Instant, delay: U64) {
    delay >= U64_LIMIT - MAX_DURATION && env.earliest <= now - (U64_LIMIT - delay) * NANOS
  }

  /** A failure that is granted a retry waits for the documented delay exactly
      when a chrono duration holds that delay and the calendar holds its end. */
  lemma RetryHonoursPolicyExactly(env: Env, db: Db, id: Uuid, reason: string, now: Instant)
    requires id in db && db[id].retryCount < db[id].retryPolicy.maxRetries && env.earliest <= now
    ensures var documented := DocumentedDelay(db[id].retryPolicy, db[id].retryCount + 1);
            var task := AfterFailure(env, db[id], reason, now);
            (task.Some? && task.value.nextRun == Some(now + documented * NANOS)) <==>
            documented <= MAX_DURATION && now + documented * NANOS <= env.latest
  {
    hide DelaySecs, DocumentedDelay;
    DelayAgainstDocumented(db[id].retryPolicy, db[id].retryCount + 1);
  }

  /** Otherwise it panics, or, exactly for delays next to 2^64, it puts the retry
      into the past, as many seconds as the delay falls short of 2^64. */
  lemma RetryMissesPolicyExactly(env: Env, db: Db, id: Uuid, reason: string, now: Instant)
    requires id in db && db[id].retryCount < db[id].retryPolicy.maxRetries && env.earliest <= now <= env.latest
    ensures var documented := DocumentedDelay(db[id].retryPolicy, db[id].retryCount + 1);
            var delay := DelaySecs(db[id].retryPolicy, db[id].retryCount + 1);
            var task := AfterFailure(env, db[id], reason, now);
            ((task.Some? && task.value.nextRun.Some? && task.value.nextRun.value < now) <==> LiesInThePast(env, now, delay)) &&
            (LiesInThePast(env, now, delay) ==> task.value.nextRun == Some(now - (U64_LIMIT - delay) * NANOS)) &&
            (task == None <==>
              !(documented <= MAX_DURATION && now + documented * NANOS <= env.latest) && !LiesInThePast(env, now, delay))
  {
    hide DelaySecs, DocumentedDelay;
    DelayAgainstDocumented(db[id].retryPolicy, db[id].retryCount + 1);
  }

  /** Recording a failure panics exactly when a retry is granted whose delay is
      not a chrono duration or whose time is not in the calendar. */
  lemma PanicsExactly(env: Env, task: ScheduledTask, reason: string, now: Instant)
    ensures AfterFailure(env, task, reason, now) == None <==>
            var count := NextCount(task.retryCount);
            var delay := DelaySecs(task.retryPolicy, count);
            var secs := if delay < 0x8000_0000_0000_0000 then delay else delay - 0x1_0000_0000_0000_0000;
            count <= task.retryPolicy.maxRetries &&
            !(-9_223_372_036_854_775 <= secs <= 9_223_372_036_854_775 &&
              env.earliest <= now + secs * 1_000_000_000 <= env.latest)
  {
  }

  /** When the back-off saturates, the retry lies one second in the past: the
      task is due at once instead of waiting for the longest time. */
  lemma SaturatedRetryIsDueAtOnce(env: Env, db: Db, id: Uuid, reason: string, now: Instant)
    requires id in db && db[id].retryCount < db[id].retryPolicy.maxRetries
    requires db[id].retryPolicy.strategy == Exponential
    requires db[id].retryPolicy.retryDelaySeconds * Pow2(Min(db[id].retryCount, 62)) >= U64_MAX
    requires env.earliest <= now - NANOS && now - NANOS <= env.latest
    ensures var after := Step(env, db, RecordFailure(id, reason, now));
            id in after && after[id].nextRun == Some(now - NANOS) && IsDue(after[id], now)
  {
    SaturatedIsMinusOne(db[id].retryPolicy, db[id].retryCount + 1);
  }
}
