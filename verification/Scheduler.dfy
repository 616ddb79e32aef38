/** The task store and its retry state machine (crates/roos-scheduler/src/scheduler.rs). */
module Scheduler {
  import opened Common
  import opened Backoff

  /** A UTC instant, in nanoseconds. */
  type Instant = int

  const NANOS: int := 1_000_000_000
  const U32_MAX: U32 := 0xFFFF_FFFF

  datatype TaskKind = Cron(expr: string) | OneShot

  datatype TaskState = Pending | Running | Completed | Failed(reason: string)

  datatype ScheduledTask = ScheduledTask(
    id: Uuid,
    agent: string,
    kind: TaskKind,
    input: string,
    state: TaskState,
    lastRun: Option<Instant>,
    nextRun: Option<Instant>,
    retryPolicy: RetryPolicy,
    retryCount: U32)

  /** The two libraries that the scheduler consults: the cron parser with its
      next firing time, and the range of representable instants. */
  datatype Env = Env(
    parses: string -> bool,
    upcoming: (string, Instant) -> Option<Instant>,
    earliest: Instant,
    latest: Instant)

  datatype SchedulerError = InvalidSchedule | TaskNotFound(id: Uuid)

  /** How an operation ends; a panic leaves the store as it was. */
  datatype Reply<+T> = Done(value: T) | Rejected(error: SchedulerError) | Panicked

  type Db = map<Uuid, ScheduledTask>

  predicate Keyed(db: Db) {
    forall id :: id in db ==> db[id].id == id
  }

  /** The expression as given, or else with a seconds field in front. */
  function ParseSchedule(env: Env, expr: string): Option<string> {
    if env.parses(expr) then Some(expr)
    else if env.parses("0 " + expr) then Some("0 " + expr)
    else None
  }

  function NewTask(id: Uuid, agent: string, kind: TaskKind, input: string, nextRun: Option<Instant>, policy: RetryPolicy): ScheduledTask {
    ScheduledTask(id, agent, kind, input, Pending, None, nextRun, policy, 0)
  }

  /** `now` plus a delay, or None where the duration or the sum is out of range. */
  function RetryAt(env: Env, now: Instant, delay: U64): Option<Instant> {
    match DurationOf(delay)
    case None => None
    case Some(secs) =>
      var at := now + secs * NANOS;
      if env.earliest <= at <= env.latest then Some(at) else None
  }

  /** `retry_count += 1` */
  function NextCount(count: U32): U32 {
    if count == U32_MAX then 0 else count + 1
  }

  /** A task after one more failure, or None where scheduling its retry panics. */
  function AfterFailure(env: Env, task: ScheduledTask, reason: string, now: Instant): Option<ScheduledTask> {
    var count := NextCount(task.retryCount);
    if count <= task.retryPolicy.maxRetries then
      match RetryAt(env, now, DelaySecs(task.retryPolicy, count))
      case None => None
      case Some(at) => Some(task.(retryCount := count, nextRun := Some(at), state := Pending))
    else
      Some(task.(retryCount := count, nextRun := None, state := Failed(reason)))
  }

  function AfterUpdate(task: ScheduledTask, state: TaskState, now: Instant): ScheduledTask {
    if state == Running then task.(state := state, lastRun := Some(now)) else task.(state := state)
  }

  /** A task after rescheduling, or None where its cron expression does not parse. */
  function AfterReschedule(env: Env, task: ScheduledTask, now: Instant): Option<ScheduledTask> {
    match task.kind
    case OneShot => Some(task.(state := Completed, nextRun := None))
    case Cron(expr) =>
      match ParseSchedule(env, expr)
      case None => None
      case Some(schedule) => Some(task.(state := Pending, nextRun := env.upcoming(schedule, now)))
  }

  // ── Operations that change the store ─────────────────────────────────────

  datatype Op =
    | AddCron(id: Uuid, agent: string, expr: string, input: string, policy: RetryPolicy, now: Instant)
    | AddOneShot(id: Uuid, agent: string, at: Instant, input: string, policy: RetryPolicy)
    | RecordFailure(id: Uuid, reason: string, now: Instant)
    | UpdateState(id: Uuid, state: TaskState, now: Instant)
    | Reschedule(id: Uuid, now: Instant)
    | RemoveTask(id: Uuid)

  function OrKept(db: Db, id: Uuid, task: Option<ScheduledTask>): Db {
    if task.Some? then db[id := task.value] else db
  }

  /** The store after one operation; one that fails or panics changes nothing. */
  function Step(env: Env, db: Db, op: Op): Db {
    match op
    case AddCron(id, agent, expr, input, policy, now) =>
      (match ParseSchedule(env, expr)
       case None => db
       case Some(schedule) => db[id := NewTask(id, agent, Cron(expr), input, env.upcoming(schedule, now), policy)])
    case AddOneShot(id, agent, at, input, policy) => db[id := NewTask(id, agent, OneShot, input, Some(at), policy)]
    case RecordFailure(id, reason, now) => if id in db then OrKept(db, id, AfterFailure(env, db[id], reason, now)) else db
    case UpdateState(id, state, now) => if id in db then db[id := AfterUpdate(db[id], state, now)] else db
    case Reschedule(id, now) => if id in db then OrKept(db, id, AfterReschedule(env, db[id], now)) else db
    case RemoveTask(id) => db - {id}
  }

  predicate IsDue(task: ScheduledTask, now: Instant) {
    task.state == Pending && task.nextRun.Some? && task.nextRun.value <= now
  }

  predicate Ascending(tasks: seq<ScheduledTask>) {
    forall i, j :: 0 <= i < j < |tasks| ==> tasks[i].id < tasks[j].id
  }

  function DueOf(tasks: seq<ScheduledTask>, now: Instant): seq<ScheduledTask> {
    if tasks == [] then []
    else
      var init, last := DueOf(tasks[..|tasks| - 1], now), tasks[|tasks| - 1];
      if IsDue(last, now) then init + [last] else init
  }

  lemma {:induction false} DueOfContents(tasks: seq<ScheduledTask>, now: Instant, t: ScheduledTask)
    ensures t in DueOf(tasks, now) <==> t in tasks && IsDue(t, now)
  {
    if tasks != [] {
      assert tasks == tasks[..|tasks| - 1] + [tasks[|tasks| - 1]];
      DueOfContents(tasks[..|tasks| - 1], now, t);
    }
  }

  lemma {:induction false} DueOfAscending(tasks: seq<ScheduledTask>, now: Instant)
    requires Ascending(tasks)
    ensures Ascending(DueOf(tasks, now))
  {
    if tasks != [] {
      var init, last := tasks[..|tasks| - 1], tasks[|tasks| - 1];
      DueOfAscending(init, now);
      forall t | t in DueOf(init, now)
        ensures t.id < last.id
      {
        DueOfContents(init, now, t);
      }
    }
  }

  lemma {:induction false} LeastExists(keys: set<Uuid>) returns (least: Uuid)
    requires keys != {}
    ensures least in keys && forall k :: k in keys ==> least <= k
    decreases |keys|
  {
    var k :| k in keys;
    least := k;
    assert forall x :: x in keys ==> x == k || x in keys - {k};
    if keys - {k} != {} {
      var other := LeastExists(keys - {k});
      least := if other < k then other else k;
    }
  }

  /** `tasks` are the tasks before `rest` in key order. */
  ghost predicate Listed(db: Db, rest: set<Uuid>, tasks: seq<ScheduledTask>) {
    rest <= db.Keys && Ascending(tasks) &&
    (forall t :: t in tasks <==> t.id in db && t.id !in rest && db[t.id] == t) &&
    (forall t, k :: t in tasks && k in rest ==> t.id < k)
  }

  lemma ListMore(db: Db, rest: set<Uuid>, tasks: seq<ScheduledTask>, k: Uuid)
    requires Keyed(db) && Listed(db, rest, tasks) && k in rest && forall other :: other in rest ==> k <= other
    ensures Listed(db, rest - {k}, tasks + [db[k]])
  {
    forall i | 0 <= i < |tasks|
      ensures tasks[i].id < k
    {
      assert tasks[i] in tasks;
    }
  }

  /** The due tasks of a store, in key order. */
  ghost predicate ReportsDue(db: Db, now: Instant, due: seq<ScheduledTask>) {
    (forall i, j :: 0 <= i < j < |due| ==> due[i].id < due[j].id) &&
    (forall t :: t in due <==>
      t.id in db && db[t.id] == t && t.state == Pending && t.nextRun.Some? && t.nextRun.value <= now)
  }

  class CronScheduler {
    var db: Db
    const env: Env

    constructor Open(db: Db, env: Env)
      requires Keyed(db)
      ensures this.db == db && this.env == env
    {
      this.db := db;
      this.env := env;
    }

    /** `id` is the identifier that the random generator returns. */
    method AddTaskWithRetry(agent: string, cronExpr: string, input: string, policy: RetryPolicy, id: Uuid, now: Instant)
      returns (r: Reply<Uuid>)
      requires Keyed(db)
      modifies this
      ensures Keyed(db)
      ensures match ParseSchedule(env, cronExpr)
              case None => r == Rejected(InvalidSchedule) && db == old(db)
              case Some(schedule) =>
                r == Done(id) &&
                db == old(db)[id := ScheduledTask(id, agent, Cron(cronExpr), input, Pending, None,
                                                  env.upcoming(schedule, now), policy, 0)]
      ensures env.parses(cronExpr) ==> r == Done(id) && db[id].nextRun == env.upcoming(cronExpr, now)
      ensures !env.parses(cronExpr) && env.parses("0 " + cronExpr) ==>
                r == Done(id) && db[id].nextRun == env.upcoming("0 " + cronExpr, now)
      ensures db == Step(env, old(db), Op.AddCron(id, agent, cronExpr, input, policy, now))
    {
      var schedule := ParseSchedule(env, cronExpr);
      if schedule.None? {
        return Rejected(InvalidSchedule);
      }
      var task := ScheduledTask(id, agent, Cron(cronExpr), input, Pending, None,
                                env.upcoming(schedule.value, now), policy, 0);
      db := db[id := task];
      return Done(id);
    }

    method AddOneShotWithRetry(agent: string, at: Instant, input: string, policy: RetryPolicy, id: Uuid)
      returns (r: Reply<Uuid>)
      requires Keyed(db)
      modifies this
      ensures Keyed(db)
      ensures r == Done(id) && db == old(db)[id := ScheduledTask(id, agent, OneShot, input, Pending, None, Some(at), policy, 0)]
      ensures db == Step(env, old(db), Op.AddOneShot(id, agent, at, input, policy))
    {
      db := db[id := ScheduledTask(id, agent, OneShot, input, Pending, None, Some(at), policy, 0)];
      return Done(id);
    }

    method RecordFailure(id: Uuid, reason: string, now: Instant) returns (r: Reply<()>)
      requires Keyed(db)
      modifies this
      ensures Keyed(db)
      ensures id !in old(db) ==> r == Rejected(TaskNotFound(id)) && db == old(db)
      ensures id in old(db) ==>
                match AfterFailure(env, old(db)[id], reason, now)
                case None => r == Panicked && db == old(db)
                case Some(task) => r == Done(()) && db == old(db)[id := task]
      ensures id in old(db) && r == Done(()) ==>
                var before := old(db)[id];
                var count := (before.retryCount + 1) % 0x1_0000_0000;
                db == old(db)[id := if count <= before.retryPolicy.maxRetries
                                    then before.(retryCount := count, state := Pending, nextRun := db[id].nextRun)
                                    else before.(retryCount := count, state := Failed(reason), nextRun := None)]
      ensures db == Step(env, old(db), Op.RecordFailure(id, reason, now))
    {
      if id !in db {
        return Rejected(TaskNotFound(id));
      }
      var task := db[id];
      task := task.(retryCount := NextCount(task.retryCount));
      if task.retryCount <= task.retryPolicy.maxRetries {
        var base := task.retryPolicy.retryDelaySeconds;
        var delaySecs;
        match task.retryPolicy.strategy {
          case Fixed => delaySecs := base;
          case Exponential =>
            var exp := Min(if task.retryCount == 0 then U32_MAX else task.retryCount - 1, 62);
            delaySecs := SaturatingMul(base, Pow2(exp));
        }
        var at := RetryAt(env, now, delaySecs);
        if at.None? {
          return Panicked;
        }
        task := task.(nextRun := at);
        task := task.(state := Pending);
      } else {
        task := task.(state := Failed(reason));
        task := task.(nextRun := None);
      }
      db := db[task.id := task];
      return Done(());
    }

    /** All tasks, in the order of the database's keys. */
    method ListTasks() returns (tasks: seq<ScheduledTask>)
      requires Keyed(db)
      ensures forall i, j :: 0 <= i < j < |tasks| ==> tasks[i].id < tasks[j].id
      ensures forall t :: t in tasks <==> t.id in db && db[t.id] == t
    {
      tasks := [];
      var rest := db.Keys;
      while rest != {}
        invariant Listed(db, rest, tasks)
        decreases |rest|
      {
        ghost var least := LeastExists(rest);
        var k :| k in rest && forall other :: other in rest ==> k <= other;
        ListMore(db, rest, tasks, k);
        tasks := tasks + [db[k]];
        rest := rest - {k};
      }
    }

    method DueTasks(now: Instant) returns (due: seq<ScheduledTask>)
      requires Keyed(db)
      ensures forall i, j :: 0 <= i < j < |due| ==> due[i].id < due[j].id
      ensures forall t :: t in due <==>
                t.id in db && db[t.id] == t && t.state == Pending && t.nextRun.Some? && t.nextRun.value <= now
      ensures ReportsDue(db, now, due)
    {
      var tasks := ListTasks();
      due := DueOf(tasks, now);
      DueOfAscending(tasks, now);
      forall t
        ensures t in due <==> t in tasks && IsDue(t, now)
      {
        DueOfContents(tasks, now, t);
      }
    }

    method UpdateState(id: Uuid, state: TaskState, now: Instant) returns (r: Reply<()>)
      requires Keyed(db)
      modifies this
      ensures Keyed(db)
      ensures id !in old(db) ==> r == Rejected(TaskNotFound(id)) && db == old(db)
      ensures id in old(db) ==>
                var task := old(db)[id];
                var lastRun := if state == Running then Some(now) else task.lastRun;
                r == Done(()) && db == old(db)[id := task.(state := state, lastRun := lastRun)]
      ensures db == Step(env, old(db), Op.UpdateState(id, state, now))
    {
      if id !in db {
        return Rejected(TaskNotFound(id));
      }
      var task := db[id];
      if state == Running {
        task := task.(lastRun := Some(now));
      }
      task := task.(state := state);
      db := db[task.id := task];
      return Done(());
    }

    method Reschedule(id: Uuid, now: Instant) returns (r: Reply<()>)
      requires Keyed(db)
      modifies this
      ensures Keyed(db)
      ensures id !in old(db) ==> r == Rejected(TaskNotFound(id)) && db == old(db)
      ensures id in old(db) ==>
                match AfterReschedule(env, old(db)[id], now)
                case None => r == Rejected(InvalidSchedule) && db == old(db)
                case Some(task) => r == Done(()) && db == old(db)[id := task]
      ensures id in old(db) && old(db)[id].kind.OneShot? ==>
                r == Done(()) && db == old(db)[id := old(db)[id].(state := Completed, nextRun := None)]
      ensures id in old(db) && old(db)[id].kind.Cron? ==>
                var expr := old(db)[id].kind.expr;
                if env.parses(expr) then
                  r == Done(()) && db == old(db)[id := old(db)[id].(state := Pending, nextRun := env.upcoming(expr, now))]
                else if env.parses("0 " + expr) then
                  r == Done(()) && db == old(db)[id := old(db)[id].(state := Pending, nextRun := env.upcoming("0 " + expr, now))]
                else r == Rejected(InvalidSchedule) && db == old(db)
      ensures db == Step(env, old(db), Op.Reschedule(id, now))
    {
      if id !in db {
        return Rejected(TaskNotFound(id));
      }
      var task := db[id];
      match task.kind {
        case Cron(expr) =>
          var schedule := ParseSchedule(env, expr);
          if schedule.None? {
            return Rejected(InvalidSchedule);
          }
          task := task.(nextRun := env.upcoming(schedule.value, now));
          task := task.(state := Pending);
        case OneShot =>
          task := task.(state := Completed);
          task := task.(nextRun := None);
      }
      db := db[task.id := task];
      return Done(());
    }

    method RemoveTask(id: Uuid)
      requires Keyed(db)
      modifies this
      ensures Keyed(db)
      ensures db == old(db) - {id}
      ensures db == Step(env, old(db), Op.RemoveTask(id))
    {
      db := db - {id};
    }
  }
}
