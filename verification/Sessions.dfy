/** Many runs that share one memory. */
module Sessions {
  import opened Common
  import opened Conversation
  import opened ReasoningLoop
  import Store = InMemoryStore
  import Sled = SledMemory
  import TtlRuns

  /** One call of `run`, in its own world. */
  datatype Call = Call(world: World, input: AgentInput)

  function CallResult(reg: Registry, inner: Store.Histories, c: Call): Result<AgentOutput, AgentError> {
    RunResult(c.world, reg, Store.LoadReply(inner, c.input.runId), c.input)
  }

  function MemoryOf(reg: Registry, inner: Store.Histories, calls: seq<Call>): Store.Histories {
    if calls == [] then inner
    else
      var before := MemoryOf(reg, inner, calls[..|calls| - 1]);
      MemoryAfter(before, CallResult(reg, before, calls[|calls| - 1]))
  }

  /** The final answers of the successful runs under one id, in order. */
  function Answers(reg: Registry, inner: Store.Histories, calls: seq<Call>, runId: Uuid): seq<Message> {
    if calls == [] then []
    else
      var init, last := calls[..|calls| - 1], calls[|calls| - 1];
      var r := CallResult(reg, MemoryOf(reg, inner, init), last);
      Answers(reg, inner, init, runId) +
      if r.Ok? && last.input.runId == runId then [Assistant(r.value.content)] else []
  }

  lemma RunIdIsEchoed(w: World, reg: Registry, stored: Option<ConversationHistory>, input: AgentInput)
    requires RunResult(w, reg, stored, input).Ok?
    ensures RunResult(w, reg, stored, input).value.runId == input.runId
  {
    hide Transcript, AllRecords, TotalUsage;
  }

  lemma {:induction false} AnswersAccumulate(reg: Registry, inner: Store.Histories, calls: seq<Call>, runId: Uuid)
    ensures Store.HistoryOf(MemoryOf(reg, inner, calls), runId).messages ==
            Store.HistoryOf(inner, runId).messages + Answers(reg, inner, calls, runId)
  {
    hide RunResult;
    if calls != [] {
      var init, last := calls[..|calls| - 1], calls[|calls| - 1];
      AnswersAccumulate(reg, inner, init, runId);
      var before := MemoryOf(reg, inner, init);
      if CallResult(reg, before, last).Ok? {
        RunIdIsEchoed(last.world, reg, Store.LoadReply(before, last.input.runId), last.input);
      }
    }
  }

  /** Sessions accumulate exactly: after any runs under any ids, an id holds its
      first history followed by the final answers of its successful runs in
      order, and the next run under it starts from that. Failed runs add nothing. */
  lemma SessionsAccumulate(reg: Registry, inner: Store.Histories, calls: seq<Call>, runId: Uuid, next: AgentInput)
    requires next.runId == runId
    ensures Store.HistoryOf(MemoryOf(reg, inner, calls), runId).messages ==
            Store.HistoryOf(inner, runId).messages + Answers(reg, inner, calls, runId)
    ensures InitialPrompt(Store.LoadReply(MemoryOf(reg, inner, calls), runId), next) ==
            Store.HistoryOf(inner, runId).messages + Answers(reg, inner, calls, runId) + [User(next.content)]
  {
    hide MemoryOf, Answers;
    AnswersAccumulate(reg, inner, calls, runId);
  }

  // ── Sessions on the persistent store ─────────────────────────────────────

  /** One call of `run`, with the clock readings of its load and of the load and store of its append. */
  datatype TimedCall = TimedCall(world: World, input: AgentInput, startAt: U64, loadAt: U64, storeAt: U64)

  /** To the loop, an expired history is an error of its memory. */
  function WorldOver(w: World, loaded: Loaded): World {
    if loaded.Err? && w.loadFault.None? then w.(loadFault := Some("memory has expired")) else w
  }

  function StoredOver(loaded: Loaded): Option<ConversationHistory> {
    if loaded.Ok? then loaded.value else None
  }

  function TimedResult(reg: Registry, db: Sled.Db, c: TimedCall): Result<AgentOutput, AgentError> {
    var loaded := Sled.LoadReply(db, c.input.runId, c.startAt);
    RunResult(WorldOver(c.world, loaded), reg, StoredOver(loaded), c.input)
  }

  /** The memory operations of one run: a load, and an append when it succeeds. */
  function CallOps(reg: Registry, db: Sled.Db, c: TimedCall): seq<TtlRuns.Op> {
    var r := TimedResult(reg, db, c);
    [TtlRuns.Load(c.input.runId, c.startAt)] +
    if r.Ok? then [TtlRuns.Append(c.input.runId, Assistant(r.value.content), c.loadAt, c.storeAt)] else []
  }

  function SessionOps(reg: Registry, ttl: Sled.Ttl, db: Sled.Db, calls: seq<TimedCall>): seq<TtlRuns.Op> {
    if calls == [] then []
    else
      var before := SessionOps(reg, ttl, db, calls[..|calls| - 1]);
      before + CallOps(reg, TtlRuns.Run(ttl, db, before), calls[|calls| - 1])
  }

  lemma {:induction false} SessionsOnlyAppend(reg: Registry, ttl: Sled.Ttl, db: Sled.Db, calls: seq<TimedCall>, id: Uuid)
    ensures TtlRuns.OnlyAppended(id, SessionOps(reg, ttl, db, calls))
  {
    hide TimedResult;
    if calls != [] {
      SessionsOnlyAppend(reg, ttl, db, calls[..|calls| - 1], id);
    }
  }

  /** Sessions with a time-to-live: after any runs under any ids, the next run
      under an id either starts from exactly the answers that form the maximal
      suffix without a gap above the time-to-live, or, when that time has passed
      since the last answer, from nothing or with a memory error. */
  lemma TimedSessions(reg: Registry, db: Sled.Db, calls: seq<TimedCall>, next: TimedCall, d: U64)
    requires Sled.Keyed(db) && next.input.runId !in db
    requires var ops := SessionOps(reg, Some(d), db, calls);
             TtlRuns.Ordered(ops) && TtlRuns.EndTime(ops) <= next.startAt
    requires next.world.loadFault.None?
    requires TtlRuns.DeadlinesFit(TtlRuns.AppendsTo(next.input.runId, SessionOps(reg, Some(d), db, calls)), Some(d))
    ensures var ops := SessionOps(reg, Some(d), db, calls);
            var answers := TtlRuns.AppendsTo(next.input.runId, ops);
            var now := TtlRuns.Run(Some(d), db, ops);
            var loaded := Sled.LoadReply(now, next.input.runId, next.startAt);
            if answers != [] && next.startAt <= answers[|answers| - 1].storeAt + d then
              exists k: nat :: TtlRuns.MaximalSuffix(answers, d, k) && loaded.Ok? &&
                InitialPrompt(StoredOver(loaded), next.input) == TtlRuns.Messages(answers[k..]) + [User(next.input.content)]
            else if loaded.Ok? then
              InitialPrompt(StoredOver(loaded), next.input) == [User(next.input.content)]
            else
              TimedResult(reg, now, next).Err? && TimedResult(reg, now, next).error.MemoryError?
  {
    hide SessionOps, TtlRuns.Run, TtlRuns.AppendsTo, Ending;
    var ops := SessionOps(reg, Some(d), db, calls);
    SessionsOnlyAppend(reg, Some(d), db, calls, next.input.runId);
    TtlRuns.TimedRun(db, ops, next.input.runId, d, next.startAt);
  }

  /** An expired session costs exactly one run: the run that finds it expired
      fails with a memory error and thereby evicts it, so the next one starts afresh. */
  lemma ExpiredSessionRestarts(reg: Registry, ttl: Sled.Ttl, db: Sled.Db, first: TimedCall, second: TimedCall)
    requires first.input.runId in db && !Sled.Live(db[first.input.runId], first.startAt)
    requires first.world.loadFault.None? && second.input.runId == first.input.runId
    ensures TimedResult(reg, db, first) == Err(MemoryError("memory has expired"))
    ensures var after := TtlRuns.Run(ttl, db, CallOps(reg, db, first));
            TimedResult(reg, after, second) == RunResult(second.world, reg, None, second.input)
  {
    hide Ending;
    var ops := CallOps(reg, db, first);
    assert ops == [TtlRuns.Load(first.input.runId, first.startAt)] && ops[..0] == [];
    assert TtlRuns.Run(ttl, db, []) == db;
  }
}
