# ROOS: a verified model of its stateful core

ROOS is a Rust framework for AI agents. This project models the parts of it whose
behaviour spans many calls, in Dafny 4.11, and proves what holds of them over all
inputs and all runs. `dafny verify dfyconfig.toml` checks everything.

| files | component | main results |
|---|---|---|
| `Interpolation.dfy` | `${VAR}` expansion of configuration text | an exact meaning for each of the three outcomes, the rendering round trip, the concatenation law |
| `Conversation.dfy`, `InMemoryStore.dfy`, `SledMemory.dfy`, `TtlRuns.dfy`, `AppendInterleaving.dfy`, `MissingMessages.dfy` | conversation memory | lazy expiry refines an ideal store, the timed-run theorem, serialisability of concurrent loads and appends, exactly when a message is lost, with and without a time-to-live |
| `Backoff.dfy`, `Scheduler.dfy`, `SchedulerRuns.dfy` | task store and retries | bounds over every sequence of operations, exactly what is counted, exactly when a retry keeps its documented delay, lies in the past, or panics |
| `AgentStates.dfy`, `Completion.dfy`, `Providers.dfy`, `ReasoningLoop.dfy`, `LoopLaws.dfy`, `Sessions.dfy` | the reasoning loop | the loop refines a transcript, exactly what the model is shown, exact endings, audit trail, tokens, sessions over both stores |
| `AgentBus.dfy`, `BusRuns.dfy`, `Supervisor.dfy` | agent bus and supervisor | request/reply safety and progress over every interleaving, routes from the event log, dispatch, exactly how plans are parsed |

How the outside world enters the model:

- Every reading of a clock is a parameter of the operation that takes it. Memory
  counts seconds since the epoch, the scheduler nanoseconds.
- The embedded database is a map, and encoding an entry is the identity.
- Providers, tools, schema validation, the JSON decoder, the cron library and the
  range of calendar dates are arbitrary parameters. Random identifiers are parameters.
- Ghost results of `ReasoningLoop.Run` record the prompts of all provider calls and
  the tool bodies that ran.
- Concurrency is modelled as sequences of atomic steps in any order: the `get`, `remove`
  and `insert` calls of persistent loads and appends, and the lookup, delivery and await
  of a bus `send`.
- In the scheduler, the persistent store and the provider mappings machine integers have
  their width, and sums wrap as in a build without overflow checks.

Some members call `hide` on functions whose bodies a proof does not need; this only
keeps the proofs small.

## Where the code and its documentation disagree

The model follows the code.

- `crates/roos-scheduler/src/task.rs:62` calls `retry_count` the number of consecutive
  failures. Success does not reset it: it is that number exactly as long as the task has
  not succeeded after a failure (`SchedulerRuns.CountsEveryFailure`,
  `SchedulerRuns.CountIsConsecutiveExactly`, `SchedulerRuns.NotConsecutive`).
- `crates/roos-scheduler/src/task.rs:26` documents the delay as `delay * 2^(attempt-1)`. The
  scheduler casts a saturated u64 to i64, makes it a chrono duration and adds that to the
  clock. The retry has the documented delay exactly when a chrono duration holds it and the
  calendar holds its end (`Backoff.DocumentedExactly`, `SchedulerRuns.RetryHonoursPolicyExactly`);
  with today's clock the calendar, which ends some 8.2e12 seconds after the epoch, is the
  nearer bound. Delays within 2^63/1000 seconds of 2^64 put the retry into the past, by one
  second when the product saturates, as far as the calendar reaches; any other delay panics
  (`SchedulerRuns.RetryMissesPolicyExactly`, `SchedulerRuns.SaturatedRetryIsDueAtOnce`).
- `crates/roos-core/src/error.rs:6` promises that no public path panics. The supervisor's
  parser panics exactly on texts whose brackets are out of order (`Supervisor.PanicsExactly`),
  and `record_failure`, whose own error type makes no such promise, panics exactly when it grants
  a retry whose delay or time is not representable (`SchedulerRuns.PanicsExactly`).
- `crates/roos-scheduler/src/task.rs:31` calls `max_retries` the maximum number of retries. The
  count is incremented unchecked: after 2^32 failures a task that had given up is retried
  again (`SchedulerRuns.WrapRevivesExactly`).
- `crates/roos-core/src/bus.rs:34` says that `SendError` also stands for a full queue. A full
  queue makes `send` wait (`BusRuns.WaitsExactly`), and full queues are reached
  (`BusRuns.FullMailboxWaits`).
- `crates/roos-core/src/memory.rs:133-136` promises that an append adds its message to the
  existing history. Concurrent use of the persistent store loses messages: without a
  time-to-live exactly when appends to one id overlap (`AppendInterleaving.LostUpdatesExactly`);
  with one also when a client that found the id expired removes it after another has
  appended to it (`MissingMessages.LateEvictionLosesMessage`). `MissingMessages.MissingExactly`
  gives the exact condition under any time-to-live.
- `roos_srs.md:504` gives 20 as the default step limit; the code uses 10.

## Model

| member | source | states |
|---|---|---|
| Interpolation.InterpolateEnvVars | crates/roos-core/src/config.rs:112-134 | the scanning loop over the shrinking suffix computes the recursive meaning `Expand`, offsets included |
| Interpolation.SucceedsExactly | crates/roos-core/src/config.rs:107-134 | interpolation yields `out` exactly on texts that are a rendering of closed and set placeholders and literals, and `out` is their substitution |
| Interpolation.MalformedExactly | crates/roos-core/src/config.rs:116-124 | a malformed placeholder is reported at `at` exactly when closed and set placeholders and a literal, `at` bytes in all, are followed by a `${` that nothing closes |
| Interpolation.MalformedOffset | crates/roos-core/src/config.rs:120-124 | the reported offset is that of a `${` of the original text with no `}` behind it |
| Interpolation.MissingExactly | crates/roos-core/src/config.rs:125-127 | a missing variable is reported exactly for the leftmost failing placeholder, when its name is unset and all before it are closed and set |
| Interpolation.RenderThenInterpolate | crates/roos-core/src/config.rs:116-133 | round trip: literals and values end up side by side verbatim, and a value that contains `${` is not scanned again |
| Interpolation.SubstituteLength | crates/roos-core/src/config.rs:116-133 | the length law: every placeholder trades its name and three bytes for its value |
| Interpolation.Compositional | crates/roos-core/src/config.rs:112-134 | interpolating `a + b` gives both results, or the error of `b` moved by the length of `a`, unless the cut separates `$` from `{` |
| Interpolation.MissingIsFinal | crates/roos-core/src/config.rs:116-127 | a missing variable in a prefix is reported whatever text follows |
| Interpolation.SplitOpenBreaksConcatenation | crates/roos-core/src/config.rs:116 | the side condition of the concatenation law is needed |
| Interpolation.ExpandsAsWritten | crates/roos-core/src/config.rs:112-134 | byte by byte: text without `${` is itself, an unclosed placeholder is malformed at its offset, a closed one is its variable between the text in front and the interpolated rest |
| InMemoryStore.InMemoryStore.Store | crates/roos-memory/src/in_memory.rs:34-42 | files a history under its run id and changes no other |
| InMemoryStore.InMemoryStore.Load | crates/roos-memory/src/in_memory.rs:44-49 | returns what is filed under the id, if anything |
| InMemoryStore.InMemoryStore.Append | crates/roos-memory/src/in_memory.rs:51-60 | extends the history of one id, created empty if absent, in one locked step |
| InMemoryStore.InMemoryStore.Clear | crates/roos-memory/src/in_memory.rs:62-70 | forgets one id |
| SledMemory.SledMemory.WithTtl | crates/roos-memory/src/sled_store.rs:51-55 | sets the time-to-live of later entries and leaves stored ones alone |
| SledMemory.SledMemory.Store | crates/roos-memory/src/sled_store.rs:61-86 | files a history under its run id with the deadline now + time-to-live modulo 2^64, or none; nothing else changes |
| SledMemory.SledMemory.Load | crates/roos-memory/src/sled_store.rs:88-110 | reports None, Expired or the history, and removes exactly an entry found expired |
| SledMemory.SledMemory.Append | crates/roos-memory/src/sled_store.rs:112-121 | a load followed by a store: extends a live history by the message, starts a new one otherwise, and renews the deadline |
| SledMemory.SledMemory.Clear | crates/roos-memory/src/sled_store.rs:123-128 | forgets one id |
| SledMemory.LiveWhenStoredExactly | crates/roos-memory/src/sled_store.rs:64 | an entry loads in the second in which it is stored exactly when the clock and the time-to-live add up within a u64; past that it is already expired |
| TtlRuns.LazyRefinesIdeal | crates/roos-memory/src/sled_store.rs:88-121 | after every run of operations, the lazily expiring store answers every load with the content that a store evicting at once would give |
| TtlRuns.IdealHoldsLive | crates/roos-memory/src/sled_store.rs:27-31 | the store that it refines holds nothing expired after any operation |
| TtlRuns.LoadsAreInvisible | crates/roos-memory/src/sled_store.rs:101-107 | removing all loads from a run changes no content seen later |
| TtlRuns.TimedRun | crates/roos-memory/src/sled_store.rs:61-121 | when no deadline passes a u64, a load within the time-to-live of the last append returns exactly the maximal suffix of appends whose gaps are within it; any later load returns no history |
| TtlRuns.SuffixExists | crates/roos-memory/src/sled_store.rs:101-121 | there is a maximal suffix for every run of appends |
| TtlRuns.SuffixUnique | crates/roos-memory/src/sled_store.rs:101-121 | and only one |
| TtlRuns.NoTtlRefinesInMemory | crates/roos-memory/src/sled_store.rs:79-129 | without a time-to-live, every run gets the same replies from the persistent and the in-memory store and leaves the same histories |
| AppendInterleaving.NonOverlappingSerialisable | crates/roos-memory/src/sled_store.rs:88-121 | interleaved loads and appends, none of which reads an id that another client is working on, end in the database and give the replies of the serial run in the order of their last steps, under any time-to-live and clock |
| AppendInterleaving.NoneForgotten | crates/roos-memory/src/sled_store.rs:88-121 | every load and append that is started is under way or in the serial order with its reply |
| AppendInterleaving.LostUpdatesExactly | crates/roos-memory/src/sled_store.rs:112-121 | without a time-to-live, an id keeps all committed messages in commit order if and only if no client's window between reading and storing contains another commit to it; otherwise messages are missing |
| AppendInterleaving.OverlapLosesMessage | crates/roos-memory/src/sled_store.rs:112-121 | two overlapping appends both commit and one message remains |
| MissingMessages.UnbrokenAgrees | crates/roos-memory/src/sled_store.rs:88-121 | under any time-to-live, while an observer of the steps has not seen the id break, loads see what they would see after the serial run of the committed appends |
| MissingMessages.UndisturbedAgrees | crates/roos-memory/src/sled_store.rs:88-121 | in particular when no client removes or stores the id on a stale reading |
| MissingMessages.MissingExactly | crates/roos-memory/src/sled_store.rs:88-121 | a load lacks a message of the serial run if and only if the observer has seen the id break and the last commit has not expired; otherwise both hold the same entry |
| MissingMessages.LateEvictionLosesMessage | crates/roos-memory/src/sled_store.rs:101-107 | a load that found the entry expired removes what a later append stored: the only append is lost without an overlap of appends |
| AppendInterleaving.LockedAppendsLoseNothing | crates/roos-memory/src/in_memory.rs:51-60 | in memory, appends of any clients in any order all stay, in lock order |
| Backoff.DelayMonotone | crates/roos-scheduler/src/scheduler.rs:134-141 | the power of two fits a u64 and delays never shrink from one failure to the next |
| Backoff.DelaysFromPolicy | crates/roos-scheduler/src/task.rs:23-27 | both strategies start with the base; fixed delays stay the base, documented exponential ones double |
| Backoff.DelayDoublesExactly | crates/roos-scheduler/src/task.rs:26-27 | the delay doubles exactly while the exponent is below its clamp and the product fits a u64 |
| Backoff.DelaySum | crates/roos-scheduler/src/task.rs:26-27 | up to 63 unsaturated delays sum to base * (2^n - 1) |
| Backoff.DelayAgainstDocumented | crates/roos-scheduler/src/scheduler.rs:134-141 | the computed delay is the documented one, unless both are longer than a chrono duration |
| Backoff.DocumentedExactly | crates/roos-scheduler/src/scheduler.rs:134-142 | the waiting time is the documented one exactly when that fits a chrono duration |
| Backoff.SaturatedIsMinusOne | crates/roos-scheduler/src/scheduler.rs:139-142 | a saturated delay becomes a span of minus one second |
| Backoff.DefaultPolicyDelays | crates/roos-scheduler/src/task.rs:41-49 | the default policy waits 60, 120 and 240 seconds |
| Scheduler.CronScheduler.AddTaskWithRetry | crates/roos-scheduler/src/scheduler.rs:68-92 | rejects an expression that parses neither as given nor with a seconds field in front, else files a fresh pending task |
| Scheduler.CronScheduler.AddOneShotWithRetry | crates/roos-scheduler/src/scheduler.rs:105-126 | files a fresh pending task for the given time |
| Scheduler.CronScheduler.RecordFailure | crates/roos-scheduler/src/scheduler.rs:130-157 | counts the failure, then retries after the delay, gives up with the reason, or panics and leaves the store unchanged |
| Scheduler.CronScheduler.ListTasks | crates/roos-scheduler/src/scheduler.rs:160-169 | returns every stored task exactly once, in key order |
| Scheduler.CronScheduler.DueTasks | crates/roos-scheduler/src/scheduler.rs:172-179 | returns exactly the stored tasks in state Pending with a run time that has come, in key order |
| Scheduler.CronScheduler.UpdateState | crates/roos-scheduler/src/scheduler.rs:182-189 | sets any state, and the last run when that is Running; nothing else changes |
| Scheduler.CronScheduler.Reschedule | crates/roos-scheduler/src/scheduler.rs:193-207 | completes a one-shot task and takes its run time; makes a cron task pending at the next firing of its expression, as given or with a seconds field in front, or rejects it |
| Scheduler.CronScheduler.RemoveTask | crates/roos-scheduler/src/scheduler.rs:210-215 | forgets one task |
| SchedulerRuns.CountsEveryFailure | crates/roos-scheduler/src/scheduler.rs:130-215 | over any operations the count grows by exactly the recorded failures, modulo 2^32, and kind and policy never change |
| SchedulerRuns.CountIsConsecutiveExactly | crates/roos-scheduler/src/task.rs:62-63 | the count of a task that started at zero is that of its failures since it last succeeded if and only if it never succeeded after a failure, below 2^32 failures |
| SchedulerRuns.NotConsecutive | crates/roos-scheduler/src/task.rs:62-63 | with a successful rescheduling between two failures the count grows by two while one failure is consecutive |
| SchedulerRuns.FailureRun | crates/roos-scheduler/src/scheduler.rs:130-157 | after n < 2^32 failures a fresh task has counted n and is pending with a run time while n is within the retries, else failed with the last reason and without one |
| SchedulerRuns.OneShotArmedAtMost | crates/roos-scheduler/src/scheduler.rs:105-207 | over any operations with fewer than 2^32 failures a one-shot task is given a run time, the one it has or another, at most 1 + max_retries times |
| SchedulerRuns.ExhaustedOneShotNeverDue | crates/roos-scheduler/src/scheduler.rs:130-207 | once its failures exceed the retries, a one-shot task is never due again, whatever follows, below 2^32 failures |
| SchedulerRuns.WrapRevivesExactly | crates/roos-scheduler/src/scheduler.rs:132-143 | a further failure makes an exhausted task due again exactly when it wraps the count and the retry that this grants is representable |
| SchedulerRuns.CompletedOneShotRests | crates/roos-scheduler/src/scheduler.rs:192-207 | a rescheduled one-shot task is never due again unless a failure is recorded |
| SchedulerRuns.RevivedExactly | crates/roos-scheduler/src/scheduler.rs:191-207 | rescheduling makes a failed task due again exactly when it is a cron task that fires once more |
| SchedulerRuns.NotPendingNotReported | crates/roos-scheduler/src/scheduler.rs:172-189 | a task set to any other state than Pending is in no report of due tasks until an operation on it |
| SchedulerRuns.OneShotReportedExactly | crates/roos-scheduler/src/scheduler.rs:105-179 | a one-shot task is in exactly the reports from its time on, as it was added, until an operation on it |
| SchedulerRuns.CronReportedExactly | crates/roos-scheduler/src/scheduler.rs:68-179 | a cron task is in exactly the reports from the first firing of its expression on, as it was added, until an operation on it |
| SchedulerRuns.RetryDueExactly | crates/roos-scheduler/src/scheduler.rs:130-179 | a retried task is due from exactly its delay on until an operation touches it, and other tasks are unchanged |
| SchedulerRuns.RetryHonoursPolicyExactly | crates/roos-scheduler/src/scheduler.rs:134-143 | a granted retry waits for the documented delay exactly when a chrono duration holds that delay and the calendar holds its end |
| SchedulerRuns.RetryMissesPolicyExactly | crates/roos-scheduler/src/scheduler.rs:134-143 | a granted retry lies in the past exactly for delays next to 2^64 that the calendar reaches back, by what they lack of 2^64; it panics exactly when it neither waits as documented nor lies in the past |
| SchedulerRuns.PanicsExactly | crates/roos-scheduler/src/scheduler.rs:130-143 | recording a failure panics exactly when a retry is granted whose delay is no chrono duration or whose time is not in the calendar |
| SchedulerRuns.SaturatedRetryIsDueAtOnce | crates/roos-scheduler/src/scheduler.rs:139-143 | a retry whose back-off saturates is due at once |
| AgentStates.ValidHistories | crates/roos-orchestrator/src/state.rs:54-104 | the number of valid transitions alone determines phase and step; a history has ended exactly when it contains finish or fail |
| AgentStates.TransitionsExactly | crates/roos-orchestrator/src/state.rs:43-104 | which transitions are valid and where they lead; an invalid one names its event and state |
| Providers.MapAnthropic | crates/roos-providers/src/anthropic.rs:172-212 | text blocks are joined, tool blocks become calls, in order; the stop reasons by their names; each token counter in its own field and their u32 sum as the total |
| Providers.BlocksPartition | crates/roos-providers/src/anthropic.rs:176-183 | every block is the next text part or the next tool call: none is lost, doubled or reordered |
| Providers.ConcatJoins | crates/roos-providers/src/cohere.rs:194-200 | joining text parts keeps every part and their order |
| Providers.ConcatOfOne | crates/roos-providers/src/cohere.rs:194-200 | one part contributes itself and no part nothing |
| Providers.MapOpenAi | crates/roos-providers/src/openai.rs:195-257 | the first choice's text, calls with parsed or null arguments, stop reason and counters; an empty reply is an empty answer without tokens |
| Providers.MapCohere | crates/roos-providers/src/cohere.rs:193-235 | the joined text or none, the calls, stop reason and counters |
| Providers.CountersKept | crates/roos-providers/src/openai.rs:242-247 | every mapping reports the reply's own input and output counters and their u32 sum |
| Providers.AbsentContent | crates/roos-providers/src/cohere.rs:201-205 | Cohere's content is absent exactly when every part is empty, Anthropic's exactly when there is no text block |
| Providers.TotalConsistentExactly | crates/roos-providers/src/openai.rs:242-247 | a mapped total is input plus output exactly when the two counters add up within a u32 |
| ReasoningLoop.ReasoningLoop.constructor | crates/roos-orchestrator/src/loop_.rs:26-40 | builds the registry |
| ReasoningLoop.ReasoningLoop.ExecuteTool | crates/roos-orchestrator/src/loop_.rs:148-177 | one record with the outcome of the call; the body runs only for a registered tool and a valid input |
| ReasoningLoop.ReasoningLoop.Run | crates/roos-orchestrator/src/loop_.rs:43-142 | result, memory, prompts and tool executions are those of the recursive transcript; memory gains exactly the answer of a successful run; terminates by the step limit |
| LoopLaws.PromptsOfRun | crates/roos-orchestrator/src/loop_.rs:51-136 | prompt k is the stored history, the input, and the turns of the first k responses; each extends the previous by one turn; at most max_steps calls |
| LoopLaws.ResponsesShown | crates/roos-orchestrator/src/loop_.rs:90-131 | behind any responses the model is shown the prompt and, per response, its text and at the place of each call the output of the tool, or `error: ` and the missing name, the schema violation or the tool's error |
| LoopLaws.ShownOnce | crates/roos-orchestrator/src/loop_.rs:90-131 | and nothing else: this determines every message |
| LoopLaws.PromptsShown | crates/roos-orchestrator/src/loop_.rs:82-131 | prompt k of a run shows exactly its first k responses |
| LoopLaws.FirstPrompt | crates/roos-orchestrator/src/loop_.rs:51-66 | a run starts from the stored messages and the input with role `user` |
| LoopLaws.TranscriptIsComplete | crates/roos-orchestrator/src/loop_.rs:74-141 | the responses of a run answer consecutive prompts, ask for tools except the last, and stop only at an ending, the limit, or a refused call |
| LoopLaws.CompleteIsTranscript | crates/roos-orchestrator/src/loop_.rs:74-141 | there is no other such sequence of responses |
| LoopLaws.SucceedsExactly | crates/roos-orchestrator/src/loop_.rs:94-109 | Ok with s steps exactly when s calls were answered, the first s-1 asking for tools and the last ending, and memory worked |
| LoopLaws.AnswerIsLastText | crates/roos-orchestrator/src/loop_.rs:96-108 | the answer is the text of the last response or empty, with the steps, records and run id of the run |
| LoopLaws.TenStepsByDefault | crates/roos-orchestrator/src/loop_.rs:48 | without a limit in the input a run makes at most ten calls, and reports ten when they are used up |
| LoopLaws.MaxStepsExactly | crates/roos-orchestrator/src/loop_.rs:75-79 | the step limit m is reported exactly when memory loads and m calls are all answered with requests for tools |
| LoopLaws.FailsExactly | crates/roos-orchestrator/src/loop_.rs:53-139 | each error exactly when the responses lead to it; a configuration error never |
| LoopLaws.LastRegistrationWins | crates/roos-orchestrator/src/loop_.rs:31-34 | a name is bound to the last tool registered under it |
| LoopLaws.AuditTrail | crates/roos-orchestrator/src/loop_.rs:112-177 | the j-th call of response k+1 has its record at its place in the trail, stamped k+1: the output of the tool body, or the one error that is due |
| LoopLaws.ObservationsMatchTrail | crates/roos-orchestrator/src/loop_.rs:117-130 | the tool messages of the prompt are one for one the records of the trail: each output, or `error: ` and the error |
| LoopLaws.RanExactly | crates/roos-orchestrator/src/loop_.rs:152-166 | a tool body ran exactly for calls acted on whose name is registered and whose input is valid |
| LoopLaws.RanInOrder | crates/roos-orchestrator/src/loop_.rs:112-166 | tool bodies ran in the order of responses and calls, none twice |
| LoopLaws.UnrequestedCallsAreDropped | crates/roos-orchestrator/src/loop_.rs:94-139 | no run result depends on tool calls of responses that did not stop to use tools |
| LoopLaws.ProviderCallsActedOn | crates/roos-providers/src/cohere.rs:207-222 | the loop acts on a provider's calls exactly when the reply carries that provider's marker for tool use, and is cut off exactly on its marker for that |
| LoopLaws.TokensConserved | crates/roos-orchestrator/src/loop_.rs:88 | for every provider, the reported tokens are the component-wise sum over exactly steps_taken responses; they add up when each usage does |
| LoopLaws.ProviderTokensConserved | crates/roos-core/src/types.rs:7-25 | through any provider mapping without u32 overflow, the total of a run is its input plus its output |
| LoopLaws.RunCountsReplies | crates/roos-core/src/types.rs:7-25 | end to end, a run over mapped replies reports the sums of the replies' own input and output counters |
| Sessions.SessionsAccumulate | crates/roos-orchestrator/src/loop_.rs:51-108 | after any runs an id holds its first history and the answers of its successful runs, and the next prompt starts with them |
| Sessions.TimedSessions | crates/roos-memory/src/sled_store.rs:88-121 | over the persistent store, when no deadline passes a u64 the next run starts from exactly the maximal suffix of answers without a gap above the time-to-live, and later from nothing or with a memory error |
| Sessions.ExpiredSessionRestarts | crates/roos-orchestrator/src/loop_.rs:53-57 | the run that finds its session expired fails with a memory error and evicts it; the next one starts afresh |
| AgentBus.RoosAgentBus.RegisterAgent | crates/roos-core/src/bus.rs:73-77 | a new open mailbox is bound to the name; every other name, mailbox and send is unchanged |
| AgentBus.RoosAgentBus.BeginSend | crates/roos-core/src/bus.rs:80-89 | the lookup step of a send |
| AgentBus.RoosAgentBus.Deliver | crates/roos-core/src/bus.rs:91-97 | the delivery step: in the mailbox, refused because the receiver is closed or gone, or still waiting |
| AgentBus.RoosAgentBus.AwaitReply | crates/roos-core/src/bus.rs:99 | the await step: the reply of an answered message, a receive error for a dropped one, and otherwise nothing yet |
| BusRuns.AlwaysConsistent | crates/roos-core/src/bus.rs:73-100 | in every reachable state every message is in exactly one place and mailboxes hold at most 32 |
| BusRuns.AtMostCapacity | crates/roos-core/src/bus.rs:8 | no mailbox ever holds more than 32 messages |
| BusRuns.NamesFromLog | crates/roos-core/src/bus.rs:73-77 | a name is known exactly when it was registered, and leads to the mailbox of its last registration, whatever other names are registered |
| BusRuns.SendsFromLog | crates/roos-core/src/bus.rs:80-89 | a message exists exactly when it was looked up for |
| BusRuns.RouteFromLog | crates/roos-core/src/bus.rs:80-89 | a send goes to the mailbox of the agent's last registration before its lookup, and reports that there is no such agent exactly when there was none |
| BusRuns.FirstInFirstOut | crates/roos-core/src/bus.rs:74-97 | a worker receives a prefix of what its mailbox accepted, and the rest is still in it while its receiver is alive |
| BusRuns.DeliveredOnRoute | crates/roos-core/src/bus.rs:80-97 | a message is accepted only by the mailbox that its lookup found, and accepted and received at most once |
| BusRuns.NeverDiverted | crates/roos-core/src/bus.rs:73-97 | a message that found a mailbox is received from that one or from none, whatever is registered meanwhile |
| BusRuns.AnsweredExactly | crates/roos-core/src/bus.rs:91-99 | a message is answered at most once, and `send` returns Ok(r) only if a worker holding that message answered r |
| BusRuns.AnsweredWasReceived | crates/roos-core/src/bus.rs:70-99 | an answered message was received from the mailbox on its route |
| BusRuns.RequestIsServed | crates/roos-core/src/bus.rs:80-100 | in every reachable state a send to a mailbox with room returns the reply of its worker once that has received what was in front; discarding the message makes it fail |
| BusRuns.WaitsExactly | crates/roos-core/src/bus.rs:92-97 | a send waits exactly while its mailbox is open and full, and fails to send exactly when the receiver is closed or gone |
| BusRuns.FullMailboxWaits | crates/roos-core/src/bus.rs:92-97 | one registration and 32 sends reach a full open mailbox; the 33rd send waits without an error and gets in after one message is received |
| BusRuns.OutcomesExplained | crates/roos-core/src/bus.rs:31-38 | SendError means the receiver was closed or dropped before the message got in; RecvError means it got in and was never answered |
| BusRuns.DroppedReceiverFailsAll | crates/roos-core/src/bus.rs:70-99 | once a receiver is dropped, whatever its mailbox accepted and its worker had not received fails with RecvError |
| BusRuns.ClosedAcceptsNothing | crates/roos-core/src/bus.rs:70-97 | once a receiver is closed its mailbox accepts nothing more, and keeps what it holds |
| Supervisor.PanicsExactly | crates/roos-core/src/supervisor.rs:92-102 | parsing panics exactly when both brackets occur and every `[` is more than one position behind every `]` |
| Supervisor.ParsedExactly | crates/roos-core/src/supervisor.rs:92-102 | by the positions of the brackets: done with exactly what the slice decodes to, a configuration error when it is rejected or a bracket is missing, a panic when it ends before it starts |
| Supervisor.BracketsOutOfOrderPanic | crates/roos-core/src/supervisor.rs:99 | a text on which it does |
| Supervisor.SurroundingsIgnored | crates/roos-core/src/supervisor.rs:91-102 | text without `[` in front of the array and without `]` behind it never changes what is parsed |
| Supervisor.Dispatch | crates/roos-core/src/supervisor.rs:132-141 | one send for each subtask in order, none after the first failure; each line pairs a subtask with its own reply |
| Supervisor.LineAt | crates/roos-core/src/supervisor.rs:140 | a line is the agent in brackets, a colon and the reply |
| Supervisor.JoinConcat | crates/roos-core/src/supervisor.rs:144 | joining puts one newline between any two parts and nothing elsewhere |
| Supervisor.Described | crates/roos-core/src/bus.rs:40-48 | the words for each failed send |
| Supervisor.Run | crates/roos-core/src/supervisor.rs:115-150 | each way in which a run ends, with the sends it made: plan errors, missing brackets and rejected slices as configuration errors without any send; on success the joined lines and one step for each subtask |
| Supervisor.JoinThenSplit | crates/roos-core/src/supervisor.rs:140-144 | joined lines read back line by line exactly when no line contains a newline |
| Supervisor.ReportReadsBack | crates/roos-core/src/supervisor.rs:134-144 | the report reads back line by line exactly when no agent's name and no reply contains a newline |
| Supervisor.LinesCarryOwnReplies | crates/roos-core/src/supervisor.rs:134-140 | over every interleaving of the bus, each line carries the one reply given to the supervisor's own message for that subtask, received by the mailbox that was registered under the subtask's agent when the send looked it up; no two sends are the same message |

## Left out

- ReasoningLoop.ReasoningLoop.Run: steps and token counters are unbounded naturals, so an overflow of `usize` is not modelled; durations and timestamps of audit records are omitted.
- Scheduler.CronScheduler.RecordFailure: the count wraps as in a build without overflow checks; with checks the call panics instead.
- SledMemory.SledMemory.Store: the deadline wraps as in a build without overflow checks; with checks the call panics instead.
- AppendInterleaving.NonOverlappingSerialisable: a reading of the clock and the database call next to it are one step, and `store` and `clear`, which the reasoning loop does not use, are not among the interleaved operations.
- MissingMessages.MissingExactly: assumes that no message is sent twice, so that a missing one can be told, and that the readings of the clock do not go back from step to step.
- SledMemory.SledMemory.Load: failures of the database and of decoding are not modelled.
- InMemoryStore.InMemoryStore.Append: lock poisoning is not modelled; the reasoning loop meets arbitrary memory failures through its world instead.
- Providers.TotalConsistentExactly: u32 sums wrap as in a build without overflow checks; with checks they panic instead.
- AgentBus.RoosAgentBus.Deliver: which of several waiting senders gets the next free slot is left open, and a caller that cancels `send` is not modelled.
- Supervisor.ParseSubtasks: the JSON decoder is an arbitrary function, and positions count characters, which gives the same slice as byte offsets.
- Classes keep conversation histories and tasks as values in a map field; aliasing of vectors is not modelled, and the source clones them.
- `TokenUsage::add` and `ConversationHistory::push` are functions on values that the loops reassign.
- Bus `subscribe` and `publish`: their behaviour is that of the broadcast channel library.
- HTTP requests and error handling of the providers, the trigger server, authentication and webhooks.
- The tools themselves, JSON Schema validation and cron expressions, which are arbitrary parameters here.
- TOML parsing, prompt building, macros, logging and the command line.
- `add_task` and `add_one_shot`, which only supply the default policy.
