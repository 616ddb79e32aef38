/** Concurrent clients of the persistent store. A load is a `get` and, when it
    finds the entry expired, a `remove`; an append is a load and then an insert.
    Other clients' steps come in between. An in-memory append is one locked step. */
module AppendInterleaving {
  import opened Common
  import opened Conversation
  import opened SledMemory
  import Plain = InMemoryStore
  import TtlRuns

  type Client = nat

  /** What a client's load is for. */
  datatype Task = Reading | Appending(message: Message)

  /** One database call of a client, with the reading of the clock next to it. */
  datatype MicroStep =
    | GetStep(client: Client, id: Uuid, task: Task, at: U64)
    | EvictStep(client: Client)
    | StoreStep(client: Client, at: U64)

  /** A client between two of its steps: a load that found its entry expired, or
      an append that may still have to remove such an entry before it stores.
      `seen` counts the appends committed to its id when it read. */
  datatype Pending =
    | Reader(id: Uuid, readAt: U64, seen: nat)
    | Appender(id: Uuid, message: Message, history: ConversationHistory, readAt: U64, evicts: bool, seen: nat)

  /** The database, the clients at work, and the operations completed so far with their replies. */
  datatype Shared = Shared(db: Db, pending: map<Client, Pending>, log: seq<TtlRuns.Op>, replies: seq<Loaded>)

  predicate MustEvict(p: Pending) {
    p.Reader? || p.evicts
  }

  predicate Enabled(s: Shared, step: MicroStep) {
    match step
    case GetStep(client, _, _, _) => client !in s.pending
    case EvictStep(client) => client in s.pending && MustEvict(s.pending[client])
    case StoreStep(client, _) => client in s.pending && !MustEvict(s.pending[client])
  }

  predicate Expires(db: Db, id: Uuid, now: U64) {
    id in db && !Live(db[id], now)
  }

  function Logged(s: Shared, op: TtlRuns.Op, reply: Loaded): Shared {
    s.(log := s.log + [op], replies := s.replies + [reply])
  }

  function AppendOf(p: Pending, at: U64): TtlRuns.Op
    requires p.Appender?
  {
    TtlRuns.Append(p.id, p.message, p.readAt, at)
  }

  /** The appends committed to `id`, in commit order. */
  function Commits(s: Shared, id: Uuid): (commits: seq<TtlRuns.Op>)
    ensures TtlRuns.AllAppends(commits)
  {
    TtlRuns.AppendsTo(id, s.log)
  }

  function Step(ttl: Ttl, s: Shared, step: MicroStep): Shared {
    if !Enabled(s, step) then s
    else match step
      case GetStep(client, id, Reading, at) =>
        if Expires(s.db, id, at) then s.(pending := s.pending[client := Reader(id, at, |Commits(s, id)|)])
        else Logged(s, TtlRuns.Load(id, at), LoadReply(s.db, id, at))
      case GetStep(client, id, Appending(message), at) =>
        var p := Appender(id, message, Extended(s.db, id, message, at), at, Expires(s.db, id, at), |Commits(s, id)|);
        s.(pending := s.pending[client := p])
      case EvictStep(client) =>
        var p := s.pending[client];
        var swept := s.(db := s.db - {p.id});
        if p.Reader? then Logged(swept.(pending := s.pending - {client}), TtlRuns.Load(p.id, p.readAt), Err(Expired(p.id)))
        else swept.(pending := s.pending[client := p.(evicts := false)])
      case StoreStep(client, at) =>
        var p := s.pending[client];
        var stored := s.(db := AfterStore(ttl, s.db, p.history, at), pending := s.pending - {client});
        Logged(stored, AppendOf(p, at), Ok(None))
  }

  /** Any sequence of micro-steps is a schedule; steps that are not enabled do nothing. */
  function Exec(ttl: Ttl, db: Db, schedule: seq<MicroStep>): Shared {
    if schedule == [] then Shared(db, map[], [], [])
    else Step(ttl, Exec(ttl, db, schedule[..|schedule| - 1]), schedule[|schedule| - 1])
  }

  // ── Operations on one id that do not overlap are serialisable ────────────

  /** A client reads an id that another one is still working on. */
  ghost predicate Overlaps(s: Shared, step: MicroStep) {
    step.GetStep? && Enabled(s, step) && exists c :: c in s.pending && s.pending[c].id == step.id
  }

  ghost predicate NonOverlapping(ttl: Ttl, db: Db, schedule: seq<MicroStep>) {
    schedule != [] ==>
      var init := schedule[..|schedule| - 1];
      NonOverlapping(ttl, db, init) && !Overlaps(Exec(ttl, db, init), schedule[|schedule| - 1])
  }

  ghost predicate Idle(s: Shared, id: Uuid) {
    forall c :: c in s.pending ==> s.pending[c].id != id
  }

  ghost predicate Agree(db1: Db, db2: Db, id: Uuid) {
    (id in db1 <==> id in db2) && (id in db1 ==> db1[id] == db2[id])
  }

  /** No two clients are working on the same id. */
  ghost predicate Exclusive(s: Shared) {
    forall c, c' :: c in s.pending && c' in s.pending && c != c' ==> s.pending[c].id != s.pending[c'].id
  }

  /** A pending client has read what it would read from `serial`, and the shared
      database agrees with that one but for an eviction that is already done. */
  ghost predicate Prepared(s: Shared, serial: Db, p: Pending) {
    (MustEvict(p) ==> Expires(serial, p.id, p.readAt) && Agree(s.db, serial, p.id)) &&
    (p.Appender? ==>
      p.history == Extended(serial, p.id, p.message, p.readAt) &&
      (!p.evicts ==> Agree(s.db, AfterLoad(serial, p.id, p.readAt), p.id)))
  }

  /** The shared database agrees with the serial one away from pending ids. */
  ghost predicate Serial(s: Shared, serial: Db) {
    Keyed(s.db) && Keyed(serial) && Exclusive(s) &&
    (forall c :: c in s.pending ==> Prepared(s, serial, s.pending[c])) &&
    (forall id :: Idle(s, id) ==> Agree(s.db, serial, id))
  }

  lemma ReadAlike(db: Db, serial: Db, id: Uuid, at: U64)
    requires Agree(db, serial, id)
    ensures Expires(db, id, at) == Expires(serial, id, at) && LoadReply(db, id, at) == LoadReply(serial, id, at)
    ensures !Expires(db, id, at) ==> AfterLoad(serial, id, at) == serial
    ensures forall message :: Extended(db, id, message, at) == Extended(serial, id, message, at)
  {
  }

  lemma SerialGet(ttl: Ttl, s: Shared, serial: Db, step: MicroStep)
    requires Serial(s, serial) && step.GetStep? && Enabled(s, step) && !Overlaps(s, step)
    ensures Serial(Step(ttl, s, step), serial)
    ensures !Expires(s.db, step.id, step.at) ==>
              AfterLoad(serial, step.id, step.at) == serial &&
              LoadReply(serial, step.id, step.at) == LoadReply(s.db, step.id, step.at)
  {
    hide Keyed, Commits, Extended, LoadReply, AfterLoad, Expires, Agree;
    var s' := Step(ttl, s, step);
    assert Idle(s, step.id);
    ReadAlike(s.db, serial, step.id, step.at);
    forall c | c in s'.pending
      ensures Prepared(s', serial, s'.pending[c])
    {
      if c in s.pending {
        assert Prepared(s, serial, s.pending[c]);
      }
    }
    forall id | Idle(s', id)
      ensures Agree(s'.db, serial, id)
    {
      assert forall c :: c in s.pending ==> c in s'.pending && s'.pending[c] == s.pending[c];
      assert Idle(s, id);
    }
  }

  /** One client leaves the others' ids alone. */
  lemma SerialOthers(s: Shared, s': Shared, serial: Db, serial': Db, client: Client)
    requires Serial(s, serial) && client in s.pending
    requires forall c :: c != client ==> (c in s'.pending <==> c in s.pending) && (c in s.pending ==> s'.pending[c] == s.pending[c])
    requires client in s'.pending ==> s'.pending[client].id == s.pending[client].id
    requires forall id :: id != s.pending[client].id ==> Agree(s'.db, s.db, id) && Agree(serial', serial, id)
    ensures Exclusive(s')
    ensures forall c :: c in s'.pending && c != client ==> Prepared(s', serial', s'.pending[c])
    ensures forall id :: id != s.pending[client].id && Idle(s', id) ==> Agree(s'.db, serial', id)
  {
    var mine := s.pending[client].id;
    forall c | c in s'.pending && c != client
      ensures Prepared(s', serial', s'.pending[c])
    {
      assert Prepared(s, serial, s.pending[c]);
      var id := s.pending[c].id;
      assert id != mine;
      assert Agree(s'.db, s.db, id) && Agree(serial', serial, id);
    }
    forall id | id != mine && Idle(s', id)
      ensures Agree(s'.db, serial', id)
    {
      assert Idle(s, id);
      assert Agree(s'.db, s.db, id) && Agree(s.db, serial, id) && Agree(serial', serial, id);
    }
  }

  lemma SerialEvict(ttl: Ttl, s: Shared, serial: Db, step: MicroStep)
    requires Serial(s, serial) && step.EvictStep? && Enabled(s, step)
    ensures var p := s.pending[step.client];
            Serial(Step(ttl, s, step), if p.Reader? then AfterLoad(serial, p.id, p.readAt) else serial) &&
            LoadReply(serial, p.id, p.readAt) == Err(Expired(p.id))
  {
    var p, s' := s.pending[step.client], Step(ttl, s, step);
    var serial' := if p.Reader? then AfterLoad(serial, p.id, p.readAt) else serial;
    assert Prepared(s, serial, p);
    SerialOthers(s, s', serial, serial', step.client);
    if p.Appender? {
      assert Prepared(s', serial', s'.pending[step.client]);
    }
  }

  lemma SerialStore(ttl: Ttl, s: Shared, serial: Db, step: MicroStep)
    requires Serial(s, serial) && step.StoreStep? && Enabled(s, step)
    ensures Serial(Step(ttl, s, step), TtlRuns.Step(ttl, serial, AppendOf(s.pending[step.client], step.at)))
  {
    hide Prepared, Exclusive, Extended, MakeEntry, TtlRuns.Step, Agree, Keyed;
    var p, s' := s.pending[step.client], Step(ttl, s, step);
    var entry := MakeEntry(ttl, p.history, step.at);
    assert Prepared(s, serial, p);
    SerialAppend(ttl, s, serial, p, step.at);
    assert s'.db == s.db[p.id := entry];
    SameChange(s.db, serial, p.id, entry, s'.db, serial[p.id := entry]);
    SerialOthers(s, s', serial, serial[p.id := entry], step.client);
  }

  lemma SameChange(db: Db, serial: Db, id: Uuid, entry: StoredEntry, db': Db, serial': Db)
    requires db' == db[id := entry] && serial' == serial[id := entry]
    ensures Agree(db', serial', id)
    ensures forall other :: other != id ==> Agree(db', db, other) && Agree(serial', serial, other)
    ensures Keyed(db) && Keyed(serial) && entry.history.runId == id ==> Keyed(db') && Keyed(serial')
  {
  }

  lemma SerialAppend(ttl: Ttl, s: Shared, serial: Db, p: Pending, at: U64)
    requires p.Appender? && Prepared(s, serial, p) && Keyed(serial)
    ensures TtlRuns.Step(ttl, serial, AppendOf(p, at)) == serial[p.id := MakeEntry(ttl, p.history, at)]
    ensures p.history.runId == p.id == MakeEntry(ttl, p.history, at).history.runId
  {
  }

  /** The log and the replies are those of a serial run. */
  predicate Replays(ttl: Ttl, db: Db, s: Shared) {
    s.replies == TtlRuns.Replies(ttl, db, s.log)
  }

  lemma LogGrows(ttl: Ttl, db: Db, log: seq<TtlRuns.Op>, op: TtlRuns.Op)
    ensures TtlRuns.Run(ttl, db, log + [op]) == TtlRuns.Step(ttl, TtlRuns.Run(ttl, db, log), op)
    ensures TtlRuns.Replies(ttl, db, log + [op]) == TtlRuns.Replies(ttl, db, log) +
            [if op.Load? then LoadReply(TtlRuns.Run(ttl, db, log), op.id, op.at) else Ok(None)]
    ensures forall id :: TtlRuns.AppendsTo(id, log + [op]) ==
              TtlRuns.AppendsTo(id, log) + if op.Append? && op.id == id then [op] else []
  {
    assert (log + [op])[..|log|] == log;
  }

  lemma {:induction false} ExecSerial(ttl: Ttl, db: Db, schedule: seq<MicroStep>)
    requires Keyed(db) && NonOverlapping(ttl, db, schedule)
    ensures var s := Exec(ttl, db, schedule);
            Serial(s, TtlRuns.Run(ttl, db, s.log)) && Replays(ttl, db, s)
  {
    hide Serial, Overlaps, TtlRuns.Run, TtlRuns.Replies;
    if schedule == [] {
      NothingLogged(ttl, db);
    } else {
      var init, step := schedule[..|schedule| - 1], schedule[|schedule| - 1];
      ExecSerial(ttl, db, init);
      SerialStep(ttl, db, Exec(ttl, db, init), step);
    }
  }

  lemma NothingLogged(ttl: Ttl, db: Db)
    requires Keyed(db)
    ensures Serial(Shared(db, map[], [], []), TtlRuns.Run(ttl, db, [])) && TtlRuns.Replies(ttl, db, []) == []
  {
  }

  lemma SerialStep(ttl: Ttl, db: Db, s: Shared, step: MicroStep)
    requires Serial(s, TtlRuns.Run(ttl, db, s.log)) && Replays(ttl, db, s) && !Overlaps(s, step)
    ensures var s' := Step(ttl, s, step); Serial(s', TtlRuns.Run(ttl, db, s'.log)) && Replays(ttl, db, s')
  {
    hide Serial, Overlaps, TtlRuns.Run, TtlRuns.Replies;
    if Enabled(s, step) {
      var serial := TtlRuns.Run(ttl, db, s.log);
      match step {
        case GetStep(_, id, _, at) =>
          SerialGet(ttl, s, serial, step);
          LogGrows(ttl, db, s.log, TtlRuns.Load(id, at));
        case EvictStep(client) =>
          var p := s.pending[client];
          SerialEvict(ttl, s, serial, step);
          LogGrows(ttl, db, s.log, TtlRuns.Load(p.id, p.readAt));
        case StoreStep(client, at) =>
          SerialStore(ttl, s, serial, step);
          LogGrows(ttl, db, s.log, AppendOf(s.pending[client], at));
      }
    }
  }

  /** Serialisability: when no client reads an id that another one is working on,
      every interleaving of loads and appends, under any time-to-live and any
      clock readings, ends in the same database, and gives the same replies, as
      the complete operations one after the other in the order of their last steps. */
  lemma NonOverlappingSerialisable(ttl: Ttl, db: Db, schedule: seq<MicroStep>)
    requires Keyed(db) && NonOverlapping(ttl, db, schedule) && Exec(ttl, db, schedule).pending == map[]
    ensures var s := Exec(ttl, db, schedule);
            s.db == TtlRuns.Run(ttl, db, s.log) && s.replies == TtlRuns.Replies(ttl, db, s.log)
  {
    ExecSerial(ttl, db, schedule);
    hide Exec, TtlRuns.Run, TtlRuns.Replies;
    var s := Exec(ttl, db, schedule);
    var serial := TtlRuns.Run(ttl, db, s.log);
    forall id
      ensures id in s.db <==> id in serial
      ensures id in serial ==> s.db[id] == serial[id]
    {
      assert Idle(s, id) && Agree(s.db, serial, id);
    }
    assert s.db.Keys == serial.Keys;
  }

  /** How many loads and appends a schedule starts. */
  function Started(ttl: Ttl, db: Db, schedule: seq<MicroStep>): nat {
    if schedule == [] then 0
    else
      var init, step := schedule[..|schedule| - 1], schedule[|schedule| - 1];
      Started(ttl, db, init) + if step.GetStep? && Enabled(Exec(ttl, db, init), step) then 1 else 0
  }

  /** Every operation that is started is under way or in the log with its reply. */
  lemma {:induction false} NoneForgotten(ttl: Ttl, db: Db, schedule: seq<MicroStep>)
    ensures var s := Exec(ttl, db, schedule);
            |s.log| + |s.pending| == Started(ttl, db, schedule) && |s.replies| == |s.log|
  {
    if schedule != [] {
      hide Step;
      NoneForgotten(ttl, db, schedule[..|schedule| - 1]);
      StepForgetsNone(ttl, Exec(ttl, db, schedule[..|schedule| - 1]), schedule[|schedule| - 1]);
    }
  }

  lemma StepForgetsNone(ttl: Ttl, s: Shared, step: MicroStep)
    ensures var s' := Step(ttl, s, step);
            |s'.log| + |s'.pending| == |s.log| + |s.pending| + (if step.GetStep? && Enabled(s, step) then 1 else 0) &&
            |s'.replies| - |s'.log| == |s.replies| - |s.log|
  {
    if !step.GetStep? && Enabled(s, step) {
      assert |s.pending - {step.client}| == |s.pending| - 1 by {
        assert s.pending == (s.pending - {step.client})[step.client := s.pending[step.client]];
      }
    }
  }

  // ── Without a time-to-live: exactly when messages are lost ───────────────

  /** A client removes or stores `id` although an append was committed to it since the client read it. */
  predicate Stale(s: Shared, step: MicroStep, id: Uuid) {
    !step.GetStep? && Enabled(s, step) && s.pending[step.client].id == id &&
    s.pending[step.client].seen < |Commits(s, id)|
  }

  predicate Interfered(ttl: Ttl, db: Db, schedule: seq<MicroStep>, id: Uuid) {
    schedule != [] &&
      var init := schedule[..|schedule| - 1];
      Interfered(ttl, db, init, id) || Stale(Exec(ttl, db, init), schedule[|schedule| - 1], id)
  }

  function MessagesOf(db: Db, id: Uuid): seq<Message> {
    if id in db then db[id].history.messages else []
  }

  /** The messages that were committed to an id, in commit order. */
  function Committed(id: Uuid, log: seq<TtlRuns.Op>): seq<Message> {
    TtlRuns.Messages(TtlRuns.AppendsTo(id, log))
  }

  predicate NoDeadlines(db: Db) {
    Keyed(db) && forall id :: id in db ==> db[id].expiresAt == None
  }

  /** What a client at work on `id` knows, against what is stored now; nobody has anything to remove. */
  predicate PendingSound(s: Shared, id: Uuid, start: nat, p: Pending) {
    !MustEvict(p) && p.history.runId == p.id &&
    (p.id == id ==>
      var commits := |Committed(id, s.log)|;
      p.seen <= commits && |p.history.messages| <= start + p.seen + 1 &&
      (p.seen == commits ==> p.history.messages == MessagesOf(s.db, id) + [p.message]))
  }

  predicate Accounted(s: Shared, id: Uuid, first: seq<Message>, interfered: bool) {
    var committed := Committed(id, s.log);
    NoDeadlines(s.db) &&
    (forall c :: c in s.pending ==> PendingSound(s, id, |first|, s.pending[c])) &&
    (if interfered then |MessagesOf(s.db, id)| < |first| + |committed|
     else MessagesOf(s.db, id) == first + committed)
  }

  lemma CommittedGrows(id: Uuid, log: seq<TtlRuns.Op>, op: TtlRuns.Op)
    ensures Committed(id, log + [op]) == Committed(id, log) + if op.Append? && op.id == id then [op.message] else []
  {
    assert (log + [op])[..|log|] == log;
  }

  lemma AccountedGet(s: Shared, id: Uuid, first: seq<Message>, interfered: bool, step: MicroStep)
    requires Accounted(s, id, first, interfered) && step.GetStep? && Enabled(s, step)
    ensures Accounted(Step(None, s, step), id, first, interfered)
  {
    var s' := Step(None, s, step);
    assert s'.db == s.db;
    CommittedGrows(id, s.log, TtlRuns.Load(step.id, step.at));
    forall c | c in s'.pending
      ensures PendingSound(s', id, |first|, s'.pending[c])
    {
      assert c in s.pending ==> PendingSound(s, id, |first|, s.pending[c]);
    }
  }

  lemma AccountedStore(s: Shared, id: Uuid, first: seq<Message>, interfered: bool, step: MicroStep)
    requires Accounted(s, id, first, interfered) && step.StoreStep? && Enabled(s, step)
    ensures Accounted(Step(None, s, step), id, first, interfered || Stale(s, step, id))
  {
    var p, s' := s.pending[step.client], Step(None, s, step);
    assert PendingSound(s, id, |first|, p);
    CommittedGrows(id, s.log, s'.log[|s.log|]);
    forall c | c in s'.pending
      ensures PendingSound(s', id, |first|, s'.pending[c])
    {
      assert PendingSound(s, id, |first|, s.pending[c]);
    }
    if p.id == id {
      assert MessagesOf(s'.db, id) == p.history.messages;
      if p.seen == |Committed(id, s.log)| && !interfered {
        assert first + Committed(id, s.log) + [p.message] == first + (Committed(id, s.log) + [p.message]);
      }
    } else {
      assert MessagesOf(s'.db, id) == MessagesOf(s.db, id);
    }
  }

  lemma {:induction false} ExecAccounted(db: Db, schedule: seq<MicroStep>, id: Uuid)
    requires NoDeadlines(db)
    ensures Accounted(Exec(None, db, schedule), id, MessagesOf(db, id), Interfered(None, db, schedule, id))
  {
    if schedule == [] {
      assert MessagesOf(db, id) + Committed(id, []) == MessagesOf(db, id);
    } else {
      hide Stale;
      var init, step := schedule[..|schedule| - 1], schedule[|schedule| - 1];
      ExecAccounted(db, init, id);
      AccountedStep(Exec(None, db, init), id, MessagesOf(db, id), Interfered(None, db, init, id), step);
    }
  }

  lemma AccountedStep(s: Shared, id: Uuid, first: seq<Message>, interfered: bool, step: MicroStep)
    requires Accounted(s, id, first, interfered)
    ensures Accounted(Step(None, s, step), id, first, interfered || Stale(s, step, id))
  {
    if Enabled(s, step) {
      if step.GetStep? {
        AccountedGet(s, id, first, interfered, step);
      } else {
        assert PendingSound(s, id, |first|, s.pending[step.client]);
        AccountedStore(s, id, first, interfered, step);
      }
    }
  }

  /** Lost updates, exactly: without a time-to-live, an id ends up with its
      first messages followed by every committed message in commit order if and
      only if no client's window between reading and storing contains another
      commit to that id; otherwise at least one message is missing. */
  lemma LostUpdatesExactly(db: Db, schedule: seq<MicroStep>, id: Uuid)
    requires NoDeadlines(db)
    ensures var s := Exec(None, db, schedule);
            var all := MessagesOf(db, id) + Committed(id, s.log);
            (MessagesOf(s.db, id) == all <==> !Interfered(None, db, schedule, id)) &&
            (Interfered(None, db, schedule, id) ==> |MessagesOf(s.db, id)| < |all|)
  {
    ExecAccounted(db, schedule, id);
  }

  lemma ExecMore(ttl: Ttl, db: Db, schedule: seq<MicroStep>, step: MicroStep)
    ensures Exec(ttl, db, schedule + [step]) == Step(ttl, Exec(ttl, db, schedule), step)
  {
    assert (schedule + [step])[..|schedule|] == schedule;
  }

  lemma ExecFour(ttl: Ttl, db: Db, a: MicroStep, b: MicroStep, c: MicroStep, d: MicroStep)
    ensures Exec(ttl, db, [a, b, c, d]) ==
            Step(ttl, Step(ttl, Step(ttl, Step(ttl, Shared(db, map[], [], []), a), b), c), d)
  {
    hide Step;
    ExecMore(ttl, db, [], a);
    ExecMore(ttl, db, [a], b);
    ExecMore(ttl, db, [a, b], c);
    ExecMore(ttl, db, [a, b, c], d);
    assert [] + [a] == [a] && [a] + [b] == [a, b] && [a, b] + [c] == [a, b, c] && [a, b, c] + [d] == [a, b, c, d];
  }

  /** An append that has found nothing. */
  function Fresh(id: Uuid, message: Message): Pending {
    Appender(id, message, NewHistory(id).Push(message), 0, false, 0)
  }

  /** Two overlapping appends to a fresh id: both commit, one message remains. */
  lemma OverlapLosesMessage(id: Uuid, m1: Message, m2: Message)
    ensures var s := Exec(None, map[], [GetStep(1, id, Appending(m1), 0), GetStep(2, id, Appending(m2), 0),
                                        StoreStep(1, 0), StoreStep(2, 0)]);
            s.pending == map[] && Committed(id, s.log) == [m1, m2] && MessagesOf(s.db, id) == [m2]
  {
    hide Exec, Step;
    var g1, g2, s1, s2 := GetStep(1, id, Appending(m1), 0), GetStep(2, id, Appending(m2), 0), StoreStep(1, 0), StoreStep(2, 0);
    ExecFour(None, map[], g1, g2, s1, s2);
    OverlapSteps(id, m1, m2);
    CommittedGrows(id, [], TtlRuns.Append(id, m1, 0, 0));
    CommittedGrows(id, [TtlRuns.Append(id, m1, 0, 0)], TtlRuns.Append(id, m2, 0, 0));
  }

  lemma OverlapSteps(id: Uuid, m1: Message, m2: Message)
    ensures var e1 := Step(None, Shared(map[], map[], [], []), GetStep(1, id, Appending(m1), 0));
            var e2 := Step(None, e1, GetStep(2, id, Appending(m2), 0));
            var e4 := Step(None, Step(None, e2, StoreStep(1, 0)), StoreStep(2, 0));
            e4.pending == map[] && MessagesOf(e4.db, id) == [m2] &&
            e4.log == [] + [TtlRuns.Append(id, m1, 0, 0)] + [TtlRuns.Append(id, m2, 0, 0)]
  {
    var e1 := Step(None, Shared(map[], map[], [], []), GetStep(1, id, Appending(m1), 0));
    assert e1 == Shared(map[], map[1 := Fresh(id, m1)], [], []);
    var e2 := Step(None, e1, GetStep(2, id, Appending(m2), 0));
    assert e2 == Shared(map[], map[1 := Fresh(id, m1), 2 := Fresh(id, m2)], [], []);
  }

  // ── Appends under one lock ───────────────────────────────────────────────

  /** In memory every interleaving keeps every message: appends of any clients,
      in whatever order they get the lock, extend the history in that order. */
  lemma {:induction false} LockedAppendsLoseNothing(inner: Plain.Histories, appends: seq<TtlRuns.Op>, id: Uuid)
    requires TtlRuns.AllAppends(appends)
    ensures Plain.HistoryOf(TtlRuns.PlainRun(inner, appends), id).messages ==
            Plain.HistoryOf(inner, id).messages + Committed(id, appends)
  {
    if appends == [] {
      assert Plain.HistoryOf(inner, id).messages + Committed(id, []) == Plain.HistoryOf(inner, id).messages;
    } else {
      var init, op := appends[..|appends| - 1], appends[|appends| - 1];
      LockedAppendsLoseNothing(inner, init, id);
      CommittedGrows(id, init, op);
      assert init + [op] == appends;
      assert op in appends;
    }
  }
}
