/** Exactly when concurrent clients lose an appended message, under any
    time-to-live. An observer who sees only the steps, and not what is stored,
    can tell whether the store still has what the serial run of the committed
    appends would have. */
module MissingMessages {
  import opened Common
  import opened Conversation
  import opened SledMemory
  import opened AppendInterleaving
  import TtlRuns

  // ── The clock ────────────────────────────────────────────────────────────

  /** The latest reading of the clock. */
  function ClockOf(schedule: seq<MicroStep>): U64 {
    if schedule == [] then 0
    else
      var init, last := schedule[..|schedule| - 1], schedule[|schedule| - 1];
      if last.EvictStep? then ClockOf(init) else last.at
  }

  /** The clock never goes back. */
  predicate Clocked(schedule: seq<MicroStep>) {
    schedule != [] ==>
      var init, last := schedule[..|schedule| - 1], schedule[|schedule| - 1];
      Clocked(init) && (!last.EvictStep? ==> ClockOf(init) <= last.at)
  }

  // ── The observer ─────────────────────────────────────────────────────────

  /** Whether the store has lost something of the id, and which clients are about to store without it. */
  datatype Watch = Watch(broken: bool, unsound: set<Client>)

  /** The deadline of the last of these appends has passed. */
  predicate Lapsed(ttl: Ttl, commits: seq<TtlRuns.Op>, now: U64)
    requires TtlRuns.AllAppends(commits)
  {
    commits != [] &&
    var deadline := Deadline(ttl, commits[|commits| - 1].storeAt);
    deadline.Some? && deadline.value < now
  }

  /** A stale removal or store breaks the id, and so does a store by a client that
      read it broken; an append that read it whole or lapsed, and then stores, mends it. */
  function WatchStep(ttl: Ttl, s: Shared, id: Uuid, w: Watch, step: MicroStep): Watch {
    if !Enabled(s, step) then w
    else match step
      case GetStep(client, other, task, at) =>
        if other != id || task.Reading? then w
        else if w.broken && !Lapsed(ttl, Commits(s, id), at) then w.(unsound := w.unsound + {client})
        else w.(unsound := w.unsound - {client})
      case EvictStep(_) => w.(broken := w.broken || Stale(s, step, id))
      case StoreStep(client, _) =>
        if s.pending[client].id != id then w
        else w.(broken := Stale(s, step, id) || client in w.unsound)
  }

  function Watched(ttl: Ttl, db: Db, schedule: seq<MicroStep>, id: Uuid): Watch {
    if schedule == [] then Watch(false, {})
    else
      var init := schedule[..|schedule| - 1];
      WatchStep(ttl, Exec(ttl, db, init), id, Watched(ttl, db, init, id), schedule[|schedule| - 1])
  }

  /** The committed appends to the id, one after the other in the order of their commits. */
  function SerialOf(ttl: Ttl, db: Db, s: Shared, id: Uuid): Db {
    TtlRuns.Run(ttl, db, Commits(s, id))
  }

  // ── While nothing is broken the store agrees with the serial run ─────────

  /** Whatever is stored has the deadline that it has in the serial run: that of the last commit. */
  predicate SameDeadlines(ttl: Ttl, db: Db, serial: Db, commits: seq<TtlRuns.Op>, id: Uuid)
    requires TtlRuns.AllAppends(commits)
  {
    Keyed(db) && Keyed(serial) &&
    (id in db ==> id in serial && db[id].expiresAt == serial[id].expiresAt) &&
    (commits != [] ==>
      id in serial &&
      serial[id].expiresAt == Deadline(ttl, commits[|commits| - 1].storeAt))
  }

  predicate PendingTracks(serial: Db, commits: seq<TtlRuns.Op>, id: Uuid, clock: U64, sound: bool, p: Pending)
    requires TtlRuns.AllAppends(commits)
  {
    (p.Appender? ==> p.history.runId == p.id) &&
    (p.id == id ==>
      p.readAt <= clock && p.seen <= |commits| &&
      (p.seen < |commits| ==> p.readAt <= commits[|commits| - 1].storeAt) &&
      (p.seen == |commits| ==>
        (MustEvict(p) ==> TtlRuns.LiveEntry(serial, id, p.readAt) == None) &&
        (p.Appender? && sound ==> p.history == Extended(serial, id, p.message, p.readAt))))
  }

  ghost predicate Tracks(ttl: Ttl, s: Shared, serial: Db, id: Uuid, clock: U64, w: Watch) {
    var commits := Commits(s, id);
    SameDeadlines(ttl, s.db, serial, commits, id) &&
    (commits != [] ==> commits[|commits| - 1].storeAt <= clock) &&
    (if w.broken then commits != [] else TtlRuns.LiveEntry(s.db, id, clock) == TtlRuns.LiveEntry(serial, id, clock)) &&
    forall c :: c in s.pending ==> PendingTracks(serial, commits, id, clock, c !in w.unsound, s.pending[c])
  }

  lemma AgreeLater(db1: Db, db2: Db, id: Uuid, now: U64, later: U64)
    requires TtlRuns.LiveEntry(db1, id, now) == TtlRuns.LiveEntry(db2, id, now) && now <= later
    ensures TtlRuns.LiveEntry(db1, id, later) == TtlRuns.LiveEntry(db2, id, later)
  {
  }

  lemma ExtendedFromView(db1: Db, db2: Db, id: Uuid, message: Message, now: U64)
    requires TtlRuns.LiveEntry(db1, id, now) == TtlRuns.LiveEntry(db2, id, now)
    ensures Extended(db1, id, message, now) == Extended(db2, id, message, now)
  {
  }

  lemma ExtendedRunId(db: Db, id: Uuid, message: Message, now: U64)
    requires Keyed(db)
    ensures Extended(db, id, message, now).runId == id
  {
  }

  lemma CommitsGrow(s: Shared, s': Shared, id: Uuid, op: TtlRuns.Op)
    requires s'.log == s.log || s'.log == s.log + [op]
    ensures Commits(s', id) == Commits(s, id) + if s'.log != s.log && op.Append? && op.id == id then [op] else []
  {
    assert (s.log + [op])[..|s.log|] == s.log;
  }

  /** What a client that reads the id now is told. */
  lemma ReadingTracks(ttl: Ttl, s: Shared, serial: Db, id: Uuid, clock: U64, w: Watch, message: Message, at: U64)
    requires Tracks(ttl, s, serial, id, clock, w) && clock <= at
    ensures Expires(s.db, id, at) ==> TtlRuns.LiveEntry(serial, id, at) == None
    ensures !w.broken || Lapsed(ttl, Commits(s, id), at) ==>
              Extended(s.db, id, message, at) == Extended(serial, id, message, at)
    ensures w.broken && !Lapsed(ttl, Commits(s, id), at) ==> TtlRuns.LiveEntry(serial, id, at).Some?
  {
    if !w.broken {
      AgreeLater(s.db, serial, id, clock, at);
      ExtendedFromView(s.db, serial, id, message, at);
    }
  }

  lemma TrackGet(ttl: Ttl, s: Shared, serial: Db, id: Uuid, clock: U64, w: Watch, step: MicroStep)
    requires Tracks(ttl, s, serial, id, clock, w) && step.GetStep? && Enabled(s, step) && clock <= step.at
    ensures Tracks(ttl, Step(ttl, s, step), serial, id, step.at, WatchStep(ttl, s, id, w, step))
    ensures Commits(Step(ttl, s, step), id) == Commits(s, id)
  {
    hide Commits, Extended, Deadline, LoadReply, Lapsed;
    var s', w' := Step(ttl, s, step), WatchStep(ttl, s, id, w, step);
    CommitsGrow(s, s', id, TtlRuns.Load(step.id, step.at));
    ReadingTracks(ttl, s, serial, id, clock, w, if step.task.Appending? then step.task.message else User(""), step.at);
    if !w.broken {
      AgreeLater(s.db, serial, id, clock, step.at);
    }
    if step.task.Appending? {
      ExtendedRunId(s.db, step.id, step.task.message, step.at);
    }
    forall c | c in s'.pending
      ensures PendingTracks(serial, Commits(s, id), id, step.at, c !in w'.unsound, s'.pending[c])
    {
      if c in s.pending {
        assert PendingTracks(serial, Commits(s, id), id, clock, c !in w.unsound, s.pending[c]);
      }
    }
  }

  /** A removal keeps the deadlines, and the view unless the entry is live in the serial run. */
  lemma Swept(ttl: Ttl, db: Db, serial: Db, commits: seq<TtlRuns.Op>, id: Uuid, swept: Uuid, readAt: U64, now: U64)
    requires TtlRuns.AllAppends(commits) && SameDeadlines(ttl, db, serial, commits, id)
    ensures SameDeadlines(ttl, db - {swept}, serial, commits, id)
    ensures swept != id ==> TtlRuns.LiveEntry(db - {swept}, id, now) == TtlRuns.LiveEntry(db, id, now)
    ensures swept == id && readAt <= now && TtlRuns.LiveEntry(serial, id, readAt) == None ==>
              TtlRuns.LiveEntry(db - {swept}, id, now) == TtlRuns.LiveEntry(serial, id, now)
  {
  }

  lemma TrackEvict(ttl: Ttl, s: Shared, serial: Db, id: Uuid, clock: U64, w: Watch, step: MicroStep)
    requires Tracks(ttl, s, serial, id, clock, w) && step.EvictStep? && Enabled(s, step)
    ensures Tracks(ttl, Step(ttl, s, step), serial, id, clock, WatchStep(ttl, s, id, w, step))
    ensures Commits(Step(ttl, s, step), id) == Commits(s, id)
  {
    hide Commits, Extended, SameDeadlines, TtlRuns.LiveEntry;
    var p, s' := s.pending[step.client], Step(ttl, s, step);
    assert PendingTracks(serial, Commits(s, id), id, clock, step.client !in w.unsound, p);
    Swept(ttl, s.db, serial, Commits(s, id), id, p.id, p.readAt, clock);
    CommitsGrow(s, s', id, TtlRuns.Load(p.id, p.readAt));
    assert Commits(s', id) == Commits(s, id);
    forall c | c in s'.pending
      ensures PendingTracks(serial, Commits(s, id), id, clock, c !in w.unsound, s'.pending[c])
    {
      assert PendingTracks(serial, Commits(s, id), id, clock, c !in w.unsound, s.pending[c]);
    }
  }

  /** After a further commit a client at work on the id is behind. */
  lemma PendingFallsBehind(serial: Db, serial': Db, commits: seq<TtlRuns.Op>, a: TtlRuns.Op, id: Uuid,
                           clock: U64, sound: bool, p: Pending)
    requires TtlRuns.AllAppends(commits) && a.Append? && clock <= a.storeAt
    requires PendingTracks(serial, commits, id, clock, sound, p)
    ensures PendingTracks(serial', commits + [a], id, a.storeAt, sound, p)
  {
  }

  lemma TrackStore(ttl: Ttl, s: Shared, serial: Db, id: Uuid, clock: U64, w: Watch, step: MicroStep)
    requires Tracks(ttl, s, serial, id, clock, w) && step.StoreStep? && Enabled(s, step) && clock <= step.at
    requires s.pending[step.client].id == id
    ensures var a := AppendOf(s.pending[step.client], step.at);
            Tracks(ttl, Step(ttl, s, step), TtlRuns.Step(ttl, serial, a), id, step.at, WatchStep(ttl, s, id, w, step)) &&
            Commits(Step(ttl, s, step), id) == Commits(s, id) + [a]
  {
    hide Commits, Extended, Deadline, AfterStore, TtlRuns.Step;
    var p, s', w' := s.pending[step.client], Step(ttl, s, step), WatchStep(ttl, s, id, w, step);
    var a, commits := AppendOf(p, step.at), Commits(s, id);
    var serial' := TtlRuns.Step(ttl, serial, a);
    assert PendingTracks(serial, commits, id, clock, step.client !in w.unsound, p);
    CommitsGrow(s, s', id, a);
    StoredAlike(ttl, s.db, serial, p, step.at);
    forall c | c in s'.pending
      ensures PendingTracks(serial', commits + [a], id, step.at, c !in w'.unsound, s'.pending[c])
    {
      PendingFallsBehind(serial, serial', commits, a, id, clock, c !in w.unsound, s.pending[c]);
    }
  }

  lemma StoredAlike(ttl: Ttl, db: Db, serial: Db, p: Pending, at: U64)
    requires Keyed(db) && Keyed(serial) && p.Appender? && p.history.runId == p.id
    ensures var stored, serial' := AfterStore(ttl, db, p.history, at), TtlRuns.Step(ttl, serial, AppendOf(p, at));
            Keyed(stored) && Keyed(serial') && p.id in stored && p.id in serial' &&
            stored == db[p.id := StoredEntry(p.history, Deadline(ttl, at))] &&
            serial'[p.id].history == Extended(serial, p.id, p.message, p.readAt) &&
            stored[p.id].expiresAt == serial'[p.id].expiresAt == Deadline(ttl, at)
  {
  }

  lemma TrackOtherStore(ttl: Ttl, s: Shared, serial: Db, id: Uuid, clock: U64, w: Watch, step: MicroStep)
    requires Tracks(ttl, s, serial, id, clock, w) && step.StoreStep? && Enabled(s, step) && clock <= step.at
    requires s.pending[step.client].id != id
    ensures Tracks(ttl, Step(ttl, s, step), serial, id, step.at, WatchStep(ttl, s, id, w, step))
    ensures Commits(Step(ttl, s, step), id) == Commits(s, id)
  {
    hide Commits, Extended, Deadline;
    var p, s' := s.pending[step.client], Step(ttl, s, step);
    assert PendingTracks(serial, Commits(s, id), id, clock, step.client !in w.unsound, p);
    CommitsGrow(s, s', id, AppendOf(p, step.at));
    StoredAlike(ttl, s.db, serial, p, step.at);
    if !w.broken {
      AgreeLater(s.db, serial, id, clock, step.at);
    }
    forall c | c in s'.pending
      ensures PendingTracks(serial, Commits(s, id), id, step.at, c !in w.unsound, s'.pending[c])
    {
      assert PendingTracks(serial, Commits(s, id), id, clock, c !in w.unsound, s.pending[c]);
    }
  }

  lemma TrackStep(ttl: Ttl, db: Db, s: Shared, id: Uuid, clock: U64, w: Watch, step: MicroStep)
    requires Tracks(ttl, s, SerialOf(ttl, db, s, id), id, clock, w) && (!step.EvictStep? ==> clock <= step.at)
    ensures var s' := Step(ttl, s, step);
            Tracks(ttl, s', SerialOf(ttl, db, s', id), id, if step.EvictStep? then clock else step.at, WatchStep(ttl, s, id, w, step))
  {
    hide Tracks;
    var serial, s' := SerialOf(ttl, db, s, id), Step(ttl, s, step);
    if !Enabled(s, step) {
      TracksLater(ttl, s, serial, id, clock, if step.EvictStep? then clock else step.at, w);
    } else if step.GetStep? {
      TrackGet(ttl, s, serial, id, clock, w, step);
    } else if step.EvictStep? {
      TrackEvict(ttl, s, serial, id, clock, w, step);
    } else if s.pending[step.client].id == id {
      TrackStore(ttl, s, serial, id, clock, w, step);
      SerialGrows(ttl, db, s, s', id, AppendOf(s.pending[step.client], step.at));
    } else {
      TrackOtherStore(ttl, s, serial, id, clock, w, step);
    }
  }

  lemma SerialGrows(ttl: Ttl, db: Db, s: Shared, s': Shared, id: Uuid, a: TtlRuns.Op)
    requires Commits(s', id) == Commits(s, id) + [a]
    ensures SerialOf(ttl, db, s', id) == TtlRuns.Step(ttl, SerialOf(ttl, db, s, id), a)
  {
    hide Commits, TtlRuns.Step;
    assert Commits(s', id)[..|Commits(s, id)|] == Commits(s, id);
  }

  lemma TracksLater(ttl: Ttl, s: Shared, serial: Db, id: Uuid, clock: U64, later: U64, w: Watch)
    requires Tracks(ttl, s, serial, id, clock, w) && clock <= later
    ensures Tracks(ttl, s, serial, id, later, w)
  {
    hide Commits, Extended, Deadline;
    if !w.broken {
      AgreeLater(s.db, serial, id, clock, later);
    }
    forall c | c in s.pending
      ensures PendingTracks(serial, Commits(s, id), id, later, c !in w.unsound, s.pending[c])
    {
      assert PendingTracks(serial, Commits(s, id), id, clock, c !in w.unsound, s.pending[c]);
    }
  }

  lemma {:induction false} ExecTracks(ttl: Ttl, db: Db, schedule: seq<MicroStep>, id: Uuid)
    requires Keyed(db) && Clocked(schedule)
    ensures var s := Exec(ttl, db, schedule);
            Tracks(ttl, s, SerialOf(ttl, db, s, id), id, ClockOf(schedule), Watched(ttl, db, schedule, id))
  {
    hide Tracks, Step, WatchStep, SerialOf;
    if schedule == [] {
      TracksNothing(ttl, db, id);
    } else {
      var init, step := schedule[..|schedule| - 1], schedule[|schedule| - 1];
      ExecTracks(ttl, db, init, id);
      TrackStep(ttl, db, Exec(ttl, db, init), id, ClockOf(init), Watched(ttl, db, init, id), step);
    }
  }

  lemma TracksNothing(ttl: Ttl, db: Db, id: Uuid)
    requires Keyed(db)
    ensures var s := Shared(db, map[], [], []); Tracks(ttl, s, SerialOf(ttl, db, s, id), id, 0, Watch(false, {}))
  {
  }

  /** While the observer has seen nothing break, whatever a load would return is
      what it would return after the serial run of the committed appends. */
  lemma UnbrokenAgrees(ttl: Ttl, db: Db, schedule: seq<MicroStep>, id: Uuid, now: U64)
    requires Keyed(db) && Clocked(schedule) && ClockOf(schedule) <= now
    requires !Watched(ttl, db, schedule, id).broken
    ensures var s := Exec(ttl, db, schedule);
            TtlRuns.LiveEntry(s.db, id, now) == TtlRuns.LiveEntry(SerialOf(ttl, db, s, id), id, now)
  {
    ExecTracks(ttl, db, schedule, id);
    hide Exec, Watched, SerialOf;
    AgreeLater(Exec(ttl, db, schedule).db, SerialOf(ttl, db, Exec(ttl, db, schedule), id), id, ClockOf(schedule), now);
  }

  lemma {:induction false} CalmIsUnbroken(ttl: Ttl, db: Db, schedule: seq<MicroStep>, id: Uuid)
    requires !Interfered(ttl, db, schedule, id)
    ensures Watched(ttl, db, schedule, id) == Watch(false, {})
  {
    if schedule != [] {
      CalmIsUnbroken(ttl, db, schedule[..|schedule| - 1], id);
    }
  }

  /** Under any time-to-live: when no client removes or stores an id on a stale
      reading, loads see what they would see after the serial run. */
  lemma UndisturbedAgrees(ttl: Ttl, db: Db, schedule: seq<MicroStep>, id: Uuid, now: U64)
    requires Keyed(db) && Clocked(schedule) && ClockOf(schedule) <= now && !Interfered(ttl, db, schedule, id)
    ensures var s := Exec(ttl, db, schedule);
            TtlRuns.LiveEntry(s.db, id, now) == TtlRuns.LiveEntry(SerialOf(ttl, db, s, id), id, now)
  {
    CalmIsUnbroken(ttl, db, schedule, id);
    UnbrokenAgrees(ttl, db, schedule, id, now);
  }

  // ── Where messages come from ─────────────────────────────────────────────

  /** A client sets out to append to the id. */
  predicate Appends(step: MicroStep, id: Uuid) {
    step.GetStep? && step.id == id && step.task.Appending?
  }

  /** The messages that clients set out to append to the id, in order. */
  function Sent(schedule: seq<MicroStep>, id: Uuid): seq<Message> {
    if schedule == [] then []
    else
      var init, last := Sent(schedule[..|schedule| - 1], id), schedule[|schedule| - 1];
      if Appends(last, id) then init + [last.task.message] else init
  }

  /** No message occurs twice, or among the first ones. */
  predicate Unrepeated(first: seq<Message>, messages: seq<Message>) {
    (forall i :: 0 <= i < |messages| ==> messages[i] !in first) &&
    (forall i, j :: 0 <= i < j < |messages| ==> messages[i] != messages[j])
  }

  /** A history on the way to the store holds only what was there when it was read, and its own message. */
  predicate PendingKnown(id: Uuid, first: seq<Message>, told: seq<Message>, sent: seq<Message>, p: Pending) {
    p.id == id && p.Appender? ==>
      p.message in sent && p.message !in first && p.message !in told && p.seen <= |told| &&
      forall m :: m in p.history.messages ==> m == p.message || m in first || m in told[..p.seen]
  }

  predicate Known(s: Shared, id: Uuid, first: seq<Message>, sent: seq<Message>) {
    var told := Committed(id, s.log);
    Unrepeated(first, told) && (forall m :: m in told ==> m in sent) &&
    (forall m :: m in MessagesOf(s.db, id) ==> m in first || m in told) &&
    (forall c :: c in s.pending ==> PendingKnown(id, first, told, sent, s.pending[c])) &&
    (forall c, c' :: c in s.pending && c' in s.pending && c != c' ==> Distinct(s.pending[c], s.pending[c'], id))
  }

  predicate Distinct(p: Pending, q: Pending, id: Uuid) {
    p.id == id && q.id == id && p.Appender? && q.Appender? ==> p.message != q.message
  }

  lemma KnownGet(ttl: Ttl, s: Shared, id: Uuid, first: seq<Message>, sent: seq<Message>, step: MicroStep)
    requires Known(s, id, first, sent) && step.GetStep? && Enabled(s, step)
    requires Appends(step, id) ==> step.task.message !in first && step.task.message !in sent
    ensures Known(Step(ttl, s, step), id, first,
                  sent + if Appends(step, id) then [step.task.message] else [])
  {
    hide Unrepeated, Committed, Commits, Extended;
    var s', told := Step(ttl, s, step), Committed(id, s.log);
    var sent' := sent + if Appends(step, id) then [step.task.message] else [];
    CommittedGrows(id, s.log, TtlRuns.Load(step.id, step.at));
    assert told + [] == told;
    forall c | c in s'.pending
      ensures PendingKnown(id, first, told, sent', s'.pending[c])
    {
      if c in s.pending {
        assert PendingKnown(id, first, told, sent, s.pending[c]);
      } else if step.task.Appending? {
        NewlyKnown(s, id, first, sent, sent', s'.pending[c], step.at);
      }
    }
    forall c, c' | c in s'.pending && c' in s'.pending && c != c'
      ensures Distinct(s'.pending[c], s'.pending[c'], id)
    {
      assert c in s.pending ==> PendingKnown(id, first, told, sent, s.pending[c]);
      assert c' in s.pending ==> PendingKnown(id, first, told, sent, s.pending[c']);
      assert c in s.pending && c' in s.pending ==> Distinct(s.pending[c], s.pending[c'], id);
    }
  }

  lemma NewlyKnown(s: Shared, id: Uuid, first: seq<Message>, sent: seq<Message>, sent': seq<Message>, p: Pending,
                   at: U64)
    requires Known(s, id, first, sent) && p.Appender?
    requires p.history == Extended(s.db, p.id, p.message, at) && p.seen == |Commits(s, p.id)|
    requires p.id == id ==> p.message !in first && p.message !in sent && p.message in sent'
    ensures PendingKnown(id, first, Committed(id, s.log), sent', p)
  {
    var told := Committed(id, s.log);
    CountsCommits(s, id);
    hide Committed, Commits, Unrepeated;
    assert told[..|told|] == told;
  }

  lemma CountsCommits(s: Shared, id: Uuid)
    ensures |Commits(s, id)| == |Committed(id, s.log)|
    ensures forall i :: 0 <= i < |Commits(s, id)| ==> Commits(s, id)[i].message == Committed(id, s.log)[i]
  {
  }

  lemma KnownEvict(ttl: Ttl, s: Shared, id: Uuid, first: seq<Message>, sent: seq<Message>, step: MicroStep)
    requires Known(s, id, first, sent) && step.EvictStep? && Enabled(s, step)
    ensures Known(Step(ttl, s, step), id, first, sent)
  {
    hide Unrepeated, Committed;
    var p, s', told := s.pending[step.client], Step(ttl, s, step), Committed(id, s.log);
    CommittedGrows(id, s.log, TtlRuns.Load(p.id, p.readAt));
    assert told + [] == told;
    forall c | c in s'.pending
      ensures PendingKnown(id, first, told, sent, s'.pending[c])
    {
      assert PendingKnown(id, first, told, sent, s.pending[c]);
    }
    forall c, c' | c in s'.pending && c' in s'.pending && c != c'
      ensures Distinct(s'.pending[c], s'.pending[c'], id)
    {
      assert Distinct(s.pending[c], s.pending[c'], id);
    }
  }

  lemma KnownCommit(id: Uuid, first: seq<Message>, told: seq<Message>, sent: seq<Message>, p: Pending, q: Pending)
    requires PendingKnown(id, first, told, sent, q) && Distinct(p, q, id) && p.id == id && p.Appender?
    ensures PendingKnown(id, first, told + [p.message], sent, q)
  {
    if q.id == id && q.Appender? {
      assert (told + [p.message])[..q.seen] == told[..q.seen];
    }
  }

  lemma ToldGrows(id: Uuid, first: seq<Message>, told: seq<Message>, sent: seq<Message>, p: Pending)
    requires PendingKnown(id, first, told, sent, p) && p.id == id && p.Appender? && Unrepeated(first, told)
    ensures Unrepeated(first, told + [p.message])
    ensures forall m :: m in p.history.messages ==> m in first || m in told + [p.message]
  {
  }

  lemma KnownStore(ttl: Ttl, s: Shared, id: Uuid, first: seq<Message>, sent: seq<Message>, step: MicroStep)
    requires Known(s, id, first, sent) && step.StoreStep? && Enabled(s, step)
    requires s.pending[step.client].history.runId == s.pending[step.client].id
    ensures Known(Step(ttl, s, step), id, first, sent)
  {
    hide Unrepeated, Committed, PendingKnown, Distinct, Deadline, Commits;
    var p, s', told := s.pending[step.client], Step(ttl, s, step), Committed(id, s.log);
    CommittedGrows(id, s.log, AppendOf(p, step.at));
    OthersDistinct(s, s', id);
    if p.id == id {
      assert PendingKnown(id, first, told, sent, p);
      ToldGrows(id, first, told, sent, p);
      MessageIsSent(id, first, told, sent, p);
      forall c | c in s'.pending
        ensures PendingKnown(id, first, told + [p.message], sent, s'.pending[c])
      {
        assert Distinct(p, s.pending[c], id) && PendingKnown(id, first, told, sent, s.pending[c]);
        KnownCommit(id, first, told, sent, p, s.pending[c]);
      }
    } else {
      assert told + [] == told && MessagesOf(s'.db, id) == MessagesOf(s.db, id);
      forall c | c in s'.pending
        ensures PendingKnown(id, first, told, sent, s'.pending[c])
      {
        assert PendingKnown(id, first, told, sent, s.pending[c]);
      }
    }
  }

  lemma OthersDistinct(s: Shared, s': Shared, id: Uuid)
    requires forall c, c' :: c in s.pending && c' in s.pending && c != c' ==> Distinct(s.pending[c], s.pending[c'], id)
    requires forall c :: c in s'.pending ==> c in s.pending && s'.pending[c] == s.pending[c]
    ensures forall c, c' :: c in s'.pending && c' in s'.pending && c != c' ==> Distinct(s'.pending[c], s'.pending[c'], id)
  {
    hide Distinct;
  }

  lemma MessageIsSent(id: Uuid, first: seq<Message>, told: seq<Message>, sent: seq<Message>, p: Pending)
    requires PendingKnown(id, first, told, sent, p) && p.id == id && p.Appender?
    ensures p.message in sent
  {
  }

  // ── A broken store lacks a message ───────────────────────────────────────

  predicate Lacks(kept: seq<Message>, all: seq<Message>) {
    exists m :: m in all && m !in kept
  }

  predicate PendingLacks(serial: Db, id: Uuid, commits: nat, unsound: bool, p: Pending) {
    p.id == id && p.Appender? && p.seen == commits && unsound ==>
      Lacks(p.history.messages, Extended(serial, id, p.message, p.readAt).messages)
  }

  predicate Witnessed(s: Shared, serial: Db, id: Uuid, first: seq<Message>, w: Watch) {
    var told := Committed(id, s.log);
    (told != [] ==> told[|told| - 1] in MessagesOf(serial, id)) &&
    (forall m :: m in MessagesOf(serial, id) ==> m in first || m in told) &&
    (w.broken ==> Lacks(MessagesOf(s.db, id), MessagesOf(serial, id))) &&
    (forall c :: c in s.pending ==> PendingLacks(serial, id, |told|, c in w.unsound, s.pending[c]))
  }

  lemma ReadBroken(db: Db, serial: Db, id: Uuid, message: Message, at: U64)
    requires Lacks(MessagesOf(db, id), MessagesOf(serial, id)) && TtlRuns.LiveEntry(serial, id, at).Some?
    requires message !in MessagesOf(serial, id)
    ensures Lacks(Extended(db, id, message, at).messages, Extended(serial, id, message, at).messages)
  {
    var m :| m in MessagesOf(serial, id) && m !in MessagesOf(db, id);
    assert m in Extended(serial, id, message, at).messages;
  }

  /** What a stale client stores lacks the last commit, which is still live when the client read. */
  lemma StaleStoreLacks(serial: Db, id: Uuid, first: seq<Message>, told: seq<Message>, sent: seq<Message>, p: Pending)
    requires p.id == id && p.Appender? && PendingKnown(id, first, told, sent, p) && Unrepeated(first, told)
    requires p.seen < |told| && told[|told| - 1] in MessagesOf(serial, id) && TtlRuns.LiveEntry(serial, id, p.readAt).Some?
    ensures Lacks(p.history.messages, Extended(serial, id, p.message, p.readAt).messages)
  {
    var last := told[|told| - 1];
    assert last in Extended(serial, id, p.message, p.readAt).messages;
    assert last !in told[..p.seen];
  }

  lemma StaleIsLive(ttl: Ttl, s: Shared, serial: Db, id: Uuid, clock: U64, w: Watch, c: Client)
    requires Tracks(ttl, s, serial, id, clock, w) && c in s.pending && s.pending[c].id == id
    requires s.pending[c].seen < |Commits(s, id)| && TtlRuns.DeadlinesFit(Commits(s, id), ttl)
    ensures TtlRuns.LiveEntry(serial, id, s.pending[c].readAt).Some?
  {
    hide Extended;
    var commits := Commits(s, id);
    assert PendingTracks(serial, commits, id, clock, c !in w.unsound, s.pending[c]);
    assert commits[|commits| - 1] in commits;
  }

  lemma WitnessGet(ttl: Ttl, s: Shared, serial: Db, id: Uuid, first: seq<Message>, clock: U64, w: Watch,
                   step: MicroStep)
    requires Tracks(ttl, s, serial, id, clock, w) && Witnessed(s, serial, id, first, w)
    requires step.GetStep? && Enabled(s, step) && clock <= step.at
    requires Appends(step, id) ==>
               step.task.message !in first && step.task.message !in Committed(id, s.log)
    ensures Witnessed(Step(ttl, s, step), serial, id, first, WatchStep(ttl, s, id, w, step))
  {
    hide Committed, Commits, Extended, Lacks, Tracks, Lapsed, TtlRuns.LiveEntry;
    var s', w', told := Step(ttl, s, step), WatchStep(ttl, s, id, w, step), Committed(id, s.log);
    CommittedGrows(id, s.log, TtlRuns.Load(step.id, step.at));
    ReadingTracks(ttl, s, serial, id, clock, w, User(""), step.at);
    assert told + [] == told;
    forall c | c in s'.pending
      ensures PendingLacks(serial, id, |told|, c in w'.unsound, s'.pending[c])
    {
      if c in s.pending {
        assert PendingLacks(serial, id, |told|, c in w.unsound, s.pending[c]);
      } else if Appends(step, id) && c in w'.unsound {
        ReadBroken(s.db, serial, id, step.task.message, step.at);
      }
    }
  }

  lemma NothingLacks(kept: seq<Message>, all: seq<Message>)
    ensures all != [] ==> Lacks([], all)
    ensures Lacks(kept, all) ==> all != []
  {
    if all != [] {
      assert all[0] in all;
    }
  }

  lemma WitnessEvict(ttl: Ttl, s: Shared, serial: Db, id: Uuid, first: seq<Message>, w: Watch, step: MicroStep)
    requires Witnessed(s, serial, id, first, w) && step.EvictStep? && Enabled(s, step)
    ensures Witnessed(Step(ttl, s, step), serial, id, first, WatchStep(ttl, s, id, w, step))
  {
    hide Committed, Commits, Extended, Lacks;
    var p, s', told := s.pending[step.client], Step(ttl, s, step), Committed(id, s.log);
    CommittedGrows(id, s.log, TtlRuns.Load(p.id, p.readAt));
    CountsCommits(s, id);
    NothingLacks(MessagesOf(s.db, id), MessagesOf(serial, id));
    assert told + [] == told;
    assert MessagesOf(s'.db, id) == if p.id == id then [] else MessagesOf(s.db, id);
    forall c | c in s'.pending
      ensures PendingLacks(serial, id, |told|, c in w.unsound, s'.pending[c])
    {
      assert PendingLacks(serial, id, |told|, c in w.unsound, s.pending[c]);
    }
  }

  lemma BrokenStoreLacks(ttl: Ttl, s: Shared, serial: Db, id: Uuid, first: seq<Message>, sent: seq<Message>,
                         clock: U64, w: Watch, step: MicroStep)
    requires Tracks(ttl, s, serial, id, clock, w) && Known(s, id, first, sent) && Witnessed(s, serial, id, first, w)
    requires step.StoreStep? && Enabled(s, step) && s.pending[step.client].id == id
    requires TtlRuns.DeadlinesFit(Commits(s, id), ttl)
    ensures var p := s.pending[step.client];
            p.history.runId == id &&
            (WatchStep(ttl, s, id, w, step).broken ==> Lacks(p.history.messages, Extended(serial, id, p.message, p.readAt).messages))
  {
    hide Committed, Extended, Lacks, TtlRuns.DeadlinesFit;
    var p, told := s.pending[step.client], Committed(id, s.log);
    CountsCommits(s, id);
    assert PendingTracks(serial, Commits(s, id), id, clock, step.client !in w.unsound, p);
    assert PendingKnown(id, first, told, sent, p) && PendingLacks(serial, id, |told|, step.client in w.unsound, p);
    if Stale(s, step, id) {
      StaleIsLive(ttl, s, serial, id, clock, w, step.client);
      StaleStoreLacks(serial, id, first, told, sent, p);
    }
  }

  lemma WitnessStore(ttl: Ttl, s: Shared, serial: Db, id: Uuid, first: seq<Message>, sent: seq<Message>,
                     clock: U64, w: Watch, step: MicroStep)
    requires Tracks(ttl, s, serial, id, clock, w) && Known(s, id, first, sent) && Witnessed(s, serial, id, first, w)
    requires step.StoreStep? && Enabled(s, step) && s.pending[step.client].id == id
    requires TtlRuns.DeadlinesFit(Commits(s, id), ttl)
    ensures Witnessed(Step(ttl, s, step), TtlRuns.Step(ttl, serial, AppendOf(s.pending[step.client], step.at)), id, first,
                      WatchStep(ttl, s, id, w, step))
  {
    hide Committed, Commits, Extended, Deadline, Lacks, TtlRuns.Step, AfterStore, Unrepeated;
    hide TtlRuns.DeadlinesFit, Stale, PendingTracks;
    var p, s', told := s.pending[step.client], Step(ttl, s, step), Committed(id, s.log);
    var w' := WatchStep(ttl, s, id, w, step);
    var serial' := TtlRuns.Step(ttl, serial, AppendOf(p, step.at));
    BrokenStoreLacks(ttl, s, serial, id, first, sent, clock, w, step);
    CommittedGrows(id, s.log, AppendOf(p, step.at));
    StoredAlike(ttl, s.db, serial, p, step.at);
    ExtendedContents(serial, id, p.message, p.readAt);
    forall c | c in s'.pending
      ensures PendingLacks(serial', id, |told| + 1, c in w'.unsound, s'.pending[c])
    {
      assert PendingKnown(id, first, told, sent, s.pending[c]);
    }
  }

  lemma ExtendedContents(db: Db, id: Uuid, message: Message, at: U64)
    ensures message in Extended(db, id, message, at).messages
    ensures forall m :: m in Extended(db, id, message, at).messages ==> m == message || m in MessagesOf(db, id)
  {
  }

  lemma WitnessOtherStore(ttl: Ttl, s: Shared, serial: Db, id: Uuid, first: seq<Message>, w: Watch, step: MicroStep)
    requires Witnessed(s, serial, id, first, w) && step.StoreStep? && Enabled(s, step)
    requires s.pending[step.client].id != id && s.pending[step.client].history.runId != id
    ensures Witnessed(Step(ttl, s, step), serial, id, first, WatchStep(ttl, s, id, w, step))
  {
    var p, s', told := s.pending[step.client], Step(ttl, s, step), Committed(id, s.log);
    CommittedGrows(id, s.log, AppendOf(p, step.at));
    hide Committed, Commits, Extended, Lacks, Deadline;
    assert told + [] == told;
    assert MessagesOf(s'.db, id) == MessagesOf(s.db, id);
    forall c | c in s'.pending
      ensures PendingLacks(serial, id, |told|, c in w.unsound, s'.pending[c])
    {
      assert PendingLacks(serial, id, |told|, c in w.unsound, s.pending[c]);
    }
  }

  // ── Exactly when a message is missing ────────────────────────────────────

  /** `sent` with the message of this step, if it sets out to append to the id. */
  function SentBy(sent: seq<Message>, step: MicroStep, id: Uuid): seq<Message> {
    if Appends(step, id) then sent + [step.task.message] else sent
  }

  predicate NewMessage(first: seq<Message>, sent: seq<Message>, step: MicroStep, id: Uuid) {
    Appends(step, id) ==> step.task.message !in first && step.task.message !in sent
  }

  lemma KnownLonger(s: Shared, id: Uuid, first: seq<Message>, sent: seq<Message>, longer: seq<Message>)
    requires Known(s, id, first, sent) && forall m :: m in sent ==> m in longer
    ensures Known(s, id, first, longer)
  {
    hide Committed, Unrepeated;
    forall c | c in s.pending
      ensures PendingKnown(id, first, Committed(id, s.log), longer, s.pending[c])
    {
      assert PendingKnown(id, first, Committed(id, s.log), sent, s.pending[c]);
    }
  }

  lemma KnownStep(ttl: Ttl, s: Shared, id: Uuid, first: seq<Message>, sent: seq<Message>, step: MicroStep)
    requires Known(s, id, first, sent) && NewMessage(first, sent, step, id)
    requires OwnRunIds(s)
    ensures Known(Step(ttl, s, step), id, first, SentBy(sent, step, id))
  {
    hide Known, Step;
    if !Enabled(s, step) {
      KnownLonger(s, id, first, sent, SentBy(sent, step, id));
      StaysPut(ttl, s, step);
    } else if step.GetStep? {
      KnownGet(ttl, s, id, first, sent, step);
      assert !Appends(step, id) ==> sent + [] == sent;
    } else if step.EvictStep? {
      KnownEvict(ttl, s, id, first, sent, step);
    } else {
      KnownStore(ttl, s, id, first, sent, step);
    }
  }

  lemma StaysPut(ttl: Ttl, s: Shared, step: MicroStep)
    requires !Enabled(s, step)
    ensures Step(ttl, s, step) == s
  {
  }

  predicate OwnRunIds(s: Shared) {
    forall c :: c in s.pending && s.pending[c].Appender? ==> s.pending[c].history.runId == s.pending[c].id
  }

  lemma TracksRunIds(ttl: Ttl, s: Shared, serial: Db, id: Uuid, clock: U64, w: Watch)
    requires Tracks(ttl, s, serial, id, clock, w)
    ensures OwnRunIds(s)
  {
    hide Commits, Extended, SameDeadlines;
    forall c | c in s.pending && s.pending[c].Appender?
      ensures s.pending[c].history.runId == s.pending[c].id
    {
      assert PendingTracks(serial, Commits(s, id), id, clock, c !in w.unsound, s.pending[c]);
    }
  }

  lemma UnsentIsUntold(s: Shared, id: Uuid, first: seq<Message>, sent: seq<Message>, m: Message)
    requires Known(s, id, first, sent) && m !in sent
    ensures m !in Committed(id, s.log)
  {
    hide Committed, PendingKnown, Distinct;
  }

  lemma WitnessStep(ttl: Ttl, db: Db, s: Shared, id: Uuid, first: seq<Message>, sent: seq<Message>, clock: U64,
                    w: Watch, step: MicroStep)
    requires Tracks(ttl, s, SerialOf(ttl, db, s, id), id, clock, w) && (!step.EvictStep? ==> clock <= step.at)
    requires Known(s, id, first, sent) && Witnessed(s, SerialOf(ttl, db, s, id), id, first, w)
    requires NewMessage(first, sent, step, id) && TtlRuns.DeadlinesFit(Commits(s, id), ttl)
    ensures var s' := Step(ttl, s, step);
            Witnessed(s', SerialOf(ttl, db, s', id), id, first, WatchStep(ttl, s, id, w, step))
  {
    TracksRunIds(ttl, s, SerialOf(ttl, db, s, id), id, clock, w);
    if Appends(step, id) {
      UnsentIsUntold(s, id, first, sent, step.task.message);
    }
    hide Known, Tracks, Witnessed, Step, SerialOf, TtlRuns.Step, Commits, Committed, TtlRuns.DeadlinesFit;
    var serial, s' := SerialOf(ttl, db, s, id), Step(ttl, s, step);
    if !Enabled(s, step) {
      StaysPut(ttl, s, step);
    } else if step.GetStep? {
      WitnessGet(ttl, s, serial, id, first, clock, w, step);
      TrackGet(ttl, s, serial, id, clock, w, step);
      SerialStays(ttl, db, s, s', id);
    } else if step.EvictStep? {
      WitnessEvict(ttl, s, serial, id, first, w, step);
      TrackEvict(ttl, s, serial, id, clock, w, step);
      SerialStays(ttl, db, s, s', id);
    } else if s.pending[step.client].id == id {
      WitnessStore(ttl, s, serial, id, first, sent, clock, w, step);
      TrackStore(ttl, s, serial, id, clock, w, step);
      SerialGrows(ttl, db, s, s', id, AppendOf(s.pending[step.client], step.at));
    } else {
      WitnessOtherStore(ttl, s, serial, id, first, w, step);
      TrackOtherStore(ttl, s, serial, id, clock, w, step);
      SerialStays(ttl, db, s, s', id);
    }
  }

  lemma SerialStays(ttl: Ttl, db: Db, s: Shared, s': Shared, id: Uuid)
    requires Commits(s', id) == Commits(s, id)
    ensures SerialOf(ttl, db, s', id) == SerialOf(ttl, db, s, id)
  {
  }

  lemma CommitsStay(ttl: Ttl, s: Shared, step: MicroStep, id: Uuid)
    ensures forall a :: a in Commits(s, id) ==> a in Commits(Step(ttl, s, step), id)
  {
    var s' := Step(ttl, s, step);
    if |s'.log| > |s.log| {
      CommitsGrow(s, s', id, s'.log[|s.log|]);
    }
  }

  lemma UnrepeatedPrefix(first: seq<Message>, sent: seq<Message>, step: MicroStep, id: Uuid)
    requires Unrepeated(first, SentBy(sent, step, id))
    ensures Unrepeated(first, sent) && NewMessage(first, sent, step, id)
  {
    var longer := SentBy(sent, step, id);
    assert forall i :: 0 <= i < |sent| ==> longer[i] == sent[i];
    if Appends(step, id) {
      assert longer[|sent|] == step.task.message;
    }
  }

  lemma {:induction false} ExecWitnessed(ttl: Ttl, db: Db, schedule: seq<MicroStep>, id: Uuid)
    requires Keyed(db) && Clocked(schedule) && Unrepeated(MessagesOf(db, id), Sent(schedule, id))
    requires TtlRuns.DeadlinesFit(Commits(Exec(ttl, db, schedule), id), ttl)
    ensures var s, first := Exec(ttl, db, schedule), MessagesOf(db, id);
            Known(s, id, first, Sent(schedule, id)) &&
            Witnessed(s, SerialOf(ttl, db, s, id), id, first, Watched(ttl, db, schedule, id))
  {
    hide Known, Tracks, Witnessed, Step, SerialOf, WatchStep, Unrepeated, Commits;
    var first := MessagesOf(db, id);
    if schedule == [] {
      WitnessedNothing(ttl, db, id);
    } else {
      var init, step := schedule[..|schedule| - 1], schedule[|schedule| - 1];
      var s := Exec(ttl, db, init);
      UnrepeatedPrefix(first, Sent(init, id), step, id);
      CommitsStay(ttl, s, step, id);
      ExecWitnessed(ttl, db, init, id);
      ExecTracks(ttl, db, init, id);
      TracksRunIds(ttl, s, SerialOf(ttl, db, s, id), id, ClockOf(init), Watched(ttl, db, init, id));
      KnownStep(ttl, s, id, first, Sent(init, id), step);
      WitnessStep(ttl, db, s, id, first, Sent(init, id), ClockOf(init), Watched(ttl, db, init, id), step);
    }
  }

  lemma WitnessedNothing(ttl: Ttl, db: Db, id: Uuid)
    ensures var s := Shared(db, map[], [], []);
            Known(s, id, MessagesOf(db, id), []) && Witnessed(s, SerialOf(ttl, db, s, id), id, MessagesOf(db, id), Watch(false, {}))
  {
  }

  /** What a load of the id shows. */
  function Shown(db: Db, id: Uuid, now: U64): seq<Message> {
    if id in db && Live(db[id], now) then db[id].history.messages else []
  }

  /** Lost messages, exactly, under any time-to-live: when the clock does not go
      back, no deadline passes a u64 and no message is sent twice, a load
      after any schedule lacks a message that it would show after the serial run of
      the committed appends if and only if the observer has seen the id break
      and the last commit has not expired. Otherwise both hold the same entry. */
  lemma MissingExactly(ttl: Ttl, db: Db, schedule: seq<MicroStep>, id: Uuid, now: U64)
    requires Keyed(db) && Clocked(schedule) && ClockOf(schedule) <= now
    requires Unrepeated(MessagesOf(db, id), Sent(schedule, id))
    requires TtlRuns.DeadlinesFit(Commits(Exec(ttl, db, schedule), id), ttl)
    ensures var s := Exec(ttl, db, schedule);
            var serial := SerialOf(ttl, db, s, id);
            var lost := Watched(ttl, db, schedule, id).broken && !Lapsed(ttl, Commits(s, id), now);
            (Lacks(Shown(s.db, id, now), Shown(serial, id, now)) <==> lost) &&
            (TtlRuns.LiveEntry(s.db, id, now) == TtlRuns.LiveEntry(serial, id, now) <==> !lost)
  {
    ExecTracks(ttl, db, schedule, id);
    ExecWitnessed(ttl, db, schedule, id);
    var s := Exec(ttl, db, schedule);
    EndsLacking(ttl, s, SerialOf(ttl, db, s, id), id, MessagesOf(db, id), ClockOf(schedule), Watched(ttl, db, schedule, id), now);
  }

  lemma EndsLacking(ttl: Ttl, s: Shared, serial: Db, id: Uuid, first: seq<Message>, clock: U64, w: Watch, now: U64)
    requires Tracks(ttl, s, serial, id, clock, w) && Witnessed(s, serial, id, first, w) && clock <= now
    ensures var lost := w.broken && !Lapsed(ttl, Commits(s, id), now);
            (Lacks(Shown(s.db, id, now), Shown(serial, id, now)) <==> lost) &&
            (TtlRuns.LiveEntry(s.db, id, now) == TtlRuns.LiveEntry(serial, id, now) <==> !lost)
  {
    hide Commits, Committed, PendingTracks, PendingLacks;
    if w.broken {
      var m :| m in MessagesOf(serial, id) && m !in MessagesOf(s.db, id);
    } else {
      AgreeLater(s.db, serial, id, clock, now);
    }
  }

  // ── A loss without overlapping appends ───────────────────────────────────

  lemma ExecFive(ttl: Ttl, db: Db, a: MicroStep, b: MicroStep, c: MicroStep, d: MicroStep, e: MicroStep)
    ensures Exec(ttl, db, [a, b, c, d, e]) ==
            Step(ttl, Step(ttl, Step(ttl, Step(ttl, Step(ttl, Shared(db, map[], [], []), a), b), c), d), e)
  {
    hide Step;
    ExecFour(ttl, db, a, b, c, d);
    ExecMore(ttl, db, [a, b, c, d], e);
    assert [a, b, c, d] + [e] == [a, b, c, d, e];
  }

  /** A load finds the entry expired, an append replaces it, and then the load
      removes what the append has stored: the only append is lost. */
  lemma LateEvictionLosesMessage(id: Uuid, stale: ConversationHistory, m: Message)
    requires stale.runId == id
    ensures var s := Exec(Some(10), map[id := StoredEntry(stale, Some(5))],
                          [GetStep(1, id, Reading, 6), GetStep(2, id, Appending(m), 6), EvictStep(2), StoreStep(2, 6), EvictStep(1)]);
            s.pending == map[] && Committed(id, s.log) == [m] && s.db == map[] && s.replies == [Ok(None), Err(Expired(id))]
  {
    hide Exec, Step;
    var g1, g2, e2, s2, e1 := GetStep(1, id, Reading, 6), GetStep(2, id, Appending(m), 6), EvictStep(2), StoreStep(2, 6), EvictStep(1);
    ExecFive(Some(10), map[id := StoredEntry(stale, Some(5))], g1, g2, e2, s2, e1);
    LateEvictionSteps(id, stale, m);
    CommittedGrows(id, [], TtlRuns.Append(id, m, 6, 6));
    CommittedGrows(id, [TtlRuns.Append(id, m, 6, 6)], TtlRuns.Load(id, 6));
  }

  lemma LateEvictionSteps(id: Uuid, stale: ConversationHistory, m: Message)
    requires stale.runId == id
    ensures var db: Db := map[id := StoredEntry(stale, Some(5))];
            var x1 := Step(Some(10), Shared(db, map[], [], []), GetStep(1, id, Reading, 6));
            var x3 := Step(Some(10), Step(Some(10), x1, GetStep(2, id, Appending(m), 6)), EvictStep(2));
            var x5 := Step(Some(10), Step(Some(10), x3, StoreStep(2, 6)), EvictStep(1));
            x5 == Shared(map[], map[], [] + [TtlRuns.Append(id, m, 6, 6)] + [TtlRuns.Load(id, 6)], [Ok(None), Err(Expired(id))])
  {
    var db: Db := map[id := StoredEntry(stale, Some(5))];
    var restarted := NewHistory(id).Push(m);
    var x1 := Step(Some(10), Shared(db, map[], [], []), GetStep(1, id, Reading, 6));
    assert x1 == Shared(db, map[1 := Reader(id, 6, 0)], [], []);
    var x2 := Step(Some(10), x1, GetStep(2, id, Appending(m), 6));
    assert x2 == Shared(db, map[1 := Reader(id, 6, 0), 2 := Appender(id, m, restarted, 6, true, 0)], [], []);
    var x3 := Step(Some(10), x2, EvictStep(2));
    assert x3 == Shared(map[], map[1 := Reader(id, 6, 0), 2 := Appender(id, m, restarted, 6, false, 0)], [], []);
    var x4 := Step(Some(10), x3, StoreStep(2, 6));
    assert x4 == Shared(map[id := StoredEntry(restarted, Some(16))], map[1 := Reader(id, 6, 0)], [TtlRuns.Append(id, m, 6, 6)], [Ok(None)]);
  }
}
