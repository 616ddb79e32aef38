/** What whole runs of memory operations leave behind, under lazy expiry. */
module TtlRuns {
  import opened Common
  import opened Conversation
  import opened SledMemory
  import Plain = InMemoryStore

  /** One call, with the clock readings that it takes. */
  datatype Op =
    | Store(history: ConversationHistory, at: U64)
    | Load(id: Uuid, at: U64)
    | Append(id: Uuid, message: Message, loadAt: U64, storeAt: U64)
    | Clear(id: Uuid, at: U64)

  function Starts(op: Op): U64 {
    if op.Append? then op.loadAt else op.at
  }

  function Ends(op: Op): U64 {
    if op.Append? then op.storeAt else op.at
  }

  function EndTime(ops: seq<Op>): U64 {
    if ops == [] then 0 else Ends(ops[|ops| - 1])
  }

  /** The clock never goes back, within an operation or between two of them. */
  predicate Ordered(ops: seq<Op>) {
    (forall i :: 0 <= i < |ops| ==> Starts(ops[i]) <= Ends(ops[i])) &&
    (forall i, j :: 0 <= i < j < |ops| ==> Ends(ops[i]) <= Starts(ops[j]))
  }

  function Step(ttl: Ttl, db: Db, op: Op): Db {
    match op
    case Store(history, at) => AfterStore(ttl, db, history, at)
    case Load(id, at) => AfterLoad(db, id, at)
    case Append(id, message, loadAt, storeAt) => AfterAppend(ttl, db, id, message, loadAt, storeAt)
    case Clear(id, _) => db - {id}
  }

  function Run(ttl: Ttl, db: Db, ops: seq<Op>): Db {
    if ops == [] then db else Step(ttl, Run(ttl, db, ops[..|ops| - 1]), ops[|ops| - 1])
  }

  lemma OrderedPrefix(ops: seq<Op>)
    requires Ordered(ops) && ops != []
    ensures Ordered(ops[..|ops| - 1])
    ensures EndTime(ops[..|ops| - 1]) <= Starts(ops[|ops| - 1])
  {
  }

  // ── The ideal store: nothing expired is ever held ────────────────────────

  function Evict(db: Db, now: U64): Db {
    map id | id in db && Live(db[id], now) :: db[id]
  }

  function IdealStep(ttl: Ttl, db: Db, op: Op): Db {
    match op
    case Store(history, at) => AfterStore(ttl, Evict(db, at), history, at)
    case Load(_, at) => Evict(db, at)
    case Append(id, message, loadAt, storeAt) =>
      var held := Evict(db, loadAt);
      var history := if id in held then held[id].history else NewHistory(id);
      AfterStore(ttl, Evict(held, storeAt), history.Push(message), storeAt)
    case Clear(id, at) => Evict(db, at) - {id}
  }

  function IdealRun(ttl: Ttl, db: Db, ops: seq<Op>): Db {
    if ops == [] then db else IdealStep(ttl, IdealRun(ttl, db, ops[..|ops| - 1]), ops[|ops| - 1])
  }

  /** After each operation the ideal store holds nothing that has expired, unless
      the deadline of what was just stored passes a u64. */
  lemma IdealHoldsLive(ttl: Ttl, db: Db, ops: seq<Op>, id: Uuid)
    requires ops != [] && (ops[|ops| - 1].Store? || ops[|ops| - 1].Append? ==> ClockFits(ttl, EndTime(ops)))
    requires id in IdealRun(ttl, db, ops)
    ensures var deadline := IdealRun(ttl, db, ops)[id].expiresAt; deadline.Some? ==> EndTime(ops) <= deadline.value
  {
    var before := IdealRun(ttl, db, ops[..|ops| - 1]);
    hide IdealRun, IdealStep;
    IdealUnfolds(ttl, db, ops);
    LastStepHoldsLive(ttl, before, ops[|ops| - 1], id);
  }

  lemma IdealUnfolds(ttl: Ttl, db: Db, ops: seq<Op>)
    requires ops != []
    ensures IdealRun(ttl, db, ops) == IdealStep(ttl, IdealRun(ttl, db, ops[..|ops| - 1]), ops[|ops| - 1])
  {
  }

  lemma LastStepHoldsLive(ttl: Ttl, db: Db, op: Op, id: Uuid)
    requires (op.Store? || op.Append? ==> ClockFits(ttl, Ends(op))) && id in IdealStep(ttl, db, op)
    ensures Live(IdealStep(ttl, db, op)[id], Ends(op))
  {
  }

  /** What the ideal store answers: an expired history is gone. */
  function IdealReply(db: Db, id: Uuid, now: U64): Option<ConversationHistory> {
    var held := Evict(db, now);
    if id in held then Some(held[id].history) else None
  }

  /** The content of a reply; `Expired` and `None` both carry none. */
  function Content(r: Loaded): Option<ConversationHistory> {
    if r.Ok? then r.value else None
  }

  function LiveEntry(db: Db, id: Uuid, now: U64): Option<StoredEntry> {
    if id in db && Live(db[id], now) then Some(db[id]) else None
  }

  /** From `now` on, both databases hold the same live entries. */
  ghost predicate SameView(db1: Db, db2: Db, now: U64) {
    forall id :: LiveEntry(db1, id, now) == LiveEntry(db2, id, now)
  }

  lemma SameViewLater(db1: Db, db2: Db, now: U64, later: U64)
    requires SameView(db1, db2, now) && now <= later
    ensures SameView(db1, db2, later)
  {
    forall id
      ensures LiveEntry(db1, id, later) == LiveEntry(db2, id, later)
    {
      assert LiveEntry(db1, id, now) == LiveEntry(db2, id, now);
    }
  }

  /** A database answers by its live entries alone. */
  lemma ReplyFromView(db1: Db, db2: Db, id: Uuid, now: U64)
    requires SameView(db1, db2, now)
    ensures Content(LoadReply(db1, id, now)) == Content(LoadReply(db2, id, now)) == IdealReply(db2, id, now)
  {
    assert LiveEntry(db1, id, now) == LiveEntry(db2, id, now);
  }

  lemma StoreView(ttl: Ttl, db1: Db, db2: Db, history: ConversationHistory, now: U64)
    requires SameView(db1, db2, now)
    ensures SameView(AfterStore(ttl, db1, history, now), AfterStore(ttl, db2, history, now), now)
  {
    var s1, s2 := AfterStore(ttl, db1, history, now), AfterStore(ttl, db2, history, now);
    forall id
      ensures LiveEntry(s1, id, now) == LiveEntry(s2, id, now)
    {
      assert LiveEntry(db1, id, now) == LiveEntry(db2, id, now);
    }
  }

  /** Removing what has expired does not change the view. */
  lemma EvictionView(db: Db, id: Uuid, now: U64)
    ensures SameView(AfterLoad(db, id, now), db, now)
    ensures SameView(Evict(db, now), db, now)
  {
  }

  lemma IdealStepView(ttl: Ttl, lazy: Db, ideal: Db, op: Op)
    requires SameView(lazy, ideal, Starts(op)) && Starts(op) <= Ends(op)
    ensures SameView(Step(ttl, lazy, op), IdealStep(ttl, ideal, op), Ends(op))
  {
    var t, held := Starts(op), Evict(ideal, Starts(op));
    EvictionView(ideal, 0, t);
    match op {
      case Store(history, _) =>
        StoreView(ttl, lazy, held, history, t);
      case Load(id, _) =>
        EvictionView(lazy, id, t);
      case Append(id, message, _, storeAt) =>
        assert LiveEntry(lazy, id, t) == LiveEntry(ideal, id, t);
        var swept := AfterLoad(lazy, id, t);
        EvictionView(lazy, id, t);
        SameViewLater(swept, held, t, storeAt);
        EvictionView(held, id, storeAt);
        StoreView(ttl, swept, Evict(held, storeAt), Extended(lazy, id, message, t), storeAt);
      case Clear(id, _) =>
        forall other
          ensures LiveEntry(lazy - {id}, other, t) == LiveEntry(held - {id}, other, t)
        {
          assert LiveEntry(lazy, other, t) == LiveEntry(held, other, t);
        }
    }
  }

  /** Refinement: at every moment after a run, the lazy store holds the live
      entries of the ideal one and answers every load with the same content. */
  lemma {:induction false} LazyRefinesIdeal(ttl: Ttl, db: Db, ops: seq<Op>, id: Uuid, now: U64)
    requires Ordered(ops) && EndTime(ops) <= now
    ensures SameView(Run(ttl, db, ops), IdealRun(ttl, db, ops), now)
    ensures Content(LoadReply(Run(ttl, db, ops), id, now)) == IdealReply(IdealRun(ttl, db, ops), id, now)
  {
    if ops != [] {
      var init, op := ops[..|ops| - 1], ops[|ops| - 1];
      OrderedPrefix(ops);
      LazyRefinesIdeal(ttl, db, init, id, Starts(op));
      IdealStepView(ttl, Run(ttl, db, init), IdealRun(ttl, db, init), op);
      SameViewLater(Run(ttl, db, ops), IdealRun(ttl, db, ops), Ends(op), now);
    }
    ReplyFromView(Run(ttl, db, ops), IdealRun(ttl, db, ops), id, now);
  }

  // ── Loads are invisible ──────────────────────────────────────────────────

  function WithoutLoads(ops: seq<Op>): seq<Op> {
    if ops == [] then []
    else
      var init, op := WithoutLoads(ops[..|ops| - 1]), ops[|ops| - 1];
      if op.Load? then init else init + [op]
  }

  lemma StepView(ttl: Ttl, db1: Db, db2: Db, op: Op)
    requires SameView(db1, db2, Starts(op)) && Starts(op) <= Ends(op)
    ensures SameView(Step(ttl, db1, op), Step(ttl, db2, op), Ends(op))
    ensures op.Load? ==> SameView(Step(ttl, db1, op), db2, Ends(op))
  {
    var t, end := Starts(op), Ends(op);
    IdealStepView(ttl, db1, db2, op);
    IdealStepView(ttl, db2, db2, op);
    var s1, s2, ideal := Step(ttl, db1, op), Step(ttl, db2, op), IdealStep(ttl, db2, op);
    if op.Load? {
      EvictionView(db1, op.id, t);
    }
  }

  /** Dropping every load from a run changes no later content: a load only
      decides whether an expired history shows as `Expired` or as `None`. */
  lemma {:induction false} LoadsAreInvisible(ttl: Ttl, db: Db, ops: seq<Op>, id: Uuid, now: U64)
    requires Ordered(ops) && EndTime(ops) <= now
    ensures SameView(Run(ttl, db, ops), Run(ttl, db, WithoutLoads(ops)), now)
    ensures Content(LoadReply(Run(ttl, db, ops), id, now)) == Content(LoadReply(Run(ttl, db, WithoutLoads(ops)), id, now))
  {
    if ops != [] {
      var init, op := ops[..|ops| - 1], ops[|ops| - 1];
      var kept := WithoutLoads(init);
      OrderedPrefix(ops);
      LoadsAreInvisible(ttl, db, init, id, Starts(op));
      StepView(ttl, Run(ttl, db, init), Run(ttl, db, kept), op);
      assert (kept + [op])[..|kept|] == kept;
      SameViewLater(Run(ttl, db, ops), Run(ttl, db, WithoutLoads(ops)), Ends(op), now);
    }
    ReplyFromView(Run(ttl, db, ops), Run(ttl, db, WithoutLoads(ops)), id, now);
  }

  // ── Timed runs of appends ────────────────────────────────────────────────

  /** The appends of a run to one id, in order. */
  function AppendsTo(id: Uuid, ops: seq<Op>): seq<Op>
    ensures forall a :: a in AppendsTo(id, ops) ==> a.Append? && a.id == id && a in ops
  {
    if ops == [] then []
    else
      var init, op := AppendsTo(id, ops[..|ops| - 1]), ops[|ops| - 1];
      if op.Append? && op.id == id then init + [op] else init
  }

  predicate AllAppends(appends: seq<Op>) {
    forall a :: a in appends ==> a.Append?
  }

  /** `id` is only loaded and appended to; other ids are unrestricted. */
  predicate OnlyAppended(id: Uuid, ops: seq<Op>) {
    forall op :: op in ops ==>
      (op.Store? ==> op.history.runId != id) && (op.Clear? ==> op.id != id)
  }

  /** An append finds its predecessor still live: the gap is at most `d`. */
  predicate Renews(appends: seq<Op>, d: U64, j: nat)
    requires AllAppends(appends) && 0 < j < |appends|
  {
    appends[j].loadAt <= appends[j - 1].storeAt + d
  }

  /** `appends[k..]` is the longest suffix in which no gap exceeds `d`. */
  predicate MaximalSuffix(appends: seq<Op>, d: U64, k: nat)
    requires AllAppends(appends)
  {
    k < |appends| &&
    (forall j :: k < j < |appends| ==> Renews(appends, d, j)) &&
    (k > 0 ==> !Renews(appends, d, k))
  }

  function Messages(appends: seq<Op>): seq<Message>
    requires AllAppends(appends)
  {
    seq(|appends|, i requires 0 <= i < |appends| => appends[i].message)
  }

  lemma SuffixGrows(appends: seq<Op>, a: Op, d: U64, k: nat)
    requires AllAppends(appends) && a.Append? && MaximalSuffix(appends, d, k)
    ensures AllAppends(appends + [a])
    ensures Renews(appends + [a], d, |appends|) ==> MaximalSuffix(appends + [a], d, k)
    ensures !Renews(appends + [a], d, |appends|) ==> MaximalSuffix(appends + [a], d, |appends|)
  {
    var longer := appends + [a];
    forall j | 0 < j < |appends|
      ensures Renews(longer, d, j) == Renews(appends, d, j)
    {
    }
  }

  lemma SuffixUnique(appends: seq<Op>, d: U64, k1: nat, k2: nat)
    requires AllAppends(appends) && MaximalSuffix(appends, d, k1) && MaximalSuffix(appends, d, k2)
    ensures k1 == k2
  {
  }

  lemma {:induction false} SuffixExists(appends: seq<Op>, d: U64) returns (k: nat)
    requires AllAppends(appends) && appends != []
    ensures MaximalSuffix(appends, d, k)
  {
    k := 0;
    if |appends| > 1 {
      var init, last := appends[..|appends| - 1], appends[|appends| - 1];
      k := SuffixExists(init, d);
      SuffixGrows(init, last, d, k);
      assert init + [last] == appends;
      if !Renews(appends, d, |init|) {
        k := |init|;
      }
    }
  }

  predicate Stamped(entry: StoredEntry, history: ConversationHistory, deadline: nat) {
    entry.history == history && entry.expiresAt.Some? && entry.expiresAt.value == deadline
  }

  /** What the database knows of `id` after a run of appends `appends` to it
      that ended no later than `now`. */
  ghost predicate Holds(db: Db, id: Uuid, appends: seq<Op>, d: U64, now: U64)
    requires AllAppends(appends)
  {
    if appends == [] then id !in db
    else
      var deadline := appends[|appends| - 1].storeAt + d;
      if id in db then
        exists k: nat :: MaximalSuffix(appends, d, k) &&
          Stamped(db[id], ConversationHistory(id, Messages(appends[k..])), deadline)
      else deadline < now
  }

  /** No deadline of these appends passes a u64. */
  predicate DeadlinesFit(appends: seq<Op>, ttl: Ttl) {
    forall a :: a in appends && a.Append? ==> ClockFits(ttl, a.storeAt)
  }

  lemma MessagesGrow(appends: seq<Op>, a: Op, k: nat)
    requires AllAppends(appends) && a.Append? && k <= |appends|
    ensures AllAppends(appends + [a])
    ensures Messages((appends + [a])[k..]) == Messages(appends[k..]) + [a.message]
  {
    assert (appends + [a])[k..] == appends[k..] + [a];
  }

  lemma HoldsAppend(db: Db, id: Uuid, appends: seq<Op>, d: U64, a: Op)
    requires AllAppends(appends) && a.Append? && a.id == id && ClockFits(Some(d), a.storeAt)
    requires Holds(db, id, appends, d, a.loadAt)
    ensures AllAppends(appends + [a])
    ensures Holds(Step(Some(d), db, a), id, appends + [a], d, a.storeAt)
  {
    var longer := appends + [a];
    var n := |appends|;
    if id in db && Live(db[id], a.loadAt) {
      var k: nat :| MaximalSuffix(appends, d, k) &&
        Stamped(db[id], ConversationHistory(id, Messages(appends[k..])), appends[n - 1].storeAt + d);
      SuffixGrows(appends, a, d, k);
      assert MaximalSuffix(longer, d, k);
      MessagesGrow(appends, a, k);
    } else {
      if n > 0 {
        var k := SuffixExists(appends, d);
        SuffixGrows(appends, a, d, k);
        assert !Renews(longer, d, n);
      }
      assert MaximalSuffix(longer, d, n);
      MessagesGrow(appends, a, n);
      assert Messages(appends[n..]) == [];
    }
  }

  lemma HoldsOther(db: Db, id: Uuid, appends: seq<Op>, d: U64, op: Op)
    requires AllAppends(appends) && Starts(op) <= Ends(op)
    requires !(op.Append? && op.id == id) && OnlyAppended(id, [op])
    requires Keyed(db) && Holds(db, id, appends, d, Starts(op))
    ensures Holds(Step(Some(d), db, op), id, appends, d, Ends(op))
  {
    assert op in [op];
    var db' := Step(Some(d), db, op);
    assert id in db' <==> id in db && !(op.Load? && op.id == id && !Live(db[id], op.at));
    assert id in db' ==> db'[id] == db[id];
  }

  lemma HoldsLater(db: Db, id: Uuid, appends: seq<Op>, d: U64, now: U64, later: U64)
    requires AllAppends(appends) && Holds(db, id, appends, d, now) && now <= later
    ensures Holds(db, id, appends, d, later)
  {
  }

  lemma {:induction false} RunHolds(db: Db, ops: seq<Op>, id: Uuid, d: U64)
    requires Ordered(ops) && OnlyAppended(id, ops) && Keyed(db) && id !in db && DeadlinesFit(AppendsTo(id, ops), Some(d))
    ensures Keyed(Run(Some(d), db, ops))
    ensures Holds(Run(Some(d), db, ops), id, AppendsTo(id, ops), d, EndTime(ops))
  {
    if ops != [] {
      var init, op := ops[..|ops| - 1], ops[|ops| - 1];
      OrderedPrefix(ops);
      RunHolds(db, init, id, d);
      var before := Run(Some(d), db, init);
      HoldsLater(before, id, AppendsTo(id, init), d, EndTime(init), Starts(op));
      if op.Append? && op.id == id {
        HoldsAppend(before, id, AppendsTo(id, init), d, op);
      } else {
        HoldsOther(before, id, AppendsTo(id, init), d, op);
      }
    }
  }

  /** Timed-run theorem. After any run that only loads and appends to `id`,
      interleaved with anything on other ids, a load within the time-to-live of
      the last append returns exactly the maximal suffix of the appends whose
      gaps are all within it; any later load, and one without appends, returns
      no history at all. The deadlines must not pass a u64. */
  lemma TimedRun(db: Db, ops: seq<Op>, id: Uuid, d: U64, now: U64)
    requires Ordered(ops) && OnlyAppended(id, ops) && Keyed(db) && id !in db && EndTime(ops) <= now
    requires DeadlinesFit(AppendsTo(id, ops), Some(d))
    ensures var appends := AppendsTo(id, ops);
            var r := LoadReply(Run(Some(d), db, ops), id, now);
            if appends != [] && now <= appends[|appends| - 1].storeAt + d then
              exists k: nat :: MaximalSuffix(appends, d, k) &&
                r == Ok(Some(ConversationHistory(id, Messages(appends[k..]))))
            else
              r == Ok(None) || r == Err(Expired(id))
  {
    hide Run, Messages, MaximalSuffix, OnlyAppended, Ordered;
    RunHolds(db, ops, id, d);
  }

  // ── Without a time-to-live ───────────────────────────────────────────────

  /** The replies of a run, one for each operation. */
  function Replies(ttl: Ttl, db: Db, ops: seq<Op>): seq<Loaded> {
    if ops == [] then []
    else
      var init, op := ops[..|ops| - 1], ops[|ops| - 1];
      Replies(ttl, db, init) +
      [if op.Load? then LoadReply(Run(ttl, db, init), op.id, op.at) else Ok(None)]
  }

  function PlainStep(inner: Plain.Histories, op: Op): Plain.Histories {
    match op
    case Store(history, _) => inner[history.runId := history]
    case Load(_, _) => inner
    case Append(id, message, _, _) => Plain.AfterAppend(inner, id, message)
    case Clear(id, _) => inner - {id}
  }

  function PlainRun(inner: Plain.Histories, ops: seq<Op>): Plain.Histories {
    if ops == [] then inner else PlainStep(PlainRun(inner, ops[..|ops| - 1]), ops[|ops| - 1])
  }

  function PlainReplies(inner: Plain.Histories, ops: seq<Op>): seq<Loaded> {
    if ops == [] then []
    else
      var init, op := ops[..|ops| - 1], ops[|ops| - 1];
      PlainReplies(inner, init) +
      [if op.Load? then Ok(Plain.LoadReply(PlainRun(inner, init), op.id)) else Ok(None)]
  }

  /** `db` holds the histories of `inner`, filed under their ids, without deadlines. */
  predicate Mirrors(db: Db, inner: Plain.Histories) {
    Keyed(db) && db.Keys == inner.Keys &&
    forall id :: id in db ==> db[id] == StoredEntry(inner[id], None)
  }

  /** Without a time-to-live the persistent store refines the in-memory one:
      any sequence of operations on any ids gets the same replies, whatever the
      clock reads, and leaves the same histories. */
  lemma {:induction false} NoTtlRefinesInMemory(db: Db, inner: Plain.Histories, ops: seq<Op>)
    requires Mirrors(db, inner)
    ensures Mirrors(Run(None, db, ops), PlainRun(inner, ops))
    ensures Replies(None, db, ops) == PlainReplies(inner, ops)
  {
    if ops != [] {
      NoTtlRefinesInMemory(db, inner, ops[..|ops| - 1]);
    }
  }
}
