/** The persistent store with a time-to-live (crates/roos-memory/src/sled_store.rs).

    The database is a map and encoding an entry is the identity. Every reading
    of the clock, in seconds, is a parameter of the operation that takes it. */
module SledMemory {
  import opened Common
  import opened Conversation

  datatype StoredEntry = StoredEntry(history: ConversationHistory, expiresAt: Option<U64>)

  type Db = map<Uuid, StoredEntry>

  type Ttl = Option<U64>

  /** `now_secs() + s` stays within a u64. */
  predicate ClockFits(ttl: Ttl, now: U64) {
    ttl.Some? ==> now + ttl.value < U64_LIMIT
  }

  predicate Live(entry: StoredEntry, now: U64) {
    entry.expiresAt.Some? ==> now <= entry.expiresAt.value
  }

  /** Every entry is filed under its own run id. */
  predicate Keyed(db: Db) {
    forall id :: id in db ==> db[id].history.runId == id
  }

  /** The sum of two u64 values. */
  function WrappingAdd(a: U64, b: U64): U64 {
    if a + b < U64_LIMIT then a + b else a + b - U64_LIMIT
  }

  /** The deadline of an entry that is stored now. */
  function Deadline(ttl: Ttl, now: U64): Option<U64> {
    if ttl.Some? then Some(WrappingAdd(now, ttl.value)) else None
  }

  function MakeEntry(ttl: Ttl, history: ConversationHistory, now: U64): StoredEntry {
    StoredEntry(history, Deadline(ttl, now))
  }

  function AfterStore(ttl: Ttl, db: Db, history: ConversationHistory, now: U64): Db {
    db[history.runId := MakeEntry(ttl, history, now)]
  }

  function LoadReply(db: Db, id: Uuid, now: U64): Loaded {
    if id !in db then Ok(None)
    else if Live(db[id], now) then Ok(Some(db[id].history))
    else Err(Expired(id))
  }

  /** Lazy eviction: a load removes the entry that it finds expired. */
  function AfterLoad(db: Db, id: Uuid, now: U64): Db {
    if id in db && !Live(db[id], now) then db - {id} else db
  }

  /** The history that an append extends. */
  function Extended(db: Db, id: Uuid, message: Message, now: U64): ConversationHistory {
    (if id in db && Live(db[id], now) then db[id].history else NewHistory(id)).Push(message)
  }

  function AfterAppend(ttl: Ttl, db: Db, id: Uuid, message: Message, loadAt: U64, storeAt: U64): Db {
    AfterStore(ttl, AfterLoad(db, id, loadAt), Extended(db, id, message, loadAt), storeAt)
  }

  /** When the clock plus the time-to-live passes a u64, and only then, the
      deadline wraps: the entry is expired in the second in which it is stored. */
  lemma LiveWhenStoredExactly(ttl: Ttl, db: Db, history: ConversationHistory, now: U64)
    ensures var after := AfterStore(ttl, db, history, now);
            LoadReply(after, history.runId, now) ==
            if ttl.None? || now + ttl.value < 0x1_0000_0000_0000_0000 then Ok(Some(history)) else Err(Expired(history.runId))
  {
  }

  class SledMemory {
    var db: Db
    var ttlSecs: Ttl

    constructor Open(db: Db)
      ensures this.db == db && ttlSecs == None
    {
      this.db := db;
      ttlSecs := None;
    }

    method WithTtl(secs: U64)
      modifies this`ttlSecs
      ensures ttlSecs == Some(secs)
    {
      ttlSecs := Some(secs);
    }

    method Store(history: ConversationHistory, now: U64)
      modifies this`db
      ensures db == AfterStore(ttlSecs, old(db), history, now)
      ensures db == old(db)[history.runId := StoredEntry(history,
                if ttlSecs.None? then None else Some((now + ttlSecs.value) % 0x1_0000_0000_0000_0000))]
    {
      var expiresAt := None;
      if ttlSecs.Some? {
        expiresAt := Some((now + ttlSecs.value) % U64_LIMIT);
      }
      db := db[history.runId := StoredEntry(history, expiresAt)];
    }

    method Load(id: Uuid, now: U64) returns (r: Loaded)
      modifies this`db
      ensures r == LoadReply(old(db), id, now) && db == AfterLoad(old(db), id, now)
      ensures id !in old(db) ==> r == Ok(None) && db == old(db)
      ensures id in old(db) ==>
                var entry := old(db)[id];
                if entry.expiresAt.Some? && now > entry.expiresAt.value then r == Err(Expired(id)) && db == old(db) - {id}
                else r == Ok(Some(entry.history)) && db == old(db)
    {
      if id !in db {
        return Ok(None);
      }
      var entry := db[id];
      if entry.expiresAt.Some? {
        if now > entry.expiresAt.value {
          db := db - {id};
          return Err(Expired(id));
        }
      }
      return Ok(Some(entry.history));
    }

    /** A load and then a store, each with its own reading of the clock. */
    method Append(id: Uuid, message: Message, loadAt: U64, storeAt: U64)
      modifies this`db
      ensures db == AfterAppend(ttlSecs, old(db), id, message, loadAt, storeAt)
      ensures var live := id in old(db) && (old(db)[id].expiresAt.Some? ==> loadAt <= old(db)[id].expiresAt.value);
              var history := if live then old(db)[id].history.(messages := old(db)[id].history.messages + [message])
                             else ConversationHistory(id, [message]);
              var kept := if live then old(db) else old(db) - {id};
              db == kept[history.runId := StoredEntry(history,
                if ttlSecs.None? then None else Some((storeAt + ttlSecs.value) % 0x1_0000_0000_0000_0000))]
    {
      assert [] + [message] == [message];
      var loaded := Load(id, loadAt);
      var history;
      match loaded {
        case Ok(Some(h)) => history := h;
        case Ok(None) => history := NewHistory(id);
        case Err(Expired(_)) => history := NewHistory(id);
      }
      history := history.Push(message);
      Store(history, storeAt);
    }

    method Clear(id: Uuid)
      modifies this`db
      ensures db == old(db) - {id}
    {
      db := db - {id};
    }
  }
}
