/**
 * A model of Monq's `MonQueue`: a job queue kept as a table of job records in a
 * document store. Workers claim the unlocked, non-exhausted record of highest
 * priority, then release it, complete (delete) it or report an error on it.
 *
 * The store's collection is modelled as a map from record id to record. Each
 * queue operation is one step on that map; the store's atomic find-and-modify
 * becomes the body of one method.
 */
module Monq {

  datatype Option<T> = None | Some(value: T)

  /** Record ids are opaque values the store assigns on insert. */
  type Id = nat
  type WorkerId = string
  /** The clock value the source reads with `datetime.utcnow()`. */
  type Time = int

  /** A value a caller may put in a job's fields. */
  datatype Value = Null | Int(i: int) | Str(s: string) | Stamp(t: Time) | ObjectId(id: Id)

  /**
   * One stored job record: the lifecycle fields the queue reads and writes, and
   * `payload`, the caller's own fields, which the queue never inspects.
   */
  datatype Job = Job(
    id: Id,
    priority: int,
    attempts: int,
    lockedBy: Option<WorkerId>,
    lockedAt: Option<Time>,
    lastError: Option<string>,
    payload: map<string, Value>)

  type Table = map<Id, Job>

  /** The queue's configuration; `attempts` is the ceiling on failed attempts. */
  datatype Config = Config(database: string, collection: string, timeout: int, attempts: int)

  const DefaultConfig: Config := Config("mongo_queue", "mongo_queue", 300, 3)

  /** A configuration given to the constructor is used as it is; none means the defaults. */
  function SelectConfig(config: Option<Config>): Config
  {
    match config
    case Some(c) => c
    case None => DefaultConfig
  }

  lemma DefaultMaxAttemptsIsThree()
    ensures SelectConfig(None).attempts == 3
    ensures SelectConfig(None).database == "mongo_queue" && SelectConfig(None).collection == "mongo_queue"
  {
  }

  // ---------------------------------------------------------------------------
  // Documents: the dictionary view of a record

  /** The keys the queue itself owns in a stored document. */
  const Reserved: set<string> := {"_id", "priority", "attempts", "locked_by", "locked_at", "last_error"}

  /** The lifecycle fields every insert writes over the caller's fields. */
  const DefaultInsert: map<string, Value> :=
    map["priority" := Int(0), "attempts" := Int(0), "locked_by" := Null,
        "locked_at" := Null, "last_error" := Null]

  function StrOrNull(s: Option<string>): Value
  {
    match s
    case Some(x) => Str(x)
    case None => Null
  }

  function StampOrNull(t: Option<Time>): Value
  {
    match t
    case Some(x) => Stamp(x)
    case None => Null
  }

  /** The stored document a record stands for. */
  function ToDocument(j: Job): map<string, Value>
  {
    j.payload + map["_id" := ObjectId(j.id), "priority" := Int(j.priority),
                    "attempts" := Int(j.attempts), "locked_by" := StrOrNull(j.lockedBy),
                    "locked_at" := StampOrNull(j.lockedAt), "last_error" := StrOrNull(j.lastError)]
  }

  // ---------------------------------------------------------------------------
  // Record transitions

  /** The record `insert` stores for the caller's fields under id `id`. */
  function NewRecord(id: Id, fields: map<string, Value>): Job
  {
    Job(id, 0, 0, None, None, None, fields - Reserved)
  }

  /** The record after `lock_next` has claimed it for `worker` at time `now`. */
  function Lock(j: Job, worker: WorkerId, now: Time): Job
  {
    j.(lockedBy := Some(worker), lockedAt := Some(now))
  }

  /** The record after its lock is cleared. */
  function Released(j: Job): Job
  {
    j.(lockedBy := None, lockedAt := None)
  }

  /** The caller's copy of a record after `error` has updated it. */
  function Errored(j: Job, message: Option<string>): Job
  {
    j.(attempts := j.attempts + 1, lastError := message, lockedBy := None, lockedAt := None)
  }

  /** The caller's copy after one `error` call per message, in order. */
  function ErroredAll(j: Job, messages: seq<Option<string>>): Job
    decreases |messages|
  {
    if messages == [] then j else ErroredAll(Errored(j, messages[0]), messages[1..])
  }

  // ---------------------------------------------------------------------------
  // Table predicates

  /** Every record is stored under its own id. */
  predicate KeyedById(t: Table)
  {
    forall id :: id in t ==> t[id].id == id
  }

  /** `locked_by` and `locked_at` are set and cleared together. */
  predicate LocksPaired(t: Table)
  {
    forall id :: id in t ==> (t[id].lockedBy.None? <==> t[id].lockedAt.None?)
  }

  /** What `lock_next` filters on: unlocked and below the attempt ceiling. */
  predicate Claimable(j: Job, maxAttempts: int)
  {
    j.lockedBy.None? && j.attempts < maxAttempts
  }

  predicate HasClaimable(t: Table, maxAttempts: int)
  {
    exists id :: id in t && Claimable(t[id], maxAttempts)
  }

  /** `id` is a record `lock_next` may pick: claimable, and no claimable record has higher priority. */
  predicate IsNext(t: Table, id: Id, maxAttempts: int)
  {
    && id in t
    && Claimable(t[id], maxAttempts)
    && forall other :: other in t && Claimable(t[other], maxAttempts) ==> t[other].priority <= t[id].priority
  }

  /** The query of `release` and `complete`: the record exists and `worker` holds it. */
  predicate Owns(t: Table, id: Id, worker: Option<WorkerId>)
  {
    id in t && t[id].lockedBy == worker
  }

  // ---------------------------------------------------------------------------
  // Cleanup

  /**
   * The `locked_by` condition of `cleanup`'s query. `Literal(s)` matches a record
   * whose `locked_by` is exactly the string `s`; `AnyLocked` matches every locked
   * record.
   */
  datatype LockFilter = Literal(s: string) | AnyLocked

  // `cleanup` as written: the pattern "/.*/" is passed as a plain string, not a
  // regular expression, so it matches only that exact string.
  const CleanupFilter: LockFilter := Literal("/.*/")

  predicate FilterMatches(f: LockFilter, lockedBy: Option<WorkerId>)
  {
    match f
    case Literal(s) => lockedBy == Some(s)
    case AnyLocked => lockedBy.Some?
  }

  predicate CleanupSelects(j: Job, f: LockFilter, maxAttempts: int)
  {
    FilterMatches(f, j.lockedBy) && j.attempts < maxAttempts
  }

  /** The table after the lock of every record in `ids` has been cleared. */
  function ReleaseAll(t: Table, ids: set<Id>): (r: Table)
    ensures r.Keys == t.Keys
    ensures forall id :: id in t && id !in ids ==> r[id] == t[id]
    ensures forall id :: id in t && id in ids ==> r[id].lockedBy.None? && r[id].lockedAt.None?
    ensures forall id :: id in t ==>
      && r[id].id == t[id].id && r[id].priority == t[id].priority && r[id].attempts == t[id].attempts
      && r[id].lastError == t[id].lastError && r[id].payload == t[id].payload
  {
    map id | id in t :: if id in ids then Released(t[id]) else t[id]
  }

  /** The table after `cleanup` with filter `f` has released every record it selects. */
  function Reaped(t: Table, f: LockFilter, maxAttempts: int): (r: Table)
    ensures r.Keys == t.Keys
    ensures forall id :: id in t && CleanupSelects(t[id], f, maxAttempts) ==> r[id] == Released(t[id])
    ensures forall id :: id in t && !CleanupSelects(t[id], f, maxAttempts) ==> r[id] == t[id]
  {
    ReleaseAll(t, set id | id in t && CleanupSelects(t[id], f, maxAttempts))
  }

  // ---------------------------------------------------------------------------
  // Lemmas

  /** Every finite set of ids has an upper bound, so the store always has a fresh id to hand out. */
  lemma {:induction false} IdsBoundedAbove(ids: set<Id>) returns (bound: Id)
    ensures forall id :: id in ids ==> id < bound
    decreases ids
  {
    if ids == {} {
      bound := 0;
    } else {
      var x :| x in ids;
      var rest := ids - {x};
      var b := IdsBoundedAbove(rest);
      bound := if x < b then b else x + 1;
      forall id | id in ids ensures id < bound {
        if id != x {
          assert id in rest;
        }
      }
    }
  }

  /** Among the claimable records with ids in `ids`, one has maximal priority. */
  lemma {:induction false} BestAmong(t: Table, ids: set<Id>, maxAttempts: int) returns (best: Id)
    requires ids <= t.Keys
    requires exists id :: id in ids && Claimable(t[id], maxAttempts)
    ensures best in ids && Claimable(t[best], maxAttempts)
    ensures forall o :: o in ids && Claimable(t[o], maxAttempts) ==> t[o].priority <= t[best].priority
    decreases ids
  {
    var x :| x in ids && Claimable(t[x], maxAttempts);
    var rest := ids - {x};
    if exists o :: o in rest && Claimable(t[o], maxAttempts) {
      var b := BestAmong(t, rest, maxAttempts);
      best := if t[x].priority <= t[b].priority then b else x;
      forall o | o in ids && Claimable(t[o], maxAttempts)
        ensures t[o].priority <= t[best].priority
      {
        if o != x {
          assert o in rest;
        }
      }
    } else {
      best := x;
    }
  }

  /** Whenever some record is claimable, `lock_next` has a record of highest priority to pick. */
  lemma NextExists(t: Table, maxAttempts: int)
    requires HasClaimable(t, maxAttempts)
    ensures exists id :: IsNext(t, id, maxAttempts)
  {
    var best := BestAmong(t, t.Keys, maxAttempts);
    assert IsNext(t, best, maxAttempts);
  }

  /**
   * `insert` copies the caller's fields and then overwrites them with the
   * lifecycle defaults, so the stored document is the caller's fields merged
   * with the defaults, the defaults winning, plus the new id.
   */
  lemma InsertIsDictMerge(id: Id, fields: map<string, Value>)
    ensures ToDocument(NewRecord(id, fields)) == (fields + DefaultInsert)["_id" := ObjectId(id)]
  {
  }

  /**
   * Each `error` call on the caller's copy adds exactly one attempt, records
   * its message and leaves the copy unlocked; nothing else changes.
   */
  lemma {:induction false} ErroredAllCounts(j: Job, messages: seq<Option<string>>)
    ensures ErroredAll(j, messages).attempts == j.attempts + |messages|
    ensures messages != [] ==>
      && ErroredAll(j, messages).lockedBy.None? && ErroredAll(j, messages).lockedAt.None?
      && ErroredAll(j, messages).lastError == messages[|messages| - 1]
    ensures ErroredAll(j, messages).id == j.id && ErroredAll(j, messages).priority == j.priority
    ensures ErroredAll(j, messages).payload == j.payload
    decreases |messages|
  {
    if messages != [] {
      ErroredAllCounts(Errored(j, messages[0]), messages[1..]);
      if |messages| > 1 {
        assert messages[1..][|messages[1..]| - 1] == messages[|messages| - 1];
      }
    }
  }

  /** Enough `error` calls take a record to the ceiling, after which `lock_next` never selects it. */
  lemma RepeatedErrorsExhaust(t: Table, j: Job, messages: seq<Option<string>>, maxAttempts: int)
    requires j.attempts + |messages| >= maxAttempts
    ensures !Claimable(ErroredAll(j, messages), maxAttempts)
    ensures !IsNext(t[j.id := ErroredAll(j, messages)], j.id, maxAttempts)
  {
    ErroredAllCounts(j, messages);
  }

  /**
   * Records of priorities 1, 5 and 3, all claimable, are claimed by three
   * successive `lock_next` calls in the order 5, 3, 1, and a fourth finds nothing.
   */
  lemma PriorityOrder(t0: Table, maxAttempts: int, w: WorkerId, now: Time)
    requires t0.Keys == {0, 1, 2}
    requires forall id :: id in t0 ==> Claimable(t0[id], maxAttempts)
    requires t0[0].priority == 1 && t0[1].priority == 5 && t0[2].priority == 3
    ensures forall id :: IsNext(t0, id, maxAttempts) <==> id == 1
    ensures var t1 := t0[1 := Lock(t0[1], w, now)];
      && (forall id :: IsNext(t1, id, maxAttempts) <==> id == 2)
      && var t2 := t1[2 := Lock(t1[2], w, now)];
      && (forall id :: IsNext(t2, id, maxAttempts) <==> id == 0)
      && !HasClaimable(t2[0 := Lock(t2[0], w, now)], maxAttempts)
  {
    var t1 := t0[1 := Lock(t0[1], w, now)];
    var t2 := t1[2 := Lock(t1[2], w, now)];
    var t3 := t2[0 := Lock(t2[0], w, now)];
    assert IsNext(t0, 1, maxAttempts);
    assert IsNext(t1, 2, maxAttempts);
    assert IsNext(t2, 0, maxAttempts);
    assert t3.Keys == {0, 1, 2};
  }

  /** As written, `cleanup` leaves a record locked by an ordinary worker locked. */
  lemma CleanupAsWrittenSkipsLockedJob(j: Job)
    requires j.id == 0 && j.lockedBy == Some("worker-1") && j.attempts == 0
    ensures var t := map[0 := j];
      Reaped(t, CleanupFilter, DefaultConfig.attempts) == t && t[0].lockedBy.Some?
  {
  }

  /** Reaping with `AnyLocked` makes every record below the attempt ceiling claimable again. */
  lemma ReapFreesEveryLiveJob(t: Table, maxAttempts: int)
    ensures forall id :: id in t && t[id].attempts < maxAttempts ==>
      Claimable(Reaped(t, AnyLocked, maxAttempts)[id], maxAttempts)
    ensures forall id :: id in t ==> Reaped(t, AnyLocked, maxAttempts)[id].attempts == t[id].attempts
  {
  }

  // ---------------------------------------------------------------------------
  // The queue

  class Queue {
    const config: Config
    /** The collection's records, by id. */
    var table: Table
    /**
     * The store's id generator: every id it has handed out or seen saved. Ids
     * are never reused, even after the record is deleted or the collection dropped.
     */
    var used: set<Id>

    ghost predicate Valid()
      reads this
    {
      KeyedById(table) && table.Keys <= used
    }

    /** Binds to a collection that already holds `existing`; the records are left as they are. */
    constructor (existing: Table, config: Option<Config>)
      requires KeyedById(existing)
      ensures Valid()
      ensures this.config == SelectConfig(config) && table == existing && used == existing.Keys
    {
      this.config := SelectConfig(config);
      table := existing;
      used := existing.Keys;
    }

    /** Drops the collection. */
    method Flush()
      modifies this
      ensures Valid()
      ensures table == map[] && used == old(used)
    {
      table := map[];
    }

    /** Stores a copy of `fields` with the lifecycle defaults written over it, under a fresh id. */
    method Insert(fields: map<string, Value>) returns (r: Job)
      requires Valid()
      requires "_id" !in fields
      modifies this
      ensures Valid()
      ensures r.id !in old(used) && used == old(used) + {r.id}
      ensures r.id !in old(table) && table == old(table)[r.id := r]
      ensures r.priority == 0 && r.attempts == 0
      ensures r.lockedBy.None? && r.lockedAt.None? && r.lastError.None?
      ensures r.payload.Keys == fields.Keys - Reserved
      ensures forall k :: k in r.payload ==> r.payload[k] == fields[k]
      ensures ToDocument(r) == (fields + DefaultInsert)["_id" := ObjectId(r.id)]
      ensures LocksPaired(old(table)) ==> LocksPaired(table)
    {
      ghost var bound := IdsBoundedAbove(used);
      assert bound !in used;
      var id: Id :| id !in used;
      r := NewRecord(id, fields);
      InsertIsDictMerge(id, fields);
      table := table[id := r];
      used := used + {id};
    }

    /**
     * Claims an unlocked record below the attempt ceiling of highest priority
     * for `lockedBy` at time `now` and returns it as updated; returns `None`
     * and changes nothing when there is no such record.
     */
    method LockNext(lockedBy: WorkerId, now: Time) returns (r: Option<Job>)
      requires Valid()
      modifies this
      ensures Valid()
      ensures r.None? <==> !HasClaimable(old(table), config.attempts)
      ensures r.None? ==> table == old(table)
      ensures r.Some? ==>
        && IsNext(old(table), r.value.id, config.attempts)
        && r.value == Lock(old(table)[r.value.id], lockedBy, now)
        && r.value.lockedBy == Some(lockedBy) && r.value.lockedAt == Some(now)
        && table == old(table)[r.value.id := r.value]
      ensures used == old(used)
      ensures LocksPaired(old(table)) ==> LocksPaired(table)
    {
      if HasClaimable(table, config.attempts) {
        NextExists(table, config.attempts);
        var id :| id in table && IsNext(table, id, config.attempts);
        var job := Lock(table[id], lockedBy, now);
        table := table[id := job];
        r := Some(job);
      } else {
        r := None;
      }
    }

    /**
     * Clears the lock of `job`'s record if `lockedBy` holds it and returns the
     * updated record; otherwise returns `None` and changes nothing.
     */
    method Release(job: Job, lockedBy: Option<WorkerId>) returns (r: Option<Job>)
      requires Valid()
      modifies this
      ensures Valid()
      ensures Owns(old(table), job.id, lockedBy) ==>
        && r == Some(Released(old(table)[job.id]))
        && r.value.lockedBy.None? && r.value.lockedAt.None?
        && table == old(table)[job.id := r.value]
      ensures !Owns(old(table), job.id, lockedBy) ==> r.None? && table == old(table)
      ensures used == old(used)
      ensures LocksPaired(old(table)) ==> LocksPaired(table)
    {
      if Owns(table, job.id, lockedBy) {
        var updated := Released(table[job.id]);
        table := table[job.id := updated];
        r := Some(updated);
      } else {
        r := None;
      }
    }

    /**
     * Deletes `job`'s record if `lockedBy` holds it and returns the record as it
     * was; otherwise returns `None` and changes nothing.
     */
    method Complete(job: Job, lockedBy: Option<WorkerId>) returns (r: Option<Job>)
      requires Valid()
      modifies this
      ensures Valid()
      ensures Owns(old(table), job.id, lockedBy) ==>
        r == Some(old(table)[job.id]) && table == old(table) - {job.id}
      ensures !Owns(old(table), job.id, lockedBy) ==> r.None? && table == old(table)
      ensures used == old(used)
      ensures LocksPaired(old(table)) ==> LocksPaired(table)
    {
      if Owns(table, job.id, lockedBy) {
        r := Some(table[job.id]);
        table := table - {job.id};
      } else {
        r := None;
      }
    }

    /**
     * Updates the caller's copy `job` (one more attempt, the message, no lock)
     * and saves that copy over whatever is stored under its id, without checking
     * who holds the record. Returns the updated copy.
     */
    method Error(job: Job, message: Option<string>) returns (saved: Job)
      requires Valid()
      modifies this
      ensures Valid()
      ensures saved == Errored(job, message)
      ensures saved.attempts == job.attempts + 1 && saved.lastError == message
      ensures saved.lockedBy.None? && saved.lockedAt.None?
      ensures saved.id == job.id && saved.priority == job.priority && saved.payload == job.payload
      ensures table == old(table)[job.id := saved]
      ensures used == old(used) + {job.id}
      ensures LocksPaired(old(table)) ==> LocksPaired(table)
    {
      saved := Errored(job, message);
      table := table[job.id := saved];
      used := used + {job.id};
    }

    /**
     * Finds the records `f` and the attempt ceiling select, then releases each
     * one on behalf of the worker stored in it.
     */
    method CleanupWhere(f: LockFilter)
      requires Valid()
      modifies this
      ensures Valid()
      ensures table == Reaped(old(table), f, config.attempts)
      ensures used == old(used)
      ensures LocksPaired(old(table)) ==> LocksPaired(table)
    {
      var found := table;
      var todo := set id | id in found && CleanupSelects(found[id], f, config.attempts);
      ghost var selected := todo;
      while todo != {}
        invariant Valid()
        invariant todo <= selected <= found.Keys
        invariant table == ReleaseAll(found, selected - todo)
        invariant used == old(used)
        decreases todo
      {
        var id :| id in todo;
        var job := found[id];
        assert table[id] == job;
        var released := Release(job, job.lockedBy);
        todo := todo - {id};
        assert table == ReleaseAll(found, selected - todo);
      }
      assert selected - todo == selected;
    }

    // `cleanup` as written: only records locked by a worker named literally "/.*/"
    // are released.
    method Cleanup()
      requires Valid()
      modifies this
      ensures Valid()
      ensures table == Reaped(old(table), CleanupFilter, config.attempts)
      ensures forall id :: id in table ==>
        (table[id] != old(table)[id] ==> old(table)[id].lockedBy == Some("/.*/"))
      ensures used == old(used)
      ensures LocksPaired(old(table)) ==> LocksPaired(table)
    {
      CleanupWhere(CleanupFilter);
    }

    /** `cleanup` as intended: every locked record below the attempt ceiling is released. */
    method Reap()
      requires Valid()
      modifies this
      ensures Valid()
      ensures table == Reaped(old(table), AnyLocked, config.attempts)
      ensures forall id :: id in table && table[id].attempts < config.attempts ==>
        Claimable(table[id], config.attempts)
      ensures used == old(used)
      ensures LocksPaired(old(table)) ==> LocksPaired(table)
    {
      CleanupWhere(AnyLocked);
      ReapFreesEveryLiveJob(old(table), config.attempts);
    }
  }

  // ---------------------------------------------------------------------------
  // Scenarios: what a caller can conclude from the contracts alone

  /** After `flush`, `lock_next` finds nothing. */
  method FlushThenLockNext(q: Queue, w: WorkerId, now: Time) returns (r: Option<Job>)
    requires q.Valid()
    modifies q
    ensures r.None? && q.table == map[]
  {
    q.Flush();
    r := q.LockNext(w, now);
  }

  /**
   * A record held by worker "A" cannot be released by "B"; "A" can release it,
   * which clears both lock fields.
   */
  method OwnershipScenario(q: Queue, job: Job) returns (byB: Option<Job>, byA: Option<Job>)
    requires q.Valid() && Owns(q.table, job.id, Some("A"))
    modifies q
    ensures byB.None?
    ensures byA.Some? && byA.value.lockedBy.None? && byA.value.lockedAt.None?
    ensures job.id in q.table && q.table[job.id] == byA.value
  {
    byB := q.Release(job, Some("B"));
    byA := q.Release(job, Some("A"));
  }

  /** Once completed, a record is gone from the table. */
  method CompleteRemoves(q: Queue, job: Job, w: WorkerId) returns (r: Option<Job>)
    requires q.Valid() && Owns(q.table, job.id, Some(w))
    modifies q
    ensures r.Some? && r.value.id == job.id && job.id !in q.table
  {
    r := q.Complete(job, Some(w));
  }

  /**
   * `error` saves the caller's copy without an ownership check, so an `error`
   * reported after `complete` puts the deleted record back under its own id. A
   * record inserted in between gets a different id and is left alone.
   */
  method ErrorAfterCompleteResurrects(q: Queue, job: Job, w: WorkerId, fields: map<string, Value>)
    returns (inserted: Job)
    requires q.Valid() && Owns(q.table, job.id, Some(w)) && "_id" !in fields
    modifies q
    ensures inserted.id != job.id
    ensures job.id in q.table && q.table[job.id].attempts == job.attempts + 1
    ensures inserted.id in q.table && q.table[inserted.id] == inserted
  {
    var done := q.Complete(job, Some(w));
    inserted := q.Insert(fields);
    var saved := q.Error(job, None);
  }

  /**
   * Lost update: "A" claims the only record, a reaper releases it, "B" claims it
   * and reports an error, then "A" reports an error from its stale copy. Two
   * errors were reported, but the stored attempts went up by one.
   */
  method StaleErrorLosesUpdate(q: Queue, j: Job, now: Time, message: Option<string>)
    requires q.Valid() && q.table == map[j.id := j] && Claimable(j, q.config.attempts)
    modifies q
    ensures q.table == map[j.id := Errored(Lock(j, "A", now), message)]
    ensures q.table[j.id].attempts == j.attempts + 1
  {
    assert q.table[j.id] == j && Claimable(q.table[j.id], q.config.attempts);
    var a := q.LockNext("A", now);
    assert a.Some? && a.value.id == j.id;
    var reaped := q.Release(a.value, Some("A"));
    assert q.table[j.id] == j.(lockedBy := None, lockedAt := None);
    assert Claimable(q.table[j.id], q.config.attempts);
    var b := q.LockNext("B", now);
    assert b.Some? && b.value.id == j.id;
    var savedB := q.Error(b.value, message);
    var savedA := q.Error(a.value, message);
  }
}
