# Monq job queue, modelled in Dafny

Monq's `MonQueue` (src/monq/__init__.py) is a job queue kept in one collection of a
document store. Each job is a record with an id, `priority`, `attempts`, `locked_by`,
`locked_at`, `last_error` and the caller's own fields. Workers use the queue like this:

- `insert` adds a record with the lifecycle defaults.
- `lock_next` claims the unlocked record of highest priority whose `attempts` is below the ceiling.
- `release` clears the lock, and `complete` deletes the record. Both act only when the caller holds the lock.
- `error` counts a failed attempt and unlocks the record.
- `cleanup` releases selected locked records.
- `flush` drops the collection.

The model is the module `Monq` in `monq.dfy`:

- The collection is a `map<Id, Job>` held in the class `Queue`. Every operation is a method with a `modifies` clause.
- The store's atomic find-and-modify or find-and-remove is the body of one method.
- Its query becomes a predicate: `Claimable`, `IsNext` or `Owns`.
- Its update becomes a record transition: `Lock`, `Released` or `Errored`.
- The clock value `datetime.utcnow()` is the parameter `now`.
- The store's id generator is the field `used`, the set of ids handed out or saved so far. On insert the store assigns any id not in it, so ids of completed or dropped records are never reused.
- Among claimable records of equal highest priority, `lock_next` may pick any one. The source's sort fixes only the priority order.
- `ToDocument` gives a record's dictionary view. It lets `insert`'s merge order be stated as a map merge, as in Python.
- `error` takes the caller's copy of the record and returns it updated. In Python the caller's dict is mutated in place. The stored record is overwritten with that copy whatever is stored.

Facts about the code that shape the model:

- The configuration keys are `database`, `collection`, `timeout` and `attempts`; `attempts` is the attempt ceiling.
- `insert` always writes the defaults over a caller's `priority`, `attempts` and lock fields.
  As a result, records of different priorities cannot be made through `insert` alone.
  `PriorityOrder` therefore starts from an existing table.
- `cleanup` filters on `locked_by` equal to the literal string `"/.*/"` (see Findings).

## Model

| member | source | states |
|---|---|---|
| `Monq.DefaultMaxAttemptsIsThree` | src/monq/__init__.py:8-11 | with no configuration, the database and collection are both "mongo_queue" and the attempt ceiling is 3 |
| `Monq.Queue.constructor` | src/monq/__init__.py:21-26 | a given configuration is used unchanged, none selects the defaults; the existing records are left as they are |
| `Monq.Queue.Flush` | src/monq/__init__.py:42-43 | the table is empty afterwards; the ids handed out so far stay used |
| `Monq.Queue.Insert` | src/monq/__init__.py:45-49 | exactly one record is added, under an id the store never handed out or saw saved before (not even for a deleted record), and returned as stored; it has priority 0, attempts 0 and no lock or error even when the caller supplied those keys; the caller's other fields are kept with their values |
| `Monq.InsertIsDictMerge` | src/monq/__init__.py:45-47 | the stored document equals the caller's fields updated with the default lifecycle fields (defaults win), plus the new `_id` |
| `Monq.IdsBoundedAbove` | src/monq/__init__.py:48 | every finite set of ids has an upper bound, so a fresh id always exists for the insert |
| `Monq.Queue.LockNext` | src/monq/__init__.py:51-62 | returns nothing and changes nothing exactly when no record is unlocked with attempts below the ceiling; otherwise the chosen record was claimable, no claimable record has higher priority, and the returned record is that record with `locked_by` = caller and `locked_at` = now. This returned record is the new state, and no other record changes |
| `Monq.BestAmong` | src/monq/__init__.py:57-60 | among the claimable records with ids in a finite set, one has maximal priority |
| `Monq.NextExists` | src/monq/__init__.py:57-60 | when some record is claimable, a claimable record of highest priority exists for `lock_next` to return |
| `Monq.PriorityOrder` | src/monq/__init__.py:57-59 | with three claimable records of priorities 1, 5, 3, successive claims take them in the order 5, 3, 1, and a fourth claim finds nothing |
| `Monq.Queue.Release` | src/monq/__init__.py:72-81 | if the record with the job's id exists and its `locked_by` equals the given worker, both lock fields are cleared and the updated record is returned; otherwise nothing is returned and nothing changes |
| `Monq.Queue.Complete` | src/monq/__init__.py:83-90 | if the record with the job's id exists and its `locked_by` equals the given worker, it is removed and returned as it was; otherwise nothing is returned and nothing changes; no other record is affected |
| `Monq.Queue.Error` | src/monq/__init__.py:92-97 | the caller's copy gets one more attempt, the message and no lock, and is saved under its id over whatever is stored (or re-created if deleted), with no ownership check; that id counts as used from then on |
| `Monq.ErroredAllCounts` | src/monq/__init__.py:92-96 | after n `error` calls on a copy, attempts rose by exactly n, the copy is unlocked, holds the last message, and its id, priority and fields are unchanged |
| `Monq.RepeatedErrorsExhaust` | src/monq/__init__.py:57-58 | once errors take a record's attempts to the ceiling, it is not claimable and `lock_next` cannot select it |
| `Monq.ReleaseAll` | src/monq/__init__.py:69-70 | releasing a set of records clears only their lock fields; every other record and every other field is unchanged |
| `Monq.Reaped` | src/monq/__init__.py:64-70 | after a cleanup, exactly the records the filter and the attempt ceiling select are released; the others are untouched |
| `Monq.Queue.CleanupWhere` | src/monq/__init__.py:64-70 | the loop that releases each found record on behalf of the worker stored in it leaves the table equal to `Reaped` of the old table |
| `Monq.Queue.Cleanup` | src/monq/__init__.py:64-70 | as written: only records locked by a worker named literally "/.*/" with attempts below the ceiling are released; every other record keeps its lock |
| `Monq.CleanupAsWrittenSkipsLockedJob` | src/monq/__init__.py:65 | as written, `cleanup` leaves a record locked by "worker-1" with 0 attempts locked |
| `Monq.Queue.Reap` | src/monq/__init__.py:64-70 | as intended: every locked record below the ceiling is released, so every record below the ceiling is claimable afterwards |
| `Monq.ReapFreesEveryLiveJob` | src/monq/__init__.py:64-70 | reaping with the intended filter makes every record below the ceiling claimable and keeps every record's attempts |
| `Monq.FlushThenLockNext` | src/monq/__init__.py:42-43 | after `flush`, `lock_next` returns nothing |
| `Monq.OwnershipScenario` | src/monq/__init__.py:77-78 | a record locked by "A" cannot be released by "B"; "A" can release it, and both lock fields are cleared |
| `Monq.CompleteRemoves` | src/monq/__init__.py:86-88 | after the holder completes a record, no record with its id remains |
| `Monq.ErrorAfterCompleteResurrects` | src/monq/__init__.py:83-97 | an `error` reported after `complete` puts the deleted record back under its own id, with one more attempt; a record inserted in between gets a different id and is left unchanged |
| `Monq.StaleErrorLosesUpdate` | src/monq/__init__.py:92-97 | "A" claims the only record, it is released, "B" claims it and reports an error, then "A" reports an error from its stale copy. Two errors were reported, but the stored attempts rose by one |

## Left out

- Connection, database and collection lookup (`db` and `collection`): these only locate the collection, which the model holds directly.
- `ensure_index`: index declarations have no observable effect on results.
- The command document wire format: the model states what each query and update means, not how it is encoded.
- `command`'s acknowledgement check and `CommandError`: a backend failure is outside the model. Every modelled call succeeds.
- `datetime.utcnow()`: the clock value is the parameter `now`.
- Concurrency between workers: each operation is one atomic step on a sequential table. Interleavings are shown only as sequences of calls, as in `StaleErrorLosesUpdate`.
- The `timeout` configuration key: stored but read by no operation. A time-aware cleanup that filters on `locked_at` is not modelled.
- Partial configuration dictionaries: a configuration is either complete or absent. A non-empty dictionary without `attempts` would raise `KeyError` in the source.
- Monq.Queue.Insert: requires that the caller's fields have no `_id` key. A caller-chosen id, and the store's handling of a duplicate id, are not modelled; ids are always assigned by the store.
- Monq.Queue.LockNext: the worker id is a string. A `None` worker id, which would set `locked_at` without `locked_by`, is not modelled.
- Monq.Queue.CleanupWhere: the store's cursor is modelled as a snapshot of the matching records taken before the loop.
- Caller field values are limited to the `Value` datatype. The queue never inspects them.

## Findings

| source | as written | input that shows it | evidently intended | confidence | as-written member | corrected member |
|---|---|---|---|---|---|---|
| src/monq/__init__.py:65 | `cleanup` queries `locked_by='/.*/'`, a plain string, so it matches only a worker literally named "/.*/" | one record locked by "worker-1" with 0 attempts: `cleanup` leaves it locked | release every locked record below the attempt ceiling (a regular-expression match on `locked_by`) | high; not executed | `Monq.CleanupAsWrittenSkipsLockedJob` | `Monq.ReapFreesEveryLiveJob` |
