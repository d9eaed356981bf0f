# Verified model of an in-memory key-value server

A Dafny model of a Redis-like server written in C++: a store of 64 shards with
strings, hashes and lists, passive and active expiry and sampled LRU eviction; an
append-only log with a streaming loader and a compactor; a command dispatcher that
speaks RESP2 and plain text; the line framing of a connection; the janitor loop; and a
thread pool. What the C++ changes in place is a class here (`KeyValueStore`,
`AofManager`, `CommandParser`, `Connection`) whose methods are proved against
specification functions; the theorems are about those functions and about whole runs.

How the pieces fit:

- `Basics`, `Numerals`, `Wire`: machine integers, `to_string` and `stoi`/`stoll`/`stoul`
  with their leniency, the bytes of a RESP2 array.
- `FlatStore`, `StoreLaws`, `Counters`, `Expiry`, `Linearizability`: the store as one
  value, and what its operations promise one after another, with purges in between, or
  interleaved by threads.
- `Shards`, `Snapshots`, `Sampling`, `KeyValueStore`, `Janitor`: the 64 shards behind an
  arbitrary hash function and arbitrary iteration orders, proved to answer like the flat
  store; snapshots, eviction, the background loop. `Recency`: the stamps eviction goes by
  are the times of last use.
- `LogCodec`, `Replay`, `LoaderLaws`, `AofManager`, `ReplayLaws`, `Compaction`, `Durability`,
  `Sessions`, `Growth`: the log byte by byte, what loading it means, and over which runs
  loading it gives the live store back, with or without a compaction on the way.
- `Resp`, `Commands`, `Replies`, `Framing`: requests in, replies out, reads cut anywhere.
  `CommandLaws`, `CollectionLaws`, `KeyLaws`: what each command does, stated from the
  request to the reply read as a value, the keys before and after, and the log, without
  the operations of the store. `Conversation`: what a client gets back for all it sends.
- `ThreadPool`: the worker protocol as a transition system with an inductive invariant.

Conventions. A byte is a Dafny character: everything is proved for all characters, a
superset of the bytes. Each operation takes its `steady_clock` sample as a parameter, in
nanoseconds of unbounded range; operations with several samples take a `Clock`. The hash
function and every iteration order of a hash table are arbitrary. A `Choice` holds what
the environment contributes to a request: the clock, the order of a hash's fields, the
bytes of a compaction (those of any snapshot of the store at that instant) and the INFO
text. `Storable` and `Writable` say that sizes stay below the container limit 2^63 - 1, `MAX_SIZE`.

Where the repository's README and its code differ, the model follows the code:

- FLUSHDB is said to empty the log; the code appends a FLUSHDB record (src/CommandParser.cpp:349-354).
- A restart is said to rebuild everything; MSET, INCR, DECR, INCRBY, LPOP, RPOP and any
  lower-case name are logged but not replayed, the EX of SET is dropped, and evictions are
  not logged. `Sessions.ServeIsDurableIff` gives the exact condition.
- Counters are said to control overflow; the addition at src/KeyValueStore.cpp:180 is
  unchecked. The model wraps around, and `Counters.CountersSum` says exactly when it matters.
- Clients that send RESP2 arrays are said to be served, and the comment at
  src/TcpServer.cpp:202 leaves arrays to the parser; the loop there hands the parser one
  line at a time, and `Resp.LineIsWords` shows that no line is ever read as an array.
  `Conversation.WordAsArray` says what such a client gets instead.
- The destructor of the pool is said to wake all workers (src/ThreadPool.cpp:70); it stores
  the flag without the mutex, and `ThreadPool.BroadcastIff` says exactly when all do wake.
- The example of HSET with two fields gets an arity error: HSET takes exactly one.

## Model

| member | source | states |
|---|---|---|
| `KeyValueStore.KeyValueStore.constructor` | src/KeyValueStore.cpp:5 | 64 empty shards represent the empty flat store, for any hash function |
| `KeyValueStore.KeyValueStore.Set` | src/KeyValueStore.cpp:7-18 | one shard is updated in place so that the 64 shards represent exactly the flat store after the operation: value replaced, deadline `now + ttl` only for a positive ttl, stamp set; every key still sits in the shard of its hash and no hash or list is empty |
| `KeyValueStore.KeyValueStore.Get` | src/KeyValueStore.cpp:20-56 | answer and new contents are those of the flat store: a live string is returned and stamped, an expired one erased, everything else untouched; that the stamp is the time of the last use is `Recency.StampIsLastUse`, the client's view `CommandLaws.GetLaw` |
| `KeyValueStore.KeyValueStore.Del` | src/KeyValueStore.cpp:58-66 | all three kinds of value under the key go; the answer says whether there was one, expired strings included |
| `KeyValueStore.KeyValueStore.Exists` | src/KeyValueStore.cpp:68-84 | true exactly for a live string, a hash or a list of that name; nothing changes |
| `KeyValueStore.KeyValueStore.Expire` | src/KeyValueStore.cpp:86-107 | new deadline, immediate erasure for non-positive seconds, passive erasure of an expired string with answer false |
| `KeyValueStore.KeyValueStore.Ttl` | src/KeyValueStore.cpp:109-136 | whole seconds left, -1 without deadline or for a hash or list, -2 otherwise, with erasure of an expired string (as one atomic step) |
| `KeyValueStore.KeyValueStore.IncrBy` | src/KeyValueStore.cpp:164-187 | missing or expired: the key becomes the delta without a deadline; otherwise the text is parsed as `stoll` does, added in 64 bits, written back, deadline kept; not a number: no change and (false, 0) |
| `KeyValueStore.KeyValueStore.Hset` | src/KeyValueStore.cpp:192-200 | the field is set in the hash of that key, created if need be; true exactly if the field is new |
| `KeyValueStore.KeyValueStore.Hget` | src/KeyValueStore.cpp:202-213 | the value of the field, if hash and field exist |
| `KeyValueStore.KeyValueStore.Hdel` | src/KeyValueStore.cpp:215-227 | the field goes, and the hash with it when it was the last one; true exactly if it was there |
| `KeyValueStore.KeyValueStore.Hexists` | src/KeyValueStore.cpp:229-231 | true exactly when `hget` finds a value |
| `KeyValueStore.KeyValueStore.Hlen` | src/KeyValueStore.cpp:233-240 | the number of fields, 0 without a hash |
| `KeyValueStore.KeyValueStore.Hgetall` | src/KeyValueStore.cpp:242-255 | every field with its value exactly once, in an arbitrary order |
| `KeyValueStore.KeyValueStore.Lpush` | src/KeyValueStore.cpp:260-267 | the value goes before the list, the new length comes back |
| `KeyValueStore.KeyValueStore.Rpush` | src/KeyValueStore.cpp:269-276 | the value goes after the list, the new length comes back |
| `KeyValueStore.KeyValueStore.Lpop` | src/KeyValueStore.cpp:278-289 | the first value comes out; an emptied list is erased; nothing without a list |
| `KeyValueStore.KeyValueStore.Rpop` | src/KeyValueStore.cpp:291-302 | the last value comes out; an emptied list is erased; nothing without a list |
| `KeyValueStore.KeyValueStore.Llen` | src/KeyValueStore.cpp:304-311 | the length, 0 without a list |
| `KeyValueStore.KeyValueStore.Lrange` | src/KeyValueStore.cpp:313-336 | the element-by-element loop returns exactly the slice of the flat store's list |
| `KeyValueStore.KeyValueStore.Size` | src/KeyValueStore.cpp:138-153 | the sum over the shards is live strings plus hashes plus lists of the flat store |
| `KeyValueStore.KeyValueStore.Clear` | src/KeyValueStore.cpp:155-162 | the shards represent the empty store |
| `KeyValueStore.KeyValueStore.GetSnapshot` | src/KeyValueStore.cpp:402-433 | each live string, each hash with each field, and each list is listed exactly once, whatever the iteration order |
| `KeyValueStore.KeyValueStore.PurgeExpiredKeys` | src/KeyValueStore.cpp:341-360 | in every shard exactly min(limit, strings) keys are visited, in any order; exactly the visited expired strings are erased and counted |
| `KeyValueStore.KeyValueStore.EvictLruKeys` | src/KeyValueStore.cpp:362-400 | exactly the min(k, sample size) least recently accessed strings of a sample of min(10, strings) per shard are erased and counted; hashes, lists and all else stay |
| `Shards.UpdateShard` | include/KeyValueStore.hpp:116-129 | changing one key in the shard its hash selects changes that key of the flat store and nothing else |
| `FlatStore.ApplyKeepsTidy` | src/KeyValueStore.cpp:215-302 | no operation ever leaves an empty hash or list behind |
| `FlatStore.SliceSelects` | src/KeyValueStore.cpp:320-335 | `lrange` returns position p of the list if and only if p lies between both bounds, each counted from the end when negative |
| `FlatStore.StampsAreInvisible` | src/KeyValueStore.cpp:7-336 | no answer depends on a last-access stamp, nor on the clock where no deadline is stored or set |
| `StoreLaws.SetThenGet` | src/KeyValueStore.cpp:7-56 | a string is read back exactly until `now + ttl`, or for ever without a positive ttl |
| `StoreLaws.ExpireThenTtl` | src/KeyValueStore.cpp:86-136 | TTL counts the whole seconds left; from the deadline on the string is gone, and the key unless a hash or list shares its name |
| `StoreLaws.DelIsTotal` | src/KeyValueStore.cpp:58-84 | after `del` nothing exists under the key, a second `del` finds nothing, other keys are untouched |
| `StoreLaws.HsetThenHget` | src/KeyValueStore.cpp:192-240 | a field set is the field read, other fields keep their values, `hlen` grows exactly for a new field |
| `StoreLaws.HdelUndoesHset` | src/KeyValueStore.cpp:192-227 | deleting a field that was new restores the whole store, erasing a hash created for it |
| `StoreLaws.PushAllItems` | src/CommandParser.cpp:242-262 | LPUSH of several values puts them before the list last one first, RPUSH after it in order; the last length is returned; nothing else changes |
| `StoreLaws.PopAllItems` | src/KeyValueStore.cpp:278-302 | n pops return the first (last) n values in order, leave the rest, and erase the list when it is used up |
| `StoreLaws.QueueAndStack` | src/KeyValueStore.cpp:260-302 | RPUSH then LPOP is a queue, LPUSH then LPOP a stack, and afterwards the store is as before |
| `Counters.CountersSum` | src/KeyValueStore.cpp:164-187 | each of any number of calls returns the exact running total, and `get` its decimal text, if and only if that total is a 64-bit integer |
| `Counters.CounterHolds` | src/KeyValueStore.cpp:164-187 | in general the wrapped total is returned and stored, and the deadline survives |
| `Counters.OrderDoesNotMatter` | src/KeyValueStore.cpp:164-187 | any two orders of the same deltas leave the same value |
| `Counters.FittingNeverWraps` | src/KeyValueStore.cpp:180 | when |start| plus all |deltas| fit in 64 bits no running total overflows, in any order |
| `Numerals.StollOfDecimalInt` | src/KeyValueStore.cpp:179-181 | `stoll` of `to_string` is the identity on 64-bit integers |
| `Numerals.ParsersRead` | src/CommandParser.cpp:72-79 | `stoll`, `stoi` and `stoul` on blanks, a sign, digits and whatever follows: the number if it is in range, nothing otherwise; a minus makes `stoul` count down from 2^64 |
| `Expiry.PurgesAreInvisible` | src/KeyValueStore.cpp:20-360 | two runs on a non-decreasing clock that differ only in active purges (any limit, any order) give the same replies to `get`, `exists`, `expire`, `incr_by`, `size`, snapshots, hash and list operations, and to `ttl` where no hash or list shares the name |
| `Expiry.DelSeesPurge` | src/KeyValueStore.cpp:58-66 | a purge changes `del`'s answer if and only if it erases the only thing stored under the key, an expired string |
| `Expiry.TtlSeesPurge` | src/KeyValueStore.cpp:109-136 | a purge changes `ttl`'s answer if and only if it erases an expired string that hid a hash or list of that name |
| `Sampling.EvictionCount` | src/KeyValueStore.cpp:371-399 | an eviction of k keys erases exactly min(k, sum over the shards of min(10, strings)) |
| `Sampling.EvictionIsGloballyLru` | src/KeyValueStore.cpp:371-399 | when no shard holds more than 10 strings the erased keys are the least recently accessed of the whole store |
| `Sampling.SampleShard` | src/KeyValueStore.cpp:373-380 | at most ten candidates of one shard, all of a smaller one, each with its own stamp and shard |
| `Sampling.SortByAccess` | src/KeyValueStore.cpp:384-386 | the candidates in order of last access, none lost and none added |
| `Recency.StampIsLastUse` | src/KeyValueStore.cpp:16-17 | over any run of operations, purges, evictions and clears, the stamp of a stored string is the clock sample of the last `set`, successful `get` or successful `incr_by` of its key, read off the operations and their answers |
| `Recency.LeastRecentlyUsedGo` | src/KeyValueStore.cpp:362-400 | so no victim of an eviction was used later than a string of the sample that stays, and with at most ten strings per shard than any string that stays |
| `Recency.TheOneJustReadStays` | tests/test_concurrent.cpp:163-173 | set k1, k2, k3, read k1, evict one: it is k2 |
| `Janitor.Run` | src/main.cpp:73-93 | the loop on the real store: each round looks at twenty strings of every shard, or all of a smaller one, and purges those that had expired, measures, and evicts what is over the limit |
| `Janitor.SmallShardsAreCleaned` | src/main.cpp:77-78 | where no shard holds more than twenty strings, every string left after a round was alive when it purged |
| `Janitor.ExpiredOnesAreCrowded` | src/main.cpp:77-78 | in general an expired string outlasts a round only in a shard that held more than twenty |
| `Janitor.RoundEvictsExcess` | src/main.cpp:84-91 | a round erases exactly min(excess over the limit, what ten strings of each of the 64 shards offer) |
| `Janitor.RoundMakesProgress` | src/main.cpp:77-91 | a round over the limit that still has strings erases at least one; no round adds any |
| `Janitor.RoundStopsAtLimit` | src/main.cpp:84-91 | eviction never takes the size, at the instant it was measured, below the limit, and leaves hashes and lists alone |
| `Janitor.Converges` | src/main.cpp:73-93 | without client activity, some round among the first |strings| + 1 finds the store within the limit or without strings |
| `Linearizability.RunIsLinearizable` | src/KeyValueStore.cpp:20-136 | for any number of threads and any interleaving of lock sections, single-section operations, the two-section `get`, and every `ttl` that erases nothing unseen answer as the flat store does in one order; that order keeps each thread's own order, and a call that has returned by step n comes before every call that begins at step n or later; each call is judged at its own clock sample |
| `Linearizability.RunIsLinearizableIff` | src/KeyValueStore.cpp:109-136 | a run with `ttl` in it is a legal sequential history after every step if and only if no `ttl` erases what a recheck would have spared |
| `Linearizability.EraseIsLinearizedIff` | src/KeyValueStore.cpp:127-131 | the second section of `ttl` keeps the history legal if and only if it finds no string and no hash or list of that name, or a string already expired at its sample: the recheck the code leaves out |
| `Linearizability.NoTtlNoBlindErase` | src/KeyValueStore.cpp:20-107 | a run without `ttl` meets that condition, so it is linearizable without any |
| `Linearizability.GetErasesOnlyExpired` | src/KeyValueStore.cpp:44-56 | `get` erases a string only when it is expired at its sample at the moment of erasure, and nothing else |
| `Linearizability.TouchRefreshes` | src/KeyValueStore.cpp:34-39 | in every run the second section of a `get` that found a string stamps whatever string is there by then with the call's sample, and changes nothing else |
| `Linearizability.BlindRun` | src/KeyValueStore.cpp:109-136 | a run of four sections is possible in which `ttl` erases a value set in between, and the reader after it finds nothing |
| `Linearizability.TtlIsNotLinearizable` | src/KeyValueStore.cpp:127-131 | no sequence of that run's calls that keeps each thread's own order gives the answers of the flat store |
| `LogCodec.RoundTrip` | src/AofManager.cpp:20-75 | decoding the concatenated output of `append` gives the records back in order and goes on exactly after them, whatever bytes they contain |
| `LogCodec.RecordsOfLog` | src/AofManager.cpp:20-75 | a whole log decodes to exactly the records appended |
| `LogCodec.LooseRecordIsDecoded` | src/AofManager.cpp:46-75 | a record is read the same with LF for CRLF after its length lines, and with any two bytes after each payload |
| `LogCodec.OtherLinesArePassedOver` | src/AofManager.cpp:46-54 | a blank line, one without a star, and one whose number is no size are skipped, and reading goes on after them |
| `LogCodec.CrashCut` | src/AofManager.cpp:46-106 | a log cut at any byte decodes to the records wholly before the cut, plus at most one more, possible only when the cut is inside the last token of its record |
| `LogCodec.TornTokenIff` | src/AofManager.cpp:59-72 | the token read from a cut encoding is the written one if and only if its whole length is there and every payload byte past the cut is NUL |
| `LogCodec.CutReplaysOnlyWrittenIff` | src/AofManager.cpp:46-106 | a log cut at any byte replays nothing but commands that were written, in order, if and only if the cut leaves whole records, or falls short of its record's last token, or that token survives it |
| `LogCodec.TornCommandCanBeCorrupt` | src/AofManager.cpp:63-72 | a concrete cut for which it does not: the one more command has a token that was never written |
| `Wire.ArrayPrefixFree` | src/RespParser.cpp:138-160 | two encoded arrays with arbitrary tails are equal only if both lists and both tails are |
| `AofManager.AofManager.Append` | src/AofManager.cpp:20-31 | the file grows by exactly one record, or not at all when disabled, closed or given no tokens |
| `AofManager.AofManager.LoadIntoStore` | src/AofManager.cpp:33-109 | the streaming loop replays exactly the decoded records in order and counts those that raised no exception |
| `AofManager.AofManager.LoadRecord` | src/AofManager.cpp:52-75 | the token loop with every way out: end of file, bad header, bad number, torn token |
| `AofManager.AofManager.ReplayCommand` | src/AofManager.cpp:75-101 | the eight commands replayed, with their argument counts, and the one exception |
| `AofManager.AofManager.Rewrite` | src/AofManager.cpp:111-167 | the new file is the encoding of SET, HSET and RPUSH records for a snapshot, each live string, field and list once; the log is open for appending |
| `AofManager.DelKeys` | src/CommandParser.cpp:308-311 | the loop removes every key given and counts those that existed |
| `AofManager.PushValues` | src/CommandParser.cpp:244-248 | the loop pushes every value and returns the last length |
| `Compaction.CompactedLogLoads` | src/AofManager.cpp:111-167 | the compacted log loads, at any time, into exactly the strings that were alive (without deadlines), every hash and every list in order |
| `Compaction.CompactionPreservesData` | src/AofManager.cpp:111-167 | the data a client can see after reloading a compacted log is the data at the time of the compaction |
| `Compaction.HashesReplay` | src/AofManager.cpp:129-136 | the HSET records give back the hashes whatever the order of hashes and fields |
| `ReplayLaws.ReplayIgnoresStamps` | src/AofManager.cpp:75-101 | replaying records that set no deadline into stores with the same data gives the same data, at any two clocks |
| `Replay.ReplayConcat` | src/AofManager.cpp:46-106 | replaying a log in two parts is replaying it |
| `LoaderLaws.SetIsReplayed` | src/AofManager.cpp:77-78 | SET stores its value for ever, whatever follows it in the record; other keys stay |
| `LoaderLaws.DelIsReplayed` | src/AofManager.cpp:79-82 | DEL removes every key it names, and nothing else |
| `LoaderLaws.ExpireIsReplayed` | src/AofManager.cpp:83-84 | EXPIRE gives a string that is alive that many seconds from the time of the load, or erases it; it throws, and changes nothing, exactly when its seconds are no number |
| `LoaderLaws.HsetIsReplayed` | src/AofManager.cpp:85-86 | HSET sets the one field |
| `LoaderLaws.HdelIsReplayed` | src/AofManager.cpp:87-88 | HDEL removes the field, and the hash with its last one |
| `LoaderLaws.PushIsReplayed` | src/AofManager.cpp:89-96 | LPUSH and RPUSH push every value in the order of the record |
| `LoaderLaws.FlushdbIsReplayed` | src/AofManager.cpp:97-98 | FLUSHDB leaves an empty store |
| `LoaderLaws.NothingElseIsReplayed` | src/AofManager.cpp:76-99 | any other record, lower-case names and records with too few words included, changes nothing and does not throw |
| `LoaderLaws.ReplayedCount` | src/AofManager.cpp:75-105 | the number of records replayed is that of all records but the EXPIREs whose seconds are no number |
| `Durability.Logs` | src/CommandParser.cpp:83-87 | after a command that logged a record, the log still loads into the live store if and only if replaying that record on the old store does what the command did |
| `Durability.SetDurable` | src/CommandParser.cpp:69-88 | SET survives a reload if and only if it stores no deadline, and its name was in upper case or the value was there already (or it failed) |
| `Durability.SetexDurable` | src/CommandParser.cpp:91-108 | SETEX survives, being logged as SET, if and only if its seconds are not positive (or it failed) |
| `Durability.MsetDurable` | src/CommandParser.cpp:144-156 | MSET survives if and only if every key already had the last value given for it |
| `Durability.CounterDurable` | src/CommandParser.cpp:159-189 | INCR, DECR and INCRBY survive if and only if they fail or leave the text as it was |
| `Durability.HsetDurable` | src/CommandParser.cpp:192-198 | HSET survives if and only if it was in upper case or changed nothing |
| `Durability.HdelDurable` | src/CommandParser.cpp:208-214 | HDEL survives if and only if it was in upper case or the field was missing; not logging a miss is safe |
| `Durability.PushDurable` | src/CommandParser.cpp:242-262 | LPUSH and RPUSH survive if and only if they were in upper case or had too few arguments |
| `Durability.PopDurable` | src/CommandParser.cpp:264-284 | LPOP and RPOP survive if and only if the list was missing |
| `Durability.DelDurable` | src/CommandParser.cpp:306-315 | DEL survives if and only if it was in upper case or no key was there; not logging a miss is safe |
| `Durability.ExpireDurable` | src/CommandParser.cpp:325-336 | EXPIRE survives if and only if the string was missing, or the seconds are not positive and the name was in upper case (or it failed) |
| `Durability.FlushDurable` | src/CommandParser.cpp:349-354 | FLUSHDB in any case survives: it is logged as FLUSHDB |
| `Durability.RewriteDurable` | src/CommandParser.cpp:357-366 | BGREWRITEAOF keeps the log loading into the live store |
| `Durability.PurgeDurable` | src/KeyValueStore.cpp:341-360 | active expiry does not disturb a store without deadlines |
| `Durability.EvictionIsForgotten` | src/main.cpp:84-91 | an eviction survives a reload if and only if it evicted nothing |
| `Sessions.ServeIsDurableIff` | src/CommandParser.cpp:14-380 | for every request whatever, from any client: the log still loads into the live store if and only if the request is none of the writes the loader does not repeat and leaves no deadline in the store |
| `Sessions.ReplayEqualsLiveIff` | src/CommandParser.cpp:14-380 | along any run from an empty store and log, the log loads into the live store throughout if and only if no request of the run is one of those |
| `Sessions.RestartKeepsData` | src/AofManager.cpp:33-109 | in a run without such a request a restart gives the same strings, hashes and lists |
| `Sessions.CompactionSwapsLogs` | src/AofManager.cpp:148-166 | the compacted log in place of the old one, with the same later records after it, loads into the same data |
| `Sessions.CompactionAnywhere` | src/CommandParser.cpp:357-366 | compacting at any point of such a run or not: after the same later requests the live stores are equal and both logs load into them |
| `Sessions.LostWrites` | src/AofManager.cpp:77-99 | from an empty store and log, one plain-text request each: after MSET, INCR, DECR, INCRBY, a lower-case `set`, or SETEX, the log no longer loads into the live store |
| `Sessions.LostPops` | src/AofManager.cpp:77-99 | after RPUSH it does, after a following LPOP or RPOP it no longer does |
| `Sessions.CounterIsLost` | src/AofManager.cpp:77-99 | a concrete run: after a plain-text SET the log loads into the live store, after an INCR it no longer does |
| `Sessions.ExpiryIsDropped` | src/AofManager.cpp:77-78 | SET with a positive EX: the live string has a deadline, the reloaded one has the value and never expires |
| `Sessions.SetexExpiryIsDropped` | src/CommandParser.cpp:96-103 | the same for SETEX, which is logged as SET with EX |
| `Sessions.ExpiryRestarts` | src/AofManager.cpp:83-84 | EXPIRE with positive seconds: the reloaded deadline counts from the time of the load |
| `Growth.RewriteCountExact` | src/AofManager.cpp:120-146 | a rewrite emits exactly one record for each live string, field and list |
| `Growth.DataCovers` | src/CommandParser.cpp:69-366 | every command that adds a string, field or list also adds a record, but for the keys of an MSET beyond the first; so the log stays as long as its rewrite up to those |
| `Growth.CompactionNeverGrows` | src/AofManager.cpp:120-146 | after any run from an empty store and log, on a clock that never steps back, a rewrite emits at most as many records as the log holds, earlier compactions included, plus the keys beyond the first of the run's MSETs |
| `Growth.MsetMayGrow` | src/CommandParser.cpp:144-156 | the bound is met: an MSET of two keys is one record in the log and two in a rewrite |
| `Commands.CommandParser.Execute` | src/CommandParser.cpp:14-66 | parsing, authentication, AUTH, PING, QUIT and dispatch: store, log, session flag, reply and close flag are exactly those of the specification, for every raw request |
| `Commands.CommandParser.ExecuteData` | src/CommandParser.cpp:68-379 | every store command, known or not, does to store, log and reply what the flat specification says |
| `Commands.CommandParser.ExecuteKeys` | src/CommandParser.cpp:306-342 | the dispatch of DEL, EXISTS, EXPIRE and TTL |
| `Commands.CommandParser.ExecuteWhole` | src/CommandParser.cpp:228-379 | HGETALL, DBSIZE, FLUSHDB, BGREWRITEAOF, INFO and the unknown-command error |
| `Commands.CommandParser.ExecuteFlushdb` | src/CommandParser.cpp:349-354 | the store becomes empty, and one more record is appended to the log |
| `Commands.CommandParser.ExecuteSet` | src/CommandParser.cpp:69-88 | arity error, EX parsing and its error before any change, set, log the raw tokens |
| `Commands.CommandParser.ExecuteSetex` | src/CommandParser.cpp:91-108 | arity and number errors, set with a ttl, log as SET with EX |
| `Commands.CommandParser.ExecuteGet` | src/CommandParser.cpp:111-122 | bulk string or null |
| `Commands.CommandParser.ExecuteMget` | src/CommandParser.cpp:125-141 | the header and one bulk string or null for each key, in order |
| `Commands.CommandParser.ExecuteMset` | src/CommandParser.cpp:144-156 | arity error for an odd list, otherwise each pair set in order and one record |
| `Commands.CommandParser.ExecuteIncr` | src/CommandParser.cpp:159-175 | INCR and DECR: logged and answered with the new value only on success |
| `Commands.CommandParser.ExecuteIncrby` | src/CommandParser.cpp:177-189 | the delta parsed first; then as INCR |
| `Commands.CommandParser.ExecuteHset` | src/CommandParser.cpp:192-198 | always logged; 1 exactly for a new field |
| `Commands.CommandParser.ExecuteHget` | src/CommandParser.cpp:200-206 | bulk string or null; nothing changes |
| `Commands.CommandParser.ExecuteHdel` | src/CommandParser.cpp:208-214 | logged only if the field was there |
| `Commands.CommandParser.ExecuteHexists` | src/CommandParser.cpp:216-220 | 1 or 0; nothing changes |
| `Commands.CommandParser.ExecuteHlen` | src/CommandParser.cpp:222-226 | the number of fields; nothing changes |
| `Commands.CommandParser.ExecuteHgetall` | src/CommandParser.cpp:228-239 | fields and values flattened in the order listed |
| `Commands.CommandParser.ExecutePush` | src/CommandParser.cpp:242-262 | LPUSH and RPUSH: every value pushed, one record, the final length |
| `Commands.CommandParser.ExecutePop` | src/CommandParser.cpp:264-284 | LPOP and RPOP: the first value or the last, logged only if one came out (`CollectionLaws.PopLaw` says so from the request) |
| `Commands.CommandParser.ExecuteLlen` | src/CommandParser.cpp:286-290 | the length; nothing changes |
| `Commands.CommandParser.ExecuteLrange` | src/CommandParser.cpp:292-303 | both bounds parsed before the list is read |
| `Commands.CommandParser.ExecuteDel` | src/CommandParser.cpp:306-315 | every key removed, logged only if one existed, the count |
| `Commands.CommandParser.ExecuteExists` | src/CommandParser.cpp:317-322 | 1 or 0; nothing changes |
| `Commands.CommandParser.ExecuteExpire` | src/CommandParser.cpp:325-336 | logged only on success |
| `Commands.CommandParser.ExecuteTtl` | src/CommandParser.cpp:338-342 | the number `ttl` answers |
| `Commands.CommandParser.ExecuteBgrewriteaof` | src/CommandParser.cpp:357-366 | the compacted file in place of the log, or an error when disabled |
| `Commands.CommandParser.ExecuteString` | src/CommandParser.cpp:69-189 | the dispatch of the eight string commands, each with its own arguments |
| `Commands.CommandParser.ExecuteCollection` | src/CommandParser.cpp:192-303 | the dispatch of the hash and list commands, each end of a list with its own |
| `Commands.AuthenticationGate` | src/CommandParser.cpp:32-57 | a request closes the session exactly when it is QUIT, and leaves it authenticated exactly when it was or the request gives the password; before authentication store and log are untouched and nothing of them shows in the outcome |
| `Commands.RunToUpper` | src/CommandParser.cpp:5-12 | the loop upper-cases exactly the letters a to z |
| `Commands.OnlyUpperCaseIsReplayed` | src/AofManager.cpp:77-99 | a name that upper-casing changes is none of the names the loader replays |
| `CommandLaws.SetLaw` | src/CommandParser.cpp:69-88 | from the request: OK, the value under the key for EX seconds if positive and for ever otherwise, hash and list of that name and every other key as before, the request logged; a malformed EX answers an error and changes nothing |
| `CommandLaws.SetexLaw` | src/CommandParser.cpp:91-108 | the same with its seconds, logged as SET key value EX seconds |
| `CommandLaws.GetLaw` | src/CommandParser.cpp:111-122 | the text stored if it is alive, now stamped, and null otherwise, an expired string erased; nothing logged |
| `CommandLaws.MgetLaw` | src/CommandParser.cpp:125-141 | for each key in order the text that was there and alive, or null; no text alive is lost; nothing logged |
| `CommandLaws.MsetLaw` | src/CommandParser.cpp:144-156 | OK, under each key the last value given for it, for ever, keys not named as before, one record |
| `CommandLaws.CounterLaw` | src/CommandParser.cpp:159-189 | INCR, DECR, INCRBY answer and store the number found (or 0) plus 1, minus 1 or the argument, in 64 bits, and keep the deadline; text that is no number is an error that changes nothing |
| `CollectionLaws.HsetLaw` | src/CommandParser.cpp:192-198 | the field has the value, 1 exactly for a new field, logged |
| `CollectionLaws.HgetLaw` | src/CommandParser.cpp:200-206 | the value of the field, or null |
| `CollectionLaws.HdelLaw` | src/CommandParser.cpp:208-214 | the field is gone, and the hash with its last one; 1 and logged exactly if it was there |
| `CollectionLaws.HexistsLaw` | src/CommandParser.cpp:216-220 | 1 exactly if the field is there |
| `CollectionLaws.HlenLaw` | src/CommandParser.cpp:222-226 | the number of fields |
| `CollectionLaws.HgetallLaw` | src/CommandParser.cpp:228-239 | an array of every field once, each followed by its value |
| `CollectionLaws.PushLaw` | src/CommandParser.cpp:242-262 | the list after LPUSH is the values reversed, then the old list; after RPUSH the old list, then the values; its length is answered |
| `CollectionLaws.PopLaw` | src/CommandParser.cpp:264-284 | on a list `was`: LPOP answers was[0] and leaves was[1..], RPOP answers the last value and leaves the rest, an emptied list goes, the request is logged; without a list null, and nothing changes |
| `CollectionLaws.LlenLaw` | src/CommandParser.cpp:286-290 | the length of the list |
| `CollectionLaws.LrangeLaw` | src/CommandParser.cpp:292-303 | exactly the values between the first bound and the second, counted from the end when negative, in order; a malformed bound is an error |
| `KeyLaws.DelLaw` | src/CommandParser.cpp:306-315 | nothing is left under any key named, all else stays, the number of distinct keys that were there is answered, logged exactly if positive |
| `KeyLaws.ExistsLaw` | src/CommandParser.cpp:317-322 | 1 exactly if a string alive, a hash or a list has that name |
| `KeyLaws.ExpireLaw` | src/CommandParser.cpp:325-336 | 1 and logged exactly for a string that is alive, which gets its deadline or, for seconds not positive, goes; an expired one goes too |
| `KeyLaws.TtlLaw` | src/CommandParser.cpp:338-342 | whole seconds left, -1 without a deadline, -2 without a key; an expired string is erased |
| `KeyLaws.DbsizeLaw` | src/CommandParser.cpp:345-347 | strings alive plus hashes plus lists |
| `KeyLaws.FlushdbLaw` | src/CommandParser.cpp:349-354 | an empty store, and the bytes of one FLUSHDB record after the log |
| `KeyLaws.BgrewriteaofLaw` | src/CommandParser.cpp:357-366 | the store as it was, the log a rewrite of it, open; an error where the log is disabled |
| `KeyLaws.InfoLaw` | src/CommandParser.cpp:369-372 | the INFO text as one bulk string, nothing changed |
| `KeyLaws.PingLaw` | src/CommandParser.cpp:60-66 | PONG, or the first argument back |
| `KeyLaws.LockedLaw` | src/CommandParser.cpp:33-45 | before authentication: OK to the password and to QUIT, an error to any other AUTH and another to any other command |
| `KeyLaws.AuthLaw` | src/CommandParser.cpp:48-57 | afterwards: OK to the password, or to any where none is set, and an error to a wrong one |
| `KeyLaws.QuitLaw` | src/CommandParser.cpp:375-377 | OK, and the session is to be closed |
| `KeyLaws.UnknownLaw` | src/CommandParser.cpp:379 | a name that is none of the 31 is answered with an error that repeats it, and changes nothing |
| `KeyLaws.WrongCountLaw` | src/CommandParser.cpp:14-342 | a command with a wrong number of words answers the error with its name in lower case, and changes nothing |
| `Replies.ReplyIsOneValue` | src/CommandParser.cpp:23-379 | every reply is empty exactly when there are no tokens, and otherwise reads as exactly one RESP2 value with nothing left over; the one exception is an unknown command, if and only if its name has a line break |
| `Replies.PlainTextRepliesAreValues` | src/RespParser.cpp:80-114 | over plain text there is no exception |
| `Replies.MgetReplyIsRead` | src/CommandParser.cpp:125-141 | the hand-built MGET reply reads as an array with, for each key in order, the value `get` answers or null |
| `Replies.ArrayReplyIsRead` | src/RespParser.cpp:154-160 | a serialized array reads as exactly its items, whatever bytes they hold |
| `Replies.BulkIsRead` | src/RespParser.cpp:138-148 | a bulk string reads as its bytes and leaves the rest alone |
| `Replies.NumberReplyIsRead` | src/RespParser.cpp:134-136 | an integer reply reads as its number |
| `Replies.ErrorIsRead` | src/RespParser.cpp:125-132 | an error reads as one value if and only if its message has no line break |
| `Resp.SerializeArray` | src/RespParser.cpp:154-160 | the loop builds exactly the encoded array |
| `Resp.RunParseRequest` | src/RespParser.cpp:5-25 | leading blanks skipped, an array if it parses to something, otherwise plain text |
| `Resp.RunParseArray` | src/RespParser.cpp:27-78 | the scanning loop with every early return, `stoi`'s leniency and the optional CRLF after a value |
| `Resp.RunParsePlainText` | src/RespParser.cpp:80-114 | the quote-aware splitter, character by character |
| `Resp.ArrayRoundTrip` | src/RespParser.cpp:5-78 | a non-empty array with count and lengths below 2^31 is parsed back exactly, whatever follows it |
| `Resp.TightArrayIsRead` | src/RespParser.cpp:72-74 | the line break after each value may be missing |
| `Resp.BrokenArrayIsNone` | src/RespParser.cpp:39-55 | an array that after some whole values ends, goes on with another mark, or has a length line without an end or without a number, is read as plain text instead |
| `Resp.LastLengthDecides` | src/RespParser.cpp:50-75 | a value announced longer than what has come makes the array plain text; a last value takes its length, or, when that is negative, all that has come |
| `Resp.LineIsWords` | src/RespParser.cpp:5-78 | a request that is a single line is never read as an array, whatever is in it |
| `Resp.QuotedRoundTrip` | src/RespParser.cpp:86-113 | words in quotes of one kind are read as what is between the quotes, blanks and the other quote included |
| `Resp.LeadingBlanks` | src/RespParser.cpp:7-9 | blanks before a request do not matter |
| `Resp.PlainTextRoundTrip` | src/RespParser.cpp:80-114 | a line of unquoted words reads as those words |
| `Resp.PlainTextGivesWords` | src/RespParser.cpp:86-113 | plain text never gives an empty token or one with a line break |
| `Resp.ParsedAtMost` | src/RespParser.cpp:5-114 | no token is longer than the request; plain text gives no more tokens than bytes, an array no more than its count, an int, says |
| `Framing.Connection.OnReadable` | src/TcpServer.cpp:190-225 | one read: append to the buffer, execute each complete line until none is left or a reply closes the session |
| `Framing.Connection.ServeLine` | src/TcpServer.cpp:199-224 | one line: cut from the buffer before it is executed, its reply appended to the bytes sent, the buffer dropped on close; what that makes of whole conversations is in `Conversation` |
| `Framing.ChunkingDoesNotMatter` | src/TcpServer.cpp:190-225 | two ways of cutting the same bytes into reads execute the same lines, up to the first closing reply, and end with the same store, log, session, bytes sent and buffer |
| `Framing.NoByteIsLost` | src/TcpServer.cpp:190-225 | lines executed end in their only line feed; while the session is open they and the buffer are the bytes received, and the buffer has no line feed |
| `Conversation.SentIsReplies` | src/TcpServer.cpp:213-215 | after any number of lines the bytes sent are the replies to the lines executed, one after the other, in line order |
| `Conversation.ConversationIsRead` | src/TcpServer.cpp:198-216 | whatever a client sends, what it is sent reads as exactly one RESP2 value for every line that asks for something, the i-th being the reply to the i-th such line, with nothing left over |
| `Conversation.ClosedIffQuit` | src/TcpServer.cpp:217-224 | a session is closed exactly when a line executed was QUIT; that line is the last one, and what had arrived after it is dropped |
| `Conversation.HeaderIsUnknown` | src/TcpServer.cpp:198-213 | the header of an array, or of a bulk string, arrives as a line of its own and is answered as an unknown command |
| `Conversation.WordAsArray` | src/TcpServer.cpp:198-213 | a request of one word sent as an array gets two errors, and then the reply to the word |
| `Framing.NothingBeforeAuth` | src/CommandParser.cpp:32-45 | where a password is required: after any number of lines none of which gives it, store and log are as they were, and the session, the bytes sent included, is the same whatever they hold and whatever the environment chose |
| `Framing.AuthenticatedIff` | src/CommandParser.cpp:32-57 | the session is authenticated exactly when it was or some line so far gave the password |
| `Framing.DrainIsTurns` | src/TcpServer.cpp:198-225 | a read is some number of lines executed, so both hold of whole reads |
| `Framing.Connection.constructor` | src/TcpServer.cpp:150-154 | a session starts with an empty buffer, authenticated exactly where no password is required |
| `ThreadPool.StartInv` | src/ThreadPool.cpp:3-49 | a new pool, any number of threads and callers, satisfies the invariant |
| `ThreadPool.RunKeepsInv` | src/ThreadPool.cpp:12-79 | the invariant of mutex, queue, tasks, sleepers and exits holds in every state of every run, although `stop_` is set without the mutex |
| `ThreadPool.NoStrandedTask` | src/ThreadPool.cpp:12-64 | in every reachable state each accepted task is in exactly one of the queue, one worker's hands or the finished set, and tasks leave the queue in the order of acceptance |
| `ThreadPool.NothingLeftAfterExit` | src/ThreadPool.cpp:26-28 | once any worker has exited the pool is stopped, the queue is empty for ever, and no task is accepted any more |
| `ThreadPool.NeverPopsEmptyQueue` | src/ThreadPool.cpp:30-32 | in no run does a worker pop an empty queue; the transition that would is part of the model |
| `ThreadPool.NoLostWakeup` | include/ThreadPool.hpp:87-99 | if tasks wait and no caller is between its push and its notify, a worker is awake |
| `ThreadPool.WaitingMeansMoving` | src/ThreadPool.cpp:18-45 | with tasks waiting, some step of a worker, or of a caller already inside its call, is possible |
| `ThreadPool.StepsDecrease` | src/ThreadPool.cpp:12-64 | every step of a worker or a caller lowers a natural number, which only spurious wakeups and the final broadcast can raise, by at most 4 per worker woken |
| `ThreadPool.QueueDrains` | src/ThreadPool.cpp:12-64 | in any run the steps of workers and callers are bounded by that number at its start plus what the wakeups add, and where none of them is possible any more the queue is empty |
| `ThreadPool.RunKeepsRefusal` | include/ThreadPool.hpp:90-97 | in no run is a call refused before the pool is stopped |
| `ThreadPool.StuckMeansIdle` | src/ThreadPool.cpp:12-64 | where no step of a worker or caller is possible, the queue is empty, the mutex free, no call is under way, and every worker sleeps or has exited |
| `ThreadPool.EveryTaskIsRun` | src/ThreadPool.cpp:12-64 | in any run of a new pool, where nothing can move any more each caller has not begun, or was refused by a stopped pool, or its task is finished |
| `ThreadPool.BroadcastIff` | src/ThreadPool.cpp:66-71 | the broadcast of the destructor leaves no worker that sleeps or will, if and only if none has looked at the flag before it was stored and not gone to sleep yet |
| `ThreadPool.ShutdownCompletes` | src/ThreadPool.cpp:66-79 | then, whatever run follows, where nothing can move any more every worker has exited and every accepted task is finished |
| `ThreadPool.ShutdownCanHang` | src/ThreadPool.cpp:66-79 | and otherwise it need not: a run of five steps in which the only worker goes to sleep after the broadcast, for ever |

## Left out

- Sockets, poll, accept, partial sends, signals and the Windows branches: a read delivers some bytes, a send delivers all of them.
- File opening, flushing, closing and I/O errors: the log is a sequence of bytes, and the rename of a compaction is one step that succeeds, so the reply "rewriting failed" never occurs.
- Appends concurrent with a compaction: the snapshot at src/AofManager.cpp:121 is taken before the lock at line 152, so such an append can be lost; requests run on one thread here.
- Allocation failure: sizes are bounded by MAX_SIZE where the container limit matters, and memory is otherwise unlimited.
- The record header `*0` in a log (undefined behaviour in C++, never written): treated as a record that does nothing.
- Signed overflow in `incr_by` and in adding seconds to a time point (undefined behaviour in C++): the counter wraps to 64 bits, time does not overflow.
- Runs that go on after a deadline was stored: such a store is not durable; `Sessions.ExpiryIsDropped`, `Sessions.SetexExpiryIsDropped` and `Sessions.ExpiryRestarts` say what becomes of that deadline.
- LRU eviction inside the runs of `Sessions` and `Growth`: it is not logged; `Durability.EvictionIsForgotten` says what that means for one eviction.
- KeyValueStore.KeyValueStore.Ttl: models `ttl` as one atomic step; its two lock sections are in `Linearizability`, with the exact condition under which the second is harmless.
- Atomicity of `size`, `clear`, `get_snapshot` and MSET between threads: they lock one shard at a time; they are modelled sequentially.
- Lock sections on reads: a section under a shared lock is one atomic step.
- Repeated purging removing every expired key: not promised by the code, whose scan always starts at the beginning.
- Futures, packaged tasks and exceptions in tasks: a task is an identity that is run and finishes.
- Metrics, the contents of INFO, configuration parsing, logging, Docker and build files: plumbing; INFO's text is a parameter.
- `std::hash`, buckets, cache alignment: any hash function will do.
