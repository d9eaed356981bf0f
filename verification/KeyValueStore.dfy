/** The sharded store (include/KeyValueStore.hpp, src/KeyValueStore.cpp): 64 shards
    updated in place behind an arbitrary hash function, proved to answer like the
    flat store. Each method takes its steady_clock sample as a parameter. */
module KeyValueStore {
  import opened Basics
  import opened Numerals
  import opened FlatStore
  import opened Shards
  import opened Snapshots
  import opened Sampling
  import Expiry

  // ---- walking over the shards ----------------------------------------------

  function ShardSize(shard: Flat, now: int): nat {
    |Unexpired(shard.strings, now)| + |shard.hashes| + |shard.lists|
  }

  /** The running total of the loop in `size`, after `i` shards. */
  function SizeOf(shards: seq<Flat>, i: nat, now: int): nat
    requires i <= |shards|
  {
    if i == 0 then 0 else SizeOf(shards, i - 1, now) + ShardSize(shards[i - 1], now)
  }

  lemma {:induction false} SizeOfShards(shards: seq<Flat>, f: Flat, hash: Hash, i: nat, now: int)
    requires Represents(shards, f, hash) && i <= NUM_SHARDS
    ensures SizeOf(shards, i, now)
            == CountBefore(Unexpired(f.strings, now), hash, i) + CountBefore(f.hashes, hash, i)
               + CountBefore(f.lists, hash, i)
  {
    hide CountBefore, Represents, Unexpired, In, Before, ShardIndex, SlotOf;
    if i == 0 {
      CountAll(Unexpired(f.strings, now), hash);
      CountAll(f.hashes, hash);
      CountAll(f.lists, hash);
    } else {
      SizeOfShards(shards, f, hash, i - 1, now);
      ShardIsPart(shards, f, hash, i - 1);
      UnexpiredIn(f.strings, hash, i - 1, now);
      CountNext(Unexpired(f.strings, now), hash, i - 1);
      CountNext(f.hashes, hash, i - 1);
      CountNext(f.lists, hash, i - 1);
    }
  }

  lemma UnexpiredIn(strings: map<string, Entry>, hash: Hash, i: nat, now: int)
    ensures Unexpired(In(strings, hash, i), now) == In(Unexpired(strings, now), hash, i)
  {
  }

  /** Counting shard by shard gives the size of the flat store. */
  lemma SizeOfAll(shards: seq<Flat>, f: Flat, hash: Hash, now: int)
    requires Represents(shards, f, hash)
    ensures |shards| == NUM_SHARDS && SizeOf(shards, NUM_SHARDS, now) == FlatStore.Size(f, now)
  {
    SizeOfShards(shards, f, hash, NUM_SHARDS, now);
    CountAll(Unexpired(f.strings, now), hash);
    CountAll(f.hashes, hash);
    CountAll(f.lists, hash);
    assert Unexpired(f.strings, now).Keys == LiveStrings(f, now);
  }

  function DataBefore(data: Data, hash: Hash, i: nat): Data {
    Data(Before(data.strings, hash, i), Before(data.hashes, hash, i), Before(data.lists, hash, i))
  }

  lemma SnapshotOfNone(data: Data, hash: Hash)
    ensures IsSnapshot(Snapshot([], [], []), DataBefore(data, hash, 0))
  {
    AllShards(data.strings, hash);
    AllShards(data.hashes, hash);
    AllShards(data.lists, hash);
    assert AsMaps([]) == [];
  }

  lemma DataBeforeAll(data: Data, hash: Hash)
    ensures DataBefore(data, hash, NUM_SHARDS) == data
  {
    AllShards(data.strings, hash);
    AllShards(data.hashes, hash);
    AllShards(data.lists, hash);
  }

  /** The part of a snapshot that one shard contributes. */
  predicate ListsShard(part: Snapshot, shard: Flat, now: int) {
    && Lists(part.strings, LiveValues(shard.strings, now))
    && ListsHashes(part.hashes, shard.hashes)
    && Lists(part.lists, shard.lists)
  }

  function Joined(s: Snapshot, part: Snapshot): Snapshot {
    Snapshot(s.strings + part.strings, s.hashes + part.hashes, s.lists + part.lists)
  }

  /** The snapshot lists what the first `i` shards hold. */
  ghost predicate SnapshotUpTo(shards: seq<Flat>, f: Flat, hash: Hash, now: int, s: Snapshot, i: nat) {
    Represents(shards, f, hash) && IsSnapshot(s, DataBefore(LiveData(f, now), hash, i))
  }

  lemma SnapshotStart(shards: seq<Flat>, f: Flat, hash: Hash, now: int)
    requires Represents(shards, f, hash)
    ensures SnapshotUpTo(shards, f, hash, now, Snapshot([], [], []), 0)
  {
    hide Represents, IsSnapshot, DataBefore, LiveData;
    SnapshotOfNone(LiveData(f, now), hash);
  }

  lemma SnapshotEnd(shards: seq<Flat>, f: Flat, hash: Hash, now: int, s: Snapshot)
    requires SnapshotUpTo(shards, f, hash, now, s, |shards|)
    ensures IsSnapshot(s, LiveData(f, now))
  {
    hide IsSnapshot, DataBefore, LiveData;
    DataBeforeAll(LiveData(f, now), hash);
  }

  lemma SnapshotStep(shards: seq<Flat>, f: Flat, hash: Hash, i: nat, now: int, s: Snapshot, part: Snapshot)
    requires SnapshotUpTo(shards, f, hash, now, s, i) && i < |shards|
    requires ListsShard(part, shards[i], now)
    ensures SnapshotUpTo(shards, f, hash, now, Joined(s, part), i + 1)
  {
    var data := LiveData(f, now);
    DataInShard(shards, f, hash, i, now);
    hide Lists, ListsHashes, LiveData, LiveValues, Before, In, Represents;
    NextShard(data.strings, hash, i);
    NextShard(data.hashes, hash, i);
    NextShard(data.lists, hash, i);
    ListsConcat(s.strings, Before(data.strings, hash, i), part.strings, In(data.strings, hash, i));
    ListsConcat(s.lists, Before(data.lists, hash, i), part.lists, In(data.lists, hash, i));
    HashesConcat(s.hashes, Before(data.hashes, hash, i), part.hashes, In(data.hashes, hash, i));
  }

  lemma DataInShard(shards: seq<Flat>, f: Flat, hash: Hash, i: nat, now: int)
    requires Represents(shards, f, hash) && i < NUM_SHARDS
    ensures |shards| == NUM_SHARDS
    ensures LiveValues(shards[i].strings, now) == In(LiveData(f, now).strings, hash, i)
    ensures shards[i].hashes == In(LiveData(f, now).hashes, hash, i)
    ensures shards[i].lists == In(LiveData(f, now).lists, hash, i)
  {
    ShardIsPart(shards, f, hash, i);
    assert |shards| == NUM_SHARDS;
    hide Represents;
    assert LiveValues(In(f.strings, hash, i), now) == In(LiveData(f, now).strings, hash, i);
  }

  /** What the loop in `purge_expired_keys` has done: `seen[j]` are the strings it
      visited in shard j. */
  ghost predicate Purging(was: seq<Flat>, shards: seq<Flat>, limit: nat, now: int, seen: seq<set<string>>) {
    && |shards| == |was| && |seen| <= |was|
    && (forall j :: 0 <= j < |seen| ==> PurgedShard(was[j], shards[j], limit, now, seen[j]))
    && (forall j :: |seen| <= j < |was| ==> shards[j] == was[j])
  }

  predicate PurgedShard(was: Flat, shard: Flat, limit: nat, now: int, seen: set<string>) {
    shard == Expiry.Purge(was, seen, now) && seen <= was.strings.Keys && |seen| == Min(limit, |was.strings|)
  }

  function Erased(was: seq<Flat>, shards: seq<Flat>, i: nat): int
    requires i <= |was| && i <= |shards|
  {
    if i == 0 then 0 else Erased(was, shards, i - 1) + |was[i - 1].strings| - |shards[i - 1].strings|
  }

  lemma {:induction false} ErasedFrame(was: seq<Flat>, shards: seq<Flat>, i: nat, j: nat, shard: Flat)
    requires i <= j < |was| && |was| == |shards|
    ensures Erased(was, shards[j := shard], i) == Erased(was, shards, i)
  {
    if i > 0 {
      ErasedFrame(was, shards, i - 1, j, shard);
    }
  }

  lemma {:induction false} ErasedTotal(was: seq<Flat>, f: Flat, shards: seq<Flat>, g: Flat, hash: Hash, i: nat)
    requires Represents(was, f, hash) && Represents(shards, g, hash) && i <= NUM_SHARDS
    ensures Erased(was, shards, i) == CountBefore(f.strings, hash, i) - CountBefore(g.strings, hash, i)
  {
    hide CountBefore, Represents, In, Before, ShardIndex, SlotOf;
    if i == 0 {
      CountAll(f.strings, hash);
      CountAll(g.strings, hash);
    } else {
      ErasedTotal(was, f, shards, g, hash, i - 1);
      ShardIsPart(was, f, hash, i - 1);
      ShardIsPart(shards, g, hash, i - 1);
      CountNext(f.strings, hash, i - 1);
      CountNext(g.strings, hash, i - 1);
    }
  }

  function Union(sets: seq<set<string>>): set<string> {
    set i, k | 0 <= i < |sets| && k in sets[i] :: k
  }

  lemma PurgeOfAll(was: seq<Flat>, shards: seq<Flat>, f: Flat, hash: Hash, limit: nat, now: int, seen: seq<set<string>>)
    requires Represents(was, f, hash) && Purging(was, shards, limit, now, seen) && |seen| == NUM_SHARDS && Tidy(f)
    ensures var g := Expiry.Purge(f, Union(seen), now);
            && Represents(shards, g, hash) && Tidy(g)
            && Erased(was, shards, NUM_SHARDS) == |f.strings| - |g.strings|
    ensures Union(seen) <= f.strings.Keys
    ensures forall i :: 0 <= i < NUM_SHARDS ==> |InShard(Union(seen), hash, i)| == Min(limit, |In(f.strings, hash, i)|)
  {
    var visited := Union(seen);
    SeenInShards(was, shards, f, hash, limit, now, seen);
    hide Purging, PurgedShard, Union, Tidy;
    PurgeShards(was, shards, f, hash, visited, now);
    TidyAfterPurge(f, visited, now);
    hide Represents;
    ErasedTotal(was, f, shards, Expiry.Purge(f, visited, now), hash, NUM_SHARDS);
    CountAll(f.strings, hash);
    CountAll(Expiry.Purge(f, visited, now).strings, hash);
  }

  /** What was seen in the other shards makes no difference to this one. */
  lemma SeenInShards(was: seq<Flat>, shards: seq<Flat>, f: Flat, hash: Hash, limit: nat, now: int,
                     seen: seq<set<string>>)
    requires Represents(was, f, hash) && Purging(was, shards, limit, now, seen) && |seen| == NUM_SHARDS
    ensures Union(seen) <= f.strings.Keys
    ensures |shards| == NUM_SHARDS
    ensures forall i :: 0 <= i < NUM_SHARDS ==> shards[i] == Expiry.Purge(was[i], Union(seen), now)
    ensures forall i :: 0 <= i < NUM_SHARDS ==> |InShard(Union(seen), hash, i)| == Min(limit, |In(f.strings, hash, i)|)
  {
    forall j | 0 <= j < NUM_SHARDS ensures was[j].strings == In(f.strings, hash, j) {
      ShardIsPart(was, f, hash, j);
    }
    hide Represents;
    forall i | 0 <= i < NUM_SHARDS
      ensures shards[i] == Expiry.Purge(was[i], Union(seen), now)
      ensures |InShard(Union(seen), hash, i)| == Min(limit, |In(f.strings, hash, i)|)
    {
      assert PurgedShard(was[i], shards[i], limit, now, seen[i]);
      SeenHere(was, f, hash, seen, i);
      var others := Union(seen) - seen[i];
      PurgeElsewhere(was[i], seen[i], others, now);
      assert seen[i] + others == Union(seen);
    }
    forall k | k in Union(seen) ensures k in f.strings {
      var i :| 0 <= i < |seen| && k in seen[i];
      assert PurgedShard(was[i], shards[i], limit, now, seen[i]);
    }
  }

  lemma SeenHere(was: seq<Flat>, f: Flat, hash: Hash, seen: seq<set<string>>, i: nat)
    requires i < |seen| == |was| == NUM_SHARDS
    requires forall j :: 0 <= j < NUM_SHARDS ==> was[j].strings == In(f.strings, hash, j)
    requires forall j :: 0 <= j < NUM_SHARDS ==> seen[j] <= was[j].strings.Keys
    ensures InShard(Union(seen), hash, i) == seen[i]
    ensures seen[i] <= Union(seen)
    ensures (Union(seen) - seen[i]) !! was[i].strings.Keys
  {
  }

  /** The candidates sample the shards before `i`. */
  predicate Sampled(cs: seq<KeyTimestamp>, strings: map<string, Entry>, hash: Hash, i: nat) {
    && Faithful(cs, strings, hash)
    && KeysOf(cs) <= Before(strings, hash, i).Keys
    && forall j :: 0 <= j < i ==> |InShard(KeysOf(cs), hash, j)| == Min(SAMPLE, |In(strings, hash, j)|)
  }

  lemma SamplingNone(strings: map<string, Entry>, hash: Hash)
    ensures Sampled([], strings, hash, 0)
  {
    NoCandidates();
  }

  lemma SampledStep(cs: seq<KeyTimestamp>, more: seq<KeyTimestamp>, strings: map<string, Entry>, hash: Hash, i: nat)
    requires Sampled(cs, strings, hash, i)
    requires Faithful(more, In(strings, hash, i), hash) && |more| == Min(SAMPLE, |In(strings, hash, i)|)
    ensures Sampled(cs + more, strings, hash, i + 1)
  {
    hide Faithful, KeysOf, In, InShard, Before, Min;
    SampleGrows(cs, more, strings, hash, i);
  }

  lemma SampledAll(cs: seq<KeyTimestamp>, strings: map<string, Entry>, hash: Hash)
    requires Sampled(cs, strings, hash, NUM_SHARDS)
    ensures Faithful(cs, strings, hash) && IsSample(KeysOf(cs), strings, hash)
  {
    hide Faithful, KeysOf, In, InShard;
    AllShards(strings, hash);
  }

  lemma KeysIn(strings: map<string, Entry>, hash: Hash, i: nat)
    ensures forall k :: k in In(strings, hash, i) ==> ShardIndex(hash, k) == i
  {
  }

  lemma NoCandidates()
    ensures KeysOf([]) == {}
  {
  }

  lemma EraseNone(cs: seq<KeyTimestamp>, f: Flat)
    ensures Evict(f, KeysOf(cs[..0])) == f
  {
    NoCandidates();
    assert cs[..0] == [];
    EvictNothing(f);
  }

  lemma FaithfulToo(cs: seq<KeyTimestamp>, r: seq<KeyTimestamp>, strings: map<string, Entry>, hash: Hash)
    requires Faithful(cs, strings, hash) && |r| == |cs| && KeysOf(r) == KeysOf(cs)
    requires forall c :: c in r <==> c in cs
    ensures Faithful(r, strings, hash)
  {
  }

  /** Erasing the next candidate finds it in its shard and follows the flat store. */
  lemma EraseStep(shards: seq<Flat>, f: Flat, cs: seq<KeyTimestamp>, i: nat, hash: Hash)
    requires Faithful(cs, f.strings, hash) && i < |cs|
    requires Represents(shards, Evict(f, KeysOf(cs[..i])), hash)
    ensures cs[i].shard < NUM_SHARDS && cs[i].key in shards[cs[i].shard].strings
    ensures var shard := shards[cs[i].shard].(strings := shards[cs[i].shard].strings - {cs[i].key});
            Represents(shards[cs[i].shard := shard], Evict(f, KeysOf(cs[..i + 1])), hash)
  {
    var c, victims := cs[i], KeysOf(cs[..i]);
    KeysSnoc(cs, i);
    assert c in cs;
    assert SlotOf(shards[ShardIndex(hash, c.key)], c.key) == SlotOf(Evict(f, victims), c.key);
    var shard := shards[c.shard].(strings := shards[c.shard].strings - {c.key});
    assert forall k :: k != c.key ==> SlotOf(shard, k) == SlotOf(shards[c.shard], k);
    assert SlotOf(shard, c.key) == SlotOf(f, c.key).(entry := None);
    hide Represents, SlotOf, WithSlot, KeysOf;
    UpdateShard(shards, Evict(f, victims), hash, c.key, shard);
    EvictOne(f, victims, c.key);
  }

  class KeyValueStore {
    const hash: Hash
    const shards: array<Flat>
    ghost var contents: Flat

    ghost predicate Valid()
      reads this, shards
    {
      Represents(shards[..], contents, hash) && Tidy(contents)
    }

    constructor (hash: Hash)
      ensures Valid() && fresh(shards)
      ensures this.hash == hash && contents == EMPTY
    {
      this.hash := hash;
      shards := new Flat[NUM_SHARDS](_ => EMPTY);
      contents := EMPTY;
      new;
      RepresentsEmpty(shards[..], hash);
    }

    function GetShardIndex(key: string): (i: nat)
      ensures i < NUM_SHARDS
    {
      ShardIndex(hash, key)
    }

    /** The flat store follows the one shard that an operation has rewritten. */
    ghost method Settle(was: seq<Flat>, op: Op, now: int)
      requires Represents(was, contents, hash) && Tidy(contents) && shards.Length == NUM_SHARDS
      requires shards[..] == was[GetShardIndex(op.key) := shards[..][GetShardIndex(op.key)]]
      requires forall k :: k != op.key ==>
                 SlotOf(shards[..][GetShardIndex(op.key)], k) == SlotOf(was[GetShardIndex(op.key)], k)
      requires SlotOf(shards[..][GetShardIndex(op.key)], op.key)
               == Act(SlotOf(was[GetShardIndex(op.key)], op.key), op, now).0
      modifies this`contents
      ensures Valid() && contents == Apply(old(contents), op, now).0
    {
      hide Act, SlotOf, WithSlot, TidySlot, ShardIndex;
      UpdateShard(was, contents, hash, op.key, shards[..][GetShardIndex(op.key)]);
      ApplyKeepsTidy(contents, op, now);
      contents := Apply(contents, op, now).0;
    }

    /** A read: the answer is the flat store's and nothing changed. */
    lemma Reads(op: Op, now: int)
      requires Valid()
      ensures SlotOf(shards[GetShardIndex(op.key)], op.key) == SlotOf(contents, op.key)
      ensures Apply(contents, op, now).1 == Act(SlotOf(shards[GetShardIndex(op.key)], op.key), op, now).1
    {
      hide Act, WithSlot;
      assert shards[..][ShardIndex(hash, op.key)] == shards[GetShardIndex(op.key)];
    }

    // ---- strings and counters ---------------------------------------------

    method Set(key: string, value: string, ttl: Option<int>, now: int)
      requires Valid()
      modifies shards, this`contents
      ensures Valid() && contents == Apply(old(contents), Op.Set(key, value, ttl), now).0
    {
      ghost var was := shards[..];
      var i := GetShardIndex(key);
      var expires := None;
      if ttl.Some? && ttl.value > 0 {
        expires := Some(now + ttl.value * SECOND);
      }
      shards[i] := shards[i].(strings := shards[i].strings[key := Entry(value, expires, now)]);
      Settle(was, Op.Set(key, value, ttl), now);
    }

    method Get(key: string, now: int) returns (r: Option<string>)
      requires Valid()
      modifies shards, this`contents
      ensures Valid() && (contents, Text(r)) == Apply(old(contents), Op.Get(key), now)
    {
      ghost var was := shards[..];
      Reads(Op.Get(key), now);
      var i := GetShardIndex(key);
      if key !in shards[i].strings {
        Settle(was, Op.Get(key), now);
        return None;
      }
      var e := shards[i].strings[key];
      if e.expires.None? || e.expires.value > now {
        r := Some(e.value);
        shards[i] := shards[i].(strings := shards[i].strings[key := shards[i].strings[key].(accessed := now)]);
      } else if e.expires.Some? && e.expires.value <= now {
        r := None;
        shards[i] := shards[i].(strings := shards[i].strings - {key});
      }
      Settle(was, Op.Get(key), now);
    }

    method Del(key: string, now: int) returns (removed: bool)
      requires Valid()
      modifies shards, this`contents
      ensures Valid() && (contents, Flag(removed)) == Apply(old(contents), Op.Del(key), now)
    {
      ghost var was := shards[..];
      Reads(Op.Del(key), now);
      var i := GetShardIndex(key);
      removed := key in shards[i].strings;
      removed := key in shards[i].hashes || removed;
      removed := key in shards[i].lists || removed;
      shards[i] := Flat(shards[i].strings - {key}, shards[i].hashes - {key}, shards[i].lists - {key});
      Settle(was, Op.Del(key), now);
    }

    method Exists(key: string, now: int) returns (found: bool)
      requires Valid()
      ensures (contents, Flag(found)) == Apply(contents, Op.Exists(key), now)
    {
      Reads(Op.Exists(key), now);
      NoChange(Op.Exists(key), now);
      var i := GetShardIndex(key);
      if key in shards[i].strings {
        var e := shards[i].strings[key];
        if e.expires.None? || e.expires.value > now {
          return true;
        }
      }
      if key in shards[i].hashes { return true; }
      if key in shards[i].lists { return true; }
      return false;
    }

    /** An operation that leaves its slot alone leaves the store alone. */
    lemma NoChange(op: Op, now: int)
      requires Act(SlotOf(contents, op.key), op, now).0 == SlotOf(contents, op.key)
      ensures Apply(contents, op, now).0 == contents
    {
      hide Act, SlotOf, WithSlot;
      SlotsDetermine(Apply(contents, op, now).0, contents);
    }

    method Expire(key: string, seconds: int, now: int) returns (ok: bool)
      requires Valid()
      modifies shards, this`contents
      ensures Valid() && (contents, Flag(ok)) == Apply(old(contents), Op.Expire(key, seconds), now)
    {
      ghost var was := shards[..];
      Reads(Op.Expire(key, seconds), now);
      var i := GetShardIndex(key);
      if key !in shards[i].strings {
        ok := false;
      } else {
        var e := shards[i].strings[key];
        if e.expires.Some? && e.expires.value <= now {
          shards[i] := shards[i].(strings := shards[i].strings - {key});
          ok := false;
        } else {
          if seconds > 0 {
            shards[i] := shards[i].(strings := shards[i].strings[key := e.(expires := Some(now + seconds * SECOND))]);
          } else {
            shards[i] := shards[i].(strings := shards[i].strings - {key});
          }
          ok := true;
        }
      }
      Settle(was, Op.Expire(key, seconds), now);
    }

    method Ttl(key: string, now: int) returns (r: int)
      requires Valid()
      modifies shards, this`contents
      ensures Valid() && (contents, Count(r)) == Apply(old(contents), Op.Ttl(key), now)
    {
      ghost var was := shards[..];
      Reads(Op.Ttl(key), now);
      var i := GetShardIndex(key);
      if key !in shards[i].strings {
        r := if key in shards[i].hashes || key in shards[i].lists then -1 else -2;
      } else {
        var e := shards[i].strings[key];
        if e.expires.None? {
          r := -1;
        } else if e.expires.value <= now {
          shards[i] := shards[i].(strings := shards[i].strings - {key});
          r := -2;
        } else {
          var remaining := (e.expires.value - now) / SECOND;
          r := if remaining >= 0 then remaining else -2;
        }
      }
      Settle(was, Op.Ttl(key), now);
    }

    method IncrBy(key: string, delta: int, now: int) returns (ok: bool, number: int)
      requires Valid()
      modifies shards, this`contents
      ensures Valid() && (contents, Counter(ok, number)) == Apply(old(contents), Op.IncrBy(key, delta), now)
    {
      ghost var was := shards[..];
      Reads(Op.IncrBy(key, delta), now);
      var i := GetShardIndex(key);
      if key !in shards[i].strings
         || (shards[i].strings[key].expires.Some? && shards[i].strings[key].expires.value <= now) {
        shards[i] := shards[i].(strings := shards[i].strings[key := Entry(DecimalInt(delta), None, now)]);
        ok, number := true, delta;
      } else {
        var e := shards[i].strings[key];
        var current := Stoll(e.value);
        if current.Some? {
          number := Wrap64(current.value + delta);
          shards[i] := shards[i].(strings :=
            shards[i].strings[key := e.(value := DecimalInt(number), accessed := now)]);
          ok := true;
        } else {
          ok, number := false, 0;
        }
      }
      Settle(was, Op.IncrBy(key, delta), now);
    }

    // ---- hashes -------------------------------------------------------------

    method Hset(key: string, field: string, value: string, now: int) returns (isNew: bool)
      requires Valid()
      modifies shards, this`contents
      ensures Valid() && (contents, Flag(isNew)) == Apply(old(contents), Op.Hset(key, field, value), now)
    {
      ghost var was := shards[..];
      Reads(Op.Hset(key, field, value), now);
      var i := GetShardIndex(key);
      var fields := if key in shards[i].hashes then shards[i].hashes[key] else map[];
      isNew := field !in fields;
      shards[i] := shards[i].(hashes := shards[i].hashes[key := fields[field := value]]);
      Settle(was, Op.Hset(key, field, value), now);
    }

    method Hget(key: string, field: string, now: int) returns (r: Option<string>)
      requires Valid()
      ensures (contents, Text(r)) == Apply(contents, Op.Hget(key, field), now)
    {
      Reads(Op.Hget(key, field), now);
      NoChange(Op.Hget(key, field), now);
      var i := GetShardIndex(key);
      if key !in shards[i].hashes { return None; }
      if field !in shards[i].hashes[key] { return None; }
      return Some(shards[i].hashes[key][field]);
    }

    method Hdel(key: string, field: string, now: int) returns (erased: bool)
      requires Valid()
      modifies shards, this`contents
      ensures Valid() && (contents, Flag(erased)) == Apply(old(contents), Op.Hdel(key, field), now)
    {
      ghost var was := shards[..];
      Reads(Op.Hdel(key, field), now);
      var i := GetShardIndex(key);
      if key !in shards[i].hashes {
        erased := false;
      } else {
        erased := field in shards[i].hashes[key];
        var fields := shards[i].hashes[key] - {field};
        shards[i] := shards[i].(hashes := shards[i].hashes[key := fields]);
        if fields == map[] {
          shards[i] := shards[i].(hashes := shards[i].hashes - {key});
        }
      }
      Settle(was, Op.Hdel(key, field), now);
    }

    method Hexists(key: string, field: string, now: int) returns (found: bool)
      requires Valid()
      ensures found == Apply(contents, Op.Hget(key, field), now).1.text.Some?
    {
      var r := Hget(key, field, now);
      return r.Some?;
    }

    method Hlen(key: string, now: int) returns (n: nat)
      requires Valid()
      ensures (contents, Count(n)) == Apply(contents, Op.Hlen(key), now)
    {
      Reads(Op.Hlen(key), now);
      NoChange(Op.Hlen(key), now);
      var i := GetShardIndex(key);
      if key !in shards[i].hashes { return 0; }
      return |shards[i].hashes[key]|;
    }

    /** The fields in whatever order the hash table yields them. */
    method Hgetall(key: string, now: int) returns (pairs: FieldList)
      requires Valid()
      ensures Lists(pairs, SlotOf(contents, key).Hash())
      ensures Apply(contents, Op.Hgetall(key), now) == (contents, Pairs(MapOf(pairs)))
    {
      Reads(Op.Hgetall(key), now);
      NoChange(Op.Hgetall(key), now);
      var i := GetShardIndex(key);
      pairs := [];
      if key in shards[i].hashes {
        pairs := Enumerate(shards[i].hashes[key]);
      }
    }

    // ---- lists --------------------------------------------------------------

    method Lpush(key: string, value: string, now: int) returns (n: nat)
      requires Valid()
      modifies shards, this`contents
      ensures Valid() && (contents, Count(n)) == Apply(old(contents), Op.Lpush(key, value), now)
    {
      ghost var was := shards[..];
      Reads(Op.Lpush(key, value), now);
      var i := GetShardIndex(key);
      var items := if key in shards[i].lists then shards[i].lists[key] else [];
      items := [value] + items;
      shards[i] := shards[i].(lists := shards[i].lists[key := items]);
      n := |items|;
      Settle(was, Op.Lpush(key, value), now);
    }

    method Rpush(key: string, value: string, now: int) returns (n: nat)
      requires Valid()
      modifies shards, this`contents
      ensures Valid() && (contents, Count(n)) == Apply(old(contents), Op.Rpush(key, value), now)
    {
      ghost var was := shards[..];
      Reads(Op.Rpush(key, value), now);
      var i := GetShardIndex(key);
      var items := if key in shards[i].lists then shards[i].lists[key] else [];
      items := items + [value];
      shards[i] := shards[i].(lists := shards[i].lists[key := items]);
      n := |items|;
      Settle(was, Op.Rpush(key, value), now);
    }

    method Lpop(key: string, now: int) returns (r: Option<string>)
      requires Valid()
      modifies shards, this`contents
      ensures Valid() && (contents, Text(r)) == Apply(old(contents), Op.Lpop(key), now)
    {
      ghost var was := shards[..];
      Reads(Op.Lpop(key), now);
      var i := GetShardIndex(key);
      if key !in shards[i].lists || shards[i].lists[key] == [] {
        r := None;
      } else {
        var items := shards[i].lists[key];
        r := Some(items[0]);
        shards[i] := shards[i].(lists := shards[i].lists[key := items[1..]]);
        if items[1..] == [] {
          shards[i] := shards[i].(lists := shards[i].lists - {key});
        }
      }
      Settle(was, Op.Lpop(key), now);
    }

    method Rpop(key: string, now: int) returns (r: Option<string>)
      requires Valid()
      modifies shards, this`contents
      ensures Valid() && (contents, Text(r)) == Apply(old(contents), Op.Rpop(key), now)
    {
      ghost var was := shards[..];
      Reads(Op.Rpop(key), now);
      var i := GetShardIndex(key);
      if key !in shards[i].lists || shards[i].lists[key] == [] {
        r := None;
      } else {
        var items := shards[i].lists[key];
        r := Some(items[|items| - 1]);
        shards[i] := shards[i].(lists := shards[i].lists[key := items[..|items| - 1]]);
        if items[..|items| - 1] == [] {
          shards[i] := shards[i].(lists := shards[i].lists - {key});
        }
      }
      Settle(was, Op.Rpop(key), now);
    }

    method Llen(key: string, now: int) returns (n: nat)
      requires Valid()
      ensures (contents, Count(n)) == Apply(contents, Op.Llen(key), now)
    {
      Reads(Op.Llen(key), now);
      NoChange(Op.Llen(key), now);
      var i := GetShardIndex(key);
      if key !in shards[i].lists { return 0; }
      return |shards[i].lists[key]|;
    }

    method Lrange(key: string, start: int, stop: int, now: int) returns (r: seq<string>)
      requires Valid()
      ensures (contents, Items(r)) == Apply(contents, Op.Lrange(key, start, stop), now)
    {
      Reads(Op.Lrange(key, start, stop), now);
      NoChange(Op.Lrange(key, start, stop), now);
      var i := GetShardIndex(key);
      if key !in shards[i].lists || shards[i].lists[key] == [] { return []; }
      var items := shards[i].lists[key];
      var len := |items|;
      var from, to := start, stop;
      if from < 0 { from := if len + from > 0 then len + from else 0; }
      if to < 0 { to := len + to; }
      if from >= len || from > to { return []; }
      to := Min(to, len - 1);
      r := CopyRange(items, from, to);
    }

    /** The element-by-element loop. */
    static method CopyRange(items: seq<string>, from: nat, to: nat) returns (r: seq<string>)
      requires from <= to < |items|
      ensures r == items[from..to + 1]
    {
      r := [];
      for j := from to to + 1
        invariant r == items[from..j]
      {
        assert items[from..j + 1] == items[from..j] + [items[j]];
        r := r + [items[j]];
      }
    }

    // ---- the whole store ------------------------------------------------------

    method Size(now: int) returns (total: nat)
      requires Valid()
      ensures total == FlatStore.Size(contents, now)
    {
      ghost var all := shards[..];
      SizeOfAll(all, contents, hash, now);
      hide Represents, Tidy, FlatStore.Size, ShardSize;
      total := 0;
      for i := 0 to NUM_SHARDS
        invariant total == SizeOf(all, i, now)
      {
        var n := CountShard(shards[i], now);
        total := total + n;
      }
    }

    static method CountShard(shard: Flat, now: int) returns (n: nat)
      ensures n == ShardSize(shard, now)
    {
      n := CountLive(shard.strings, now);
      n := n + |shard.hashes| + |shard.lists|;
    }

    method Clear()
      requires Valid()
      modifies shards, this`contents
      ensures Valid() && contents == EMPTY
    {
      for i := 0 to NUM_SHARDS
        invariant forall j :: 0 <= j < i ==> shards[j] == EMPTY
      {
        shards[i] := Flat(map[], map[], map[]);
      }
      contents := EMPTY;
      RepresentsEmpty(shards[..], hash);
    }

    /** Every live key of each kind is listed exactly once. */
    method GetSnapshot(now: int) returns (snapshot: Snapshot)
      requires Valid()
      ensures IsSnapshot(snapshot, LiveData(contents, now))
    {
      snapshot := SnapshotShards(shards[..], contents, hash, now);
    }

    /** The loop over the shards. */
    static method SnapshotShards(shards: seq<Flat>, ghost f: Flat, ghost hash: Hash, now: int)
        returns (snapshot: Snapshot)
      requires Represents(shards, f, hash)
      ensures IsSnapshot(snapshot, LiveData(f, now))
    {
      hide Represents, ListsShard, Joined, SnapshotUpTo, IsSnapshot, LiveData;
      snapshot := Snapshot([], [], []);
      SnapshotStart(shards, f, hash, now);
      var i := 0;
      while i < |shards|
        invariant i <= |shards| && SnapshotUpTo(shards, f, hash, now, snapshot, i)
      {
        var part := SnapshotShard(shards[i], now);
        SnapshotStep(shards, f, hash, i, now, snapshot, part);
        snapshot := Joined(snapshot, part);
        i := i + 1;
      }
      SnapshotEnd(shards, f, hash, now, snapshot);
    }

    /** The three inner loops, over the maps of one shard. */
    static method SnapshotShard(shard: Flat, now: int) returns (part: Snapshot)
      ensures ListsShard(part, shard, now)
    {
      hide Lists, ListsHashes, LiveValues;
      var strings := EnumerateLive(shard.strings, now);
      var hashes := EnumerateHashes(shard.hashes);
      var lists := Enumerate(shard.lists);
      part := Snapshot(strings, hashes, lists);
    }

    // ---- active expiry and eviction ---------------------------------------------

    /** Visits up to `limit` strings of every shard, in an arbitrary order, and
        erases those that have expired. */
    method PurgeExpiredKeys(limit: nat, now: int) returns (purged: nat, ghost visited: set<string>)
      requires Valid()
      modifies shards, this`contents
      ensures Valid() && contents == Expiry.Purge(old(contents), visited, now)
      ensures visited <= old(contents).strings.Keys
      ensures forall i :: 0 <= i < NUM_SHARDS ==>
                |InShard(visited, hash, i)| == Min(limit, |In(old(contents).strings, hash, i)|)
      ensures purged == |old(contents).strings| - |contents.strings|
    {
      ghost var was, current, f := shards[..], shards[..], contents;
      ghost var seen: seq<set<string>> := [];
      hide Represents, Tidy, PurgedShard;
      purged := 0;
      for i := 0 to NUM_SHARDS
        invariant shards[..] == current && |seen| == i
        invariant Purging(was, current, limit, now, seen)
        invariant purged == Erased(was, current, i)
      {
        var shard, erased, keys := PurgeOneShard(shards[i], limit, now);
        shards[i] := shard;
        purged := purged + erased;
        ErasedFrame(was, current, i, i, shard);
        current := current[i := shard];
        seen := seen + [keys];
      }
      visited := Union(seen);
      PurgeOfAll(was, current, f, hash, limit, now, seen);
      contents := Expiry.Purge(f, visited, now);
    }

    static method PurgeOneShard(shard: Flat, limit: nat, now: int)
        returns (r: Flat, erased: nat, ghost seen: set<string>)
      ensures PurgedShard(shard, r, limit, now, seen)
      ensures erased == |shard.strings| - |r.strings|
    {
      r, erased, seen := PurgeShard(shard, limit, now);
    }

    /** Sampled LRU: at most ten strings of every shard are candidates; the least
        recently accessed `keys_to_evict` of them are erased. */
    method EvictLruKeys(keysToEvict: nat, now: int)
        returns (evicted: nat, ghost sample: set<string>, ghost victims: set<string>)
      requires Valid()
      modifies shards, this`contents
      ensures Valid() && contents == Evict(old(contents), victims)
      ensures keysToEvict > 0 ==> IsSample(sample, old(contents).strings, hash)
      ensures IsEviction(victims, sample, keysToEvict, old(contents).strings)
      ensures evicted == |victims|
    {
      evicted, sample, victims := 0, {}, {};
      if keysToEvict == 0 {
        EvictNothing(contents);
        return;
      }
      hide Represents, Tidy, IsSample, IsEviction, SlotOf, Faithful, KeysOf;
      ghost var f := contents;
      var candidates := SampleShards();
      sample := KeysOf(candidates);
      if candidates == [] {
        NoCandidates();
        EvictNothing(contents);
        return;
      }
      var sorted := SortByAccess(candidates);
      SameCandidates(candidates, sorted);
      FaithfulToo(candidates, sorted, f.strings, hash);
      candidates := sorted;
      var target := Min(keysToEvict, |candidates|);
      evicted := EraseCandidates(candidates, target);
      victims := KeysOf(candidates[..target]);
      SortedPrefix(candidates, keysToEvict, target, f.strings, hash);
    }

    /** The first loop: up to ten candidates from every shard. */
    method SampleShards() returns (candidates: seq<KeyTimestamp>)
      requires Valid()
      ensures Faithful(candidates, contents.strings, hash)
      ensures IsSample(KeysOf(candidates), contents.strings, hash)
    {
      assert shards.Length == NUM_SHARDS;
      hide Represents, Tidy, Faithful, KeysOf, IsSample, In, InShard, Sampled, ShardIndex;
      candidates := [];
      ghost var was, f := shards[..], contents;
      SamplingNone(f.strings, hash);
      for i := 0 to NUM_SHARDS
        invariant Sampled(candidates, f.strings, hash, i)
      {
        ShardIsPart(was, f, hash, i);
        KeysIn(f.strings, hash, i);
        var more := SampleShard(shards[i].strings, i, hash);
        SampledStep(candidates, more, f.strings, hash, i);
        candidates := candidates + more;
      }
      SampledAll(candidates, f.strings, hash);
    }

    /** The second loop: erase the first `target` candidates, each in its shard. */
    method EraseCandidates(candidates: seq<KeyTimestamp>, target: nat) returns (evicted: nat)
      requires Valid() && Faithful(candidates, contents.strings, hash) && target <= |candidates|
      modifies shards, this`contents
      ensures Valid() && contents == Evict(old(contents), KeysOf(candidates[..target]))
      ensures evicted == target
    {
      assert shards.Length == NUM_SHARDS;
      hide Represents, Tidy, KeysOf, SlotOf, WithSlot, Evict;
      ghost var f := contents;
      evicted := 0;
      EraseNone(candidates, f);
      for i := 0 to target
        invariant evicted == i
        invariant Represents(shards[..], Evict(f, KeysOf(candidates[..i])), hash)
      {
        var c := candidates[i];
        ghost var before := shards[..];
        EraseStep(before, f, candidates, i, hash);
        var removed := c.key in shards[c.shard].strings;
        shards[c.shard] := shards[c.shard].(strings := shards[c.shard].strings - {c.key});
        if removed {
          evicted := evicted + 1;
        }
        assert shards[..] == before[c.shard := shards[..][c.shard]];
      }
      TidyAfterEvict(f, KeysOf(candidates[..target]));
      contents := Evict(f, KeysOf(candidates[..target]));
    }
  }
}
