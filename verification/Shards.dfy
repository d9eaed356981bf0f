/** Splitting one flat store over 64 shards: which shard a key lives in, what it
    means for the shards to hold the flat store, and counting shard by shard. */
module Shards {
  import opened Basics
  import opened FlatStore
  import Expiry

  const NUM_SHARDS := 64

  /** std::hash on strings: any function. */
  datatype Hash = Hash(code: string -> nat)

  function ShardIndex(hash: Hash, key: string): (i: nat)
    ensures i < NUM_SHARDS
  {
    hash.code(key) % NUM_SHARDS
  }

  /** The shards hold exactly what the flat store holds, each key in its own shard. */
  ghost predicate Represents(shards: seq<Flat>, f: Flat, hash: Hash) {
    && |shards| == NUM_SHARDS
    && (forall k :: SlotOf(shards[ShardIndex(hash, k)], k) == SlotOf(f, k))
    && (forall i, k :: 0 <= i < NUM_SHARDS && i != ShardIndex(hash, k) ==> SlotOf(shards[i], k) == NOTHING)
  }

  lemma UpdateShard(shards: seq<Flat>, f: Flat, hash: Hash, key: string, shard: Flat)
    requires Represents(shards, f, hash)
    requires forall k :: k != key ==> SlotOf(shard, k) == SlotOf(shards[ShardIndex(hash, key)], k)
    ensures Represents(shards[ShardIndex(hash, key) := shard], WithSlot(f, key, SlotOf(shard, key)), hash)
  {
    hide SlotOf, WithSlot, ShardIndex;
  }

  lemma RepresentsEmpty(shards: seq<Flat>, hash: Hash)
    requires |shards| == NUM_SHARDS && forall i :: 0 <= i < NUM_SHARDS ==> shards[i] == EMPTY
    ensures Represents(shards, EMPTY, hash)
  {
  }

  /** The part of a map whose keys live in the shards before `i`. */
  function Before<V>(m: map<string, V>, hash: Hash, i: nat): map<string, V> {
    map k | k in m && ShardIndex(hash, k) < i :: m[k]
  }

  function In<V>(m: map<string, V>, hash: Hash, i: nat): map<string, V> {
    map k | k in m && ShardIndex(hash, k) == i :: m[k]
  }

  lemma NextShard<V>(m: map<string, V>, hash: Hash, i: nat)
    ensures Before(m, hash, i + 1) == Before(m, hash, i) + In(m, hash, i)
    ensures Before(m, hash, i).Keys !! In(m, hash, i).Keys
  {
  }

  /** How many keys the shards before `i` hold. */
  function CountBefore<V>(m: map<string, V>, hash: Hash, i: nat): nat {
    |Before(m, hash, i)|
  }

  lemma CountNext<V>(m: map<string, V>, hash: Hash, i: nat)
    ensures CountBefore(m, hash, i + 1) == CountBefore(m, hash, i) + |In(m, hash, i)|
  {
    NextShard(m, hash, i);
    var a, b := Before(m, hash, i), In(m, hash, i);
    assert Before(m, hash, i + 1).Keys == a.Keys + b.Keys;
  }

  lemma CountAll<V>(m: map<string, V>, hash: Hash)
    ensures CountBefore(m, hash, 0) == 0
    ensures CountBefore(m, hash, NUM_SHARDS) == |m|
  {
    AllShards(m, hash);
  }

  lemma AllShards<V>(m: map<string, V>, hash: Hash)
    ensures Before(m, hash, NUM_SHARDS) == m
    ensures Before(m, hash, 0) == map[]
  {
  }

  /** A shard is the flat store cut down to the keys of that shard. */
  lemma ShardIsPart(shards: seq<Flat>, f: Flat, hash: Hash, i: nat)
    requires Represents(shards, f, hash) && i < NUM_SHARDS
    ensures shards[i].strings == In(f.strings, hash, i)
    ensures shards[i].hashes == In(f.hashes, hash, i)
    ensures shards[i].lists == In(f.lists, hash, i)
  {
    forall k ensures SlotOf(shards[i], k) == if ShardIndex(hash, k) == i then SlotOf(f, k) else NOTHING {
      assert SlotOf(shards[ShardIndex(hash, k)], k) == SlotOf(f, k);
    }
    hide ShardIndex, Represents;
    SlotsGiveMaps(shards[i], f, hash, i);
  }

  lemma SlotsGiveMaps(shard: Flat, f: Flat, hash: Hash, i: nat)
    requires forall k :: SlotOf(shard, k) == if ShardIndex(hash, k) == i then SlotOf(f, k) else NOTHING
    ensures shard.strings == In(f.strings, hash, i)
    ensures shard.hashes == In(f.hashes, hash, i)
    ensures shard.lists == In(f.lists, hash, i)
  {
    var g := Flat(In(f.strings, hash, i), In(f.hashes, hash, i), In(f.lists, hash, i));
    forall k ensures SlotOf(shard, k) == SlotOf(g, k) {
    }
    SlotsDetermine(shard, g);
  }

  lemma PurgeShards(was: seq<Flat>, after: seq<Flat>, f: Flat, hash: Hash, visited: set<string>, now: int)
    requires Represents(was, f, hash) && |after| == NUM_SHARDS
    requires forall i :: 0 <= i < NUM_SHARDS ==> after[i] == Expiry.Purge(was[i], visited, now)
    ensures Represents(after, Expiry.Purge(f, visited, now), hash)
  {
    var g := Expiry.Purge(f, visited, now);
    forall k ensures SlotOf(after[ShardIndex(hash, k)], k) == SlotOf(g, k) {
      assert SlotOf(was[ShardIndex(hash, k)], k) == SlotOf(f, k);
    }
    forall i, k | 0 <= i < NUM_SHARDS && i != ShardIndex(hash, k) ensures SlotOf(after[i], k) == NOTHING {
      assert SlotOf(was[i], k) == NOTHING;
    }
  }

  function InShard(keys: set<string>, hash: Hash, i: nat): set<string> {
    set k | k in keys && ShardIndex(hash, k) == i
  }

  /** Visiting entries of other shards makes no difference to this one. */
  lemma PurgeElsewhere(shard: Flat, visited: set<string>, others: set<string>, now: int)
    requires others !! shard.strings.Keys
    ensures Expiry.Purge(shard, visited + others, now) == Expiry.Purge(shard, visited, now)
  {
    assert Expiry.Purge(shard, visited + others, now).strings == Expiry.Purge(shard, visited, now).strings;
  }

  lemma TidyAfterPurge(f: Flat, visited: set<string>, now: int)
    requires Tidy(f)
    ensures Tidy(Expiry.Purge(f, visited, now))
  {
    forall k ensures TidySlot(SlotOf(Expiry.Purge(f, visited, now), k)) {
      assert TidySlot(SlotOf(f, k));
    }
  }
}
