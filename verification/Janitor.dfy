/** The background loop of the server: purge, then evict what is over the limit
    (src/main.cpp, lines 73-93). */
module Janitor {
  import opened Basics
  import opened FlatStore
  import opened Shards
  import opened Sampling
  import Expiry
  import KeyValueStore

  /** One round: the store before it, after its purge and after its eviction. */
  datatype Round = Round(before: Flat, purged: Flat, after: Flat, purgeTime: int, sizeTime: int)

  function Measured(r: Round): nat {
    Size(r.purged, r.sizeTime)
  }

  /** The purge looks at twenty strings of every shard, or at all of a smaller one. */
  predicate LooksAtTwenty(visited: set<string>, strings: map<string, Entry>, hash: Hash) {
    && visited <= strings.Keys
    && forall i :: 0 <= i < NUM_SHARDS ==> |InShard(visited, hash, i)| == Min(20, |In(strings, hash, i)|)
  }

  ghost predicate IsRound(r: Round, hash: Hash, maxKeys: nat) {
    && (exists visited ::
          LooksAtTwenty(visited, r.before.strings, hash) && r.purged == Expiry.Purge(r.before, visited, r.purgeTime))
    && (if Measured(r) <= maxKeys then r.after == r.purged
        else exists sample, victims ::
            && IsSample(sample, r.purged.strings, hash)
            && IsEviction(victims, sample, Measured(r) - maxKeys, r.purged.strings)
            && r.after == Evict(r.purged, victims))
  }

  /** Rounds with no client activity in between. */
  ghost predicate IsRun(rounds: seq<Round>, hash: Hash, maxKeys: nat) {
    && (forall i :: 0 <= i < |rounds| ==> IsRound(rounds[i], hash, maxKeys))
    && (forall i :: 0 < i < |rounds| ==> rounds[i].before == rounds[i - 1].after)
  }

  /** The loop, one round for every pair of clock samples. */
  method Run(store: KeyValueStore.KeyValueStore, maxKeys: nat, ticks: seq<(int, int)>)
      returns (ghost rounds: seq<Round>)
    requires store.Valid()
    modifies store.shards, store`contents
    ensures store.Valid()
    ensures |rounds| == |ticks| && IsRun(rounds, store.hash, maxKeys)
    ensures forall i :: 0 <= i < |ticks| ==> rounds[i].purgeTime == ticks[i].0 && rounds[i].sizeTime == ticks[i].1
    ensures rounds != [] ==> rounds[0].before == old(store.contents) && rounds[|rounds| - 1].after == store.contents
  {
    hide IsRound, IsRun, Represents, Tidy;
    rounds := [];
    RunOfNone(store.hash, maxKeys);
    for i := 0 to |ticks|
      invariant store.Valid()
      invariant |rounds| == i && IsRun(rounds, store.hash, maxKeys)
      invariant forall j :: 0 <= j < i ==> rounds[j].purgeTime == ticks[j].0 && rounds[j].sizeTime == ticks[j].1
      invariant rounds == [] ==> store.contents == old(store.contents)
      invariant rounds != [] ==> rounds[0].before == old(store.contents) && rounds[i - 1].after == store.contents
    {
      ghost var round := OneRound(store, maxKeys, ticks[i].0, ticks[i].1);
      RunSnoc(rounds, round, store.hash, maxKeys);
      rounds := rounds + [round];
    }
  }

  lemma RunOfNone(hash: Hash, maxKeys: nat)
    ensures IsRun([], hash, maxKeys)
  {
  }

  lemma RunSnoc(rounds: seq<Round>, r: Round, hash: Hash, maxKeys: nat)
    requires IsRun(rounds, hash, maxKeys) && IsRound(r, hash, maxKeys)
    requires rounds != [] ==> r.before == rounds[|rounds| - 1].after
    ensures IsRun(rounds + [r], hash, maxKeys)
  {
    hide IsRound;
  }

  method OneRound(store: KeyValueStore.KeyValueStore, maxKeys: nat, purgeTime: int, sizeTime: int)
      returns (ghost r: Round)
    requires store.Valid()
    modifies store.shards, store`contents
    ensures store.Valid()
    ensures IsRound(r, store.hash, maxKeys)
    ensures r.before == old(store.contents) && r.after == store.contents
    ensures r.purgeTime == purgeTime && r.sizeTime == sizeTime
  {
    hide Represents, Tidy, IsSample, IsEviction, In, InShard, Expiry.Purge, Evict, Size, Min;
    ghost var before := store.contents;
    var purged, visited := store.PurgeExpiredKeys(20, purgeTime);
    ghost var middle := store.contents;
    var current := store.Size(sizeTime);
    if current > maxKeys {
      var toEvict := current - maxKeys;
      var evicted, sample, victims := store.EvictLruKeys(toEvict, sizeTime);
    }
    r := Round(before, middle, store.contents, purgeTime, sizeTime);
  }

  // ---- what the rounds achieve ----------------------------------------------

  lemma PurgeShrinks(f: Flat, visited: set<string>, now: int)
    ensures |Expiry.Purge(f, visited, now).strings| <= |f.strings|
  {
    Subset(Expiry.Purge(f, visited, now).strings.Keys, f.strings.Keys);
  }

  lemma SampleIsNotEmpty(sample: set<string>, strings: map<string, Entry>, hash: Hash)
    requires IsSample(sample, strings, hash) && strings != map[]
    ensures sample != {}
  {
    var k :| k in strings;
    var i := ShardIndex(hash, k);
    assert k in In(strings, hash, i);
    assert |InShard(sample, hash, i)| > 0;
  }

  /** Where no shard holds more than twenty strings, a round leaves none that had expired
      when it purged: what is left, but for the evicted, is what was alive. */
  lemma SmallShardsAreCleaned(r: Round, hash: Hash, maxKeys: nat)
    requires IsRound(r, hash, maxKeys)
    requires forall i :: 0 <= i < NUM_SHARDS ==> |In(r.before.strings, hash, i)| <= 20
    ensures r.purged.strings.Keys == LiveStrings(r.before, r.purgeTime)
    ensures forall k :: k in r.after.strings ==> Live(r.after.strings[k], r.purgeTime)
  {
    hide Measured, IsSample, IsEviction, InShard, In, LooksAtTwenty;
    var visited :| LooksAtTwenty(visited, r.before.strings, hash)
                   && r.purged == Expiry.Purge(r.before, visited, r.purgeTime);
    AllAreVisited(visited, r.before.strings, hash);
  }

  lemma AllAreVisited(visited: set<string>, strings: map<string, Entry>, hash: Hash)
    requires LooksAtTwenty(visited, strings, hash)
    requires forall i :: 0 <= i < NUM_SHARDS ==> |In(strings, hash, i)| <= 20
    ensures visited == strings.Keys
  {
    forall k | k in strings ensures k in visited {
      var i := ShardIndex(hash, k);
      assert |InShard(visited, hash, i)| == |In(strings, hash, i).Keys|;
      SubsetOfSameSize(InShard(visited, hash, i), In(strings, hash, i).Keys);
      assert k in In(strings, hash, i);
    }
  }

  /** In general an expired string is left only in a shard that had more than twenty. */
  lemma ExpiredOnesAreCrowded(r: Round, hash: Hash, maxKeys: nat, key: string)
    requires IsRound(r, hash, maxKeys)
    requires key in r.after.strings && !Live(r.after.strings[key], r.purgeTime)
    ensures |In(r.before.strings, hash, ShardIndex(hash, key))| > 20
  {
    hide Measured, IsSample, IsEviction;
    var visited :| LooksAtTwenty(visited, r.before.strings, hash)
                   && r.purged == Expiry.Purge(r.before, visited, r.purgeTime);
    var i := ShardIndex(hash, key);
    if |In(r.before.strings, hash, i)| <= 20 {
      assert key in In(r.before.strings, hash, i);
      SubsetOfSameSize(InShard(visited, hash, i), In(r.before.strings, hash, i).Keys);
      assert false;
    }
  }

  /** An over-limit round evicts exactly the excess, as far as ten strings of each of the
      64 shards go. */
  lemma RoundEvictsExcess(r: Round, hash: Hash, maxKeys: nat)
    requires IsRound(r, hash, maxKeys)
    ensures var excess := if Measured(r) > maxKeys then Measured(r) - maxKeys else 0;
            |r.purged.strings| - |r.after.strings| == Min(excess, SampleTotal(r.purged.strings, hash, 64))
  {
    hide IsRound, Measured, IsSample, IsEviction, SampleTotal, Evict;
    if Measured(r) > maxKeys {
      var sample, victims := EvictedInRound(r, hash, maxKeys);
      EvictionCount(victims, sample, Measured(r) - maxKeys, r.purged.strings, hash);
      EvictLeaves(r.purged, victims);
    } else {
      NothingEvicted(r, hash, maxKeys);
    }
  }

  lemma EvictedInRound(r: Round, hash: Hash, maxKeys: nat) returns (sample: set<string>, victims: set<string>)
    requires IsRound(r, hash, maxKeys) && Measured(r) > maxKeys
    ensures IsSample(sample, r.purged.strings, hash) && r.after == Evict(r.purged, victims)
    ensures IsEviction(victims, sample, Measured(r) - maxKeys, r.purged.strings)
  {
    hide Measured, IsSample, IsEviction, LooksAtTwenty, Expiry.Purge, Evict;
    sample, victims :|
      && IsSample(sample, r.purged.strings, hash)
      && IsEviction(victims, sample, Measured(r) - maxKeys, r.purged.strings)
      && r.after == Evict(r.purged, victims);
  }

  lemma NothingEvicted(r: Round, hash: Hash, maxKeys: nat)
    requires IsRound(r, hash, maxKeys) && Measured(r) <= maxKeys
    ensures r.after == r.purged
  {
    hide Measured, IsSample, IsEviction, LooksAtTwenty, Expiry.Purge, Evict;
  }

  lemma EvictLeaves(f: Flat, victims: set<string>)
    ensures Evict(f, victims).strings == f.strings - victims
  {
  }

  /** A round that is over the limit and finds a string erases one. */
  lemma RoundMakesProgress(r: Round, hash: Hash, maxKeys: nat)
    requires IsRound(r, hash, maxKeys)
    ensures |r.after.strings| <= |r.before.strings|
    ensures Measured(r) > maxKeys && r.purged.strings != map[] ==> |r.after.strings| < |r.before.strings|
  {
    hide Measured, IsSample, IsEviction, Expiry.Purge;
    PurgeOfRound(r, hash, maxKeys);
    if Measured(r) > maxKeys { EvictionOfRound(r, hash, maxKeys); }
  }

  lemma PurgeOfRound(r: Round, hash: Hash, maxKeys: nat)
    requires IsRound(r, hash, maxKeys)
    ensures |r.purged.strings| <= |r.before.strings|
  {
    hide Expiry.Purge, Measured, IsSample, IsEviction, LooksAtTwenty;
    var visited :| LooksAtTwenty(visited, r.before.strings, hash)
                   && r.purged == Expiry.Purge(r.before, visited, r.purgeTime);
    PurgeShrinks(r.before, visited, r.purgeTime);
  }

  lemma EvictionOfRound(r: Round, hash: Hash, maxKeys: nat)
    requires IsRound(r, hash, maxKeys) && Measured(r) > maxKeys
    ensures |r.after.strings| <= |r.purged.strings|
    ensures r.purged.strings != map[] ==> |r.after.strings| < |r.purged.strings|
  {
    hide Expiry.Purge, Measured, IsSample, IsEviction;
    var sample, victims :|
      && IsSample(sample, r.purged.strings, hash)
      && IsEviction(victims, sample, Measured(r) - maxKeys, r.purged.strings)
      && r.after == Evict(r.purged, victims);
    EvictionShrinks(sample, victims, Measured(r) - maxKeys, r.purged.strings, hash);
  }

  lemma EvictionShrinks(sample: set<string>, victims: set<string>, k: nat, strings: map<string, Entry>, hash: Hash)
    requires IsSample(sample, strings, hash) && IsEviction(victims, sample, k, strings) && k > 0
    ensures |strings - victims| <= |strings|
    ensures strings != map[] ==> |strings - victims| < |strings|
  {
    hide IsSample;
    EvictionCount(victims, sample, k, strings, hash);
    if strings != map[] {
      SampleIsNotEmpty(sample, strings, hash);
    }
  }

  /** Eviction never takes the store below the limit, judged at the instant at
      which the round measured it. */
  lemma RoundStopsAtLimit(r: Round, hash: Hash, maxKeys: nat)
    requires IsRound(r, hash, maxKeys) && Measured(r) > maxKeys
    ensures maxKeys <= Size(r.after, r.sizeTime) <= Measured(r)
    ensures r.after.hashes == r.purged.hashes && r.after.lists == r.purged.lists
  {
    var sample, victims :|
      && IsSample(sample, r.purged.strings, hash)
      && IsEviction(victims, sample, Measured(r) - maxKeys, r.purged.strings)
      && r.after == Evict(r.purged, victims);
    var was := LiveStrings(r.purged, r.sizeTime);
    assert LiveStrings(r.after, r.sizeTime) == was - victims;
    Subset(was * victims, victims);
    assert |was - victims| == |was| - |was * victims|;
  }

  lemma RestIsRun(rounds: seq<Round>, hash: Hash, maxKeys: nat)
    requires IsRun(rounds, hash, maxKeys) && rounds != []
    ensures IsRun(rounds[1..], hash, maxKeys) && IsRound(rounds[0], hash, maxKeys)
    ensures |rounds| > 1 ==> rounds[1].before == rounds[0].after
  {
    hide IsRound;
  }

  /** Convergence: among the first |strings| + 1 rounds one finds the store within
      the limit, or finds no string left to erase. */
  lemma {:induction false} Converges(rounds: seq<Round>, hash: Hash, maxKeys: nat)
    requires IsRun(rounds, hash, maxKeys) && rounds != []
    requires |rounds[0].before.strings| < |rounds|
    ensures exists i :: 0 <= i < |rounds| && (Measured(rounds[i]) <= maxKeys || rounds[i].purged.strings == map[])
  {
    var r, rest := rounds[0], rounds[1..];
    RestIsRun(rounds, hash, maxKeys);
    hide IsRun, IsRound, Measured;
    RoundMakesProgress(r, hash, maxKeys);
    if Measured(r) > maxKeys && r.purged.strings != map[] {
      Converges(rest, hash, maxKeys);
      var i :| 0 <= i < |rest| && (Measured(rest[i]) <= maxKeys || rest[i].purged.strings == map[]);
      assert rounds[i + 1] == rest[i];
    }
  }
}
