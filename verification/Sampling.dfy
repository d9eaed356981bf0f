/** Which strings a purge or an eviction touches: sampling the shards, ordering the
    candidates by their last access, and what the victims have in common. */
module Sampling {
  import opened Basics
  import opened FlatStore
  import opened Shards
  import Expiry

  const SAMPLE := 10

  datatype KeyTimestamp = KeyTimestamp(key: string, accessed: int, shard: nat)

  /** The store without the evicted strings. */
  function Evict(f: Flat, victims: set<string>): Flat {
    f.(strings := f.strings - victims)
  }

  /** Up to ten strings of every shard, and all of a shard that has fewer. */
  predicate IsSample(sample: set<string>, strings: map<string, Entry>, hash: Hash) {
    && sample <= strings.Keys
    && forall i :: 0 <= i < NUM_SHARDS ==>
        |InShard(sample, hash, i)| == Min(SAMPLE, |In(strings, hash, i)|)
  }

  /** The `k` least recently accessed strings of the sample (all, if it is smaller). */
  predicate IsEviction(victims: set<string>, sample: set<string>, k: nat, strings: map<string, Entry>) {
    && victims <= sample <= strings.Keys
    && |victims| == Min(k, |sample|)
    && forall v, s :: v in victims && s in sample - victims ==> strings[v].accessed <= strings[s].accessed
  }

  // ---- what eviction promises ---------------------------------------------

  /** The sum over the first `n` shards of min(10, number of strings). */
  function SampleTotal(strings: map<string, Entry>, hash: Hash, n: nat): nat {
    if n == 0 then 0 else SampleTotal(strings, hash, n - 1) + Min(10, |In(strings, hash, n - 1)|)
  }

  lemma SampleOf(sample: set<string>, strings: map<string, Entry>, hash: Hash, i: nat)
    requires IsSample(sample, strings, hash) && i < NUM_SHARDS
    ensures |InShard(sample, hash, i)| == Min(SAMPLE, |In(strings, hash, i)|)
  {
  }

  lemma {:induction false} SampleSizeUpTo(sample: set<string>, strings: map<string, Entry>, hash: Hash, n: nat)
    requires IsSample(sample, strings, hash) && n <= NUM_SHARDS
    ensures |set k | k in sample && ShardIndex(hash, k) < n| == SampleTotal(strings, hash, n)
  {
    hide IsSample, In, ShardIndex, Min;
    if n == 0 {
      assert (set k | k in sample && ShardIndex(hash, k) < n) == {};
    } else {
      SampleSizeUpTo(sample, strings, hash, n - 1);
      SampleOf(sample, strings, hash, n - 1);
      var before := set k | k in sample && ShardIndex(hash, k) < n - 1;
      assert (set k | k in sample && ShardIndex(hash, k) < n) == before + InShard(sample, hash, n - 1);
    }
  }

  /** An eviction of `k` keys removes exactly min(k, sum of min(10, strings in a
      shard)) strings. */
  lemma EvictionCount(victims: set<string>, sample: set<string>, k: nat, strings: map<string, Entry>, hash: Hash)
    requires IsSample(sample, strings, hash) && IsEviction(victims, sample, k, strings)
    ensures |victims| == Min(k, SampleTotal(strings, hash, 64))
    ensures |strings - victims| == |strings| - |victims|
  {
    SampleSizeUpTo(sample, strings, hash, NUM_SHARDS);
    assert (set k | k in sample && ShardIndex(hash, k) < NUM_SHARDS) == sample;
    assert (strings - victims).Keys == strings.Keys - victims;
  }

  /** With at most ten strings in every shard the sample is everything, so the
      victims are the least recently accessed strings of the whole store. */
  lemma EvictionIsGloballyLru(victims: set<string>, sample: set<string>, k: nat, strings: map<string, Entry>,
                              hash: Hash)
    requires IsSample(sample, strings, hash) && IsEviction(victims, sample, k, strings)
    requires forall i :: 0 <= i < NUM_SHARDS ==> |In(strings, hash, i)| <= 10
    ensures sample == strings.Keys
    ensures forall v, s :: v in victims && s in strings && s !in victims ==> strings[v].accessed <= strings[s].accessed
  {
    forall s | s in strings ensures s in sample {
      var i := ShardIndex(hash, s);
      assert |InShard(sample, hash, i)| == |In(strings, hash, i).Keys|;
      SubsetOfSameSize(InShard(sample, hash, i), In(strings, hash, i).Keys);
      assert s in In(strings, hash, i).Keys;
    }
  }

  lemma SubsetOfSameSize(a: set<string>, b: set<string>)
    requires a <= b && |a| == |b|
    ensures a == b
  {
    assert |b - a| == |b| - |a|;
  }

  // ---- candidates -----------------------------------------------------------

  function KeysOf(cs: seq<KeyTimestamp>): set<string> {
    set c | c in cs :: c.key
  }

  /** The candidates are stored strings, with their stamps and shards, none twice. */
  predicate Faithful(cs: seq<KeyTimestamp>, strings: map<string, Entry>, hash: Hash) {
    && (forall c :: c in cs ==>
          c.key in strings && c.accessed == strings[c.key].accessed && c.shard == ShardIndex(hash, c.key))
    && |KeysOf(cs)| == |cs|
  }

  lemma KeysConcat(a: seq<KeyTimestamp>, b: seq<KeyTimestamp>)
    ensures KeysOf(a + b) == KeysOf(a) + KeysOf(b)
  {
  }

  lemma {:induction false} FewerKeys(cs: seq<KeyTimestamp>)
    ensures |KeysOf(cs)| <= |cs|
  {
    if cs != [] {
      var n := |cs| - 1;
      FewerKeys(cs[..n]);
      assert cs == cs[..n] + [cs[n]];
      KeysConcat(cs[..n], [cs[n]]);
      assert KeysOf([cs[n]]) == {cs[n].key};
    }
  }

  /** Where all keys differ, the next candidate's key is a new one. */
  lemma KeysSnoc(cs: seq<KeyTimestamp>, i: nat)
    requires i < |cs| && |KeysOf(cs)| == |cs|
    ensures KeysOf(cs[..i + 1]) == KeysOf(cs[..i]) + {cs[i].key}
    ensures cs[i].key !in KeysOf(cs[..i])
    ensures |KeysOf(cs[..i])| == i
  {
    hide KeysOf;
    var k := cs[i].key;
    assert cs[..i + 1] == cs[..i] + [cs[i]] && cs == cs[..i + 1] + cs[i + 1..];
    KeysConcat(cs[..i], [cs[i]]);
    KeysConcat(cs[..i + 1], cs[i + 1..]);
    KeyOfOne(cs[i]);
    FewerKeys(cs[..i]);
    FewerKeys(cs[i + 1..]);
    OutsideTheFront(KeysOf(cs[..i]), k, KeysOf(cs[i + 1..]), i, |cs|);
  }

  lemma KeyOfOne(c: KeyTimestamp)
    ensures KeysOf([c]) == {c.key}
  {
  }

  lemma OutsideTheFront(front: set<string>, k: string, back: set<string>, i: nat, n: nat)
    requires |front| <= i && |back| <= n - i - 1 && |front + {k} + back| == n
    ensures k !in front && |front| == i
  {
    AtMostTheSum(front + {k}, back);
    AtMostTheSum(front, {k});
    assert k in front ==> front + {k} == front;
  }

  lemma AtMostTheSum(a: set<string>, b: set<string>)
    ensures |a + b| <= |a| + |b|
  {
  }

  method SampleShard(strings: map<string, Entry>, i: nat, ghost hash: Hash) returns (cs: seq<KeyTimestamp>)
    requires forall k :: k in strings ==> ShardIndex(hash, k) == i
    ensures Faithful(cs, strings, hash) && |cs| == Min(SAMPLE, |strings|)
  {
    cs := [];
    var remaining := strings.Keys;
    while remaining != {} && |cs| < SAMPLE
      invariant remaining <= strings.Keys && KeysOf(cs) == strings.Keys - remaining && |cs| <= SAMPLE
      invariant Faithful(cs, strings, hash) && |cs| + |remaining| == |strings|
    {
      var k :| k in remaining;
      var c := KeyTimestamp(k, strings[k].accessed, i);
      assert KeysOf([c]) == {k};
      OneMoreCandidate(cs, c, strings, hash);
      cs := cs + [c];
      remaining := remaining - {k};
    }
  }

  lemma OneMoreCandidate(cs: seq<KeyTimestamp>, c: KeyTimestamp, strings: map<string, Entry>, hash: Hash)
    requires Faithful(cs, strings, hash) && Faithful([c], strings, hash) && c.key !in KeysOf(cs)
    ensures Faithful(cs + [c], strings, hash) && KeysOf(cs + [c]) == KeysOf(cs) + {c.key}
  {
    KeysConcat(cs, [c]);
    assert KeysOf([c]) == {c.key};
  }

  lemma SampleGrows(cs: seq<KeyTimestamp>, more: seq<KeyTimestamp>, strings: map<string, Entry>, hash: Hash, i: nat)
    requires Faithful(cs, strings, hash) && KeysOf(cs) <= Before(strings, hash, i).Keys
    requires Faithful(more, In(strings, hash, i), hash)
    requires |more| == Min(SAMPLE, |In(strings, hash, i)|)
    ensures Faithful(cs + more, strings, hash)
    ensures KeysOf(cs + more) <= Before(strings, hash, i + 1).Keys
    ensures |InShard(KeysOf(cs + more), hash, i)| == Min(SAMPLE, |In(strings, hash, i)|)
    ensures forall j :: 0 <= j < i ==> InShard(KeysOf(cs + more), hash, j) == InShard(KeysOf(cs), hash, j)
  {
    KeysConcat(cs, more);
    assert KeysOf(more) <= In(strings, hash, i).Keys;
    assert KeysOf(cs) !! KeysOf(more);
    assert InShard(KeysOf(cs + more), hash, i) == KeysOf(more);
  }

  predicate SortedByAccess(cs: seq<KeyTimestamp>) {
    forall i, j :: 0 <= i < j < |cs| ==> cs[i].accessed <= cs[j].accessed
  }

  /** std::sort with the last-access comparison. */
  method SortByAccess(cs: seq<KeyTimestamp>) returns (r: seq<KeyTimestamp>)
    ensures multiset(r) == multiset(cs) && SortedByAccess(r)
  {
    r := [];
    for n := 0 to |cs|
      invariant multiset(r) == multiset(cs[..n]) && SortedByAccess(r)
    {
      assert cs[..n + 1] == cs[..n] + [cs[n]];
      r := Insert(r, cs[n]);
    }
    assert cs[..|cs|] == cs;
  }

  method Insert(r: seq<KeyTimestamp>, c: KeyTimestamp) returns (q: seq<KeyTimestamp>)
    requires SortedByAccess(r)
    ensures multiset(q) == multiset(r) + multiset{c} && SortedByAccess(q)
  {
    var at := 0;
    while at < |r| && r[at].accessed <= c.accessed
      invariant at <= |r|
      invariant forall j :: 0 <= j < at ==> r[j].accessed <= c.accessed
    {
      at := at + 1;
    }
    assert r == r[..at] + r[at..];
    q := r[..at] + [c] + r[at..];
    InsertSorted(r, at, c);
  }

  lemma InsertSorted(r: seq<KeyTimestamp>, at: nat, c: KeyTimestamp)
    requires SortedByAccess(r) && at <= |r|
    requires forall j :: 0 <= j < at ==> r[j].accessed <= c.accessed
    requires at < |r| ==> c.accessed <= r[at].accessed
    ensures SortedByAccess(r[..at] + [c] + r[at..])
  {
    var q := r[..at] + [c] + r[at..];
    assert forall i :: 0 <= i < |q| ==> q[i] == if i < at then r[i] else if i == at then c else r[i - 1];
  }

  lemma SameCandidates(cs: seq<KeyTimestamp>, r: seq<KeyTimestamp>)
    requires multiset(r) == multiset(cs)
    ensures |r| == |cs| && KeysOf(r) == KeysOf(cs)
    ensures forall c :: c in r <==> c in cs
  {
    assert |multiset(r)| == |r| && |multiset(cs)| == |cs|;
    forall c ensures c in r <==> c in cs {
      assert c in r <==> c in multiset(r);
      assert c in cs <==> c in multiset(cs);
    }
  }

  /** The first candidates of a sorted list are an eviction. */
  lemma SortedPrefix(cs: seq<KeyTimestamp>, k: nat, target: nat, strings: map<string, Entry>, hash: Hash)
    requires Faithful(cs, strings, hash) && SortedByAccess(cs) && target == Min(k, |cs|)
    ensures KeysOf(cs[..target]) <= KeysOf(cs)
    ensures |KeysOf(cs[..target])| == target
    ensures IsEviction(KeysOf(cs[..target]), KeysOf(cs), k, strings)
  {
    var victims, sample := KeysOf(cs[..target]), KeysOf(cs);
    assert cs == cs[..target] + cs[target..];
    KeysConcat(cs[..target], cs[target..]);
    if target < |cs| {
      KeysSnoc(cs, target);
    } else {
      assert cs[..target] == cs;
    }
    forall v, s | v in victims && s in sample - victims ensures strings[v].accessed <= strings[s].accessed {
      OlderPrefix(cs, target, v, s, strings, hash);
    }
  }

  lemma OlderPrefix(cs: seq<KeyTimestamp>, target: nat, v: string, s: string, strings: map<string, Entry>, hash: Hash)
    requires Faithful(cs, strings, hash) && SortedByAccess(cs) && target <= |cs|
    requires v in KeysOf(cs[..target]) && s in KeysOf(cs[target..])
    ensures v in strings && s in strings && strings[v].accessed <= strings[s].accessed
  {
    var i :| 0 <= i < target && cs[i].key == v;
    var j :| target <= j < |cs| && cs[j].key == s;
    assert cs[i] in cs && cs[j] in cs;
    assert cs[i].accessed <= cs[j].accessed;
  }

  lemma EvictNothing(f: Flat)
    ensures Evict(f, {}) == f
  {
    assert f.strings - {} == f.strings;
  }

  lemma EvictOne(f: Flat, victims: set<string>, key: string)
    ensures Evict(f, victims + {key}) == Evict(Evict(f, victims), {key})
    ensures SlotOf(Evict(f, victims + {key}), key) == SlotOf(f, key).(entry := None)
    ensures WithSlot(Evict(f, victims), key, SlotOf(f, key).(entry := None)) == Evict(f, victims + {key})
  {
    assert f.strings - (victims + {key}) == f.strings - victims - {key};
    SlotsDetermine(WithSlot(Evict(f, victims), key, SlotOf(f, key).(entry := None)), Evict(f, victims + {key}));
  }

  lemma TidyAfterEvict(f: Flat, victims: set<string>)
    requires Tidy(f)
    ensures Tidy(Evict(f, victims))
  {
    forall k ensures TidySlot(SlotOf(Evict(f, victims), k)) {
      assert TidySlot(SlotOf(f, k));
    }
  }

  lemma PurgeOneMore(shard: Flat, seen: set<string>, k: string, now: int)
    requires k in shard.strings && k !in seen
    ensures var p, q := Expiry.Purge(shard, seen, now), Expiry.Purge(shard, seen + {k}, now);
            if Live(shard.strings[k], now) then q == p
            else q == p.(strings := p.strings - {k}) && |q.strings| == |p.strings| - 1
  {
    var p, q := Expiry.Purge(shard, seen, now), Expiry.Purge(shard, seen + {k}, now);
    if Live(shard.strings[k], now) {
      assert q.strings == p.strings;
    } else {
      assert q.strings == p.strings - {k};
      assert q.strings.Keys == p.strings.Keys - {k};
    }
  }

  // ---- purging one shard ------------------------------------------------------

  method PurgeShard(shard: Flat, limit: nat, now: int) returns (r: Flat, erased: nat, ghost seen: set<string>)
    ensures seen <= shard.strings.Keys && |seen| == Min(limit, |shard.strings|)
    ensures r == Expiry.Purge(shard, seen, now)
    ensures erased == |shard.strings| - |r.strings|
  {
    r, erased, seen := shard, 0, {};
    var checked := 0;
    var remaining := shard.strings.Keys;
    while remaining != {} && checked < limit
      invariant remaining <= shard.strings.Keys && seen == shard.strings.Keys - remaining
      invariant checked == |seen| <= limit
      invariant r == Expiry.Purge(shard, seen, now)
      invariant erased == |shard.strings| - |r.strings|
      invariant |seen| + |remaining| == |shard.strings|
    {
      var k :| k in remaining;
      checked := checked + 1;
      remaining := remaining - {k};
      PurgeOneMore(shard, seen, k, now);
      seen := seen + {k};
      if shard.strings[k].expires.Some? && shard.strings[k].expires.value <= now {
        r := r.(strings := r.strings - {k});
        erased := erased + 1;
      }
    }
  }
}
