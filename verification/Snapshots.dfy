/** Listing the entries of an unordered_map: any order, each entry once; and the
    snapshot of the whole store that compaction works from. */
module Snapshots {
  import opened Basics
  import opened FlatStore

  /** The map a list of pairs describes; a later pair overrides an earlier one. */
  function MapOf<V>(pairs: seq<(string, V)>): map<string, V> {
    if pairs == [] then map[] else
      MapOf(pairs[..|pairs| - 1])[pairs[|pairs| - 1].0 := pairs[|pairs| - 1].1]
  }

  /** The pairs list every entry of the map, and none twice. */
  predicate Lists<V(==)>(pairs: seq<(string, V)>, m: map<string, V>) {
    MapOf(pairs) == m && |pairs| == |m|
  }

  type FieldList = seq<(string, string)>

  function AsMaps(hashes: seq<(string, FieldList)>): seq<(string, Fields)> {
    seq(|hashes|, i requires 0 <= i < |hashes| => (hashes[i].0, MapOf(hashes[i].1)))
  }

  /** The same for hashes, whose fields are listed in turn. */
  predicate ListsHashes(hashes: seq<(string, FieldList)>, m: map<string, Fields>) {
    && Lists(AsMaps(hashes), m)
    && forall i :: 0 <= i < |hashes| ==> |hashes[i].1| == |MapOf(hashes[i].1)|
  }

  datatype Snapshot = Snapshot(
    strings: seq<(string, string)>,
    hashes: seq<(string, FieldList)>,
    lists: seq<(string, seq<string>)>)

  predicate IsSnapshot(s: Snapshot, data: Data) {
    Lists(s.strings, data.strings) && ListsHashes(s.hashes, data.hashes) && Lists(s.lists, data.lists)
  }

  lemma MapOfSnoc<V>(pairs: seq<(string, V)>, k: string, v: V)
    ensures MapOf(pairs + [(k, v)]) == MapOf(pairs)[k := v]
  {
    assert (pairs + [(k, v)])[..|pairs|] == pairs;
  }

  lemma {:induction false} MapOfConcat<V>(a: seq<(string, V)>, b: seq<(string, V)>)
    ensures MapOf(a + b) == MapOf(a) + MapOf(b)
  {
    if b == [] {
      assert a + b == a;
    } else {
      var n := |b| - 1;
      MapOfConcat(a, b[..n]);
      assert a + b == a + b[..n] + [(b[n].0, b[n].1)];
      MapOfSnoc(a + b[..n], b[n].0, b[n].1);
    }
  }

  lemma ListsConcat<V>(a: seq<(string, V)>, m: map<string, V>, b: seq<(string, V)>, n: map<string, V>)
    requires Lists(a, m) && Lists(b, n) && m.Keys !! n.Keys
    ensures Lists(a + b, m + n)
  {
    MapOfConcat(a, b);
    assert (m + n).Keys == m.Keys + n.Keys;
  }

  lemma HashesConcat(a: seq<(string, FieldList)>, m: map<string, Fields>,
                     b: seq<(string, FieldList)>, n: map<string, Fields>)
    requires ListsHashes(a, m) && ListsHashes(b, n) && m.Keys !! n.Keys
    ensures ListsHashes(a + b, m + n)
  {
    hide MapOf, Lists;
    assert AsMaps(a + b) == AsMaps(a) + AsMaps(b);
    ListsConcat(AsMaps(a), m, AsMaps(b), n);
  }

  /** The unexpired part of a string map. */
  function Unexpired(strings: map<string, Entry>, now: int): map<string, Entry> {
    map k | k in strings && Live(strings[k], now) :: strings[k]
  }

  // ---- iteration, in an arbitrary order -----------------------------------

  /** Visiting one more key adds its entry, if the key has one. */
  lemma Visit<V>(m: map<string, V>, remaining: set<string>, k: string)
    requires k in remaining
    ensures k in m ==> m - (remaining - {k}) == (m - remaining)[k := m[k]]
    ensures k in m ==> |m - (remaining - {k})| == |m - remaining| + 1
    ensures k !in m ==> m - (remaining - {k}) == m - remaining
  {
    if k in m {
      var after := m - (remaining - {k});
      assert after == (m - remaining)[k := m[k]];
      assert after.Keys == (m - remaining).Keys + {k};
    }
  }

  lemma AddPair<V>(pairs: seq<(string, V)>, done: map<string, V>, k: string, v: V)
    requires Lists(pairs, done) && k !in done
    ensures Lists(pairs + [(k, v)], done[k := v])
  {
    MapOfSnoc(pairs, k, v);
    assert done[k := v].Keys == done.Keys + {k};
  }

  lemma AddHash(pairs: seq<(string, FieldList)>, done: map<string, Fields>, k: string, fields: FieldList, h: Fields)
    requires ListsHashes(pairs, done) && k !in done && Lists(fields, h)
    ensures ListsHashes(pairs + [(k, fields)], done[k := h])
  {
    AddPair(AsMaps(pairs), done, k, h);
    assert AsMaps(pairs + [(k, fields)]) == AsMaps(pairs) + [(k, h)];
  }

  method Enumerate<V>(m: map<string, V>) returns (pairs: seq<(string, V)>)
    ensures Lists(pairs, m)
  {
    pairs := [];
    var remaining := m.Keys;
    assert m - remaining == map[];
    while remaining != {}
      invariant remaining <= m.Keys && Lists(pairs, m - remaining)
    {
      var k :| k in remaining;
      Visit(m, remaining, k);
      AddPair(pairs, m - remaining, k, m[k]);
      pairs := pairs + [(k, m[k])];
      remaining := remaining - {k};
    }
    assert m - {} == m;
  }

  method EnumerateLive(strings: map<string, Entry>, now: int) returns (pairs: seq<(string, string)>)
    ensures Lists(pairs, LiveValues(strings, now))
  {
    pairs := [];
    var remaining := strings.Keys;
    ghost var all := LiveValues(strings, now);
    assert all - remaining == map[];
    while remaining != {}
      invariant remaining <= strings.Keys && Lists(pairs, all - remaining)
    {
      var k :| k in remaining;
      Visit(all, remaining, k);
      if strings[k].expires.None? || strings[k].expires.value > now {
        AddPair(pairs, all - remaining, k, strings[k].value);
        pairs := pairs + [(k, strings[k].value)];
      }
      remaining := remaining - {k};
    }
    assert all - {} == all;
  }

  method EnumerateHashes(hashes: map<string, Fields>) returns (pairs: seq<(string, FieldList)>)
    ensures ListsHashes(pairs, hashes)
  {
    pairs := [];
    var remaining := hashes.Keys;
    assert hashes - remaining == map[];
    while remaining != {}
      invariant remaining <= hashes.Keys && ListsHashes(pairs, hashes - remaining)
    {
      var k :| k in remaining;
      var fields := Enumerate(hashes[k]);
      Visit(hashes, remaining, k);
      AddHash(pairs, hashes - remaining, k, fields, hashes[k]);
      pairs := pairs + [(k, fields)];
      remaining := remaining - {k};
    }
    assert hashes - {} == hashes;
  }

  method CountLive(strings: map<string, Entry>, now: int) returns (n: nat)
    ensures n == |Unexpired(strings, now)|
  {
    n := 0;
    var remaining := strings.Keys;
    ghost var all := Unexpired(strings, now);
    assert all - remaining == map[];
    while remaining != {}
      invariant remaining <= strings.Keys && n == |all - remaining|
    {
      var k :| k in remaining;
      Visit(all, remaining, k);
      if strings[k].expires.None? || strings[k].expires.value > now {
        n := n + 1;
      }
      remaining := remaining - {k};
    }
    assert all - {} == all;
  }
}
