/** Compaction preserves meaning: what a rewrite puts in the log loads into exactly
    the data that was alive when the snapshot was taken (src/AofManager.cpp, `rewrite`). */
module Compaction {
  import opened Basics
  import opened Numerals
  import opened Wire
  import opened FlatStore
  import opened Snapshots
  import opened LogCodec
  import opened Replay
  import opened ReplayLaws

  /** The store holds this data and no deadline. */
  ghost predicate Holds(f: Flat, data: Data) {
    && f.strings.Keys == data.strings.Keys
    && (forall k :: k in f.strings ==> f.strings[k].value == data.strings[k] && f.strings[k].expires.None?)
    && f.hashes == data.hashes
    && f.lists == data.lists
  }

  const NO_DATA := Data(map[], map[], map[])

  lemma HoldsNothing()
    ensures Holds(EMPTY, NO_DATA)
  {
  }

  predicate NothingEmpty(data: Data) {
    (forall k :: k in data.hashes ==> data.hashes[k] != map[]) && (forall k :: k in data.lists ==> data.lists[k] != [])
  }

  /** What memory can hold: keys, values and lists below the container limit (a list
      is written as one record, with two more tokens). */
  predicate Storable(data: Data) {
    && (forall k :: k in data.strings ==> InMemory([k, data.strings[k]]))
    && (forall k :: k in data.hashes ==> |k| <= MAX_SIZE && StorableFields(data.hashes[k]))
    && (forall k :: k in data.lists ==> |k| <= MAX_SIZE && |data.lists[k]| + 2 <= MAX_SIZE && InMemory(data.lists[k]))
  }

  predicate StorableFields(h: Fields) {
    forall field :: field in h ==> InMemory([field, h[field]])
  }

  // ---- each pair of a listing is in the map, and its key only once ----------------

  lemma {:induction false} MapOfSize<V>(pairs: seq<(string, V)>)
    ensures |MapOf(pairs)| <= |pairs|
  {
    if pairs != [] {
      var n := |pairs| - 1;
      MapOfSize(pairs[..n]);
      assert MapOf(pairs).Keys == MapOf(pairs[..n]).Keys + {pairs[n].0};
    }
  }

  lemma ListsPrefix<V>(pairs: seq<(string, V)>, m: map<string, V>)
    requires Lists(pairs, m) && pairs != []
    ensures var n := |pairs| - 1;
            Lists(pairs[..n], MapOf(pairs[..n])) && pairs[n].0 !in MapOf(pairs[..n])
  {
    var n := |pairs| - 1;
    var most := MapOf(pairs[..n]);
    MapOfSize(pairs[..n]);
    assert m.Keys == most.Keys + {pairs[n].0};
    assert pairs[n].0 in most ==> m.Keys == most.Keys;
  }

  lemma {:induction false} ListsMembers<V>(pairs: seq<(string, V)>, m: map<string, V>)
    requires Lists(pairs, m)
    ensures forall i :: 0 <= i < |pairs| ==> pairs[i].0 in m && m[pairs[i].0] == pairs[i].1
  {
    if pairs != [] {
      var n := |pairs| - 1;
      ListsPrefix(pairs, m);
      ListsMembers(pairs[..n], MapOf(pairs[..n]));
      forall i | 0 <= i < |pairs| ensures pairs[i].0 in m && m[pairs[i].0] == pairs[i].1 {
        assert i < n ==> pairs[..n][i] == pairs[i];
      }
    }
  }

  // ---- replaying the three parts --------------------------------------------------

  lemma SetHolds(f: Flat, d: Data, k: string, v: string, now: int)
    requires Holds(f, d)
    ensures Holds(ReplayOne(f, ["SET", k, v], now), d.(strings := d.strings[k := v]))
  {
    var g := ReplayOne(f, ["SET", k, v], now);
    assert VerbOf("SET") == SetV;
    assert g == Apply(f, Set(k, v, None), now).0;
    SlotsElsewhere(f, k);
  }

  /** Writing back what is there changes nothing. */
  lemma SlotsElsewhere(f: Flat, k: string)
    ensures Put(f.hashes, k, SlotOf(f, k).fields) == f.hashes
    ensures Put(f.lists, k, SlotOf(f, k).items) == f.lists
    ensures Put(f.strings, k, SlotOf(f, k).entry) == f.strings
  {
  }

  function FieldsAt(d: Data, k: string): Fields {
    if k in d.hashes then d.hashes[k] else map[]
  }

  function ItemsAt(d: Data, k: string): seq<string> {
    if k in d.lists then d.lists[k] else []
  }

  lemma HsetInLog(f: Flat, k: string, field: string, v: string, now: int)
    ensures ReplayOne(f, ["HSET", k, field, v], now) == Apply(f, Hset(k, field, v), now).0
  {
    hide Apply, Stoll, DelAll, PushAll;
    assert VerbOf("HSET") == HsetV;
  }

  lemma HsetOn(f: Flat, k: string, field: string, v: string, now: int)
    ensures Apply(f, Hset(k, field, v), now).0
            == f.(hashes := f.hashes[k := (if k in f.hashes then f.hashes[k] else map[])[field := v]])
  {
    SlotsElsewhere(f, k);
  }

  lemma HsetHolds(f: Flat, d: Data, k: string, field: string, v: string, now: int)
    requires Holds(f, d)
    ensures Holds(ReplayOne(f, ["HSET", k, field, v], now), d.(hashes := d.hashes[k := FieldsAt(d, k)[field := v]]))
  {
    hide ReplayOne, Apply;
    HsetInLog(f, k, field, v, now);
    HsetOn(f, k, field, v, now);
  }

  lemma RpushHolds(f: Flat, d: Data, k: string, v: string, now: int)
    requires Holds(f, d)
    ensures Holds(Apply(f, Rpush(k, v), now).0, d.(lists := d.lists[k := ItemsAt(d, k) + [v]]))
  {
    SlotsElsewhere(f, k);
  }

  lemma {:induction false} PushAllHolds(f: Flat, d: Data, k: string, items: seq<string>, n: nat, now: int)
    requires Holds(f, d) && 0 < n <= |items|
    ensures Holds(PushAll(f, false, k, items, n, now).0, d.(lists := d.lists[k := ItemsAt(d, k) + items[..n]]))
  {
    hide Holds, Apply;
    if n == 1 {
      RpushHolds(f, d, k, items[0], now);
      assert items[..1] == [items[0]];
      assert PushAll(f, false, k, items, 0, now).0 == f;
    } else {
      PushAllHolds(f, d, k, items, n - 1, now);
      var e := d.(lists := d.lists[k := ItemsAt(d, k) + items[..n - 1]]);
      RpushHolds(PushAll(f, false, k, items, n - 1, now).0, e, k, items[n - 1], now);
      assert items[..n] == items[..n - 1] + [items[n - 1]];
      Assoc(ItemsAt(d, k), items[..n - 1], [items[n - 1]]);
      assert e.lists[k := ItemsAt(d, k) + items[..n]] == d.lists[k := ItemsAt(d, k) + items[..n]];
    }
  }

  lemma {:induction false} StringsReplay(f: Flat, d: Data, pairs: seq<(string, string)>, clock: Clock, base: nat)
    requires Holds(f, d)
    ensures Holds(ReplayAll(f, StringRecords(pairs), clock, base), d.(strings := d.strings + MapOf(pairs)))
  {
    hide Holds, ReplayOne;
    if pairs == [] {
      assert d.strings + map[] == d.strings;
    } else {
      var n := |pairs| - 1;
      var (k, v) := pairs[n];
      StringsReplay(f, d, pairs[..n], clock, base);
      var records, e := StringRecords(pairs[..n]), d.(strings := d.strings + MapOf(pairs[..n]));
      ReplaySnoc(f, records, ["SET", k, v], clock, base);
      SetHolds(ReplayAll(f, records, clock, base), e, k, v, clock.at(base + |records|));
      assert e.strings[k := v] == d.strings + MapOf(pairs);
    }
  }

  lemma {:induction false} FieldsReplay(f: Flat, d: Data, k: string, fields: FieldList, clock: Clock, base: nat)
    requires Holds(f, d) && fields != []
    ensures Holds(ReplayAll(f, FieldRecords(k, fields), clock, base),
                  d.(hashes := d.hashes[k := FieldsAt(d, k) + MapOf(fields)]))
  {
    hide Holds, ReplayOne, ReplayAll, MapOf;
    var n := |fields| - 1;
    var (field, v) := fields[n];
    var most, records := fields[..n], FieldRecords(k, fields[..n]);
    ReplaySnoc(f, records, ["HSET", k, field, v], clock, base);
    FieldsExtend(FieldsAt(d, k), fields);
    var g := ReplayAll(f, records, clock, base);
    if n == 0 {
      ReplayNothing(f, clock, base);
      assert most == [] && records == [] && g == f;
      NoFields(FieldsAt(d, k));
      HsetHolds(f, d, k, field, v, clock.at(base));
    } else {
      FieldsReplay(f, d, k, most, clock, base);
      var h := FieldsAt(d, k) + MapOf(most);
      var e := d.(hashes := d.hashes[k := h]);
      HsetHolds(g, e, k, field, v, clock.at(base + |records|));
      OverwriteTwice(d.hashes, k, h, h[field := v]);
    }
  }

  lemma NoFields(h: Fields)
    ensures h + MapOf([]) == h
  {
  }

  lemma FieldsExtend(h: Fields, fields: FieldList)
    requires fields != []
    ensures var n := |fields| - 1;
            (h + MapOf(fields[..n]))[fields[n].0 := fields[n].1] == h + MapOf(fields)
  {
  }

  lemma OverwriteTwice<V>(m: map<string, V>, k: string, a: V, b: V)
    ensures m[k := a][k := b] == m[k := b]
  {
  }

  /** Every hash listed has a field and a key of its own: no field of one can land in
      another, so the order of the hashes does not matter. */
  lemma {:induction false} HashesReplay(f: Flat, d: Data, hashes: seq<(string, FieldList)>, m: map<string, Fields>,
                                        clock: Clock, base: nat)
    requires Holds(f, d) && d.hashes == map[] && Lists(AsMaps(hashes), m)
    requires forall i :: 0 <= i < |hashes| ==> hashes[i].1 != []
    ensures Holds(ReplayAll(f, HashRecords(hashes), clock, base), d.(hashes := m))
  {
    hide Holds, ReplayOne, ReplayAll, Lists;
    if hashes == [] {
      assert AsMaps(hashes) == [];
      assert m == map[] by { NoPairs(m); }
      ReplayNothing(f, clock, base);
    } else {
      var n := |hashes| - 1;
      var (k, fields) := hashes[n];
      assert AsMaps(hashes)[..n] == AsMaps(hashes[..n]);
      var most := MapOf(AsMaps(hashes[..n]));
      ListsPrefix(AsMaps(hashes), m);
      ListsAre(AsMaps(hashes), m);
      HashesReplay(f, d, hashes[..n], most, clock, base);
      var records := HashRecords(hashes[..n]);
      ReplayConcat(f, records, FieldRecords(k, fields), clock, base);
      FieldsReplay(ReplayAll(f, records, clock, base), d.(hashes := most), k, fields, clock, base + |records|);
      assert map[] + MapOf(fields) == MapOf(fields);
    }
  }

  lemma NoPairs<V>(m: map<string, V>)
    requires Lists([], m)
    ensures m == map[]
  {
  }

  lemma ListsAre<V>(pairs: seq<(string, V)>, m: map<string, V>)
    requires Lists(pairs, m) && pairs != []
    ensures var n := |pairs| - 1; m == MapOf(pairs[..n])[pairs[n].0 := pairs[n].1]
  {
  }

  lemma ReplayNothing(f: Flat, clock: Clock, base: nat)
    ensures ReplayAll(f, [], clock, base) == f
  {
  }

  lemma {:induction false} ListsReplay(f: Flat, d: Data, lists: seq<(string, seq<string>)>, m: map<string, seq<string>>,
                                       clock: Clock, base: nat)
    requires Holds(f, d) && d.lists == map[] && Lists(lists, m)
    requires forall i :: 0 <= i < |lists| ==> lists[i].1 != []
    ensures Holds(ReplayAll(f, ListRecords(lists), clock, base), d.(lists := m))
  {
    hide Holds, ReplayOne, ReplayAll, Lists;
    if lists == [] {
      assert m == map[] by { NoPairs(m); }
      ReplayNothing(f, clock, base);
    } else {
      var n := |lists| - 1;
      var (k, items) := lists[n];
      var most := MapOf(lists[..n]);
      ListsPrefix(lists, m);
      ListsAre(lists, m);
      ListsReplay(f, d, lists[..n], most, clock, base);
      var records := ListRecords(lists[..n]);
      ReplaySnoc(f, records, ["RPUSH", k] + items, clock, base);
      RpushRecordHolds(ReplayAll(f, records, clock, base), d.(lists := most), k, items, clock.at(base + |records|));
    }
  }

  lemma RpushRecordHolds(f: Flat, d: Data, k: string, items: seq<string>, now: int)
    requires Holds(f, d) && k !in d.lists && items != []
    ensures Holds(ReplayOne(f, ["RPUSH", k] + items, now), d.(lists := d.lists[k := items]))
  {
    hide Holds, PushAll, DelAll, Apply, Stoll;
    var cmd := ["RPUSH", k] + items;
    assert cmd[0] == "RPUSH" && VerbOf(cmd[0]) == RpushV && cmd[1] == k && |cmd| - 2 == |items|;
    assert cmd[2..] == items && items[..|items|] == items && ItemsAt(d, k) + items == items;
    PushAllHolds(f, d, k, items, |items|, now);
  }

  lemma StringsHold(s: Snapshot, d: Data, clock: Clock)
    requires IsSnapshot(s, d)
    ensures Holds(ReplayAll(EMPTY, StringRecords(s.strings), clock, 0), Data(d.strings, map[], map[]))
  {
    hide Holds, ReplayAll, StringRecords, MapOf, ListsHashes;
    HoldsNothing();
    StringsReplay(EMPTY, NO_DATA, s.strings, clock, 0);
    assert map[] + MapOf(s.strings) == d.strings;
  }

  lemma HashesHold(s: Snapshot, d: Data, clock: Clock)
    requires IsSnapshot(s, d) && NothingEmpty(d)
    ensures Holds(ReplayAll(EMPTY, StringRecords(s.strings) + HashRecords(s.hashes), clock, 0),
                  Data(d.strings, d.hashes, map[]))
  {
    hide Holds, ReplayAll, StringRecords, HashRecords, Lists, AsMaps;
    var strings, hashes := StringRecords(s.strings), HashRecords(s.hashes);
    StringsHold(s, d, clock);
    HashesListed(s.hashes, d.hashes);
    var f := ReplayAll(EMPTY, strings, clock, 0);
    HashesReplay(f, Data(d.strings, map[], map[]), s.hashes, d.hashes, clock, |strings|);
    ReplayConcat(EMPTY, strings, hashes, clock, 0);
  }

  /** The three parts one after the other. */
  lemma RecordsHold(s: Snapshot, d: Data, clock: Clock)
    requires IsSnapshot(s, d) && NothingEmpty(d)
    ensures Holds(ReplayAll(EMPTY, RewriteRecords(s), clock, 0), d)
  {
    hide Holds, ReplayAll, StringRecords, HashRecords, ListRecords, Lists, ListsHashes;
    var before, lists := StringRecords(s.strings) + HashRecords(s.hashes), ListRecords(s.lists);
    HashesHold(s, d, clock);
    ListsMembers(s.lists, d.lists);
    var g := ReplayAll(EMPTY, before, clock, 0);
    ListsReplay(g, Data(d.strings, d.hashes, map[]), s.lists, d.lists, clock, |before|);
    ReplayConcat(EMPTY, before, lists, clock, 0);
  }

  lemma HashesListed(hashes: seq<(string, FieldList)>, m: map<string, Fields>)
    requires ListsHashes(hashes, m)
    ensures forall i :: 0 <= i < |hashes| ==>
              hashes[i].0 in m && Lists(hashes[i].1, m[hashes[i].0]) && (m[hashes[i].0] != map[] ==> hashes[i].1 != [])
  {
    ListsMembers(AsMaps(hashes), m);
    forall i | 0 <= i < |hashes|
      ensures hashes[i].0 in m && Lists(hashes[i].1, m[hashes[i].0])
      ensures m[hashes[i].0] != map[] ==> hashes[i].1 != []
    {
      assert AsMaps(hashes)[i] == (hashes[i].0, MapOf(hashes[i].1));
    }
  }

  // ---- the rewritten log decodes to those records -----------------------------------

  predicate GoodRecord(record: seq<string>) {
    Writable(record) && DeadlineFree(record)
  }

  predicate GoodRecords(records: seq<seq<string>>) {
    forall i :: 0 <= i < |records| ==> GoodRecord(records[i])
  }

  lemma GoodConcat(a: seq<seq<string>>, b: seq<seq<string>>)
    requires GoodRecords(a) && GoodRecords(b)
    ensures GoodRecords(a + b)
  {
    hide GoodRecord;
  }

  lemma GoodSet(k: string, v: string)
    requires InMemory([k, v])
    ensures GoodRecord(["SET", k, v])
  {
    assert |[k, v][0]| <= MAX_SIZE && |[k, v][1]| <= MAX_SIZE;
    hide Stoll;
  }

  lemma GoodHset(k: string, field: string, v: string)
    requires |k| <= MAX_SIZE && InMemory([field, v])
    ensures GoodRecord(["HSET", k, field, v])
  {
    assert |[field, v][0]| <= MAX_SIZE && |[field, v][1]| <= MAX_SIZE;
    hide Stoll;
  }

  lemma GoodRpush(k: string, items: seq<string>)
    requires |k| <= MAX_SIZE && |items| + 2 <= MAX_SIZE && InMemory(items)
    ensures GoodRecord(["RPUSH", k] + items)
  {
    hide Stoll;
  }

  lemma {:induction false} GoodStrings(pairs: seq<(string, string)>)
    requires forall i :: 0 <= i < |pairs| ==> InMemory([pairs[i].0, pairs[i].1])
    ensures GoodRecords(StringRecords(pairs))
  {
    hide GoodRecord, InMemory;
    if pairs != [] {
      var n := |pairs| - 1;
      GoodStrings(pairs[..n]);
      GoodSet(pairs[n].0, pairs[n].1);
      GoodConcat(StringRecords(pairs[..n]), [["SET", pairs[n].0, pairs[n].1]]);
    }
  }

  lemma {:induction false} GoodFields(k: string, fields: FieldList)
    requires |k| <= MAX_SIZE && forall i :: 0 <= i < |fields| ==> InMemory([fields[i].0, fields[i].1])
    ensures GoodRecords(FieldRecords(k, fields))
  {
    hide GoodRecord, InMemory;
    if fields != [] {
      var n := |fields| - 1;
      GoodFields(k, fields[..n]);
      GoodHset(k, fields[n].0, fields[n].1);
      GoodConcat(FieldRecords(k, fields[..n]), [["HSET", k, fields[n].0, fields[n].1]]);
    }
  }

  lemma {:induction false} GoodHashes(hashes: seq<(string, FieldList)>, m: map<string, Fields>)
    requires forall i :: 0 <= i < |hashes| ==>
      && hashes[i].0 in m && Lists(hashes[i].1, m[hashes[i].0])
      && |hashes[i].0| <= MAX_SIZE && StorableFields(m[hashes[i].0])
    ensures GoodRecords(HashRecords(hashes))
  {
    hide GoodRecord, InMemory, Lists;
    if hashes != [] {
      var n := |hashes| - 1;
      var (k, fields) := hashes[n];
      GoodHashes(hashes[..n], m);
      ListsMembers(fields, m[k]);
      GoodFields(k, fields);
      GoodConcat(HashRecords(hashes[..n]), FieldRecords(k, fields));
    }
  }

  lemma {:induction false} GoodLists(lists: seq<(string, seq<string>)>)
    requires forall i :: 0 <= i < |lists| ==>
      |lists[i].0| <= MAX_SIZE && |lists[i].1| + 2 <= MAX_SIZE && InMemory(lists[i].1)
    ensures GoodRecords(ListRecords(lists))
  {
    hide GoodRecord, InMemory;
    if lists != [] {
      var n := |lists| - 1;
      var (k, items) := lists[n];
      GoodLists(lists[..n]);
      GoodRpush(k, items);
      GoodConcat(ListRecords(lists[..n]), [["RPUSH", k] + items]);
    }
  }

  lemma RewriteIsGood(s: Snapshot, d: Data)
    requires IsSnapshot(s, d) && Storable(d)
    ensures GoodRecords(RewriteRecords(s))
  {
    hide GoodRecord, MapOf;
    ListsMembers(s.strings, d.strings);
    ListsMembers(s.lists, d.lists);
    HashesListed(s.hashes, d.hashes);
    GoodStrings(s.strings);
    GoodHashes(s.hashes, d.hashes);
    GoodLists(s.lists);
    GoodConcat(StringRecords(s.strings), HashRecords(s.hashes));
    GoodConcat(StringRecords(s.strings) + HashRecords(s.hashes), ListRecords(s.lists));
  }

  lemma TidyIsNothingEmpty(f: Flat, now: int)
    requires Tidy(f)
    ensures NothingEmpty(LiveData(f, now))
  {
    forall k | k in f.hashes ensures f.hashes[k] != map[] { assert TidySlot(SlotOf(f, k)); }
    forall k | k in f.lists ensures f.lists[k] != [] { assert TidySlot(SlotOf(f, k)); }
  }

  /** The compacted log, loaded into an empty store at any time, gives the strings
      that had not expired, with no deadline, and every hash and list as it was. */
  lemma CompactedLogLoads(bytes: string, f: Flat, now: int, clock: Clock)
    requires Tidy(f) && Storable(LiveData(f, now)) && IsRewrite(bytes, f, now)
    ensures Holds(Load(bytes, clock), LiveData(f, now))
    ensures exists records :: GoodRecords(records) && bytes == Arrays(records)
  {
    hide Holds, Storable, IsSnapshot, LiveData, RewriteRecords;
    var s :| IsSnapshot(s, LiveData(f, now)) && bytes == Arrays(RewriteRecords(s));
    TidyIsNothingEmpty(f, now);
    RewriteIsGood(s, LiveData(f, now));
    RecordsHold(s, LiveData(f, now), clock);
    RecordsOfLog(RewriteRecords(s));
  }

  /** In the words of a client: after the reload every string that was alive, every
      hash and every list is there, and nothing else, at any later time. */
  lemma CompactionPreservesData(bytes: string, f: Flat, now: int, clock: Clock, later: int)
    requires Tidy(f) && Storable(LiveData(f, now)) && IsRewrite(bytes, f, now)
    ensures LiveData(Load(bytes, clock), later) == LiveData(f, now)
  {
    hide Storable, IsRewrite, Load;
    CompactedLogLoads(bytes, f, now, clock);
  }

  lemma HoldsIsSame(g: Flat, f: Flat, now: int)
    requires NoDeadlines(f) && Holds(g, LiveData(f, now))
    ensures SameButStamps(g, f)
  {
    forall k ensures Unstamped(SlotOf(g, k)) == Unstamped(SlotOf(f, k)) {
      assert NoDeadline(SlotOf(f, k));
    }
  }
}
