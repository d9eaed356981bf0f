/** Compaction never makes the log longer, counted in records: every record in the
    log pays for one live string, field or list; only MSET adds more than it pays for. */
module Growth {
  import opened Basics
  import opened Numerals
  import opened Wire
  import opened Resp
  import opened FlatStore
  import opened Snapshots
  import opened LogCodec
  import opened Replay
  import opened Compaction
  import opened Commands
  import opened Sessions
  import opened ReplayLaws

  // ---- how many records a store takes ------------------------------------------------

  /** All the fields of all the hashes. */
  ghost function FieldCount(hashes: map<string, Fields>): nat {
    if hashes == map[] then 0 else
      var k :| k in hashes;
      |hashes[k]| + FieldCount(hashes - {k})
  }

  lemma Remove<V>(m: map<string, V>, a: string, b: string)
    requires a in m && b in m && a != b
    ensures b in m - {a} && (m - {a})[b] == m[b] && a in m - {b} && (m - {b})[a] == m[a]
    ensures |m - {b}| < |m| && |m - {a}| < |m|
    ensures m - {a} - {b} == m - {b} - {a}
  {
    assert m.Keys == (m - {a}).Keys + {a} && m.Keys == (m - {b}).Keys + {b};
  }

  lemma FieldCountPick(hashes: map<string, Fields>) returns (k: string)
    requires hashes != map[]
    ensures k in hashes && FieldCount(hashes) == |hashes[k]| + FieldCount(hashes - {k})
  {
    k :| k in hashes && FieldCount(hashes) == |hashes[k]| + FieldCount(hashes - {k});
  }

  lemma {:induction false} FieldCountSplit(hashes: map<string, Fields>, key: string)
    requires key in hashes
    ensures FieldCount(hashes) == |hashes[key]| + FieldCount(hashes - {key})
    decreases |hashes|
  {
    hide FieldCount;
    var k := FieldCountPick(hashes);
    if k != key {
      var others, rest := hashes - {k}, hashes - {key};
      Remove(hashes, k, key);
      FieldCountSplit(others, key);
      FieldCountSplit(rest, k);
    }
  }

  ghost function Weight(f: Flat, now: int): nat {
    |LiveStrings(f, now)| + FieldCount(f.hashes) + |f.lists|
  }

  function SlotWeight(s: Slot, now: int): nat {
    (if s.IsLive(now) then 1 else 0) + |s.Hash()| + (if s.items.Some? then 1 else 0)
  }

  lemma Without(keys: set<string>, key: string)
    ensures |keys - {key}| + (if key in keys then 1 else 0) == |keys|
  {
    if key in keys { assert keys == keys - {key} + {key}; } else { assert keys - {key} == keys; }
  }

  lemma LiveStringIff(f: Flat, k: string, now: int)
    ensures k in LiveStrings(f, now) <==> SlotOf(f, k).IsLive(now)
  {
  }

  lemma LiveStringsAfter(f: Flat, key: string, s: Slot, now: int)
    ensures |LiveStrings(WithSlot(f, key, s), now)| + (if SlotOf(f, key).IsLive(now) then 1 else 0)
            == |LiveStrings(f, now)| + (if s.IsLive(now) then 1 else 0)
  {
    hide WithSlot, LiveStrings, SlotOf, Live;
    var g := WithSlot(f, key, s);
    var before, after := LiveStrings(f, now), LiveStrings(g, now);
    forall k ensures k != key ==> (k in before <==> k in after) {
      LiveStringIff(f, k, now);
      LiveStringIff(g, k, now);
    }
    LiveStringIff(f, key, now);
    LiveStringIff(g, key, now);
    assert before - {key} == after - {key};
    Without(before, key);
    Without(after, key);
  }

  lemma FieldCountAfter(hashes: map<string, Fields>, key: string, v: Option<Fields>)
    ensures FieldCount(Put(hashes, key, v)) + (if key in hashes then |hashes[key]| else 0)
            == FieldCount(hashes) + (if v.Some? then |v.value| else 0)
  {
    var after := Put(hashes, key, v);
    assert after - {key} == hashes - {key};
    if key in hashes { FieldCountSplit(hashes, key); } else { assert hashes - {key} == hashes; }
    if v.Some? { FieldCountSplit(after, key); }
  }

  lemma ListCountAfter(lists: map<string, seq<string>>, key: string, v: Option<seq<string>>)
    ensures |Put(lists, key, v)| + (if key in lists then 1 else 0) == |lists| + (if v.Some? then 1 else 0)
  {
    assert Put(lists, key, v).Keys - {key} == lists.Keys - {key};
  }

  lemma WeightAfter(f: Flat, key: string, s: Slot, now: int)
    ensures Weight(WithSlot(f, key, s), now) + SlotWeight(SlotOf(f, key), now) == Weight(f, now) + SlotWeight(s, now)
  {
    LiveStringsAfter(f, key, s, now);
    FieldCountAfter(f.hashes, key, s.fields);
    ListCountAfter(f.lists, key, s.items);
    hide FieldCount, LiveStrings;
  }

  lemma WeightFalls(f: Flat, now: int, later: int)
    requires now <= later
    ensures Weight(f, later) <= Weight(f, now)
  {
    var more, fewer := LiveStrings(f, now), LiveStrings(f, later);
    assert more == fewer + (more - fewer);
    assert |more| == |fewer| + |more - fewer|;
  }

  /** The operation may bring one more string, field or list. */
  predicate Adds(op: Op) {
    op.Set? || op.IncrBy? || op.Hset? || op.Lpush? || op.Rpush?
  }

  lemma ActWeight(s: Slot, op: Op, now: int)
    ensures SlotWeight(Act(s, op, now).0, now) <= SlotWeight(s, now) + if Adds(op) then 1 else 0
    ensures op.IncrBy? && !Act(s, op, now).1.ok ==> Act(s, op, now).0 == s
  {
    hide Slice, Stoll, DecimalInt, Wrap64;
    match op
    case Hset(_, field, value) =>
      assert s.Hash()[field := value].Keys == s.Hash().Keys + {field};
    case Hdel(_, field) =>
      var less := s.Hash() - {field};
      assert less.Keys <= s.Hash().Keys;
      Subset(less.Keys, s.Hash().Keys);
    case _ =>
  }

  lemma ApplyWeight(f: Flat, op: Op, now: int)
    ensures Weight(Apply(f, op, now).0, now) <= Weight(f, now) + if Adds(op) then 1 else 0
    ensures op.IncrBy? && !Apply(f, op, now).1.ok ==> Weight(Apply(f, op, now).0, now) <= Weight(f, now)
  {
    hide Act, Weight, SlotWeight, WithSlot, SlotOf;
    ActWeight(SlotOf(f, op.key), op, now);
    WeightAfter(f, op.key, Act(SlotOf(f, op.key), op, now).0, now);
  }

  // ---- commands with several arguments -------------------------------------------------

  lemma MonotoneMeans(clock: Clock, n: nat, m: nat)
    requires Monotone(clock, n) && m <= n
    ensures clock.at(0) <= clock.at(m) <= clock.at(n) && Monotone(clock, m)
  {
  }

  lemma {:induction false} DelWeight(f: Flat, keys: seq<string>, n: nat, now: int)
    requires n <= |keys|
    ensures Weight(DelAll(f, keys, n, now).0, now) <= Weight(f, now)
    ensures Tidy(f) ==> Tidy(DelAll(f, keys, n, now).0)
  {
    hide Apply, Weight, Tidy;
    if n > 0 {
      DelWeight(f, keys, n - 1, now);
      if Tidy(f) { ApplyKeepsTidy(DelAll(f, keys, n - 1, now).0, Del(keys[n - 1]), now); }
      ApplyWeight(DelAll(f, keys, n - 1, now).0, Del(keys[n - 1]), now);
    }
  }

  lemma {:induction false} GetWeight(f: Flat, keys: seq<string>, n: nat, clock: Clock, start: int)
    requires n <= |keys| && Monotone(clock, n) && start <= clock.at(0)
    ensures Weight(GetAll(f, keys, n, clock).0, clock.at(n)) <= Weight(f, start)
    ensures Tidy(f) ==> Tidy(GetAll(f, keys, n, clock).0)
  {
    hide Apply, Weight, Tidy;
    if n == 0 {
      WeightFalls(f, start, clock.at(0));
    } else {
      GetWeight(f, keys, n - 1, clock, start);
      var g := GetAll(f, keys, n - 1, clock).0;
      if Tidy(f) { ApplyKeepsTidy(g, Get(keys[n - 1]), clock.at(n - 1)); }
      ApplyWeight(g, Get(keys[n - 1]), clock.at(n - 1));
      WeightFalls(Apply(g, Get(keys[n - 1]), clock.at(n - 1)).0, clock.at(n - 1), clock.at(n));
    }
  }

  /** Once the list is there, further values add no list. */
  lemma {:induction false} PushWeight(f: Flat, front: bool, key: string, values: seq<string>, n: nat, now: int)
    requires n <= |values|
    ensures Weight(PushAll(f, front, key, values, n, now).0, now)
            <= Weight(f, now) + if SlotOf(f, key).items.Some? || n == 0 then 0 else 1
    ensures SlotOf(PushAll(f, front, key, values, n, now).0, key).items.Some? <==> SlotOf(f, key).items.Some? || n > 0
    ensures Tidy(f) ==> Tidy(PushAll(f, front, key, values, n, now).0)
  {
    hide Weight, SlotOf, WithSlot, Tidy;
    if n > 0 {
      PushWeight(f, front, key, values, n - 1, now);
      var g := PushAll(f, front, key, values, n - 1, now).0;
      var op := PushOp(front, key, values[n - 1]);
      if Tidy(f) { ApplyKeepsTidy(g, op, now); }
      WeightAfter(g, key, Act(SlotOf(g, key), op, now).0, now);
    }
  }

  // ---- the log covers the store ---------------------------------------------------------

  /** The log holds as many records as the store takes, or at most `extra` fewer. */
  ghost predicate Covers(db: Db, now: int, extra: nat) {
    && Tidy(db.store) && Enabled(db.aof) && db.aof.open
    && exists records ::
         AllWritable(records) && db.aof.file == Arrays(records) && Weight(db.store, now) <= |records| + extra
  }

  lemma CoversLogged(db: Db, store: Flat, record: seq<string>, now: int, later: int, extra: nat)
    requires Covers(db, now, extra) && Tidy(store) && Writable(record)
    requires Weight(store, later) <= Weight(db.store, now) + 1
    ensures Covers(Db(store, Appended(db.aof, record)), later, extra)
  {
    hide Covers, Writable, Weight, Tidy;
    CoversLoggedMore(db, store, record, now, later, extra, 0);
  }

  lemma CoversMeans(db: Db, now: int, extra: nat)
    requires Covers(db, now, extra)
    ensures Tidy(db.store) && Enabled(db.aof)
  {
  }

  lemma WritableIsNonEmpty(record: seq<string>)
    requires Writable(record)
    ensures record != []
  {
  }

  lemma CoversQuiet(db: Db, store: Flat, now: int, later: int, extra: nat)
    requires Covers(db, now, extra) && Tidy(store) && Weight(store, later) <= Weight(db.store, now)
    ensures Covers(db.(store := store), later, extra)
  {
    hide Weight, Arrays, Tidy;
  }

  /** One operation at its sample, logged if it adds anything. */
  lemma CoversOperation(db: Db, op: Op, record: seq<string>, start: int, now: int, later: int, extra: nat)
    requires Covers(db, start, extra) && start <= now <= later
    ensures Writable(record) ==> Covers(Logged(Perform(db, op, now), record), later, extra)
    ensures !Adds(op) || (op.IncrBy? && !Apply(db.store, op, now).1.ok) ==> Covers(Perform(db, op, now), later, extra)
  {
    assert Tidy(db.store);
    hide Covers, Apply, Weight, Adds, Writable, Tidy;
    ApplyKeepsTidy(db.store, op, now);
    var store := Apply(db.store, op, now).0;
    WeightFalls(db.store, start, now);
    ApplyWeight(db.store, op, now);
    WeightFalls(store, now, later);
    if Writable(record) { CoversLogged(db, store, record, start, later, extra); }
    if Weight(store, later) <= Weight(db.store, start) { CoversQuiet(db, store, start, later, extra); }
  }

  lemma CoversLater(db: Db, now: int, later: int, extra: nat)
    requires Covers(db, now, extra) && now <= later
    ensures Covers(db, later, extra)
  {
    assert Tidy(db.store);
    hide Weight, Covers, Tidy;
    WeightFalls(db.store, now, later);
    CoversQuiet(db, db.store, now, later, extra);
  }

  // ---- what a rewrite emits ---------------------------------------------------------------

  lemma {:induction false} StringRecordCount(pairs: seq<(string, string)>)
    ensures |StringRecords(pairs)| == |pairs|
  {
    if pairs != [] { StringRecordCount(pairs[..|pairs| - 1]); }
  }

  lemma {:induction false} FieldRecordCount(key: string, fields: FieldList)
    ensures |FieldRecords(key, fields)| == |fields|
  {
    if fields != [] { FieldRecordCount(key, fields[..|fields| - 1]); }
  }

  lemma {:induction false} ListRecordCount(lists: seq<(string, seq<string>)>)
    ensures |ListRecords(lists)| <= |lists|
  {
    if lists != [] { ListRecordCount(lists[..|lists| - 1]); }
  }

  lemma {:induction false} HashRecordCount(hashes: seq<(string, FieldList)>, m: map<string, Fields>)
    requires ListsHashes(hashes, m)
    ensures |HashRecords(hashes)| == FieldCount(m)
  {
    hide Lists, MapOf;
    if hashes == [] {
      assert AsMaps(hashes) == [];
      NoPairs(m);
    } else {
      var n := |hashes| - 1;
      var (k, fields) := hashes[n];
      assert AsMaps(hashes)[..n] == AsMaps(hashes[..n]);
      var most := MapOf(AsMaps(hashes[..n]));
      ListsPrefix(AsMaps(hashes), m);
      ListsAre(AsMaps(hashes), m);
      HashRecordCount(hashes[..n], most);
      FieldRecordCount(k, fields);
      FieldCountSplit(m, k);
      assert m - {k} == most;
    }
  }

  lemma RewriteCount(s: Snapshot, f: Flat, now: int)
    requires IsSnapshot(s, LiveData(f, now))
    ensures |RewriteRecords(s)| <= Weight(f, now)
    ensures |s.lists| == |ListRecords(s.lists)| ==> |RewriteRecords(s)| == Weight(f, now)
  {
    StringRecordCount(s.strings);
    HashRecordCount(s.hashes, f.hashes);
    ListRecordCount(s.lists);
    assert LiveData(f, now).strings.Keys == LiveStrings(f, now);
    hide MapOf, StringRecords, HashRecords, ListRecords, FieldCount;
  }

  lemma {:induction false} ListRecordsOfNonEmpty(lists: seq<(string, seq<string>)>)
    requires forall i :: 0 <= i < |lists| ==> lists[i].1 != []
    ensures |ListRecords(lists)| == |lists|
  {
    if lists != [] { ListRecordsOfNonEmpty(lists[..|lists| - 1]); }
  }

  /** A rewrite of a tidy store emits one record for each live string, field and list. */
  lemma RewriteCountExact(s: Snapshot, f: Flat, now: int)
    requires Tidy(f) && IsSnapshot(s, LiveData(f, now))
    ensures |RewriteRecords(s)| == Weight(f, now)
  {
    hide Tidy, Weight, RewriteRecords, MapOf;
    TidyIsNothingEmpty(f, now);
    ListsMembers(s.lists, f.lists);
    ListRecordsOfNonEmpty(s.lists);
    RewriteCount(s, f, now);
  }

  // ---- whole runs ---------------------------------------------------------------------------

  lemma RewriteCovers(db: Db, rewritten: string, now: int, extra: nat)
    requires Tidy(db.store) && Enabled(db.aof)
    requires Storable(LiveData(db.store, now)) && IsRewrite(rewritten, db.store, now)
    ensures Covers(RunBgrewriteaof(db, rewritten).0, now, extra)
  {
    hide Tidy, Weight, RewriteRecords, Storable, LiveData, IsSnapshot, Arrays;
    var s :| IsSnapshot(s, LiveData(db.store, now)) && rewritten == Arrays(RewriteRecords(s));
    RewriteIsGood(s, LiveData(db.store, now));
    RewriteCountExact(s, db.store, now);
    AllGood(RewriteRecords(s));
  }

  lemma WritableTokens(tokens: seq<string>)
    requires InMemory(tokens) && tokens != []
    ensures Writable(tokens)
  {
  }

  lemma WritableSetex(tokens: seq<string>)
    requires Writable(tokens) && |tokens| == 4
    ensures Writable(["SET", tokens[1], tokens[3], "EX", tokens[2]])
  {
  }

  lemma SetCovers(db: Db, tokens: seq<string>, start: int, now: int, later: int, extra: nat)
    requires Covers(db, start, extra) && Writable(tokens) && start <= now <= later
    ensures Covers(RunSet(db, tokens, now).0, later, extra)
  {
    hide Covers, Writable, Weight, Apply, Appended, Stoll, ToUpper, Integer, Bulk;
    CoversLater(db, start, later, extra);
    if |tokens| >= 3 {
      var ttl := if HasExpiry(tokens) then Stoll(tokens[4]) else None;
      CoversOperation(db, Set(tokens[1], tokens[2], ttl), tokens, start, now, later, extra);
    }
  }

  lemma SetexCovers(db: Db, tokens: seq<string>, start: int, now: int, later: int, extra: nat)
    requires Covers(db, start, extra) && Writable(tokens) && start <= now <= later
    ensures Covers(RunSetex(db, tokens, now).0, later, extra)
  {
    hide Covers, Writable, Weight, Apply, Appended, Stoll, ToUpper, Integer, Bulk;
    CoversLater(db, start, later, extra);
    if |tokens| == 4 {
      WritableSetex(tokens);
      var record := ["SET", tokens[1], tokens[3], "EX", tokens[2]];
      CoversOperation(db, Set(tokens[1], tokens[3], Stoll(tokens[2])), record, start, now, later, extra);
    }
  }

  lemma GetCovers(db: Db, tokens: seq<string>, start: int, now: int, later: int, extra: nat)
    requires Covers(db, start, extra) && Writable(tokens) && start <= now <= later
    ensures Covers(RunGet(db, tokens, now).0, later, extra)
  {
    hide Covers, Writable, Weight, Apply, Appended, Stoll, ToUpper, Integer, Bulk;
    CoversLater(db, start, later, extra);
    if |tokens| == 2 {
      CoversOperation(db, Get(tokens[1]), tokens, start, now, later, extra);
    }
  }

  lemma IncrByCounts(f: Flat, key: string, delta: int, now: int)
    ensures Apply(f, IncrBy(key, delta), now).1.Counter?
  {
  }

  lemma CounterCovers(db: Db, tokens: seq<string>, delta: int, start: int, now: int, later: int, extra: nat)
    requires Covers(db, start, extra) && Writable(tokens) && |tokens| >= 2 && start <= now <= later
    ensures Covers(Incremented(db, tokens, delta, now).0, later, extra)
  {
    hide Covers, Writable, Weight, Apply, Appended, Stoll, ToUpper, Integer, Bulk;
    CoversLater(db, start, later, extra);
    IncrByCounts(db.store, tokens[1], delta, now);
    CoversOperation(db, IncrBy(tokens[1], delta), tokens, start, now, later, extra);
  }

  lemma HsetCovers(db: Db, tokens: seq<string>, start: int, now: int, later: int, extra: nat)
    requires Covers(db, start, extra) && Writable(tokens) && start <= now <= later
    ensures Covers(RunHset(db, tokens, now).0, later, extra)
  {
    hide Covers, Writable, Weight, Apply, Appended, Stoll, ToUpper, Integer, Bulk;
    CoversLater(db, start, later, extra);
    if |tokens| == 4 {
      CoversOperation(db, Hset(tokens[1], tokens[2], tokens[3]), tokens, start, now, later, extra);
    }
  }

  lemma HdelCovers(db: Db, tokens: seq<string>, start: int, now: int, later: int, extra: nat)
    requires Covers(db, start, extra) && Writable(tokens) && start <= now <= later
    ensures Covers(RunHdel(db, tokens, now).0, later, extra)
  {
    hide Covers, Writable, Weight, Apply, Appended, Stoll, ToUpper, Integer, Bulk;
    CoversLater(db, start, later, extra);
    if |tokens| == 3 {
      CoversOperation(db, Hdel(tokens[1], tokens[2]), tokens, start, now, later, extra);
    }
  }

  lemma PopCovers(db: Db, tokens: seq<string>, front: bool, start: int, now: int, later: int, extra: nat)
    requires Covers(db, start, extra) && Writable(tokens) && start <= now <= later
    ensures Covers(RunPop(db, tokens, front, now).0, later, extra)
  {
    hide Covers, Writable, Weight, Apply, Appended, Stoll, ToUpper, Integer, Bulk;
    CoversLater(db, start, later, extra);
    if |tokens| == 2 {
      CoversOperation(db, if front then Lpop(tokens[1]) else Rpop(tokens[1]), tokens, start, now, later, extra);
    }
  }

  lemma ExpireCovers(db: Db, tokens: seq<string>, start: int, now: int, later: int, extra: nat)
    requires Covers(db, start, extra) && Writable(tokens) && start <= now <= later
    ensures Covers(RunExpire(db, tokens, now).0, later, extra)
  {
    hide Covers, Writable, Weight, Apply, Appended, Stoll, ToUpper, Integer, Bulk;
    CoversLater(db, start, later, extra);
    if |tokens| == 3 && Stoll(tokens[2]).Some? {
      CoversOperation(db, Expire(tokens[1], Stoll(tokens[2]).value), tokens, start, now, later, extra);
    }
  }

  lemma TtlCovers(db: Db, tokens: seq<string>, start: int, now: int, later: int, extra: nat)
    requires Covers(db, start, extra) && Writable(tokens) && start <= now <= later
    ensures Covers(RunTtl(db, tokens, now).0, later, extra)
  {
    hide Covers, Writable, Weight, Apply, Appended, Stoll, ToUpper, Integer, Bulk;
    CoversLater(db, start, later, extra);
    if |tokens| == 2 {
      CoversOperation(db, Ttl(tokens[1]), tokens, start, now, later, extra);
    }
  }

  lemma MgetCovers(db: Db, tokens: seq<string>, clock: Clock, start: int, extra: nat)
    requires Covers(db, start, extra) && Monotone(clock, |tokens|) && start <= clock.at(0)
    ensures Covers(RunMget(db, tokens, clock).0, clock.at(|tokens|), extra)
  {
    hide Covers, Weight, GetAll, Monotone, Tidy;
    MonotoneMeans(clock, |tokens|, 0);
    CoversLater(db, start, clock.at(|tokens|), extra);
    CoversMeans(db, start, extra);
    if |tokens| >= 2 {
      var n := |tokens| - 1;
      MonotoneMeans(clock, |tokens|, n);
      GetWeight(db.store, tokens[1..], n, clock, start);
      var store := GetAll(db.store, tokens[1..], n, clock).0;
      WeightFalls(store, clock.at(n), clock.at(|tokens|));
      CoversQuiet(db, store, start, clock.at(|tokens|), extra);
    }
  }

  /** How many keys an MSET sets beyond the first: its one record pays for one. */
  function ExtraOf(v: Verb, tokens: seq<string>): nat {
    if v.MsetV? && |tokens| >= 3 && (|tokens| - 1) % 2 == 0 then (|tokens| - 1) / 2 - 1 else 0
  }

  lemma {:induction false} SetWeight(f: Flat, pairs: seq<string>, n: nat, clock: Clock, start: int)
    requires 2 * n <= |pairs| && Monotone(clock, n) && start <= clock.at(0)
    ensures Weight(SetAll(f, pairs, n, clock), clock.at(n)) <= Weight(f, start) + n
    ensures Tidy(f) ==> Tidy(SetAll(f, pairs, n, clock))
  {
    hide Apply, Weight, Tidy;
    if n == 0 {
      WeightFalls(f, start, clock.at(0));
    } else {
      SetWeight(f, pairs, n - 1, clock, start);
      var g, op := SetAll(f, pairs, n - 1, clock), Set(pairs[2 * n - 2], pairs[2 * n - 1], None);
      if Tidy(f) { ApplyKeepsTidy(g, op, clock.at(n - 1)); }
      ApplyWeight(g, op, clock.at(n - 1));
      WeightFalls(Apply(g, op, clock.at(n - 1)).0, clock.at(n - 1), clock.at(n));
    }
  }

  lemma MsetCovers(db: Db, tokens: seq<string>, clock: Clock, start: int, extra: nat)
    requires Covers(db, start, extra) && Writable(tokens) && Monotone(clock, |tokens|) && start <= clock.at(0)
    ensures Covers(RunMset(db, tokens, clock).0, clock.at(|tokens|), extra + ExtraOf(MsetV, tokens))
  {
    hide Covers, Weight, SetAll, Monotone, Tidy, Appended, Writable, WrongArguments;
    MonotoneMeans(clock, |tokens|, 0);
    CoversLater(db, start, clock.at(|tokens|), extra);
    CoversMeans(db, start, extra);
    if |tokens| >= 3 && (|tokens| - 1) % 2 == 0 {
      var n := (|tokens| - 1) / 2;
      MonotoneMeans(clock, |tokens|, n);
      SetWeight(db.store, tokens[1..], n, clock, start);
      var store := SetAll(db.store, tokens[1..], n, clock);
      WeightFalls(store, clock.at(n), clock.at(|tokens|));
      CoversMore(db, start, extra, n - 1);
      CoversLoggedMore(db, store, tokens, start, clock.at(|tokens|), extra, n - 1);
    }
  }

  lemma CoversMore(db: Db, now: int, extra: nat, more: nat)
    requires Covers(db, now, extra)
    ensures Covers(db, now, extra + more)
  {
    hide Weight, Arrays, Tidy;
  }

  /** A record is appended for several strings at once. */
  lemma CoversLoggedMore(db: Db, store: Flat, record: seq<string>, now: int, later: int, extra: nat, more: nat)
    requires Covers(db, now, extra) && Tidy(store) && Writable(record)
    requires Weight(store, later) <= Weight(db.store, now) + 1 + more
    ensures Covers(Db(store, Appended(db.aof, record)), later, extra + more)
  {
    hide Writable, Weight, Array, Arrays, Tidy;
    var records :| AllWritable(records) && db.aof.file == Arrays(records) && Weight(db.store, now) <= |records| + extra;
    ArraysSnoc(records, record);
    assert AllWritable(records + [record]);
    assert record != [] by { WritableIsNonEmpty(record); }
  }

  lemma PushCovers(db: Db, tokens: seq<string>, front: bool, start: int, now: int, later: int, extra: nat)
    requires Covers(db, start, extra) && Writable(tokens) && start <= now <= later
    ensures Covers(RunPush(db, tokens, front, now).0, later, extra)
  {
    hide Covers, Weight, PushAll, Tidy, SlotOf, Appended, Integer, Writable;
    CoversMeans(db, start, extra);
    CoversLater(db, start, later, extra);
    if |tokens| >= 3 {
      var n := |tokens| - 2;
      var store := PushAll(db.store, front, tokens[1], tokens[2..], n, now).0;
      PushWeight(db.store, front, tokens[1], tokens[2..], n, now);
      WeightFalls(db.store, start, now);
      WeightFalls(store, now, later);
      CoversLogged(db, store, tokens, start, later, extra);
    }
  }

  lemma DelCovers(db: Db, tokens: seq<string>, start: int, now: int, later: int, extra: nat)
    requires Covers(db, start, extra) && Writable(tokens) && start <= now <= later
    ensures Covers(RunDel(db, tokens, now).0, later, extra)
  {
    hide Covers, Weight, DelAll, Tidy, Appended, Integer, Writable;
    CoversMeans(db, start, extra);
    CoversLater(db, start, later, extra);
    if |tokens| >= 2 {
      var store := DelAll(db.store, tokens[1..], |tokens| - 1, now).0;
      DelWeight(db.store, tokens[1..], |tokens| - 1, now);
      WeightFalls(db.store, start, now);
      WeightFalls(store, now, later);
      CoversLogged(db, store, tokens, start, later, extra);
      CoversQuiet(db, store, start, later, extra);
    }
  }

  lemma FlushCovers(db: Db, start: int, later: int, extra: nat)
    requires Covers(db, start, extra)
    ensures Covers(RunFlushdb(db).0, later, extra)
  {
    hide Covers, Weight, Tidy, Appended;
    EmptyWeighsNothing(later);
    WritableFlush();
    CoversLogged(db, EMPTY, ["FLUSHDB"], start, later, extra);
  }

  lemma WritableFlush()
    ensures Writable(["FLUSHDB"])
  {
  }

  predicate OnStrings(v: Verb) {
    v.SetV? || v.SetexV? || v.GetV? || v.MgetV? || v.MsetV? || v.IncrV? || v.DecrV? || v.IncrbyV?
  }

  lemma StringCovers(db: Db, v: Verb, tokens: seq<string>, ch: Choice, start: int, extra: nat)
    requires OnStrings(v)
    requires Covers(db, start, extra) && InMemory(tokens) && tokens != []
    requires AllowedData(db, v, tokens, ch) && Monotone(ch.clock, |tokens|) && start <= ch.clock.at(0)
    ensures Covers(RunData(db, v, tokens, ch).0, ch.clock.at(|tokens|), extra + ExtraOf(v, tokens))
  {
    hide Covers, Monotone, Storable, IsRewrite, Tidy, Stoll, SlotOf, LiveData, InMemory, Writable, Lists;
    hide RunSet, RunSetex, RunGet, RunMget, RunMset, RunHset, RunHdel;
    hide RunPush, RunPop, RunDel, RunExpire, RunTtl, RunFlushdb;
    hide Incremented, RunBgrewriteaof;
    var now, later := ch.clock.at(0), ch.clock.at(|tokens|);
    CoversMeans(db, start, extra);
    MonotoneMeans(ch.clock, |tokens|, 0);
    WritableTokens(tokens);
    CoversLater(db, start, later, extra);
    match v
    case SetV => SetCovers(db, tokens, start, now, later, extra);
    case SetexV => SetexCovers(db, tokens, start, now, later, extra);
    case GetV => GetCovers(db, tokens, start, now, later, extra);
    case MgetV => MgetCovers(db, tokens, ch.clock, start, extra);
    case MsetV => MsetCovers(db, tokens, ch.clock, start, extra);
    case IncrV => if |tokens| == 2 { CounterCovers(db, tokens, 1, start, now, later, extra); }
    case DecrV => if |tokens| == 2 { CounterCovers(db, tokens, -1, start, now, later, extra); }
    case IncrbyV =>
      if |tokens| == 3 && Stoll(tokens[2]).Some? {
        CounterCovers(db, tokens, Stoll(tokens[2]).value, start, now, later, extra);
      }
  }

  lemma OtherCovers(db: Db, v: Verb, tokens: seq<string>, ch: Choice, start: int, extra: nat)
    requires !OnStrings(v)
    requires Covers(db, start, extra) && InMemory(tokens) && tokens != []
    requires AllowedData(db, v, tokens, ch) && Monotone(ch.clock, |tokens|) && start <= ch.clock.at(0)
    requires v.BgrewriteaofV? ==> Storable(LiveData(db.store, ch.clock.at(0)))
    ensures Covers(RunData(db, v, tokens, ch).0, ch.clock.at(|tokens|), extra + ExtraOf(v, tokens))
  {
    hide Covers, Monotone, Storable, IsRewrite, Tidy, Stoll, SlotOf, LiveData, InMemory, Writable, Lists;
    hide RunSet, RunSetex, RunGet, RunMget, RunMset, RunHset, RunHdel;
    hide RunPush, RunPop, RunDel, RunExpire, RunTtl, RunFlushdb;
    hide Incremented, RunBgrewriteaof;
    var now, later := ch.clock.at(0), ch.clock.at(|tokens|);
    CoversMeans(db, start, extra);
    MonotoneMeans(ch.clock, |tokens|, 0);
    WritableTokens(tokens);
    CoversLater(db, start, later, extra);
    match v
    case HsetV => HsetCovers(db, tokens, start, now, later, extra);
    case HdelV => HdelCovers(db, tokens, start, now, later, extra);
    case LpushV => PushCovers(db, tokens, true, start, now, later, extra);
    case RpushV => PushCovers(db, tokens, false, start, now, later, extra);
    case LpopV => PopCovers(db, tokens, true, start, now, later, extra);
    case RpopV => PopCovers(db, tokens, false, start, now, later, extra);
    case DelV => DelCovers(db, tokens, start, now, later, extra);
    case ExpireV => ExpireCovers(db, tokens, start, now, later, extra);
    case TtlV => TtlCovers(db, tokens, start, now, later, extra);
    case FlushdbV => FlushCovers(db, start, later, extra);
    case BgrewriteaofV =>
      if Enabled(db.aof) { RewriteCovers(db, ch.rewritten, now, extra); }
      CoversLater(RunBgrewriteaof(db, ch.rewritten).0, now, later, extra);
    case _ =>
  }

  /** Every command logs a record for each string, field or list it adds, but for the
      keys of an MSET beyond the first. */
  lemma DataCovers(db: Db, v: Verb, tokens: seq<string>, ch: Choice, start: int, extra: nat)
    requires Covers(db, start, extra) && InMemory(tokens) && tokens != []
    requires AllowedData(db, v, tokens, ch) && Monotone(ch.clock, |tokens|) && start <= ch.clock.at(0)
    requires v.BgrewriteaofV? ==> Storable(LiveData(db.store, ch.clock.at(0)))
    ensures Covers(RunData(db, v, tokens, ch).0, ch.clock.at(|tokens|), extra + ExtraOf(v, tokens))
  {
    hide Covers, InMemory, AllowedData, Monotone, Storable, LiveData, RunData, ExtraOf;
    if OnStrings(v) {
      StringCovers(db, v, tokens, ch, start, extra);
    } else {
      OtherCovers(db, v, tokens, ch, start, extra);
    }
  }

  lemma EmptyWeighsNothing(now: int)
    ensures Weight(EMPTY, now) == 0 && Tidy(EMPTY)
  {
    assert LiveStrings(EMPTY, now) == {};
  }

  /** The request is in memory, comes no earlier than `start`, and the environment
      behaves. */
  ghost predicate Counted(db: Db, password: string, r: Request, start: int) {
    && |r.raw| <= MAX_SIZE
    && start <= r.ch.clock.at(0) && Monotone(r.ch.clock, |ParseRequest(r.raw)|)
    && (Reaches(password, r) ==>
          && AllowedData(db, VerbIn(r), ParseRequest(r.raw), r.ch)
          && (VerbIn(r).BgrewriteaofV? ==> Storable(LiveData(db.store, r.ch.clock.at(0)))))
  }

  /** The keys beyond the first of every MSET of the run that got as far as the store. */
  function ExtraIn(password: string, r: Request): nat {
    if Reaches(password, r) then ExtraOf(VerbIn(r), ParseRequest(r.raw)) else 0
  }

  function RunExtra(password: string, requests: seq<Request>): nat {
    if requests == [] then 0 else
      RunExtra(password, requests[..|requests| - 1]) + ExtraIn(password, requests[|requests| - 1])
  }

  /** The clock after the last sample a request can take. */
  function TimeAfter(requests: seq<Request>, start: int): int {
    if requests == [] then start else
      var r := requests[|requests| - 1];
      r.ch.clock.at(|ParseRequest(r.raw)|)
  }

  ghost predicate AllCounted(db: Db, password: string, requests: seq<Request>, start: int) {
    requests == [] ||
    var n := |requests| - 1;
    && AllCounted(db, password, requests[..n], start)
    && Counted(ServeAll(db, password, requests[..n]), password, requests[n], TimeAfter(requests[..n], start))
  }

  lemma ServeCovers(db: Db, password: string, r: Request, start: int, extra: nat)
    requires Covers(db, start, extra) && Counted(db, password, r, start)
    ensures Covers(Serve(db, password, r), r.ch.clock.at(|ParseRequest(r.raw)|), extra + ExtraIn(password, r))
  {
    var tokens := ParseRequest(r.raw);
    hide Covers, ParseRequest, RunData, VerbOf, ToUpper, AllowedData, Storable, Monotone, LiveData;
    ParsedInMemory(r.raw);
    MonotoneMeans(r.ch.clock, |tokens|, 0);
    CoversLater(db, start, r.ch.clock.at(|tokens|), extra);
    if Reaches(password, r) {
      DataCovers(db, VerbIn(r), tokens, r.ch, start, extra);
      SessionVerbs(VerbIn(r), tokens);
    }
  }

  lemma SessionVerbs(v: Verb, tokens: seq<string>)
    ensures v.AuthV? || v.PingV? || v.QuitV? ==> ExtraOf(v, tokens) == 0
  {
  }

  lemma {:induction false} RunCovers(db: Db, password: string, requests: seq<Request>, start: int, extra: nat)
    requires Covers(db, start, extra) && AllCounted(db, password, requests, start)
    ensures Covers(ServeAll(db, password, requests), TimeAfter(requests, start), extra + RunExtra(password, requests))
    decreases |requests|
  {
    hide Covers, Counted, Serve, ParseRequest, ExtraIn;
    if requests != [] {
      var n := |requests| - 1;
      RunCovers(db, password, requests[..n], start, extra);
      ServeCovers(ServeAll(db, password, requests[..n]), password, requests[n], TimeAfter(requests[..n], start),
                  extra + RunExtra(password, requests[..n]));
    }
  }

  /** After any run from an empty store and log, with a clock that never steps back, a
      rewrite emits at most as many records as the log holds, plus the keys beyond the
      first of the run's MSETs. */
  lemma CompactionNeverGrows(password: string, requests: seq<Request>, start: int, s: Snapshot, now: int)
    requires AllCounted(FRESH, password, requests, start) && TimeAfter(requests, start) <= now
    requires IsSnapshot(s, LiveData(ServeAll(FRESH, password, requests).store, now))
    ensures var db := ServeAll(FRESH, password, requests);
            db.aof.Aof? && |RewriteRecords(s)| <= |Records(db.aof.file)| + RunExtra(password, requests)
  {
    hide AllCounted, ServeAll, Weight, Records, TimeAfter, RewriteRecords, IsSnapshot, LiveData, RunExtra, Arrays, Tidy;
    FreshCovers(start);
    RunCovers(FRESH, password, requests, start, 0);
    var db, extra := ServeAll(FRESH, password, requests), RunExtra(password, requests);
    CoversLater(db, TimeAfter(requests, start), now, extra);
    var records :| AllWritable(records) && db.aof.file == Arrays(records) && Weight(db.store, now) <= |records| + extra;
    RecordsOfLog(records);
    RewriteCount(s, db.store, now);
  }

  lemma FreshCovers(start: int)
    ensures Covers(FRESH, start, 0)
  {
    EmptyWeighsNothing(start);
    assert AllWritable([]) && Arrays([]) == "";
  }

  /** The bound is met: an MSET of two keys is one record in the log and two in a rewrite. */
  lemma MsetMayGrow(tokens: seq<string>, s: Snapshot, clock: Clock, now: int)
    requires tokens == ["MSET", "a", "1", "b", "2"]
    requires IsSnapshot(s, LiveData(RunMset(FRESH, tokens, clock).0.store, now))
    ensures RunMset(FRESH, tokens, clock).0.aof == Aof(true, true, Arrays([tokens]))
    ensures |RewriteRecords(s)| == 2 == |[tokens]| + ExtraOf(MsetV, tokens)
  {
    hide RunMset, Weight, Tidy, RewriteRecords, IsSnapshot, LiveData, Arrays;
    var db := RunMset(FRESH, tokens, clock).0;
    MsetOfTwo(tokens, clock);
    TwoStringsWeigh(db.store, "a", "b", now);
    RewriteCountExact(s, db.store, now);
  }

  lemma MsetOfTwo(tokens: seq<string>, clock: Clock)
    requires tokens == ["MSET", "a", "1", "b", "2"]
    ensures var db := RunMset(FRESH, tokens, clock).0;
            && db.aof == Aof(true, true, Arrays([tokens]))
            && db.store
               == Flat(map["a" := Entry("1", None, clock.at(0)), "b" := Entry("2", None, clock.at(1))], map[], map[])
  {
    hide SetAll, Array, Arrays;
    SetAllOfTwo(tokens[1..], "a", "1", "b", "2", clock);
    OneRecord(tokens);
  }

  lemma OneRecord(tokens: seq<string>)
    ensures "" + Array(tokens) == Arrays([tokens])
  {
    hide Array;
    ArraysSnoc([], tokens);
    assert [] + [tokens] == [tokens];
  }

  lemma SetAllOfTwo(pairs: seq<string>, a: string, x: string, b: string, y: string, clock: Clock)
    requires pairs == [a, x, b, y]
    ensures SetAll(EMPTY, pairs, 2, clock)
            == Flat(map[a := Entry(x, None, clock.at(0)), b := Entry(y, None, clock.at(1))], map[], map[])
  {
    hide SetAll, Apply;
    SetAllOfNone(EMPTY, pairs, clock);
    SetAllStep(EMPTY, pairs, 0, clock);
    SetAllStep(EMPTY, pairs, 1, clock);
    SetOnStrings(EMPTY, a, x, clock.at(0));
    SetOnStrings(SetAll(EMPTY, pairs, 1, clock), b, y, clock.at(1));
  }

  lemma SetOnStrings(f: Flat, key: string, value: string, now: int)
    requires f.hashes == map[] && f.lists == map[]
    ensures Apply(f, Set(key, value, None), now).0
            == Flat(f.strings[key := Entry(value, None, now)], map[], map[])
  {
  }

  lemma TwoStringsWeigh(f: Flat, a: string, b: string, now: int)
    requires a != b && f.strings.Keys == {a, b} && f.hashes == map[] && f.lists == map[]
    requires f.strings[a].expires.None? && f.strings[b].expires.None?
    ensures Tidy(f) && Weight(f, now) == 2
  {
    assert LiveStrings(f, now) == {a, b};
  }
}
