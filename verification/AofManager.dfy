/** The append-only file (src/AofManager.cpp) as an object that owns the bytes of the
    log: appending a record, loading the log into a store, compacting it. */
module AofManager {
  import opened Basics
  import opened Numerals
  import opened Wire
  import opened FlatStore
  import opened Snapshots
  import opened LogCodec
  import opened Replay
  import KeyValueStore
  import Shards

  class AofManager {
    const enabled: bool
    var open: bool
    var file: string

    function State(): Aof
      reads this
    {
      Aof(enabled, open, file)
    }

    /** Opens the file in append mode, if enabled and if it can be opened. */
    constructor (enabled: bool, canOpen: bool, existing: string)
      ensures State() == Aof(enabled, enabled && canOpen, existing)
    {
      this.enabled := enabled;
      this.open := enabled && canOpen;
      this.file := existing;
    }

    method Append(tokens: seq<string>)
      modifies this`file
      ensures State() == Appended(old(State()), tokens)
    {
      if !enabled || tokens == [] || !open {
        return;
      }
      ghost var was := file;
      file := file + ("*" + Decimal(|tokens|) + CRLF);
      hide Bulk, Decimal;
      for i := 0 to |tokens|
        invariant file == was + (ArrayHeader(|tokens|) + Bulks(tokens[..i]))
      {
        assert tokens[..i + 1] == tokens[..i] + [tokens[i]];
        BulksSnoc(tokens[..i], tokens[i]);
        Assoc(ArrayHeader(|tokens|), Bulks(tokens[..i]), Bulk(tokens[i]));
        Assoc(was, ArrayHeader(|tokens|) + Bulks(tokens[..i]), Bulk(tokens[i]));
        file := file + Bulk(tokens[i]);
      }
      assert tokens[..|tokens|] == tokens;
    }

    /** Reads the log from its first byte and replays every complete record. */
    method LoadIntoStore(store: KeyValueStore.KeyValueStore, clock: Clock) returns (replayed: nat)
      requires store.Valid()
      modifies store.shards, store`contents
      ensures store.Valid()
      ensures enabled ==> store.contents == ReplayAll(old(store.contents), Records(file), clock, 0)
      ensures enabled ==> replayed == CountReplayed(Records(file))
      ensures !enabled ==> store.contents == old(store.contents) && replayed == 0
    {
      if !enabled {
        return 0;
      }
      ghost var log, from := Records(file), store.contents;
      var input := Input(file, true);
      ghost var done: seq<seq<string>> := [];
      LoadStarts(file, from, clock);
      hide ReplayOne, ReplayAll, CountReplayed, Throws, Decode, ReadRecord, Records, GetLine, LoadProgress;
      hide Shards.Represents, FlatStore.Tidy;
      replayed := 0;
      var samples := 0;
      var line := GetLine(input);
      while line.ok
        invariant store.Valid() && samples == |done|
        invariant line == GetLine(input)
        invariant LoadProgress(log, done, input, from, store.contents, clock, replayed)
        decreases |input.rest|
      {
        var record, next := LoadRecord(line);
        LoadStep(log, done, input, from, store.contents, clock, replayed);
        if record.Some? {
          done := done + [record.value];
          var ok := ReplayCommand(store, record.value, clock.at(samples));
          samples := samples + 1;
          if ok {
            replayed := replayed + 1;
          }
        }
        input := next;
        line := GetLine(input);
      }
      LoadEnds(log, done, input, from, store.contents, clock, replayed);
    }

    /** The record a line opens: the token loop, with every way out of it. */
    static method LoadRecord(line: Line) returns (record: Option<seq<string>>, next: Input)
      ensures (record, next) == ReadRecord(line)
    {
      hide ReadToken, Stoul;
      record, next := None, line.input;
      var header := StripCr(line.text);
      if header == "" || header[0] != '*' {
        return;
      }
      var count := Stoul(header[1..]);
      if count.None? || count.value > MAX_SIZE {
        return;
      }
      var tokens: seq<string> := [];
      var i := 0;
      while i < count.value
        invariant i <= count.value && i == |tokens|
        invariant ReadTokens(next, count.value - i, tokens) == ReadTokens(line.input, count.value, [])
      {
        var piece := ReadToken(next);
        next := piece.input;
        match piece {
          case Token(text, _) => tokens := tokens + [text];
          case Stop(_) => return;
          case Throw(_) => return;
        }
        i := i + 1;
      }
      record := Some(tokens);
    }

    /** The interpreter: false if an exception was caught. */
    static method ReplayCommand(store: KeyValueStore.KeyValueStore, cmd: seq<string>, now: int) returns (ok: bool)
      requires store.Valid()
      modifies store.shards, store`contents
      ensures store.Valid() && store.contents == ReplayOne(old(store.contents), cmd, now)
      ensures ok == !Throws(cmd)
    {
      hide Shards.Represents, FlatStore.Tidy, Apply, Stoll, VerbOf;
      ok := true;
      if cmd == [] {
        return;
      }
      match VerbOf(cmd[0]) {
        case SetV =>
          if |cmd| >= 3 { store.Set(cmd[1], cmd[2], None, now); }
        case DelV =>
          if |cmd| >= 2 { var n := DelKeys(store, cmd[1..], now); }
        case ExpireV =>
          if |cmd| >= 3 {
            var seconds := Stoll(cmd[2]);
            if seconds.None? { return false; }
            var b := store.Expire(cmd[1], seconds.value, now);
          }
        case HsetV =>
          if |cmd| >= 4 { var b := store.Hset(cmd[1], cmd[2], cmd[3], now); }
        case HdelV =>
          if |cmd| >= 3 { var b := store.Hdel(cmd[1], cmd[2], now); }
        case LpushV =>
          if |cmd| >= 3 { var n := PushValues(store, true, cmd[1], cmd[2..], now); }
        case RpushV =>
          if |cmd| >= 3 { var n := PushValues(store, false, cmd[1], cmd[2..], now); }
        case FlushdbV => store.Clear();
        case _ =>
      }
    }

    /** Writes a snapshot of the store as a log of its own and puts it in the place of
        the old one, which is reopened for appending. */
    method Rewrite(store: KeyValueStore.KeyValueStore, now: int) returns (ok: bool)
      requires store.Valid()
      modifies this
      ensures ok == enabled
      ensures enabled ==> open && IsRewrite(file, store.contents, now)
      ensures !enabled ==> State() == old(State())
    {
      if !enabled {
        return false;
      }
      var snapshot := store.GetSnapshot(now);
      hide Shards.Represents, FlatStore.Tidy, IsSnapshot, LiveData;
      var strings := WriteStrings(snapshot.strings);
      var hashes := WriteHashes(snapshot.hashes);
      var lists := WriteLists(snapshot.lists);
      ArraysConcat(StringRecords(snapshot.strings), HashRecords(snapshot.hashes));
      ArraysConcat(StringRecords(snapshot.strings) + HashRecords(snapshot.hashes), ListRecords(snapshot.lists));
      file := strings + hashes + lists;
      open := true;
      return true;
    }
  }

  // ---- progress of the loader ---------------------------------------------------

  /** `done` has been replayed, and the rest of the input decodes to the rest of the log. */
  ghost predicate LoadProgress(log: seq<seq<string>>, done: seq<seq<string>>, input: Input,
                               from: Flat, store: Flat, clock: Clock, replayed: nat) {
    && done + Decode(input) == log
    && store == ReplayAll(from, done, clock, 0)
    && replayed == CountReplayed(done)
  }

  lemma LoadStarts(file: string, from: Flat, clock: Clock)
    ensures LoadProgress(Records(file), [], Input(file, true), from, from, clock, 0)
  {
  }

  lemma LoadStep(log: seq<seq<string>>, done: seq<seq<string>>, input: Input,
                 from: Flat, store: Flat, clock: Clock, replayed: nat)
    requires LoadProgress(log, done, input, from, store, clock, replayed) && GetLine(input).ok
    ensures var (record, next) := ReadRecord(GetLine(input));
            if record.None? then LoadProgress(log, done, next, from, store, clock, replayed) else
              LoadProgress(log, done + [record.value], next, from, ReplayOne(store, record.value, clock.at(|done|)),
                           clock, replayed + if Throws(record.value) then 0 else 1)
  {
    hide ReplayOne, Throws, ReadRecord, GetLine;
    var (record, next) := ReadRecord(GetLine(input));
    if record.Some? {
      ReplaySnoc(from, done, record.value, clock, 0);
      assert (done + [record.value])[..|done|] == done;
      Assoc(done, [record.value], Decode(next));
    }
  }

  lemma LoadEnds(log: seq<seq<string>>, done: seq<seq<string>>, input: Input,
                 from: Flat, store: Flat, clock: Clock, replayed: nat)
    requires LoadProgress(log, done, input, from, store, clock, replayed) && !GetLine(input).ok
    ensures store == ReplayAll(from, log, clock, 0) && replayed == CountReplayed(log)
  {
    assert done == log;
  }

  // ---- shared by the loader and the dispatcher ----------------------------------

  method DelKeys(store: KeyValueStore.KeyValueStore, keys: seq<string>, now: int) returns (removed: nat)
    requires store.Valid()
    modifies store.shards, store`contents
    ensures store.Valid() && (store.contents, removed) == DelAll(old(store.contents), keys, |keys|, now)
  {
    hide Shards.Represents, FlatStore.Tidy, Apply;
    removed := 0;
    for i := 0 to |keys|
      invariant store.Valid() && (store.contents, removed) == DelAll(old(store.contents), keys, i, now)
    {
      var b := store.Del(keys[i], now);
      if b {
        removed := removed + 1;
      }
    }
  }

  method PushValues(store: KeyValueStore.KeyValueStore, front: bool, key: string, values: seq<string>, now: int)
      returns (length: int)
    requires store.Valid()
    modifies store.shards, store`contents
    ensures store.Valid() && (store.contents, length) == PushAll(old(store.contents), front, key, values, |values|, now)
  {
    hide Shards.Represents, FlatStore.Tidy, Apply;
    length := 0;
    for i := 0 to |values|
      invariant store.Valid() && (store.contents, length) == PushAll(old(store.contents), front, key, values, i, now)
    {
      if front {
        length := store.Lpush(key, values[i], now);
      } else {
        length := store.Rpush(key, values[i], now);
      }
    }
  }

  // ---- the three parts of a compacted log -----------------------------------------

  const SET_HEADER := "*3\r\n$3\r\nSET\r\n"
  const HSET_HEADER := "*4\r\n$4\r\nHSET\r\n"
  const RPUSH_NAME := "$5\r\nRPUSH\r\n"

  lemma Literals()
    ensures SET_HEADER == ArrayHeader(3) + Bulk("SET")
    ensures HSET_HEADER == ArrayHeader(4) + Bulk("HSET")
    ensures RPUSH_NAME == Bulk("RPUSH")
  {
    assert Decimal(3) == "3" && Decimal(4) == "4" && Decimal(5) == "5";
  }

  lemma BulksCons(x: string, rest: seq<string>)
    ensures Bulks([x] + rest) == Bulk(x) + Bulks(rest)
  {
    assert ([x] + rest)[1..] == rest;
  }

  lemma BulksOfTwo(x: string, y: string)
    ensures Bulks([x, y]) == Bulk(x) + Bulk(y)
  {
    hide Bulk;
    BulksSnoc([x], y);
    BulksSnoc([], x);
    assert [] + [x] == [x] && [x] + [y] == [x, y];
  }

  lemma SetRecordIsArray(k: string, v: string)
    ensures SET_HEADER + Bulk(k) + Bulk(v) == Array(["SET", k, v])
  {
    Literals();
    hide Bulk, Bulks, ArrayHeader, SET_HEADER;
    BulksCons("SET", [k, v]);
    assert ["SET"] + [k, v] == ["SET", k, v];
    BulksOfTwo(k, v);
    Assoc(ArrayHeader(3), Bulk("SET"), Bulk(k) + Bulk(v));
    Assoc(SET_HEADER, Bulk(k), Bulk(v));
  }

  lemma HsetRecordIsArray(k: string, f: string, v: string)
    ensures HSET_HEADER + Bulk(k) + Bulk(f) + Bulk(v) == Array(["HSET", k, f, v])
  {
    Literals();
    hide Bulk, Bulks, ArrayHeader, HSET_HEADER;
    BulksCons("HSET", [k, f, v]);
    BulksCons(k, [f, v]);
    assert ["HSET"] + [k, f, v] == ["HSET", k, f, v] && [k] + [f, v] == [k, f, v];
    BulksOfTwo(f, v);
    Assoc(ArrayHeader(4), Bulk("HSET"), Bulk(k) + (Bulk(f) + Bulk(v)));
    Assoc(HSET_HEADER, Bulk(k), Bulk(f) + Bulk(v));
    Assoc(HSET_HEADER + Bulk(k), Bulk(f), Bulk(v));
  }

  lemma RpushRecordIsArray(k: string, items: seq<string>)
    ensures ArrayHeader(2 + |items|) + RPUSH_NAME + Bulk(k) + Bulks(items) == Array(["RPUSH", k] + items)
  {
    Literals();
    hide Bulk, Bulks, ArrayHeader, RPUSH_NAME;
    BulksConcat(["RPUSH", k], items);
    BulksOfTwo("RPUSH", k);
    var h := ArrayHeader(2 + |items|);
    Assoc(h, RPUSH_NAME, Bulk(k));
    Assoc(h, RPUSH_NAME + Bulk(k), Bulks(items));
  }

  method WriteStrings(pairs: seq<(string, string)>) returns (out: string)
    ensures out == Arrays(StringRecords(pairs))
  {
    hide Array, Bulk;
    out := "";
    for i := 0 to |pairs|
      invariant out == Arrays(StringRecords(pairs[..i]))
    {
      assert pairs[..i + 1][..i] == pairs[..i];
      SetRecordIsArray(pairs[i].0, pairs[i].1);
      ArraysSnoc(StringRecords(pairs[..i]), ["SET", pairs[i].0, pairs[i].1]);
      out := out + (SET_HEADER + Bulk(pairs[i].0) + Bulk(pairs[i].1));
    }
    assert pairs[..|pairs|] == pairs;
  }

  method WriteFields(key: string, fields: FieldList) returns (out: string)
    ensures out == Arrays(FieldRecords(key, fields))
  {
    hide Array, Bulk;
    out := "";
    for i := 0 to |fields|
      invariant out == Arrays(FieldRecords(key, fields[..i]))
    {
      assert fields[..i + 1][..i] == fields[..i];
      HsetRecordIsArray(key, fields[i].0, fields[i].1);
      ArraysSnoc(FieldRecords(key, fields[..i]), ["HSET", key, fields[i].0, fields[i].1]);
      out := out + (HSET_HEADER + Bulk(key) + Bulk(fields[i].0) + Bulk(fields[i].1));
    }
    assert fields[..|fields|] == fields;
  }

  method WriteHashes(hashes: seq<(string, FieldList)>) returns (out: string)
    ensures out == Arrays(HashRecords(hashes))
  {
    hide Array, Arrays, FieldRecords;
    out := "";
    assert Arrays([]) == "" by {
      NoArrays();
    }
    for i := 0 to |hashes|
      invariant out == Arrays(HashRecords(hashes[..i]))
    {
      assert hashes[..i + 1][..i] == hashes[..i];
      ArraysConcat(HashRecords(hashes[..i]), FieldRecords(hashes[i].0, hashes[i].1));
      var fields := WriteFields(hashes[i].0, hashes[i].1);
      out := out + fields;
    }
    assert hashes[..|hashes|] == hashes;
  }

  lemma NoArrays()
    ensures Arrays([]) == ""
  {
  }

  method WriteLists(lists: seq<(string, seq<string>)>) returns (out: string)
    ensures out == Arrays(ListRecords(lists))
  {
    hide Array, ArrayHeader, Bulk;
    out := "";
    for i := 0 to |lists|
      invariant out == Arrays(ListRecords(lists[..i]))
    {
      assert lists[..i + 1][..i] == lists[..i];
      var key, items := lists[i].0, lists[i].1;
      if items != [] {
        var body := WriteItems(items);
        RpushRecordIsArray(key, items);
        ArraysSnoc(ListRecords(lists[..i]), ["RPUSH", key] + items);
        out := out + (ArrayHeader(2 + |items|) + RPUSH_NAME + Bulk(key) + body);
      } else {
        assert ListRecords(lists[..i + 1]) == ListRecords(lists[..i]);
      }
    }
    assert lists[..|lists|] == lists;
  }

  method WriteItems(items: seq<string>) returns (out: string)
    ensures out == Bulks(items)
  {
    hide Bulk;
    out := "";
    for i := 0 to |items|
      invariant out == Bulks(items[..i])
    {
      assert items[..i + 1] == items[..i] + [items[i]];
      BulksSnoc(items[..i], items[i]);
      out := out + Bulk(items[i]);
    }
    assert items[..|items|] == items;
  }
}
