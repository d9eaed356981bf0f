/** Replay equals live state: which requests leave a log that loads into the store as
    it is, and exactly which do not (src/CommandParser.cpp against src/AofManager.cpp). */
module Durability {
  import opened Basics
  import opened Numerals
  import opened Wire
  import opened Resp
  import opened FlatStore
  import opened Snapshots
  import opened LogCodec
  import opened Replay
  import opened ReplayLaws
  import opened Compaction
  import opened Commands
  import Expiry
  import Sampling

  /** The log holds whole records that set no deadline, and loading it into an empty
      store gives the live store but for last-access stamps. */
  ghost predicate Durable(db: Db, clock: Clock) {
    && Plain(db.store)
    && Enabled(db.aof) && db.aof.open
    && (exists records :: GoodRecords(records) && db.aof.file == Arrays(records))
    && SameButStamps(Load(db.aof.file, clock), db.store)
  }

  // ---- what a request asks for --------------------------------------------------

  predicate Positive(text: string) {
    Stoll(text).Some? && Stoll(text).value > 0
  }

  predicate UpperCase(tokens: seq<string>)
    requires tokens != []
  {
    ToUpper(tokens[0]) == tokens[0]
  }

  function StringAt(f: Flat, key: string): Option<string> {
    if key in f.strings then Some(f.strings[key].value) else None
  }

  /** The value MSET leaves at each key: the last one given for it. */
  function Assigned(pairs: seq<string>, n: nat): map<string, string>
    requires 2 * n <= |pairs|
  {
    if n == 0 then map[] else Assigned(pairs, n - 1)[pairs[2 * n - 2] := pairs[2 * n - 1]]
  }

  /** Adding to the counter succeeds and changes its text. */
  predicate CounterChanges(f: Flat, key: string, delta: int) {
    match StringAt(f, key)
    case None => true
    case Some(text) => Stoll(text).Some? && DecimalInt(Wrap64(Stoll(text).value + delta)) != text
  }

  /** The writes that the loader will not repeat: those of a command it does not know,
      and of any command whose name was not written in upper case. */
  predicate LosesWrite(f: Flat, v: Verb, tokens: seq<string>)
    requires tokens != []
  {
    match v
    case SetV =>
      && !UpperCase(tokens) && |tokens| >= 3 && (HasExpiry(tokens) ==> Stoll(tokens[4]).Some?)
      && StringAt(f, tokens[1]) != Some(tokens[2])
    case MsetV =>
      && |tokens| >= 3 && (|tokens| - 1) % 2 == 0
      && var final := Assigned(tokens[1..], (|tokens| - 1) / 2);
         exists key :: key in final && StringAt(f, key) != Some(final[key])
    case IncrV => |tokens| == 2 && CounterChanges(f, tokens[1], 1)
    case DecrV => |tokens| == 2 && CounterChanges(f, tokens[1], -1)
    case IncrbyV =>
      |tokens| == 3 && Stoll(tokens[2]).Some? && CounterChanges(f, tokens[1], Stoll(tokens[2]).value)
    case HsetV =>
      && !UpperCase(tokens) && |tokens| == 4
      && var h := SlotOf(f, tokens[1]).Hash();
         !(tokens[2] in h && h[tokens[2]] == tokens[3])
    case HdelV => !UpperCase(tokens) && |tokens| == 3 && tokens[2] in SlotOf(f, tokens[1]).Hash()
    case LpushV => !UpperCase(tokens) && |tokens| >= 3
    case RpushV => !UpperCase(tokens) && |tokens| >= 3
    case LpopV => |tokens| == 2 && SlotOf(f, tokens[1]).List() != []
    case RpopV => |tokens| == 2 && SlotOf(f, tokens[1]).List() != []
    case DelV => !UpperCase(tokens) && exists key :: key in tokens[1..] && SlotOf(f, key) != NOTHING
    case ExpireV =>
      !UpperCase(tokens) && |tokens| == 3 && Stoll(tokens[2]).Some? && tokens[1] in f.strings
    case _ => false
  }

  /** The request leaves a deadline in the store: the log cannot give it back. */
  predicate StoresDeadline(f: Flat, v: Verb, tokens: seq<string>) {
    match v
    case SetV => HasExpiry(tokens) && Positive(tokens[4])
    case SetexV => |tokens| == 4 && Positive(tokens[2])
    case ExpireV => |tokens| == 3 && Positive(tokens[2]) && tokens[1] in f.strings
    case _ => false
  }

  /** After the request a reload no longer gives the live store. */
  predicate BreaksReload(f: Flat, v: Verb, tokens: seq<string>)
    requires tokens != []
  {
    LosesWrite(f, v, tokens) || StoresDeadline(f, v, tokens)
  }

  // ---- what the log does with a record --------------------------------------------

  lemma LoadAppended(file: string, record: seq<string>, clock: Clock)
    requires exists records :: GoodRecords(records) && file == Arrays(records)
    requires GoodRecord(record)
    ensures exists records :: GoodRecords(records) && file + Array(record) == Arrays(records)
    ensures Load(file + Array(record), clock)
            == ReplayOne(Load(file, clock), record, clock.at(|Records(file)|))
  {
    hide ReplayOne, ReplayAll, GoodRecord, Arrays, Array, Records;
    var records :| GoodRecords(records) && file == Arrays(records);
    assert AllWritable(records) && AllWritable(records + [record]) by { GoodIsWritable(records, record); }
    RecordsOfLog(records);
    ArraysSnoc(records, record);
    GoodConcat(records, [record]);
    RecordsOfLog(records + [record]);
    ReplaySnoc(EMPTY, records, record, clock, 0);
  }

  lemma GoodIsWritable(records: seq<seq<string>>, record: seq<string>)
    requires GoodRecords(records) && GoodRecord(record)
    ensures AllWritable(records) && AllWritable(records + [record])
  {
    hide Writable, DeadlineFree;
  }

  /** A record was appended: the log still loads into the live store exactly when
      replaying the record does to the old store what the command did. */
  lemma Logs(db: Db, store: Flat, record: seq<string>, clock: Clock, now: int)
    requires Durable(db, clock) && Plain(store) && GoodRecord(record)
    ensures Durable(Db(store, Appended(db.aof, record)), clock)
            <==> SameButStamps(ReplayOne(db.store, record, now), store)
  {
    hide Plain, SameButStamps, Load, ReplayOne, GoodRecords, Arrays, Array;
    var was, n := Load(db.aof.file, clock), |Records(db.aof.file)|;
    LoadAppended(db.aof.file, record, clock);
    SameBothWays(was, db.store);
    var live, loaded := ReplayOne(db.store, record, now), ReplayOne(was, record, clock.at(n));
    assert SameButStamps(live, loaded) by { ReplayOneIgnoresStamps(db.store, was, record, now, clock.at(n)); }
    SameBothWays(live, loaded);
    if SameButStamps(loaded, store) { SameThrough(live, loaded, store); }
    if SameButStamps(live, store) { SameThrough(loaded, live, store); }
  }

  lemma LogsNothing(db: Db, store: Flat, clock: Clock)
    requires Durable(db, clock) && Plain(store)
    ensures Durable(db.(store := store), clock) <==> SameButStamps(db.store, store)
  {
    hide Plain, SameButStamps, Load, GoodRecords, Arrays;
    var loaded := Load(db.aof.file, clock);
    SameBothWays(loaded, db.store);
    if SameButStamps(loaded, store) { SameThrough(db.store, loaded, store); }
    if SameButStamps(db.store, store) { SameThrough(loaded, db.store, store); }
  }

  /** Whether an operation can be seen at all is a question about its one key. */
  predicate Seen(f: Flat, op: Op, now: int) {
    Unstamped(Act(SlotOf(f, op.key), op, now).0) != Unstamped(SlotOf(f, op.key))
  }

  lemma SeenAtItsKey(f: Flat, op: Op, now: int)
    ensures SameButStamps(f, Apply(f, op, now).0) <==> !Seen(f, op, now)
  {
    hide Act, Unstamped, WithSlot, SlotOf;
  }

  /** One operation and the record logged for it, if any. */
  lemma OneOperation(db: Db, op: Op, record: seq<string>, now: int, clock: Clock)
    requires Durable(db, clock) && !SetsDeadline(op) && GoodRecord(record)
    ensures ReplayOne(db.store, record, now) == Apply(db.store, op, now).0
            ==> Durable(Logged(Perform(db, op, now), record), clock)
    ensures ReplayOne(db.store, record, now) == db.store
            ==> (Durable(Logged(Perform(db, op, now), record), clock) <==> !Seen(db.store, op, now))
    ensures Durable(Perform(db, op, now), clock) <==> !Seen(db.store, op, now)
  {
    hide Tidy, Stoll, Apply, SameButStamps, Load, GoodRecords, Arrays, Array, ReplayOne, SetsDeadline, Seen, GoodRecord;
    var store := Apply(db.store, op, now).0;
    ApplyKeepsPlain(db.store, op, now);
    Logs(db, store, record, clock, now);
    LogsNothing(db, store, clock);
    SeenAtItsKey(db.store, op, now);
    SameToItself(store);
  }

  /** The same for an operation that logs nothing. */
  lemma OneRead(db: Db, op: Op, now: int, clock: Clock)
    requires Durable(db, clock) && !SetsDeadline(op)
    ensures Durable(Perform(db, op, now), clock) <==> !Seen(db.store, op, now)
  {
    hide Durable, Seen, SetsDeadline, Perform, ReplayOne;
    assert GoodRecord(["FLUSHDB"]);
    OneOperation(db, op, ["FLUSHDB"], now, clock);
  }

  predicate KnownToLoader(v: Verb) {
    v in {SetV, DelV, ExpireV, HsetV, HdelV, LpushV, RpushV, FlushdbV}
  }

  lemma Ignored(f: Flat, tokens: seq<string>, now: int)
    requires tokens != [] && (!UpperCase(tokens) || !KnownToLoader(VerbOf(ToUpper(tokens[0]))))
    ensures ReplayOne(f, tokens, now) == f
    ensures DeadlineFree(tokens)
  {
    hide VerbOf, ToUpper;
    if !UpperCase(tokens) { OnlyUpperCaseIsReplayed(tokens[0]); }
  }

  // ---- each command that writes -----------------------------------------------------

  lemma SetDurable(db: Db, tokens: seq<string>, now: int, clock: Clock)
    requires Durable(db, clock) && InMemory(tokens) && tokens != [] && VerbOf(ToUpper(tokens[0])) == SetV
    ensures Durable(RunSet(db, tokens, now).0, clock) <==> !BreaksReload(db.store, SetV, tokens)
  {
    hide Durable, Stoll, VerbOf, ToUpper, Apply, ReplayOne, Logged, Perform;
    if |tokens| >= 3 && (HasExpiry(tokens) ==> Stoll(tokens[4]).Some?) {
      var ttl := if HasExpiry(tokens) then Stoll(tokens[4]) else None;
      var op := Set(tokens[1], tokens[2], ttl);
      if SetsDeadline(op) {
        DeadlineStored(db, op, tokens, now, clock);
      } else {
        SetReplays(db, op, tokens, now, clock);
      }
    }
  }

  /** A store that has a deadline in it is no longer durable, whatever was logged. */
  lemma DeadlineStored(db: Db, op: Op, record: seq<string>, now: int, clock: Clock)
    requires SetsDeadline(op) && (op.Set? || (SlotOf(db.store, op.key).IsLive(now)))
    ensures !Durable(Logged(Perform(db, op, now), record), clock)
  {
    var store := Apply(db.store, op, now).0;
    hide WithSlot;
    assert !NoDeadline(SlotOf(store, op.key));
  }

  /** Shared by SET and SETEX: what is logged is SET with the key and the value. */
  lemma SetReplays(db: Db, op: Op, record: seq<string>, now: int, clock: Clock)
    requires Durable(db, clock) && InMemory(record) && op.Set? && !SetsDeadline(op)
    requires |record| >= 3 && record[1] == op.key && record[2] == op.value && VerbOf(ToUpper(record[0])) == SetV
    ensures Durable(Logged(Perform(db, op, now), record), clock)
            <==> UpperCase(record) || StringAt(db.store, op.key) == Some(op.value)
  {
    assert NoDeadlines(db.store);
    hide Durable, NoDeadlines, Stoll, VerbOf, ToUpper, Apply, Perform, Logged, Act;
    if !UpperCase(record) { Ignored(db.store, record, now); }
    OneOperation(db, op, record, now, clock);
    SetWithoutDeadline(db.store, op, now);
  }

  lemma SetWithoutDeadline(f: Flat, op: Op, now: int)
    requires op.Set? && !SetsDeadline(op) && NoDeadlines(f)
    ensures Apply(f, op, now) == Apply(f, Set(op.key, op.value, None), now)
    ensures Seen(f, op, now) <==> StringAt(f, op.key) != Some(op.value)
  {
    assert NoDeadline(SlotOf(f, op.key));
  }

  lemma SetexDurable(db: Db, tokens: seq<string>, now: int, clock: Clock)
    requires Durable(db, clock) && InMemory(tokens) && tokens != []
    ensures Durable(RunSetex(db, tokens, now).0, clock) <==> !BreaksReload(db.store, SetexV, tokens)
  {
    hide Durable, Stoll, VerbOf, Apply, ReplayOne, Logged, Perform, ToUpper;
    if |tokens| == 4 && Stoll(tokens[2]).Some? {
      var record := ["SET", tokens[1], tokens[3], "EX", tokens[2]];
      var op := Set(tokens[1], tokens[3], Stoll(tokens[2]));
      if SetsDeadline(op) {
        DeadlineStored(db, op, record, now, clock);
      } else {
        WriteNamesAreUpper();
        SetIsSet();
        SetReplays(db, op, record, now, clock);
      }
    }
  }

  lemma SetIsSet()
    ensures VerbOf("SET") == SetV
  {
  }

  lemma GetDurable(db: Db, key: string, now: int, clock: Clock)
    requires Durable(db, clock)
    ensures Durable(Perform(db, Get(key), now), clock)
  {
    assert NoDeadline(SlotOf(db.store, key));
    OneRead(db, Get(key), now, clock);
    hide Durable, SlotOf, Perform;
  }

  lemma {:induction false} MgetDurable(db: Db, keys: seq<string>, n: nat, times: Clock, clock: Clock)
    requires Durable(db, clock) && n <= |keys|
    ensures Durable(db.(store := GetAll(db.store, keys, n, times).0), clock)
  {
    hide Durable, Apply;
    if n > 0 {
      MgetDurable(db, keys, n - 1, times, clock);
      GetDurable(db.(store := GetAll(db.store, keys, n - 1, times).0), keys[n - 1], times.at(n - 1), clock);
    }
  }

  lemma CounterDurable(db: Db, tokens: seq<string>, delta: int, now: int, clock: Clock)
    requires Durable(db, clock) && InMemory(tokens) && |tokens| >= 2
    requires !KnownToLoader(VerbOf(ToUpper(tokens[0])))
    ensures Durable(Incremented(db, tokens, delta, now).0, clock) <==> !CounterChanges(db.store, tokens[1], delta)
  {
    var op := IncrBy(tokens[1], delta);
    assert NoDeadlines(db.store);
    CounterIsSeen(db.store, tokens[1], delta, now);
    hide Durable, NoDeadlines, Apply, VerbOf, ToUpper, CounterChanges, Seen;
    Ignored(db.store, tokens, now);
    OneOperation(db, op, tokens, now, clock);
  }

  lemma CounterIsSeen(f: Flat, key: string, delta: int, now: int)
    requires NoDeadlines(f)
    ensures Seen(f, IncrBy(key, delta), now) <==> CounterChanges(f, key, delta)
    ensures !Apply(f, IncrBy(key, delta), now).1.ok ==> !Seen(f, IncrBy(key, delta), now)
  {
    hide Stoll, DecimalInt;
    assert NoDeadline(SlotOf(f, key));
  }

  lemma HsetDurable(db: Db, tokens: seq<string>, now: int, clock: Clock)
    requires Durable(db, clock) && InMemory(tokens) && tokens != [] && VerbOf(ToUpper(tokens[0])) == HsetV
    ensures Durable(RunHset(db, tokens, now).0, clock) <==> !LosesWrite(db.store, HsetV, tokens)
  {
    hide Durable, VerbOf, ToUpper, Apply, Seen, SlotOf;
    if |tokens| == 4 {
      var op := Hset(tokens[1], tokens[2], tokens[3]);
      HsetIsSeen(db.store, op, now);
      if !UpperCase(tokens) { Ignored(db.store, tokens, now); }
      OneOperation(db, op, tokens, now, clock);
    }
  }

  lemma HsetIsSeen(f: Flat, op: Op, now: int)
    requires op.Hset?
    ensures Seen(f, op, now) <==>
            var h := SlotOf(f, op.key).Hash(); !(op.field in h && h[op.field] == op.value)
  {
    var h := SlotOf(f, op.key).Hash();
    if op.field in h && h[op.field] == op.value {
      assert h[op.field := op.value] == h;
    }
  }

  lemma HdelDurable(db: Db, tokens: seq<string>, now: int, clock: Clock)
    requires Durable(db, clock) && InMemory(tokens) && tokens != [] && VerbOf(ToUpper(tokens[0])) == HdelV
    ensures Durable(RunHdel(db, tokens, now).0, clock) <==> !LosesWrite(db.store, HdelV, tokens)
  {
    assert Tidy(db.store);
    hide Durable, Tidy, VerbOf, ToUpper, Seen, SlotOf, WithSlot;
    if |tokens| == 3 {
      var op := Hdel(tokens[1], tokens[2]);
      HdelIsSeen(db.store, op, now);
      if !UpperCase(tokens) { Ignored(db.store, tokens, now); }
      OneOperation(db, op, tokens, now, clock);
    }
  }

  lemma HdelIsSeen(f: Flat, op: Op, now: int)
    requires op.Hdel? && Tidy(f)
    ensures Seen(f, op, now) <==> op.field in SlotOf(f, op.key).Hash()
  {
    var s := SlotOf(f, op.key);
    assert TidySlot(s);
    if op.field !in s.Hash() {
      assert s.Hash() - {op.field} == s.Hash();
    } else {
      assert op.field !in s.Hash() - {op.field};
    }
  }

  lemma PopDurable(db: Db, tokens: seq<string>, front: bool, now: int, clock: Clock)
    requires Durable(db, clock) && InMemory(tokens) && |tokens| == 2
    requires !KnownToLoader(VerbOf(ToUpper(tokens[0])))
    ensures Durable(RunPop(db, tokens, front, now).0, clock) <==> SlotOf(db.store, tokens[1]).List() == []
  {
    hide Durable, VerbOf, ToUpper, Seen, SlotOf, WithSlot;
    var op := if front then Lpop(tokens[1]) else Rpop(tokens[1]);
    PopIsSeen(db.store, op, now);
    Ignored(db.store, tokens, now);
    OneOperation(db, op, tokens, now, clock);
  }

  lemma PopIsSeen(f: Flat, op: Op, now: int)
    requires op.Lpop? || op.Rpop?
    ensures Seen(f, op, now) <==> SlotOf(f, op.key).List() != []
    ensures Apply(f, op, now).1.Text? && (Apply(f, op, now).1.text.Some? <==> SlotOf(f, op.key).List() != [])
  {
  }

  lemma ExpireDurable(db: Db, tokens: seq<string>, now: int, clock: Clock)
    requires Durable(db, clock) && InMemory(tokens) && tokens != [] && VerbOf(ToUpper(tokens[0])) == ExpireV
    ensures Durable(RunExpire(db, tokens, now).0, clock) <==> !BreaksReload(db.store, ExpireV, tokens)
  {
    hide Durable, NoDeadlines, VerbOf, ToUpper, Apply, Stoll, Seen, SlotOf, Logged, Perform, Appended;
    DurablePlain(db, clock);
    if |tokens| == 3 && Stoll(tokens[2]).Some? {
      var op := Expire(tokens[1], Stoll(tokens[2]).value);
      if op.seconds <= 0 {
        ExpireIsSeen(db.store, op, now);
        if UpperCase(tokens) { ExpireReplays(db.store, tokens, now); } else { Ignored(db.store, tokens, now); }
        OneOperation(db, op, tokens, now, clock);
      } else if tokens[1] in db.store.strings {
        ExpireFinds(db.store, op, now);
        DeadlineStored(db, op, tokens, now, clock);
      } else {
        ExpireMisses(db, op, now);
      }
    }
  }

  lemma ExpireReplays(f: Flat, tokens: seq<string>, now: int)
    requires |tokens| == 3 && UpperCase(tokens) && VerbOf(ToUpper(tokens[0])) == ExpireV && Stoll(tokens[2]).Some?
    ensures ReplayOne(f, tokens, now) == Apply(f, Expire(tokens[1], Stoll(tokens[2]).value), now).0
  {
    hide Apply, Stoll, VerbOf, ToUpper;
  }

  lemma ExpireFinds(f: Flat, op: Op, now: int)
    requires op.Expire? && op.seconds > 0 && NoDeadlines(f) && op.key in f.strings
    ensures SlotOf(f, op.key).IsLive(now) && Apply(f, op, now).1 == Flag(true)
  {
    assert NoDeadline(SlotOf(f, op.key));
  }

  lemma ExpireMisses(db: Db, op: Op, now: int)
    requires op.Expire? && op.key !in db.store.strings
    ensures Perform(db, op, now) == db && Apply(db.store, op, now).1 == Flag(false)
  {
    hide WithSlot;
    SlotsDetermine(Apply(db.store, op, now).0, db.store);
  }

  lemma ExpireIsSeen(f: Flat, op: Op, now: int)
    requires op.Expire? && op.seconds <= 0 && NoDeadlines(f)
    ensures Seen(f, op, now) <==> op.key in f.strings
    ensures Apply(f, op, now).1 == Flag(op.key in f.strings)
  {
    assert NoDeadline(SlotOf(f, op.key));
  }

  lemma ReadDurable(db: Db, op: Op, now: int, clock: Clock)
    requires Durable(db, clock) && op.Ttl?
    ensures Durable(Perform(db, op, now), clock)
  {
    assert NoDeadline(SlotOf(db.store, op.key));
    OneRead(db, op, now, clock);
    hide Durable, SlotOf, Perform;
  }

  // ---- commands with several arguments ------------------------------------------------

  lemma SetSlot(f: Flat, k: string, v: string, now: int, key: string)
    ensures SlotOf(Apply(f, Set(k, v, None), now).0, key)
            == if key == k then SlotOf(f, key).(entry := Some(Entry(v, None, now))) else SlotOf(f, key)
  {
  }

  lemma {:induction false} MsetSlots(f: Flat, pairs: seq<string>, n: nat, times: Clock, key: string)
    requires 2 * n <= |pairs|
    ensures var final := Assigned(pairs, n);
            Unstamped(SlotOf(SetAll(f, pairs, n, times), key))
            == if key in final then SlotOf(f, key).(entry := Some(Entry(final[key], None, 0)))
               else Unstamped(SlotOf(f, key))
  {
    hide WithSlot, SlotOf;
    if n > 0 {
      MsetSlots(f, pairs, n - 1, times, key);
      SetSlot(SetAll(f, pairs, n - 1, times), pairs[2 * n - 2], pairs[2 * n - 1], times.at(n - 1), key);
    }
  }

  lemma {:induction false} MsetKeepsPlain(f: Flat, pairs: seq<string>, n: nat, times: Clock)
    requires Plain(f) && 2 * n <= |pairs|
    ensures Plain(SetAll(f, pairs, n, times))
  {
    hide Plain, Apply;
    if n > 0 {
      MsetKeepsPlain(f, pairs, n - 1, times);
      ApplyKeepsPlain(SetAll(f, pairs, n - 1, times), Set(pairs[2 * n - 2], pairs[2 * n - 1], None), times.at(n - 1));
    }
  }

  lemma MsetIsSeen(f: Flat, pairs: seq<string>, n: nat, times: Clock)
    requires 2 * n <= |pairs| && NoDeadlines(f)
    ensures var final := Assigned(pairs, n);
            SameButStamps(f, SetAll(f, pairs, n, times))
            <==> forall key :: key in final ==> StringAt(f, key) == Some(final[key])
  {
    var final, g := Assigned(pairs, n), SetAll(f, pairs, n, times);
    forall key
      ensures Unstamped(SlotOf(g, key)) == Unstamped(SlotOf(f, key)) <==>
              (key in final ==> StringAt(f, key) == Some(final[key]))
    {
      MsetSlots(f, pairs, n, times, key);
      assert NoDeadline(SlotOf(f, key));
    }
  }

  lemma MsetDurable(db: Db, tokens: seq<string>, times: Clock, clock: Clock)
    requires Durable(db, clock) && InMemory(tokens) && tokens != [] && VerbOf(ToUpper(tokens[0])) == MsetV
    ensures Durable(RunMset(db, tokens, times).0, clock) <==> !LosesWrite(db.store, MsetV, tokens)
  {
    assert Plain(db.store) && NoDeadlines(db.store);
    hide Durable, Plain, NoDeadlines, VerbOf, ToUpper, SetAll, Assigned, SameButStamps;
    if |tokens| >= 3 && (|tokens| - 1) % 2 == 0 {
      var n := (|tokens| - 1) / 2;
      MsetKeepsPlain(db.store, tokens[1..], n, times);
      MsetIsSeen(db.store, tokens[1..], n, times);
      Ignored(db.store, tokens, 0);
      Logs(db, SetAll(db.store, tokens[1..], n, times), tokens, clock, 0);
    }
  }

  lemma {:induction false} DelSlots(f: Flat, keys: seq<string>, n: nat, now: int)
    requires n <= |keys|
    ensures var (g, removed) := DelAll(f, keys, n, now);
            && (forall k :: SlotOf(g, k) == if k in keys[..n] then NOTHING else SlotOf(f, k))
            && (removed == 0 <==> forall k :: k in keys[..n] ==> SlotOf(f, k) == NOTHING)
  {
    hide SlotOf, WithSlot;
    if n > 0 {
      DelSlots(f, keys, n - 1, now);
      assert keys[..n] == keys[..n - 1] + [keys[n - 1]];
    }
  }

  /** DEL does nothing that can be seen exactly when no key was there. */
  lemma DelIsSeen(f: Flat, keys: seq<string>, now: int)
    ensures var (g, removed) := DelAll(f, keys, |keys|, now);
            && (removed == 0 <==> forall k :: k in keys ==> SlotOf(f, k) == NOTHING)
            && (removed == 0 ==> g == f)
            && (SameButStamps(f, g) <==> removed == 0)
  {
    hide DelAll, SlotOf, Unstamped;
    var (g, removed) := DelAll(f, keys, |keys|, now);
    assert keys[..|keys|] == keys;
    DelSlots(f, keys, |keys|, now);
    if removed == 0 {
      SlotsDetermine(g, f);
      SameToItself(f);
    } else {
      var key :| key in keys && SlotOf(f, key) != NOTHING;
      NothingIsSeen(SlotOf(f, key));
    }
  }

  lemma NothingIsSeen(s: Slot)
    requires s != NOTHING
    ensures Unstamped(s) != Unstamped(NOTHING)
  {
  }

  lemma DurablePlain(db: Db, clock: Clock)
    requires Durable(db, clock)
    ensures Plain(db.store)
  {
  }

  lemma GoodTokens(tokens: seq<string>)
    requires InMemory(tokens) && tokens != [] && VerbOf(ToUpper(tokens[0])) != ExpireV
    ensures GoodRecord(tokens)
  {
    hide ToUpper, VerbOf, Stoll;
    if UpperCase(tokens) {
      assert VerbOf(tokens[0]) != ExpireV;
    } else {
      OnlyUpperCaseIsReplayed(tokens[0]);
    }
  }

  /** A store that was changed by a command of several steps, and its record. */
  lemma WholeCommand(db: Db, store: Flat, record: seq<string>, now: int, clock: Clock)
    requires Durable(db, clock) && Plain(store) && GoodRecord(record)
    ensures ReplayOne(db.store, record, now) == store ==> Durable(Db(store, Appended(db.aof, record)), clock)
    ensures ReplayOne(db.store, record, now) == db.store
            ==> (Durable(Db(store, Appended(db.aof, record)), clock) <==> SameButStamps(db.store, store))
  {
    hide Durable, Plain, GoodRecord, ReplayOne, SameButStamps;
    Logs(db, store, record, clock, now);
    SameToItself(store);
  }

  lemma DelReplays(f: Flat, tokens: seq<string>, now: int)
    requires |tokens| >= 2 && UpperCase(tokens) && VerbOf(ToUpper(tokens[0])) == DelV
    ensures ReplayOne(f, tokens, now) == DelAll(f, tokens[1..], |tokens| - 1, now).0
  {
    hide ToUpper, VerbOf, DelAll;
  }

  lemma DelDurable(db: Db, tokens: seq<string>, now: int, clock: Clock)
    requires Durable(db, clock) && InMemory(tokens) && tokens != [] && VerbOf(ToUpper(tokens[0])) == DelV
    ensures Durable(RunDel(db, tokens, now).0, clock) <==> !LosesWrite(db.store, DelV, tokens)
  {
    hide Durable, Plain, VerbOf, ToUpper, DelAll, SlotOf, SameButStamps, GoodRecord;
    hide InMemory, ReplayOne, UpperCase, Appended;
    DurablePlain(db, clock);
    if |tokens| >= 2 {
      var keys := tokens[1..];
      var store := DelAll(db.store, keys, |keys|, now).0;
      GoodTokens(tokens);
      DelIsSeen(db.store, keys, now);
      SameToItself(db.store);
      DelAllIgnoresStamps(db.store, db.store, keys, |keys|, now, now);
      if UpperCase(tokens) { DelReplays(db.store, tokens, now); } else { Ignored(db.store, tokens, now); }
      WholeCommand(db, store, tokens, now, clock);
    }
  }

  lemma {:induction false} PushLength(f: Flat, front: bool, key: string, values: seq<string>, n: nat, now: int)
    requires n <= |values|
    ensures |SlotOf(PushAll(f, front, key, values, n, now).0, key).List()| == |SlotOf(f, key).List()| + n
  {
    if n > 0 { PushLength(f, front, key, values, n - 1, now); }
  }

  lemma PushIsSeen(f: Flat, front: bool, key: string, values: seq<string>, now: int)
    requires values != []
    ensures !SameButStamps(f, PushAll(f, front, key, values, |values|, now).0)
  {
    hide PushAll;
    var g := PushAll(f, front, key, values, |values|, now).0;
    PushLength(f, front, key, values, |values|, now);
    assert Unstamped(SlotOf(f, key)) != Unstamped(SlotOf(g, key));
  }

  lemma PushReplays(f: Flat, tokens: seq<string>, front: bool, now: int)
    requires |tokens| >= 3 && UpperCase(tokens) && VerbOf(ToUpper(tokens[0])) == (if front then LpushV else RpushV)
    ensures ReplayOne(f, tokens, now) == PushAll(f, front, tokens[1], tokens[2..], |tokens| - 2, now).0
  {
    hide ToUpper, VerbOf, PushAll;
  }

  lemma PushDurable(db: Db, tokens: seq<string>, front: bool, now: int, clock: Clock)
    requires Durable(db, clock) && InMemory(tokens) && tokens != []
    requires VerbOf(ToUpper(tokens[0])) == (if front then LpushV else RpushV)
    ensures Durable(RunPush(db, tokens, front, now).0, clock) <==> UpperCase(tokens) || |tokens| < 3
  {
    hide Durable, Plain, VerbOf, ToUpper, PushAll, SameButStamps, GoodRecord, InMemory, ReplayOne, UpperCase, Appended;
    DurablePlain(db, clock);
    if |tokens| >= 3 {
      var values := tokens[2..];
      var store := PushAll(db.store, front, tokens[1], values, |values|, now).0;
      GoodTokens(tokens);
      PushIsSeen(db.store, front, tokens[1], values, now);
      SameToItself(db.store);
      PushAllIgnoresStamps(db.store, db.store, front, tokens[1], values, |values|, now, now);
      if UpperCase(tokens) { PushReplays(db.store, tokens, front, now); } else { Ignored(db.store, tokens, now); }
      WholeCommand(db, store, tokens, now, clock);
    }
  }

  // ---- the whole store ------------------------------------------------------------------

  lemma FlushDurable(db: Db, clock: Clock)
    requires Durable(db, clock)
    ensures Durable(RunFlushdb(db).0, clock)
  {
    hide Durable, SameButStamps;
    EmptyIsPlain();
    SameToItself(EMPTY);
    assert ReplayOne(db.store, ["FLUSHDB"], 0) == EMPTY && GoodRecord(["FLUSHDB"]);
    Logs(db, EMPTY, ["FLUSHDB"], clock, 0);
  }

  lemma RewriteDurable(db: Db, rewritten: string, now: int, clock: Clock)
    requires Durable(db, clock) && Storable(LiveData(db.store, now)) && IsRewrite(rewritten, db.store, now)
    ensures Durable(RunBgrewriteaof(db, rewritten).0, clock)
  {
    hide IsRewrite, Load, Tidy, NoDeadlines, Holds, GoodRecords, SameButStamps;
    CompactedLogLoads(rewritten, db.store, now, clock);
    HoldsIsSame(Load(rewritten, clock), db.store, now);
  }

  // ---- the janitor -----------------------------------------------------------------------

  /** Active expiry leaves a durable store alone: it has no deadlines. */
  lemma PurgeDurable(db: Db, visited: set<string>, now: int, clock: Clock)
    requires Durable(db, clock)
    ensures Durable(db.(store := Expiry.Purge(db.store, visited, now)), clock)
  {
    var g := Expiry.Purge(db.store, visited, now);
    forall k ensures SlotOf(g, k) == SlotOf(db.store, k) {
      assert NoDeadline(SlotOf(db.store, k));
    }
    SlotsDetermine(g, db.store);
  }

  /** Eviction is not logged: a restart brings the evicted strings back. */
  lemma EvictionIsForgotten(db: Db, victims: set<string>, clock: Clock)
    requires Durable(db, clock)
    ensures Durable(db.(store := Sampling.Evict(db.store, victims)), clock) <==> victims !! db.store.strings.Keys
  {
    var f, g := db.store, Sampling.Evict(db.store, victims);
    EvictKeepsPlain(f, victims);
    hide Durable, Plain;
    LogsNothing(db, g, clock);
    if victims !! f.strings.Keys {
      assert g.strings == f.strings;
      SameToItself(f);
    } else {
      var k :| k in victims && k in f.strings;
      assert Unstamped(SlotOf(f, k)) != Unstamped(SlotOf(g, k));
    }
  }

  lemma EvictKeepsPlain(f: Flat, victims: set<string>)
    requires Plain(f)
    ensures Plain(Sampling.Evict(f, victims))
  {
    forall k
      ensures TidySlot(SlotOf(Sampling.Evict(f, victims), k)) && NoDeadline(SlotOf(Sampling.Evict(f, victims), k))
    {
      assert TidySlot(SlotOf(f, k)) && NoDeadline(SlotOf(f, k));
    }
  }
}
