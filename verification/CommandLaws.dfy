/** What each command does, as a client sees it: for a request that is let through, its
    reply read as a value, what becomes of the one key it names, that no other key is
    touched, and what is logged (src/CommandParser.cpp, README.md). */
module CommandLaws {
  import opened Basics
  import opened Numerals
  import opened Wire
  import opened Resp
  import opened FlatStore
  import opened Snapshots
  import opened Replay
  import opened Commands
  import opened Replies
  import opened StoreLaws

  /** The request reaches the store, and its first word, in upper case, is this name. */
  predicate Asks(authenticated: bool, password: string, raw: string, name: string) {
    !Locked(authenticated, password) && ParseRequest(raw) != [] && ToUpper(ParseRequest(raw)[0]) == name
  }

  /** Under this key there is now this slot, and every other key is as it was. */
  ghost predicate Becomes(f: Flat, g: Flat, key: string, s: Slot) {
    SlotOf(g, key) == s && forall k :: k != key ==> SlotOf(g, k) == SlotOf(f, k)
  }

  function TextAt(f: Flat, key: string, now: int): Option<string> {
    if key in f.strings && (f.strings[key].expires.None? || f.strings[key].expires.value > now)
    then Some(f.strings[key].value) else None
  }

  function HashAt(f: Flat, key: string): Fields {
    if key in f.hashes then f.hashes[key] else map[]
  }

  function ListAt(f: Flat, key: string): seq<string> {
    if key in f.lists then f.lists[key] else []
  }

  const NOT_A_NUMBER := Failure("ERR " + "value is not an integer or out of range")

  // ---- names and replies ----------------------------------------------------------

  lemma StringVerbs()
    ensures VerbOf("SET") == SetV && VerbOf("SETEX") == SetexV && VerbOf("GET") == GetV
  {
  }

  lemma ManyVerbs()
    ensures VerbOf("MGET") == MgetV && VerbOf("MSET") == MsetV
  {
  }

  lemma CounterVerbs()
    ensures VerbOf("INCR") == IncrV && VerbOf("DECR") == DecrV && VerbOf("INCRBY") == IncrbyV
  {
  }

  lemma HashVerbs()
    ensures VerbOf("HSET") == HsetV && VerbOf("HGET") == HgetV && VerbOf("HDEL") == HdelV
  {
  }

  lemma HashReadVerbs()
    ensures VerbOf("HEXISTS") == HexistsV && VerbOf("HLEN") == HlenV && VerbOf("HGETALL") == HgetallV
  {
  }

  lemma PushVerbs()
    ensures VerbOf("LPUSH") == LpushV && VerbOf("RPUSH") == RpushV
  {
  }

  lemma PopVerbs()
    ensures VerbOf("LPOP") == LpopV && VerbOf("RPOP") == RpopV
  {
  }

  lemma ListReadVerbs()
    ensures VerbOf("LLEN") == LlenV && VerbOf("LRANGE") == LrangeV
  {
  }

  lemma KeyVerbs()
    ensures VerbOf("DEL") == DelV && VerbOf("EXISTS") == ExistsV
  {
  }

  lemma TimeVerbs()
    ensures VerbOf("EXPIRE") == ExpireV && VerbOf("TTL") == TtlV
  {
  }

  lemma StoreVerbs()
    ensures VerbOf("DBSIZE") == DbsizeV && VerbOf("FLUSHDB") == FlushdbV
  {
  }

  lemma AdminVerbs()
    ensures VerbOf("BGREWRITEAOF") == BgrewriteaofV && VerbOf("INFO") == InfoV
  {
  }

  predicate OfTheSession(v: Verb) {
    v.AuthV? || v.PingV? || v.QuitV?
  }

  lemma RunIs(db: Db, authenticated: bool, password: string, raw: string, ch: Choice, name: string)
    requires Asks(authenticated, password, raw, name)
    requires !OfTheSession(VerbOf(name))
    ensures var (next, reply) := RunData(db, VerbOf(name), ParseRequest(raw), ch);
            Run(db, authenticated, password, raw, ch) == Outcome(next, authenticated, reply, false)
  {
    hide ParseRequest, RunData, VerbOf, ToUpper;
  }

  lemma Ok()
    ensures Is(OK, Simple("OK"))
  {
    SimpleIsRead("OK");
  }

  lemma NotANumber()
    ensures Is(NOT_AN_INTEGER, NOT_A_NUMBER)
  {
    hide ReadValue;
    assert Unbroken("value is not an integer") && Unbroken(" or out of range");
    Joins("value is not an integer", " or out of range");
    var message := "value is not an integer" + " or out of range";
    assert message == "value is not an integer or out of range";
    ErrorIsRead(message);
  }

  lemma BoolIsRead(b: bool)
    ensures Is(BoolReply(b), Whole(if b then 1 else 0))
  {
    hide ReadValue;
    NumberReplyIsRead(if b then 1 else 0);
  }

  lemma BulkReplyIsRead(t: string)
    ensures Is(Bulk(t), BulkString(t))
  {
    hide ReadValue;
    BulkIsRead(t, "");
    assert Bulk(t) + "" == Bulk(t);
  }

  lemma ApplyBecomes(f: Flat, op: Op, now: int)
    ensures Becomes(f, Apply(f, op, now).0, op.key, Act(SlotOf(f, op.key), op, now).0)
  {
    hide Act, SlotOf;
  }

  lemma ApplyAnswers(f: Flat, op: Op, now: int)
    ensures Apply(f, op, now).1 == Act(SlotOf(f, op.key), op, now).1
  {
  }

  /** A slot that stays leaves the store as it was. */
  lemma StaysTheSame(f: Flat, g: Flat, key: string)
    requires Becomes(f, g, key, SlotOf(f, key))
    ensures g == f
  {
    hide SlotOf;
    forall k ensures SlotOf(g, k) == SlotOf(f, k) {}
    SlotsDetermine(g, f);
  }

  // ---- strings ------------------------------------------------------------------------

  function EntryOf(value: string, seconds: int, now: int): Entry {
    Entry(value, if seconds > 0 then Some(now + seconds * 1_000_000_000) else None, now)
  }

  /** SET stores the value, for that many seconds if EX gives a positive number of them
      and for ever otherwise; a malformed number changes nothing. */
  lemma SetLaw(db: Db, authenticated: bool, password: string, raw: string, ch: Choice)
    requires Asks(authenticated, password, raw, "SET") && |ParseRequest(raw)| >= 3
    ensures var tokens, o := ParseRequest(raw), Run(db, authenticated, password, raw, ch);
            var (key, now) := (tokens[1], ch.clock.at(0));
            var ex := |tokens| >= 5 && ToUpper(tokens[3]) == "EX";
            if ex && Stoll(tokens[4]).None? then Is(o.reply, NOT_A_NUMBER) && o.db == db
            else
              var entry := EntryOf(tokens[2], if ex then Stoll(tokens[4]).value else 0, now);
              && Is(o.reply, Simple("OK")) && o.db.aof == Appended(db.aof, tokens)
              && Becomes(db.store, o.db.store, key, SlotOf(db.store, key).(entry := Some(entry)))
  {
    StringVerbs();
    Ok();
    NotANumber();
    hide ParseRequest, VerbOf, Run, Is, Stoll, ToUpper, SlotOf, WithSlot;
    RunIs(db, authenticated, password, raw, ch, "SET");
  }

  /** SETEX is SET with EX, and logged as that. */
  lemma SetexLaw(db: Db, authenticated: bool, password: string, raw: string, ch: Choice)
    requires Asks(authenticated, password, raw, "SETEX") && |ParseRequest(raw)| == 4
    ensures var tokens, o := ParseRequest(raw), Run(db, authenticated, password, raw, ch);
            var (key, now) := (tokens[1], ch.clock.at(0));
            if Stoll(tokens[2]).None? then Is(o.reply, NOT_A_NUMBER) && o.db == db
            else
              var entry := EntryOf(tokens[3], Stoll(tokens[2]).value, now);
              && Is(o.reply, Simple("OK"))
              && o.db.aof == Appended(db.aof, ["SET", key, tokens[3], "EX", tokens[2]])
              && Becomes(db.store, o.db.store, key, SlotOf(db.store, key).(entry := Some(entry)))
  {
    StringVerbs();
    Ok();
    NotANumber();
    hide ParseRequest, VerbOf, Run, Is, Stoll, ToUpper, SlotOf, WithSlot;
    RunIs(db, authenticated, password, raw, ch, "SETEX");
  }

  /** GET answers the string if it is there and alive, whose stamp is refreshed; an
      expired one is erased. Nothing is logged. */
  lemma GetLaw(db: Db, authenticated: bool, password: string, raw: string, ch: Choice)
    requires Asks(authenticated, password, raw, "GET") && |ParseRequest(raw)| == 2
    ensures var tokens, o := ParseRequest(raw), Run(db, authenticated, password, raw, ch);
            var (key, now) := (tokens[1], ch.clock.at(0));
            var text, was := TextAt(db.store, key, now), SlotOf(db.store, key);
            && Is(o.reply, if text.Some? then BulkString(text.value) else Null) && o.db.aof == db.aof
            && Becomes(db.store, o.db.store, key,
                       was.(entry := if text.Some? then Some(was.entry.value.(accessed := now)) else None))
  {
    StringVerbs();
    hide ParseRequest, VerbOf, Run, Is, ToUpper, Apply, OptionReply, TextAt, SlotOf, Becomes;
    RunIs(db, authenticated, password, raw, ch, "GET");
    var key, now := ParseRequest(raw)[1], ch.clock.at(0);
    GetStore(db.store, key, now);
    OptionReplyIsRead(TextAt(db.store, key, now));
  }

  lemma GetStore(f: Flat, key: string, now: int)
    ensures var (g, answer) := Apply(f, Get(key), now);
            var text, was := TextAt(f, key, now), SlotOf(f, key);
            && (text.Some? ==> was.entry.Some?) && answer == Text(text)
            && Becomes(f, g, key,
                       was.(entry := if text.Some? then Some(was.entry.value.(accessed := now)) else None))
  {
    TextIsLive(f, key, now);
    hide TextAt, WithSlot, SlotOf;
  }

  /** By how much the command counts. */
  predicate Counts(name: string, tokens: seq<string>, delta: int) {
    || (name == "INCR" && |tokens| == 2 && delta == 1)
    || (name == "DECR" && |tokens| == 2 && delta == -1)
    || (name == "INCRBY" && |tokens| == 3 && Stoll(tokens[2]) == Some(delta))
  }

  /** INCR, DECR and INCRBY add to the number that is stored, or to 0; the sum, in 64 bits,
      is answered, stored as its decimal text, and the deadline stays. Text that is no
      number stays as it is, and nothing is logged. */
  lemma CounterLaw(db: Db, authenticated: bool, password: string, raw: string, ch: Choice, name: string, delta: int)
    requires Asks(authenticated, password, raw, name)
    requires Counts(name, ParseRequest(raw), delta)
    ensures var tokens, o := ParseRequest(raw), Run(db, authenticated, password, raw, ch);
            var (key, now) := (tokens[1], ch.clock.at(0));
            var current := CurrentAt(db.store, key, now);
            if current.None? then Is(o.reply, NOT_A_NUMBER) && o.db == db
            else
              var sum := Wrap64(current.value + delta);
              && Is(o.reply, Whole(sum)) && o.db.aof == Appended(db.aof, tokens)
              && Becomes(db.store, o.db.store, key, CountedSlot(db.store, key, sum, now))
  {
    CounterVerbs();
    hide ParseRequest, VerbOf, Run, Is, ToUpper, Stoll, DecimalInt;
    hide Incremented, Becomes, Appended, CurrentAt, CountedSlot;
    RunIs(db, authenticated, password, raw, ch, name);
    IncrementedLaw(db, ParseRequest(raw), delta, ch.clock.at(0));
  }

  /** What is counted: the number stored, if it is alive and a number, or 0. */
  function CurrentAt(f: Flat, key: string, now: int): Option<int> {
    if TextAt(f, key, now).Some? then Stoll(TextAt(f, key, now).value) else Some(0)
  }

  function CountedSlot(f: Flat, key: string, sum: int, now: int): Slot {
    var was := SlotOf(f, key);
    was.(entry := Some(Entry(DecimalInt(sum),
                             if TextAt(f, key, now).Some? then was.entry.value.expires else None, now)))
  }

  lemma IncrementedLaw(db: Db, tokens: seq<string>, delta: int, now: int)
    requires |tokens| >= 2 && IsInt64(delta)
    ensures var (next, reply) := Incremented(db, tokens, delta, now);
            var current := CurrentAt(db.store, tokens[1], now);
            if current.None? then Is(reply, NOT_A_NUMBER) && next == db
            else
              var sum := Wrap64(current.value + delta);
              && Is(reply, Whole(sum)) && next.aof == Appended(db.aof, tokens)
              && Becomes(db.store, next.store, tokens[1], CountedSlot(db.store, tokens[1], sum, now))
  {
    hide CurrentAt, CountedSlot, Apply, Is, Integer, Becomes, Appended, Wrap64, NOT_A_NUMBER;
    CountedStore(db.store, tokens[1], delta, now);
    NotANumber();
    var current := CurrentAt(db.store, tokens[1], now);
    if current.Some? { NumberReplyIsRead(Wrap64(current.value + delta)); }
  }

  lemma CountedStore(f: Flat, key: string, delta: int, now: int)
    requires IsInt64(delta)
    ensures var (g, answer) := Apply(f, IncrBy(key, delta), now);
            var current := CurrentAt(f, key, now);
            if current.None? then g == f && answer == Counter(false, 0)
            else
              var sum := Wrap64(current.value + delta);
              answer == Counter(true, sum) && Becomes(f, g, key, CountedSlot(f, key, sum, now))
  {
    hide SlotOf, Apply, Act, Stoll, DecimalInt, Becomes, Wrap64, TextAt;
    var op := IncrBy(key, delta);
    TextIsLive(f, key, now);
    CounterAct(SlotOf(f, key), key, delta, now);
    ApplyBecomes(f, op, now);
    ApplyAnswers(f, op, now);
    if CurrentAt(f, key, now).None? { StaysTheSame(f, Apply(f, op, now).0, key); }
  }

  lemma TextIsLive(f: Flat, key: string, now: int)
    ensures var s := SlotOf(f, key);
            TextAt(f, key, now) == if s.IsLive(now) then Some(s.entry.value.value) else None
  {
  }

  lemma CounterAct(s: Slot, key: string, delta: int, now: int)
    requires IsInt64(delta)
    ensures var (t, answer) := Act(s, IncrBy(key, delta), now);
            var current := if s.IsLive(now) then Stoll(s.entry.value.value) else Some(0);
            if current.None? then t == s && answer == Counter(false, 0)
            else
              var sum := Wrap64(current.value + delta);
              && answer == Counter(true, sum)
              && t == s.(entry := Some(Entry(DecimalInt(sum),
                                             if s.IsLive(now) then s.entry.value.expires else None, now)))
  {
    hide Stoll, DecimalInt;
  }

  // ---- several strings at once -------------------------------------------------------

  /** Later than all the samples, reading several strings has changed no answer. */
  lemma {:induction false} GetAllKeepsTexts(f: Flat, keys: seq<string>, n: nat, clock: Clock, key: string, now: int)
    requires n <= |keys| && Monotone(clock, n) && clock.at(n) <= now
    ensures TextAt(GetAll(f, keys, n, clock).0, key, now) == TextAt(f, key, now)
    ensures SlotOf(GetAll(f, keys, n, clock).0, key).fields == SlotOf(f, key).fields
    ensures SlotOf(GetAll(f, keys, n, clock).0, key).items == SlotOf(f, key).items
  {
    hide TextAt, SlotOf, Apply;
    if n > 0 {
      GetAllKeepsTexts(f, keys, n - 1, clock, key, now);
      OneGetKeepsTexts(GetAll(f, keys, n - 1, clock).0, keys[n - 1], clock.at(n - 1), key, now);
    }
  }

  lemma OneGetKeepsTexts(f: Flat, k: string, at: int, key: string, now: int)
    requires at <= now
    ensures var g := Apply(f, Get(k), at).0;
            && TextAt(g, key, now) == TextAt(f, key, now)
            && SlotOf(g, key).fields == SlotOf(f, key).fields && SlotOf(g, key).items == SlotOf(f, key).items
  {
    var g := Apply(f, Get(k), at).0;
    GetStore(f, k, at);
    TextIsLive(f, k, at);
    TextIsLive(f, key, now);
    TextIsLive(g, key, now);
    hide Apply, TextAt, SlotOf;
  }

  /** The values are those texts, or null. */
  predicate AreTexts(values: seq<RespValue>, f: Flat, keys: seq<string>, n: nat, clock: Clock)
    requires n <= |keys|
  {
    |values| == n && forall i :: 0 <= i < n ==> values[i] == OptionValue(TextAt(f, keys[i], clock.at(i)))
  }

  lemma {:induction false} GotTexts(f: Flat, keys: seq<string>, n: nat, clock: Clock)
    requires n <= |keys| && Monotone(clock, n)
    ensures AreTexts(Got(f, keys, n, clock), f, keys, n, clock)
  {
    hide TextAt, OptionValue, Got, Monotone, AreTexts;
    if n == 0 {
      GotNone(f, keys, clock);
    } else {
      MonotoneToo(clock, n, n - 1);
      GotTexts(f, keys, n - 1, clock);
      GotSnoc(f, keys, n, clock);
      OneMoreText(Got(f, keys, n - 1, clock), f, keys, n, clock);
    }
  }

  lemma GotNone(f: Flat, keys: seq<string>, clock: Clock)
    ensures AreTexts(Got(f, keys, 0, clock), f, keys, 0, clock)
  {
  }

  lemma OneMoreText(values: seq<RespValue>, f: Flat, keys: seq<string>, n: nat, clock: Clock)
    requires 0 < n <= |keys| && AreTexts(values, f, keys, n - 1, clock)
    ensures AreTexts(values + [OptionValue(TextAt(f, keys[n - 1], clock.at(n - 1)))], f, keys, n, clock)
  {
    hide TextAt, OptionValue;
  }

  lemma GotSnoc(f: Flat, keys: seq<string>, n: nat, clock: Clock)
    requires 0 < n <= |keys| && Monotone(clock, n)
    ensures Got(f, keys, n, clock)
            == Got(f, keys, n - 1, clock) + [OptionValue(TextAt(f, keys[n - 1], clock.at(n - 1)))]
  {
    hide TextAt, OptionValue, Apply, GetAll;
    GetStore(GetAll(f, keys, n - 1, clock).0, keys[n - 1], clock.at(n - 1));
    GetAllKeepsTexts(f, keys, n - 1, clock, keys[n - 1], clock.at(n - 1));
  }

  lemma MonotoneToo(clock: Clock, n: nat, m: nat)
    requires Monotone(clock, n) && m <= n
    ensures Monotone(clock, m)
  {
  }

  /** MGET answers for each key in turn the string that was there and alive, or null; what
      was alive stays, and nothing is logged. */
  lemma MgetLaw(db: Db, authenticated: bool, password: string, raw: string, ch: Choice)
    requires Asks(authenticated, password, raw, "MGET") && |ParseRequest(raw)| >= 2
    requires Monotone(ch.clock, |ParseRequest(raw)|)
    ensures var keys, o := ParseRequest(raw)[1..], Run(db, authenticated, password, raw, ch);
            && (exists values :: Is(o.reply, Elements(values)) && AreTexts(values, db.store, keys, |keys|, ch.clock))
            && o.db.aof == db.aof
            && forall key :: TextAt(o.db.store, key, ch.clock.at(|keys|)) == TextAt(db.store, key, ch.clock.at(|keys|))
  {
    ManyVerbs();
    hide ParseRequest, VerbOf, Run, Is, ToUpper, TextAt, Got, GetAll, Monotone, AreTexts;
    var tokens := ParseRequest(raw);
    var keys, n := tokens[1..], |tokens| - 1;
    MonotoneToo(ch.clock, |tokens|, n);
    RunIs(db, authenticated, password, raw, ch, "MGET");
    MgetReplyIsRead(db, tokens, ch.clock);
    GotTexts(db.store, keys, n, ch.clock);
    forall key ensures TextAt(GetAll(db.store, keys, n, ch.clock).0, key, ch.clock.at(n))
                       == TextAt(db.store, key, ch.clock.at(n)) {
      GetAllKeepsTexts(db.store, keys, n, ch.clock, key, ch.clock.at(n));
    }
  }

  /** The i-th pair is the last with its key. */
  predicate LastPair(pairs: seq<string>, n: nat, i: nat)
    requires 2 * n <= |pairs| && i < n
  {
    forall j :: i < j < n ==> pairs[2 * j] != pairs[2 * i]
  }

  lemma SetStore(f: Flat, key: string, value: string, now: int)
    ensures Becomes(f, Apply(f, Set(key, value, None), now).0, key,
                    SlotOf(f, key).(entry := Some(Entry(value, None, now))))
  {
    hide SlotOf, WithSlot;
  }

  lemma {:induction false} LastPairIsSet(f: Flat, pairs: seq<string>, n: nat, clock: Clock, i: nat)
    requires 2 * n <= |pairs| && i < n && LastPair(pairs, n, i)
    ensures SlotOf(SetAll(f, pairs, n, clock), pairs[2 * i])
            == SlotOf(f, pairs[2 * i]).(entry := Some(Entry(pairs[2 * i + 1], None, clock.at(i))))
  {
    hide SlotOf, Apply;
    var m := n - 1;
    var g := SetAll(f, pairs, m, clock);
    SetStore(g, pairs[2 * m], pairs[2 * m + 1], clock.at(m));
    if i == m {
      SetAllKeepsRest(f, pairs, m, clock, pairs[2 * i]);
    } else {
      LastPairIsSet(f, pairs, m, clock, i);
    }
  }

  /** Hashes, lists and the keys that are not named stay. */
  lemma {:induction false} SetAllKeepsRest(f: Flat, pairs: seq<string>, n: nat, clock: Clock, key: string)
    requires 2 * n <= |pairs|
    ensures var s := SlotOf(SetAll(f, pairs, n, clock), key);
            && s.fields == SlotOf(f, key).fields && s.items == SlotOf(f, key).items
            && ((forall i :: 0 <= i < n ==> pairs[2 * i] != key) ==> s == SlotOf(f, key))
  {
    hide SlotOf, Apply;
    if n > 0 {
      var m := n - 1;
      SetAllKeepsRest(f, pairs, m, clock, key);
      SetStore(SetAll(f, pairs, m, clock), pairs[2 * m], pairs[2 * m + 1], clock.at(m));
    }
  }

  /** MSET stores at each key the last value given for it, for ever, and logs itself. */
  lemma MsetLaw(db: Db, authenticated: bool, password: string, raw: string, ch: Choice)
    requires Asks(authenticated, password, raw, "MSET")
    requires |ParseRequest(raw)| >= 3 && |ParseRequest(raw)| % 2 == 1
    ensures var tokens, o := ParseRequest(raw), Run(db, authenticated, password, raw, ch);
            var pairs, n := tokens[1..], (|tokens| - 1) / 2;
            && Is(o.reply, Simple("OK")) && o.db.aof == Appended(db.aof, tokens)
            && (forall i :: 0 <= i < n && LastPair(pairs, n, i) ==>
                  SlotOf(o.db.store, pairs[2 * i])
                  == SlotOf(db.store, pairs[2 * i]).(entry := Some(Entry(pairs[2 * i + 1], None, ch.clock.at(i)))))
            && (forall key :: (forall i :: 0 <= i < n ==> pairs[2 * i] != key) ==>
                  SlotOf(o.db.store, key) == SlotOf(db.store, key))
  {
    ManyVerbs();
    Ok();
    hide ParseRequest, VerbOf, Run, Is, ToUpper, SetAll, SlotOf, Appended, LastPair;
    RunIs(db, authenticated, password, raw, ch, "MSET");
    var tokens := ParseRequest(raw);
    var pairs, n := tokens[1..], (|tokens| - 1) / 2;
    var g := SetAll(db.store, pairs, n, ch.clock);
    forall i | 0 <= i < n && LastPair(pairs, n, i)
      ensures SlotOf(g, pairs[2 * i])
              == SlotOf(db.store, pairs[2 * i]).(entry := Some(Entry(pairs[2 * i + 1], None, ch.clock.at(i))))
    {
      LastPairIsSet(db.store, pairs, n, ch.clock, i);
    }
    forall key | forall i :: 0 <= i < n ==> pairs[2 * i] != key ensures SlotOf(g, key) == SlotOf(db.store, key) {
      SetAllKeepsRest(db.store, pairs, n, ch.clock, key);
    }
  }
}
