/** Every reply is one RESP2 value: an independent reader of the Redis serialization
    protocol (Simple strings, Simple errors, Integers, Bulk strings, Arrays), and what
    it makes of each reply of the dispatcher. */
module Replies {
  import opened Basics
  import opened Numerals
  import opened Wire
  import opened Resp
  import opened FlatStore
  import opened Snapshots
  import opened Replay
  import opened Commands

  // ---- reading a value --------------------------------------------------------------

  datatype RespValue =
    | Simple(text: string)
    | Failure(text: string)
    | Whole(number: int)
    | BulkString(bytes: string)
    | Null
    | Elements(items: seq<RespValue>)

  /** Text up to its CRLF; no other line break may come first. */
  function ReadLine(s: string): (r: Option<(string, string)>)
    ensures r.Some? ==> |r.value.1| < |s|
  {
    if s == "" || s[0] == '\n' then None
    else if s[0] == '\r' then
      if |s| >= 2 && s[1] == '\n' then Some(("", s[2..])) else None
    else
      var more := ReadLine(s[1..]);
      if more.None? then None else Some(([s[0]] + more.value.0, more.value.1))
  }

  function ReadNumber(t: string): Option<int> {
    if t != "" && AllDigits(t) then Some(Value(t) as int)
    else if |t| > 1 && t[0] == '-' && AllDigits(t[1..]) then Some(-(Value(t[1..]) as int))
    else None
  }

  function ReadBulk(n: int, s: string): (r: Option<(RespValue, string)>)
    ensures r.Some? ==> |r.value.1| <= |s|
  {
    if n == -1 then Some((Null, s))
    else if n < 0 || |s| < n + 2 || s[n..n + 2] != CRLF then None
    else Some((BulkString(s[..n]), s[n + 2..]))
  }

  /** One value, and what is left after it. */
  function ReadValue(s: string): (r: Option<(RespValue, string)>)
    ensures r.Some? ==> |r.value.1| < |s|
    decreases |s|, 0
  {
    if s == "" then None else
      var line := ReadLine(s[1..]);
      if line.None? then None else
        var (text, rest) := line.value;
        if s[0] == '+' then Some((Simple(text), rest))
        else if s[0] == '-' then Some((Failure(text), rest))
        else
          var n := ReadNumber(text);
          if n.None? then None
          else if s[0] == ':' then
            if IsInt64(n.value) then Some((Whole(n.value), rest)) else None
          else if s[0] == '$' then ReadBulk(n.value, rest)
          else if s[0] == '*' && n.value >= 0 then
            var items := ReadValues(rest, n.value);
            if items.None? then None else Some((Elements(items.value.0), items.value.1))
          else None
  }

  function ReadValues(s: string, n: nat): (r: Option<(seq<RespValue>, string)>)
    ensures r.Some? ==> |r.value.1| <= |s|
    decreases |s|, 1
  {
    if n == 0 then Some(([], s)) else
      var first := ReadValue(s);
      if first.None? then None else
        var more := ReadValues(first.value.1, n - 1);
        if more.None? then None else Some(([first.value.0] + more.value.0, more.value.1))
  }

  /** The text is exactly this value. */
  predicate Is(text: string, v: RespValue) {
    ReadValue(text) == Some((v, ""))
  }

  predicate IsOneValue(text: string) {
    ReadValue(text).Some? && ReadValue(text).value.1 == ""
  }

  predicate IsBreak(c: char) {
    c == '\r' || c == '\n'
  }

  predicate Unbroken(t: string) {
    forall i :: 0 <= i < |t| ==> !IsBreak(t[i])
  }

  // ---- lines and numbers ----------------------------------------------------------------

  lemma {:induction false} LineIsRead(t: string, rest: string)
    requires Unbroken(t)
    ensures ReadLine(t + CRLF + rest) == Some((t, rest))
  {
    var s := t + CRLF + rest;
    if t == "" {
      assert s[2..] == rest;
    } else {
      assert s[1..] == t[1..] + CRLF + rest && t == [t[0]] + t[1..];
      LineIsRead(t[1..], rest);
    }
  }

  /** A line with a break inside is not read whole: something is left, or nothing is read. */
  lemma {:induction false} BrokenLine(t: string)
    requires !Unbroken(t)
    ensures ReadLine(t + CRLF).Some? ==> ReadLine(t + CRLF).value.1 != ""
  {
    var s := t + CRLF;
    if !IsBreak(t[0]) {
      assert s[1..] == t[1..] + CRLF;
      assert t == [t[0]] + t[1..];
      BrokenLine(t[1..]);
    }
  }

  lemma DigitsUnbroken(n: int)
    ensures Unbroken(DecimalInt(n))
  {
  }

  lemma NumberIsRead(n: int)
    ensures ReadNumber(DecimalInt(n)) == Some(n)
  {
    if n < 0 {
      ValueOfDecimal(-n);
      assert DecimalInt(n)[0] == '-' && DecimalInt(n)[1..] == Decimal(-n);
    } else {
      ValueOfDecimal(n);
    }
  }

  // ---- values -----------------------------------------------------------------------------

  lemma HeaderIsRead(kind: char, n: int, rest: string)
    ensures var s := [kind] + DecimalInt(n) + CRLF + rest;
            s != "" && s[0] == kind && ReadLine(s[1..]) == Some((DecimalInt(n), rest))
            && ReadNumber(DecimalInt(n)) == Some(n)
  {
    DigitsUnbroken(n);
    NumberIsRead(n);
    LineIsRead(DecimalInt(n), rest);
    assert ([kind] + DecimalInt(n) + CRLF + rest)[1..] == DecimalInt(n) + CRLF + rest;
  }

  lemma SimpleIsRead(t: string)
    requires Unbroken(t)
    ensures Is(SimpleString(t), Simple(t))
  {
    LineIsRead(t, "");
    assert SimpleString(t)[1..] == t + CRLF + "";
  }

  lemma ErrorIsRead(message: string)
    ensures Unbroken(message) ==> Is(Error(message), Failure("ERR " + message))
    ensures IsOneValue(Error(message)) <==> Unbroken(message)
  {
    var t := "ERR " + message;
    assert Error(message)[0] == '-' && Error(message)[1..] == t + CRLF && t + CRLF + "" == t + CRLF;
    if Unbroken(message) {
      LineIsRead(t, "");
    } else {
      var i :| 0 <= i < |message| && IsBreak(message[i]);
      assert t[i + 4] == message[i];
      BrokenLine(t);
    }
  }

  lemma NumberReplyIsRead(n: int)
    requires IsInt64(n)
    ensures Is(Integer(n), Whole(n))
  {
    hide DecimalInt, ReadLine, ReadNumber;
    HeaderIsRead(':', n, "");
    assert [':'] + DecimalInt(n) + CRLF + "" == Integer(n);
  }

  lemma NullIsRead(rest: string)
    ensures ReadValue(NULL + rest) == Some((Null, rest))
  {
    hide ReadLine, ReadNumber;
    assert DecimalInt(-1) == "-1";
    HeaderIsRead('$', -1, rest);
    assert ['$'] + DecimalInt(-1) + CRLF + rest == NULL + rest;
  }

  lemma BulkIsRead(t: string, rest: string)
    ensures ReadValue(Bulk(t) + rest) == Some((BulkString(t), rest))
  {
    hide ReadLine, ReadNumber, Decimal;
    var more := t + CRLF + rest;
    HeaderIsRead('$', |t|, more);
    assert ['$'] + DecimalInt(|t|) + CRLF + more == Bulk(t) + rest;
    assert more[|t|..|t| + 2] == CRLF && more[..|t|] == t && more[|t| + 2..] == rest;
  }

  lemma ArrayIsRead(n: nat, body: string, items: seq<RespValue>, rest: string)
    requires ReadValues(body, n) == Some((items, rest))
    ensures ReadValue(ArrayHeader(n) + body) == Some((Elements(items), rest))
  {
    hide ReadLine, ReadNumber, Decimal, ReadValues;
    HeaderIsRead('*', n, body);
    assert ['*'] + DecimalInt(n) + CRLF + body == ArrayHeader(n) + body;
  }

  function AsBulks(items: seq<string>): seq<RespValue> {
    if items == [] then [] else [BulkString(items[0])] + AsBulks(items[1..])
  }

  lemma {:induction false} BulksAreRead(items: seq<string>, rest: string)
    ensures ReadValues(Bulks(items) + rest, |items|) == Some((AsBulks(items), rest))
  {
    hide Bulk, ReadValue;
    if items == [] {
      assert Bulks(items) + rest == rest;
    } else {
      Assoc(Bulk(items[0]), Bulks(items[1..]), rest);
      BulkIsRead(items[0], Bulks(items[1..]) + rest);
      BulksAreRead(items[1..], rest);
    }
  }

  /** A serialized array reads back as its items, whatever bytes they hold. */
  lemma ArrayReplyIsRead(items: seq<string>)
    ensures Is(Array(items), Elements(AsBulks(items)))
  {
    BulksAreRead(items, "");
    assert Bulks(items) + "" == Bulks(items);
    ArrayIsRead(|items|, Bulks(items), AsBulks(items), "");
  }

  function OptionValue(r: Option<string>): RespValue {
    if r.Some? then BulkString(r.value) else Null
  }

  lemma OptionIsRead(r: Option<string>, rest: string)
    ensures ReadValue(OptionReply(r) + rest) == Some((OptionValue(r), rest))
  {
    if r.Some? { BulkIsRead(r.value, rest); } else { NullIsRead(rest); }
  }

  lemma OptionReplyIsRead(r: Option<string>)
    ensures Is(OptionReply(r), OptionValue(r))
  {
    OptionIsRead(r, "");
    assert OptionReply(r) + "" == OptionReply(r);
  }

  // ---- MGET's hand-built array ---------------------------------------------------------------

  /** One more value after n of them. */
  lemma {:induction false} ReadOneMore(s: string, n: nat, items: seq<RespValue>, middle: string, v: RespValue,
                                       rest: string)
    requires ReadValues(s, n) == Some((items, middle)) && ReadValue(middle) == Some((v, rest))
    ensures ReadValues(s, n + 1) == Some((items + [v], rest))
    decreases n
  {
    hide ReadValue;
    if n == 0 {
      assert items == [] && middle == s;
      assert ReadValues(rest, 0) == Some(([], rest));
      assert [v] + [] == [] + [v];
    } else {
      var (first, more) := ReadValue(s).value;
      ReadOneMore(more, n - 1, items[1..], middle, v, rest);
      assert [first] + (items[1..] + [v]) == items + [v];
    }
  }

  /** What MGET answers for the first n keys. */
  function Got(f: Flat, keys: seq<string>, n: nat, clock: Clock): seq<RespValue>
    requires n <= |keys|
  {
    if n == 0 then [] else
      var g := GetAll(f, keys, n - 1, clock).0;
      Got(f, keys, n - 1, clock) + [OptionValue(TextOf(Apply(g, Get(keys[n - 1]), clock.at(n - 1)).1))]
  }

  lemma {:induction false} GotIsRead(f: Flat, keys: seq<string>, n: nat, clock: Clock, rest: string)
    requires n <= |keys|
    ensures ReadValues(GetAll(f, keys, n, clock).1 + rest, n) == Some((Got(f, keys, n, clock), rest))
  {
    hide Apply, OptionReply, OptionValue, ReadValue;
    if n == 0 {
      assert "" + rest == rest;
    } else {
      var (g, replies) := GetAll(f, keys, n - 1, clock);
      var r := TextOf(Apply(g, Get(keys[n - 1]), clock.at(n - 1)).1);
      GotIsRead(f, keys, n - 1, clock, OptionReply(r) + rest);
      OptionIsRead(r, rest);
      ReadOneMore(replies + (OptionReply(r) + rest), n - 1, Got(f, keys, n - 1, clock), OptionReply(r) + rest,
                  OptionValue(r), rest);
      Assoc(replies, OptionReply(r), rest);
    }
  }

  lemma MgetReplyIsRead(db: Db, tokens: seq<string>, clock: Clock)
    requires |tokens| >= 2
    ensures Is(RunMget(db, tokens, clock).1, Elements(Got(db.store, tokens[1..], |tokens| - 1, clock)))
  {
    hide GetAll, Got, ReadValues, ReadValue, ArrayHeader;
    var n := |tokens| - 1;
    var replies := GetAll(db.store, tokens[1..], n, clock).1;
    GotIsRead(db.store, tokens[1..], n, clock, "");
    assert replies + "" == replies;
    ArrayIsRead(n, replies, Got(db.store, tokens[1..], n, clock), "");
  }

  // ---- every reply ------------------------------------------------------------------------------

  lemma Joins(a: string, b: string)
    requires Unbroken(a) && Unbroken(b)
    ensures Unbroken(a + b)
  {
  }

  lemma WrongArgumentsIsOneValue(name: string)
    requires Unbroken(name)
    ensures IsOneValue(WrongArguments(name))
  {
    hide ReadValue;
    assert Unbroken("wrong number of arguments ") && Unbroken("for '") && Unbroken("' command");
    Joins("wrong number of arguments ", "for '");
    Joins("wrong number of arguments for '", name);
    Joins("wrong number of arguments for '" + name, "' command");
    ErrorIsRead("wrong number of arguments for '" + name + "' command");
  }

  lemma SimpleReplies()
    ensures IsOneValue(OK) && IsOneValue(SimpleString("PONG"))
  {
    hide ReadValue;
    SimpleIsRead("OK");
    SimpleIsRead("PONG");
  }

  lemma RewriteReply()
    ensures IsOneValue(SimpleString("Background append only file rewriting finished successfully"))
  {
    hide ReadValue;
    assert Unbroken("Background append ") && Unbroken("only file rewriting ") && Unbroken("finished successfully");
    Joins("Background append ", "only file rewriting ");
    Joins("Background append only file rewriting ", "finished successfully");
    SimpleIsRead("Background append only file rewriting finished successfully");
  }

  lemma ErrorReplies()
    ensures IsOneValue(NOT_AN_INTEGER)
    ensures IsOneValue(Error("invalid password")) && IsOneValue(Error("AOF is not enabled"))
  {
    hide ReadValue;
    assert Unbroken("value is not an integer") && Unbroken(" or out of range");
    Joins("value is not an integer", " or out of range");
    ErrorIsRead("value is not an integer or out of range");
    ErrorIsRead("invalid password");
    ErrorIsRead("AOF is not enabled");
  }

  lemma NoAuthText(t: string)
    requires t == "NOAUTH Authentication required."
    ensures Unbroken(t)
  {
    assert Unbroken("NOAUTH Authentication") && Unbroken(" required.");
    Joins("NOAUTH Authentication", " required.");
  }

  lemma NoAuthReply()
    ensures IsOneValue(NO_AUTH)
  {
    hide ReadValue;
    var t := "NOAUTH Authentication required.";
    NoAuthText(t);
    FailureIsRead(t, NO_AUTH);
  }

  lemma FailureIsRead(t: string, s: string)
    requires Unbroken(t) && s == "-" + t + CRLF
    ensures Is(s, Failure(t))
  {
    hide Unbroken, ReadLine;
    LineIsRead(t, "");
    assert s[1..] == t + CRLF + "";
  }

  lemma BulkReply(t: string)
    ensures IsOneValue(Bulk(t))
  {
    hide ReadValue;
    BulkIsRead(t, "");
    assert Bulk(t) + "" == Bulk(t);
  }

  lemma OptionReplyIsOneValue(r: Option<string>)
    ensures IsOneValue(OptionReply(r))
  {
    hide ReadValue;
    OptionReplyIsRead(r);
  }

  lemma ArrayReplyIsOneValue(items: seq<string>)
    ensures IsOneValue(Array(items))
  {
    hide ReadValue;
    ArrayReplyIsRead(items);
  }

  lemma MgetReplyIsOneValue(db: Db, tokens: seq<string>, clock: Clock)
    requires |tokens| >= 2
    ensures IsOneValue(RunMget(db, tokens, clock).1)
  {
    hide ReadValue, RunMget;
    MgetReplyIsRead(db, tokens, clock);
  }

  lemma BoolReplyIsOneValue(b: bool)
    ensures IsOneValue(BoolReply(b))
  {
    hide ReadValue;
    NumberReplyIsRead(if b then 1 else 0);
  }

  lemma CounterReply(db: Db, tokens: seq<string>, delta: int, now: int)
    requires |tokens| >= 2 && IsInt64(delta)
    ensures IsOneValue(Incremented(db, tokens, delta, now).1)
  {
    hide ReadValue, Stoll, SlotOf, WithSlot;
    ErrorReplies();
    var answer := Apply(db.store, IncrBy(tokens[1], delta), now).1;
    NumberReplyIsRead(if answer.Counter? && answer.ok then answer.number else 0);
  }

  lemma CountReply(n: int)
    ensures IsOneValue(Integer(Wrap64(n)))
  {
    hide ReadValue, Wrap64;
    NumberReplyIsRead(Wrap64(n));
  }

  lemma UnknownReply(name: string)
    ensures IsOneValue(Error("unknown command '" + name + "'")) <==> Unbroken(name)
  {
    hide ReadValue;
    var message := "unknown command '" + name + "'";
    ErrorIsRead(message);
    assert message[17..17 + |name|] == name;
    forall i | 0 <= i < |name| ensures message[17 + i] == name[i] {}
    assert Unbroken("unknown command '") && Unbroken("'");
    if Unbroken(name) {
      Joins("unknown command '", name);
      Joins("unknown command '" + name, "'");
    }
  }

  /** Replies made only of a fixed error, or of one number. */
  lemma Errors(name: string)
    requires Unbroken(name)
    ensures IsOneValue(WrongArguments(name)) && IsOneValue(NOT_AN_INTEGER) && IsOneValue(OK)
  {
    hide IsOneValue, Unbroken;
    WrongArgumentsIsOneValue(name);
    ErrorReplies();
    SimpleReplies();
  }

  lemma StringNames()
    ensures Unbroken("set") && Unbroken("setex") && Unbroken("get")
    ensures Unbroken("mget") && Unbroken("mset")
  {
  }

  lemma CounterNames()
    ensures Unbroken("incr") && Unbroken("decr")
    ensures Unbroken("incrby")
  {
  }

  lemma HashNames()
    ensures Unbroken("hset") && Unbroken("hget") && Unbroken("hdel")
    ensures Unbroken("hexists") && Unbroken("hlen") && Unbroken("hgetall")
  {
  }

  lemma ListNames()
    ensures Unbroken("lpush") && Unbroken("rpush") && Unbroken("lpop")
    ensures Unbroken("rpop") && Unbroken("llen") && Unbroken("lrange")
  {
  }

  lemma KeyNames()
    ensures Unbroken("del") && Unbroken("exists")
    ensures Unbroken("expire") && Unbroken("ttl")
  {
  }

  lemma StringReplies(db: Db, tokens: seq<string>, ch: Choice)
    ensures IsOneValue(RunSet(db, tokens, ch.clock.at(0)).1) && IsOneValue(RunSetex(db, tokens, ch.clock.at(0)).1)
    ensures IsOneValue(RunGet(db, tokens, ch.clock.at(0)).1) && IsOneValue(RunMget(db, tokens, ch.clock).1)
    ensures IsOneValue(RunMset(db, tokens, ch.clock).1)
  {
    hide IsOneValue, Apply, OptionReply, WrongArguments, Stoll, HasExpiry, GetAll, SetAll, Appended, Unbroken;
    StringNames();
    Errors("set");
    Errors("setex");
    Errors("get");
    Errors("mget");
    Errors("mset");
    OptionReplyIsOneValue(TextOf(Apply(db.store, Get(if |tokens| == 2 then tokens[1] else ""), ch.clock.at(0)).1));
    if |tokens| >= 2 { MgetReplyIsOneValue(db, tokens, ch.clock); }
  }

  lemma CounterReplies(db: Db, tokens: seq<string>, now: int)
    ensures IsOneValue(RunIncr(db, tokens, 1, now).1) && IsOneValue(RunIncr(db, tokens, -1, now).1)
    ensures IsOneValue(RunIncrby(db, tokens, now).1)
  {
    hide IsOneValue, Incremented, WrongArguments, Stoll, Unbroken;
    CounterNames();
    Errors("incr");
    Errors("decr");
    Errors("incrby");
    if |tokens| == 2 {
      CounterReply(db, tokens, 1, now);
      CounterReply(db, tokens, -1, now);
    }
    if |tokens| == 3 && Stoll(tokens[2]).Some? { CounterReply(db, tokens, Stoll(tokens[2]).value, now); }
  }

  lemma HashReplies(db: Db, tokens: seq<string>, ch: Choice)
    ensures IsOneValue(RunHset(db, tokens, ch.clock.at(0)).1) && IsOneValue(RunHget(db, tokens, ch.clock.at(0)).1)
    ensures IsOneValue(RunHdel(db, tokens, ch.clock.at(0)).1) && IsOneValue(RunHexists(db, tokens, ch.clock.at(0)).1)
    ensures IsOneValue(RunHlen(db, tokens, ch.clock.at(0)).1) && IsOneValue(RunHgetall(db, tokens, ch.pairs).1)
  {
    hide IsOneValue, Apply, OptionReply, BoolReply, WrongArguments, Array, Flattened;
    hide Appended, Integer, Wrap64, Unbroken;
    HashNames();
    Errors("hset");
    Errors("hget");
    Errors("hdel");
    Errors("hexists");
    Errors("hlen");
    Errors("hgetall");
    BoolReplyIsOneValue(true);
    BoolReplyIsOneValue(false);
    ArrayReplyIsOneValue(Flattened(ch.pairs));
    var now := ch.clock.at(0);
    if |tokens| == 3 { OptionReplyIsOneValue(TextOf(Apply(db.store, Hget(tokens[1], tokens[2]), now).1)); }
    if |tokens| == 2 { CountOfReply(Apply(db.store, Hlen(tokens[1]), now).1); }
  }

  lemma CountOfReply(answer: Answer)
    ensures IsOneValue(Integer(CountOf(answer)))
  {
    hide IsOneValue, Integer;
    CountReply(if answer.Count? then answer.count else 0);
  }

  lemma ListReplies(db: Db, tokens: seq<string>, front: bool, now: int)
    ensures IsOneValue(RunPush(db, tokens, front, now).1) && IsOneValue(RunPop(db, tokens, front, now).1)
    ensures IsOneValue(RunLlen(db, tokens, now).1) && IsOneValue(RunLrange(db, tokens, now).1)
  {
    hide IsOneValue, Apply, OptionReply, WrongArguments, Array, Appended, Integer, Wrap64, PushAll, Stoll, Unbroken;
    ListNames();
    Errors(if front then "lpush" else "rpush");
    Errors(if front then "lpop" else "rpop");
    Errors("llen");
    Errors("lrange");
    if |tokens| >= 3 { CountReply(PushAll(db.store, front, tokens[1], tokens[2..], |tokens| - 2, now).1); }
    if |tokens| == 2 {
      OptionReplyIsOneValue(TextOf(Apply(db.store, if front then Lpop(tokens[1]) else Rpop(tokens[1]), now).1));
      CountOfReply(Apply(db.store, Llen(tokens[1]), now).1);
    }
    if |tokens| == 4 && Stoll(tokens[2]).Some? && Stoll(tokens[3]).Some? {
      var op := Lrange(tokens[1], Stoll(tokens[2]).value, Stoll(tokens[3]).value);
      ArrayReplyIsOneValue(ItemsOf(Apply(db.store, op, now).1));
    }
  }

  lemma KeyReplies(db: Db, tokens: seq<string>, now: int)
    ensures IsOneValue(RunDel(db, tokens, now).1) && IsOneValue(RunExists(db, tokens, now).1)
    ensures IsOneValue(RunExpire(db, tokens, now).1) && IsOneValue(RunTtl(db, tokens, now).1)
  {
    hide IsOneValue, Apply, BoolReply, WrongArguments, Appended, Integer, Wrap64, DelAll, Stoll, Unbroken;
    KeyNames();
    Errors("del");
    Errors("exists");
    Errors("expire");
    Errors("ttl");
    BoolReplyIsOneValue(true);
    BoolReplyIsOneValue(false);
    if |tokens| >= 2 { CountReply(DelAll(db.store, tokens[1..], |tokens| - 1, now).1); }
    if |tokens| == 2 { CountOfReply(Apply(db.store, Ttl(tokens[1]), now).1); }
  }

  lemma StoreReplies(db: Db, now: int, rewritten: string, info: string)
    ensures IsOneValue(Integer(Wrap64(Size(db.store, now)))) && IsOneValue(RunFlushdb(db).1)
    ensures IsOneValue(RunBgrewriteaof(db, rewritten).1) && IsOneValue(Bulk(info))
  {
    hide ReadValue;
    CountReply(Size(db.store, now));
    SimpleReplies();
    ErrorReplies();
    RewriteReply();
    BulkReply(info);
  }

  /** Every reply to a request is exactly one value; only the error for an unknown
      command can be anything else, and is so if and only if its name has a line break. */
  lemma ReplyIsOneValue(db: Db, authenticated: bool, password: string, raw: string, ch: Choice)
    ensures var tokens := ParseRequest(raw);
            var reply := Run(db, authenticated, password, raw, ch).reply;
            && (reply == "" <==> tokens == [])
            && (tokens != [] ==>
                  (IsOneValue(reply) <==>
                     Locked(authenticated, password) || VerbOf(ToUpper(tokens[0])) != UnknownV || Unbroken(tokens[0])))
  {
    hide IsOneValue, ParseRequest, VerbOf, ToUpper, RunData, Unbroken, Bulk, Locked;
    var tokens := ParseRequest(raw);
    if tokens != [] {
      var v := VerbOf(ToUpper(tokens[0]));
      SimpleReplies();
      ErrorReplies();
      NoAuthReply();
      AuthReply();
      if |tokens| >= 2 { BulkReply(tokens[1]); }
      NothingIsNoValue();
      DataReply(db, v, tokens, ch);
    }
  }

  lemma AuthReply()
    ensures IsOneValue(WrongArguments("auth"))
  {
    WrongArgumentsIsOneValue("auth");
  }

  lemma NothingIsNoValue()
    ensures !IsOneValue("")
  {
  }

  lemma DataReply(db: Db, v: Verb, tokens: seq<string>, ch: Choice)
    requires tokens != []
    ensures RunData(db, v, tokens, ch).1 != ""
    ensures v.AuthV? || v.PingV? || v.QuitV? ||
            (IsOneValue(RunData(db, v, tokens, ch).1) <==> v != UnknownV || Unbroken(tokens[0]))
  {
    hide IsOneValue, Unbroken, Bulk, Integer, Wrap64, Size, RunFlushdb, RunBgrewriteaof;
    hide RunSet, RunSetex, RunGet, RunMget, RunMset, RunIncr, RunIncrby, RunHset, RunHget, RunHdel, RunHexists;
    hide RunHlen, RunHgetall, RunPush, RunPop, RunLlen, RunLrange, RunDel, RunExists, RunExpire, RunTtl;
    var now := ch.clock.at(0);
    NothingIsNoValue();
    StringReplies(db, tokens, ch);
    CounterReplies(db, tokens, now);
    HashReplies(db, tokens, ch);
    ListReplies(db, tokens, true, now);
    ListReplies(db, tokens, false, now);
    KeyReplies(db, tokens, now);
    StoreReplies(db, now, ch.rewritten, ch.info);
    UnknownReply(tokens[0]);
  }

  /** Over the plain-text parser no name can have a line break: every reply is one value. */
  lemma PlainTextRepliesAreValues(db: Db, authenticated: bool, password: string, raw: string, ch: Choice)
    requires var input := SkipSpaces(raw); input == "" || input[0] != '*' || ParseArray(input) == []
    ensures var reply := Run(db, authenticated, password, raw, ch).reply; reply == "" || IsOneValue(reply)
  {
    ReplyIsOneValue(db, authenticated, password, raw, ch);
    PlainTextGivesWords(SkipSpaces(raw));
    hide IsOneValue, Run, ParseArray, ParsePlainText;
    var tokens := ParseRequest(raw);
    if tokens != [] { assert IsWord(tokens[0]); }
  }
}
