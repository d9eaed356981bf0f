/** What the commands on keys, on the whole store and on the session do, as a client sees
    it, and the two errors that any command can meet (src/CommandParser.cpp). */
module KeyLaws {
  import opened Basics
  import opened Numerals
  import opened Wire
  import opened Resp
  import opened FlatStore
  import opened Snapshots
  import opened Replay
  import opened Commands
  import opened Replies
  import opened CommandLaws

  // ---- keys -------------------------------------------------------------------------------

  predicate Stored(f: Flat, key: string) {
    key in f.strings || key in f.hashes || key in f.lists
  }

  /** How many of the first n keys are stored, each counted once. */
  function Present(f: Flat, keys: seq<string>, n: nat): nat
    requires n <= |keys|
  {
    if n == 0 then 0 else
      Present(f, keys, n - 1) + if Stored(f, keys[n - 1]) && keys[n - 1] !in keys[..n - 1] then 1 else 0
  }

  ghost predicate Without(f: Flat, g: Flat, keys: seq<string>) {
    forall k :: SlotOf(g, k) == if k in keys then NOTHING else SlotOf(f, k)
  }

  lemma DelStore(f: Flat, key: string, now: int)
    ensures var (g, answer) := Apply(f, Del(key), now);
            answer == Flag(SlotOf(f, key) != NOTHING) && Becomes(f, g, key, NOTHING)
  {
    hide SlotOf, WithSlot;
  }

  lemma StoredSlot(f: Flat, key: string)
    ensures SlotOf(f, key) != NOTHING <==> Stored(f, key)
  {
  }

  lemma {:induction false} DelAllCounts(f: Flat, keys: seq<string>, n: nat, now: int)
    requires n <= |keys|
    ensures DelAll(f, keys, n, now).1 == Present(f, keys, n)
    ensures Without(f, DelAll(f, keys, n, now).0, keys[..n])
  {
    hide SlotOf, Apply, Stored;
    if n > 0 {
      DelAllCounts(f, keys, n - 1, now);
      var g, key := DelAll(f, keys, n - 1, now).0, keys[n - 1];
      DelStore(g, key, now);
      StoredSlot(f, key);
      assert keys[..n] == keys[..n - 1] + [key];
      assert SlotOf(g, key) == if key in keys[..n - 1] then NOTHING else SlotOf(f, key);
    }
  }

  /** DEL removes every key named, of whatever kind, and counts those that were there; it
      is logged only if one was. */
  lemma DelLaw(db: Db, authenticated: bool, password: string, raw: string, ch: Choice)
    requires Asks(authenticated, password, raw, "DEL") && |ParseRequest(raw)| >= 2
    ensures var tokens, o := ParseRequest(raw), Run(db, authenticated, password, raw, ch);
            var keys := tokens[1..];
            var n := Present(db.store, keys, |keys|);
            && Is(o.reply, Whole(Wrap64(n))) && Without(db.store, o.db.store, keys)
            && o.db.aof == if n > 0 then Appended(db.aof, tokens) else db.aof
  {
    KeyVerbs();
    hide ParseRequest, VerbOf, Run, Is, ToUpper, DelAll, Integer, Appended, Wrap64, Present, Without;
    RunIs(db, authenticated, password, raw, ch, "DEL");
    var keys := ParseRequest(raw)[1..];
    assert keys[..|keys|] == keys;
    DelAllCounts(db.store, keys, |keys|, ch.clock.at(0));
    NumberReplyIsRead(Wrap64(Present(db.store, keys, |keys|)));
  }

  lemma ExistsStore(f: Flat, key: string, now: int)
    ensures Apply(f, Exists(key), now).1 == Flag(TextAt(f, key, now).Some? || key in f.hashes || key in f.lists)
  {
  }

  /** EXISTS tells whether there is a string alive, a hash or a list of that name. */
  lemma ExistsLaw(db: Db, authenticated: bool, password: string, raw: string, ch: Choice)
    requires Asks(authenticated, password, raw, "EXISTS") && |ParseRequest(raw)| == 2
    ensures var tokens, o := ParseRequest(raw), Run(db, authenticated, password, raw, ch);
            var (key, f) := (tokens[1], db.store);
            var there := TextAt(f, key, ch.clock.at(0)).Some? || key in f.hashes || key in f.lists;
            o.db == db && Is(o.reply, Whole(if there then 1 else 0))
  {
    KeyVerbs();
    hide ParseRequest, VerbOf, Run, Is, ToUpper, Apply, BoolReply, TextAt;
    RunIs(db, authenticated, password, raw, ch, "EXISTS");
    var key, f := ParseRequest(raw)[1], db.store;
    ExistsStore(f, key, ch.clock.at(0));
    BoolIsRead(TextAt(f, key, ch.clock.at(0)).Some? || key in f.hashes || key in f.lists);
  }

  lemma ExpireStore(f: Flat, key: string, seconds: int, now: int)
    ensures var (g, answer) := Apply(f, Expire(key, seconds), now);
            var there, was := TextAt(f, key, now).Some?, SlotOf(f, key);
            && (there ==> was.entry.Some?) && answer == Flag(there)
            && Becomes(f, g, key, was.(entry :=
                 if there && seconds > 0 then Some(was.entry.value.(expires := Some(now + seconds * 1_000_000_000)))
                 else None))
  {
    TextIsLive(f, key, now);
    hide SlotOf, WithSlot, TextAt;
  }

  /** EXPIRE gives a string that is alive that many seconds from now, or erases it at once
      if they are not positive; it answers 1, and is logged, exactly then. */
  lemma ExpireLaw(db: Db, authenticated: bool, password: string, raw: string, ch: Choice)
    requires Asks(authenticated, password, raw, "EXPIRE") && |ParseRequest(raw)| == 3
    ensures var tokens, o := ParseRequest(raw), Run(db, authenticated, password, raw, ch);
            var (key, now, seconds) := (tokens[1], ch.clock.at(0), Stoll(tokens[2]));
            var there, was := TextAt(db.store, key, now).Some?, SlotOf(db.store, key);
            if seconds.None? then Is(o.reply, NOT_A_NUMBER) && o.db == db
            else
              && Is(o.reply, Whole(if there then 1 else 0))
              && o.db.aof == (if there then Appended(db.aof, tokens) else db.aof)
              && (there ==> was.entry.Some?)
              && Becomes(db.store, o.db.store, key, was.(entry :=
                   if there && seconds.value > 0
                   then Some(was.entry.value.(expires := Some(now + seconds.value * 1_000_000_000))) else None))
  {
    TimeVerbs();
    hide ParseRequest, VerbOf, Run, Is, ToUpper, Apply, BoolReply, TextAt, SlotOf, Becomes, Stoll, Appended;
    RunIs(db, authenticated, password, raw, ch, "EXPIRE");
    NotANumber();
    var tokens, now := ParseRequest(raw), ch.clock.at(0);
    if Stoll(tokens[2]).Some? {
      ExpireStore(db.store, tokens[1], Stoll(tokens[2]).value, now);
      BoolIsRead(TextAt(db.store, tokens[1], now).Some?);
    }
  }

  function LeftAt(f: Flat, key: string, now: int): int {
    if key !in f.strings then
      if key in f.hashes || key in f.lists then -1 else -2
    else if f.strings[key].expires.None? then -1
    else if f.strings[key].expires.value <= now then -2
    else (f.strings[key].expires.value - now) / 1_000_000_000
  }

  lemma TtlStore(f: Flat, key: string, now: int)
    ensures var (g, answer) := Apply(f, Ttl(key), now);
            var was := SlotOf(f, key);
            && answer == Count(LeftAt(f, key, now))
            && Becomes(f, g, key, was.(entry := if TextAt(f, key, now).Some? then was.entry else None))
  {
    ApplyBecomes(f, Ttl(key), now);
    hide WithSlot;
  }

  /** TTL answers the whole seconds left, -1 for a key without a deadline, -2 for none; an
      expired string is erased. */
  lemma TtlLaw(db: Db, authenticated: bool, password: string, raw: string, ch: Choice)
    requires Asks(authenticated, password, raw, "TTL") && |ParseRequest(raw)| == 2
    ensures var tokens, o := ParseRequest(raw), Run(db, authenticated, password, raw, ch);
            var (key, now) := (tokens[1], ch.clock.at(0));
            var was := SlotOf(db.store, key);
            && Is(o.reply, Whole(Wrap64(LeftAt(db.store, key, now)))) && o.db.aof == db.aof
            && Becomes(db.store, o.db.store, key,
                       was.(entry := if TextAt(db.store, key, now).Some? then was.entry else None))
  {
    TimeVerbs();
    hide ParseRequest, VerbOf, Run, Is, ToUpper, Apply, Integer, TextAt, SlotOf, Becomes, Wrap64, LeftAt;
    RunIs(db, authenticated, password, raw, ch, "TTL");
    var key, now := ParseRequest(raw)[1], ch.clock.at(0);
    TtlStore(db.store, key, now);
    NumberReplyIsRead(Wrap64(LeftAt(db.store, key, now)));
  }

  // ---- the whole store --------------------------------------------------------------------

  /** DBSIZE counts strings alive, hashes and lists. */
  lemma DbsizeLaw(db: Db, authenticated: bool, password: string, raw: string, ch: Choice)
    requires Asks(authenticated, password, raw, "DBSIZE")
    ensures var o, f := Run(db, authenticated, password, raw, ch), db.store;
            var alive := set k | k in f.strings && TextAt(f, k, ch.clock.at(0)).Some?;
            o.db == db && Is(o.reply, Whole(Wrap64(|alive| + |f.hashes| + |f.lists|)))
  {
    StoreVerbs();
    hide ParseRequest, VerbOf, Run, Is, ToUpper, Integer, TextAt, Size, Wrap64;
    RunIs(db, authenticated, password, raw, ch, "DBSIZE");
    SizeCounts(db.store, ch.clock.at(0));
    NumberReplyIsRead(Wrap64(Size(db.store, ch.clock.at(0))));
  }

  lemma SizeCounts(f: Flat, now: int)
    ensures Size(f, now) == |set k | k in f.strings && TextAt(f, k, now).Some?| + |f.hashes| + |f.lists|
  {
    assert (set k | k in f.strings && TextAt(f, k, now).Some?) == LiveStrings(f, now);
  }

  /** FLUSHDB leaves nothing in the store, and one more record in the log. */
  lemma FlushdbLaw(db: Db, authenticated: bool, password: string, raw: string, ch: Choice)
    requires Asks(authenticated, password, raw, "FLUSHDB")
    ensures var o := Run(db, authenticated, password, raw, ch);
            && Is(o.reply, Simple("OK")) && o.db.store == Flat(map[], map[], map[])
            && (Enabled(db.aof) && db.aof.open ==> o.db.aof == db.aof.(file := db.aof.file + Array(["FLUSHDB"])))
            && (!Enabled(db.aof) || !db.aof.open ==> o.db.aof == db.aof)
  {
    StoreVerbs();
    Ok();
    hide ParseRequest, VerbOf, Run, Is, ToUpper, Array;
    RunIs(db, authenticated, password, raw, ch, "FLUSHDB");
  }

  /** BGREWRITEAOF puts the compacted bytes in the place of the log, or says why not. */
  lemma BgrewriteaofLaw(db: Db, authenticated: bool, password: string, raw: string, ch: Choice)
    requires Asks(authenticated, password, raw, "BGREWRITEAOF")
    requires Allowed(db, authenticated, password, ParseRequest(raw), ch)
    ensures var o := Run(db, authenticated, password, raw, ch);
            && o.db.store == db.store
            && if Enabled(db.aof) then
                 && Is(o.reply, Simple("Background append only file rewriting finished successfully"))
                 && o.db.aof.Aof? && o.db.aof.enabled && o.db.aof.open
                 && IsRewrite(o.db.aof.file, db.store, ch.clock.at(0))
               else Is(o.reply, Failure("ERR " + "AOF is not enabled")) && o.db == db
  {
    AdminVerbs();
    Finished();
    NotEnabled();
    hide ParseRequest, VerbOf, Run, Is, ToUpper, IsRewrite, Error, SimpleString;
    RunIs(db, authenticated, password, raw, ch, "BGREWRITEAOF");
  }

  lemma Finished()
    ensures Is(SimpleString("Background append only file rewriting finished successfully"),
               Simple("Background append only file rewriting finished successfully"))
  {
    hide ReadValue;
    assert Unbroken("Background append ") && Unbroken("only file rewriting ") && Unbroken("finished successfully");
    Joins("Background append ", "only file rewriting ");
    Joins("Background append only file rewriting ", "finished successfully");
    SimpleIsRead("Background append only file rewriting finished successfully");
  }

  lemma NotEnabled()
    ensures Is(Error("AOF is not enabled"), Failure("ERR " + "AOF is not enabled"))
  {
    hide ReadValue;
    ErrorIsRead("AOF is not enabled");
  }

  /** INFO answers the text it is given and changes nothing. */
  lemma InfoLaw(db: Db, authenticated: bool, password: string, raw: string, ch: Choice)
    requires Asks(authenticated, password, raw, "INFO")
    ensures var o := Run(db, authenticated, password, raw, ch);
            o.db == db && Is(o.reply, BulkString(ch.info))
  {
    AdminVerbs();
    hide ParseRequest, VerbOf, Run, Is, ToUpper, Bulk;
    RunIs(db, authenticated, password, raw, ch, "INFO");
    BulkReplyIsRead(ch.info);
  }

  // ---- the session ------------------------------------------------------------------------

  lemma SessionVerbs()
    ensures VerbOf("AUTH") == AuthV && VerbOf("PING") == PingV && VerbOf("QUIT") == QuitV
  {
  }

  /** PING answers PONG, or its first argument. */
  lemma PingLaw(db: Db, authenticated: bool, password: string, raw: string, ch: Choice)
    requires Asks(authenticated, password, raw, "PING")
    ensures var tokens, o := ParseRequest(raw), Run(db, authenticated, password, raw, ch);
            o.db == db && Is(o.reply, if |tokens| == 1 then Simple("PONG") else BulkString(tokens[1]))
  {
    SessionVerbs();
    SimpleIsRead("PONG");
    hide ParseRequest, VerbOf, Is, ToUpper, Bulk, SimpleString;
    var tokens := ParseRequest(raw);
    if |tokens| > 1 { BulkReplyIsRead(tokens[1]); }
  }

  lemma WrongPassword()
    ensures Is(Error("invalid password"), Failure("ERR " + "invalid password"))
  {
    hide ReadValue;
    ErrorIsRead("invalid password");
  }

  lemma NoAuth()
    ensures Is(NO_AUTH, Failure("NOAUTH Authentication required."))
  {
    hide ReadValue;
    var t := "NOAUTH Authentication required.";
    NoAuthText(t);
    FailureIsRead(t, NO_AUTH);
  }

  /** Before authentication: OK to the password and to QUIT, an error to anything else. */
  lemma LockedLaw(db: Db, password: string, raw: string, ch: Choice)
    requires password != "" && ParseRequest(raw) != []
    ensures var tokens, o := ParseRequest(raw), Run(db, false, password, raw, ch);
            var name := ToUpper(tokens[0]);
            && (name == "AUTH" && |tokens| == 2 && tokens[1] == password ==> Is(o.reply, Simple("OK")))
            && (name == "AUTH" && !(|tokens| == 2 && tokens[1] == password) ==>
                  Is(o.reply, Failure("ERR " + "invalid password")))
            && (name == "QUIT" ==> Is(o.reply, Simple("OK")))
            && (name != "AUTH" && name != "QUIT" ==> Is(o.reply, Failure("NOAUTH Authentication required.")))
  {
    Ok();
    WrongPassword();
    NoAuth();
    hide ParseRequest, Is, ToUpper, Error, OK, NO_AUTH;
  }

  /** Afterwards AUTH and QUIT answer the same; AUTH needs exactly one argument. */
  lemma AuthLaw(db: Db, authenticated: bool, password: string, raw: string, ch: Choice)
    requires Asks(authenticated, password, raw, "AUTH") && |ParseRequest(raw)| == 2
    ensures var tokens, o := ParseRequest(raw), Run(db, authenticated, password, raw, ch);
            && o.db == db
            && Is(o.reply, if password == "" || tokens[1] == password then Simple("OK")
                           else Failure("ERR " + "invalid password"))
  {
    SessionVerbs();
    Ok();
    WrongPassword();
    hide ParseRequest, VerbOf, Is, ToUpper, Error, OK;
  }

  lemma QuitLaw(db: Db, authenticated: bool, password: string, raw: string, ch: Choice)
    requires Asks(authenticated, password, raw, "QUIT")
    ensures var o := Run(db, authenticated, password, raw, ch);
            o.db == db && Is(o.reply, Simple("OK")) && o.close
  {
    SessionVerbs();
    Ok();
    hide ParseRequest, VerbOf, Is, ToUpper, OK;
  }

  // ---- errors -----------------------------------------------------------------------------

  const NAMES := {"AUTH", "PING", "QUIT", "SET", "SETEX", "GET", "MGET", "MSET", "INCR", "DECR", "INCRBY",
                  "HSET", "HGET", "HDEL", "HEXISTS", "HLEN", "HGETALL", "LPUSH", "RPUSH", "LPOP", "RPOP", "LLEN",
                  "LRANGE", "DEL", "EXISTS", "EXPIRE", "TTL", "DBSIZE", "FLUSHDB", "BGREWRITEAOF", "INFO"}

  lemma UnknownName(name: string)
    requires name !in NAMES
    ensures VerbOf(name) == UnknownV
  {
  }

  /** Any other name is answered with an error that repeats it. */
  lemma UnknownLaw(db: Db, authenticated: bool, password: string, raw: string, ch: Choice, name: string)
    requires Asks(authenticated, password, raw, name) && name !in NAMES && Unbroken(ParseRequest(raw)[0])
    ensures var tokens, o := ParseRequest(raw), Run(db, authenticated, password, raw, ch);
            o.db == db && Is(o.reply, Failure("ERR " + ("unknown command '" + tokens[0] + "'")))
  {
    hide ParseRequest, VerbOf, Run, Is, ToUpper, Unbroken, Error, NAMES;
    UnknownName(name);
    RunIs(db, authenticated, password, raw, ch, name);
    UnknownMessage(ParseRequest(raw)[0]);
  }

  lemma UnknownMessage(written: string)
    requires Unbroken(written)
    ensures Is(Error("unknown command '" + written + "'"), Failure("ERR " + ("unknown command '" + written + "'")))
  {
    assert Unbroken("unknown command '") && Unbroken("'");
    hide Is, Unbroken, Error;
    Joins("unknown command '", written);
    Joins("unknown command '" + written, "'");
    ErrorIsRead("unknown command '" + written + "'");
  }

  /** The command is not given that many words, its name included. */
  predicate WrongCount(name: string, n: nat) {
    || (name in {"MGET", "DEL"} && n < 2)
    || (name in {"SET", "LPUSH", "RPUSH"} && n < 3)
    || (name == "MSET" && (n < 3 || n % 2 == 0))
    || (name in {"AUTH", "GET", "INCR", "DECR", "HLEN", "HGETALL", "LPOP", "RPOP", "LLEN", "EXISTS", "TTL"} && n != 2)
    || (name in {"INCRBY", "HGET", "HDEL", "HEXISTS", "EXPIRE"} && n != 3)
    || (name in {"SETEX", "HSET", "LRANGE"} && n != 4)
  }

  function LowerChar(c: char): char {
    if 'A' <= c <= 'Z' then (c as int + 32) as char else c
  }

  function ToLower(s: string): (r: string)
    ensures |r| == |s|
  {
    seq(|s|, i requires 0 <= i < |s| => LowerChar(s[i]))
  }

  lemma StringsInLower()
    ensures ToLower("SET") == "set" && ToLower("SETEX") == "setex" && ToLower("GET") == "get"
    ensures ToLower("MGET") == "mget" && ToLower("MSET") == "mset"
  {
  }

  lemma CountersInLower()
    ensures ToLower("INCR") == "incr" && ToLower("DECR") == "decr" && ToLower("INCRBY") == "incrby"
  {
  }

  lemma HashesInLower()
    ensures ToLower("HSET") == "hset" && ToLower("HGET") == "hget" && ToLower("HDEL") == "hdel"
    ensures ToLower("HEXISTS") == "hexists" && ToLower("HLEN") == "hlen" && ToLower("HGETALL") == "hgetall"
  {
  }

  lemma ListsInLower()
    ensures ToLower("LPUSH") == "lpush" && ToLower("RPUSH") == "rpush" && ToLower("LPOP") == "lpop"
    ensures ToLower("RPOP") == "rpop" && ToLower("LLEN") == "llen" && ToLower("LRANGE") == "lrange"
  {
  }

  lemma KeysInLower()
    ensures ToLower("DEL") == "del" && ToLower("EXISTS") == "exists" && ToLower("EXPIRE") == "expire"
    ensures ToLower("TTL") == "ttl" && ToLower("AUTH") == "auth"
  {
  }

  lemma StringCount(db: Db, name: string, tokens: seq<string>, ch: Choice)
    requires WrongCount(name, |tokens|) && tokens != [] && name in {"SET", "SETEX", "GET"}
    ensures RunData(db, VerbOf(name), tokens, ch) == (db, WrongArguments(ToLower(name)))
  {
    StringsInLower();
    StringVerbs();
    hide VerbOf, ToLower, WrongArguments, Stoll, Apply, Appended;
  }

  lemma ManyCount(db: Db, name: string, tokens: seq<string>, ch: Choice)
    requires WrongCount(name, |tokens|) && tokens != [] && name in {"MGET", "MSET"}
    ensures RunData(db, VerbOf(name), tokens, ch) == (db, WrongArguments(ToLower(name)))
  {
    StringsInLower();
    ManyVerbs();
    hide VerbOf, ToLower, WrongArguments, Stoll, Apply, Appended;
  }

  lemma CounterCount(db: Db, name: string, tokens: seq<string>, ch: Choice)
    requires WrongCount(name, |tokens|) && tokens != [] && name in {"INCR", "DECR", "INCRBY"}
    ensures RunData(db, VerbOf(name), tokens, ch) == (db, WrongArguments(ToLower(name)))
  {
    CountersInLower();
    CounterVerbs();
    hide VerbOf, ToLower, WrongArguments, Stoll, Apply, Appended;
  }

  lemma HashCount(db: Db, name: string, tokens: seq<string>, ch: Choice)
    requires WrongCount(name, |tokens|) && tokens != [] && name in {"HSET", "HGET", "HDEL"}
    ensures RunData(db, VerbOf(name), tokens, ch) == (db, WrongArguments(ToLower(name)))
  {
    HashesInLower();
    HashVerbs();
    hide VerbOf, ToLower, WrongArguments, Stoll, Apply, Appended;
  }

  lemma HashReadCount(db: Db, name: string, tokens: seq<string>, ch: Choice)
    requires WrongCount(name, |tokens|) && tokens != [] && name in {"HEXISTS", "HLEN", "HGETALL"}
    ensures RunData(db, VerbOf(name), tokens, ch) == (db, WrongArguments(ToLower(name)))
  {
    HashesInLower();
    HashReadVerbs();
    hide VerbOf, ToLower, WrongArguments, Stoll, Apply, Appended;
  }

  lemma PushCount(db: Db, name: string, tokens: seq<string>, ch: Choice)
    requires WrongCount(name, |tokens|) && tokens != [] && name in {"LPUSH", "RPUSH"}
    ensures RunData(db, VerbOf(name), tokens, ch) == (db, WrongArguments(ToLower(name)))
  {
    ListsInLower();
    PushVerbs();
    hide VerbOf, ToLower, WrongArguments, Stoll, Apply, Appended;
  }

  lemma PopCount(db: Db, name: string, tokens: seq<string>, ch: Choice)
    requires WrongCount(name, |tokens|) && tokens != [] && name in {"LPOP", "RPOP"}
    ensures RunData(db, VerbOf(name), tokens, ch) == (db, WrongArguments(ToLower(name)))
  {
    ListsInLower();
    PopVerbs();
    hide VerbOf, ToLower, WrongArguments, Stoll, Apply, Appended;
  }

  lemma ListReadCount(db: Db, name: string, tokens: seq<string>, ch: Choice)
    requires WrongCount(name, |tokens|) && tokens != [] && name in {"LLEN", "LRANGE"}
    ensures RunData(db, VerbOf(name), tokens, ch) == (db, WrongArguments(ToLower(name)))
  {
    ListsInLower();
    ListReadVerbs();
    hide VerbOf, ToLower, WrongArguments, Stoll, Apply, Appended;
  }

  lemma KeyCount(db: Db, name: string, tokens: seq<string>, ch: Choice)
    requires WrongCount(name, |tokens|) && tokens != [] && name in {"DEL", "EXISTS"}
    ensures RunData(db, VerbOf(name), tokens, ch) == (db, WrongArguments(ToLower(name)))
  {
    KeysInLower();
    KeyVerbs();
    hide VerbOf, ToLower, WrongArguments, Stoll, Apply, Appended;
  }

  lemma TimeCount(db: Db, name: string, tokens: seq<string>, ch: Choice)
    requires WrongCount(name, |tokens|) && tokens != [] && name in {"EXPIRE", "TTL"}
    ensures RunData(db, VerbOf(name), tokens, ch) == (db, WrongArguments(ToLower(name)))
  {
    KeysInLower();
    TimeVerbs();
    hide VerbOf, ToLower, WrongArguments, Stoll, Apply, Appended;
  }

  /** A command that is given too few words, or too many, says so and changes nothing. */
  lemma WrongCountLaw(db: Db, authenticated: bool, password: string, raw: string, ch: Choice, name: string)
    requires Asks(authenticated, password, raw, name) && WrongCount(name, |ParseRequest(raw)|)
    ensures var o := Run(db, authenticated, password, raw, ch);
            o.db == db
            && Is(o.reply, Failure("ERR " + ("wrong number of arguments for '" + ToLower(name) + "' command")))
  {
    var tokens := ParseRequest(raw);
    CountMessage(name);
    hide ParseRequest, ToUpper, ToLower, Is, VerbOf, RunData, Error;
    if name == "AUTH" {
      SessionVerbs();
      KeysInLower();
    } else {
      AnyCount(db, name, tokens, ch);
      RunIs(db, authenticated, password, raw, ch, name);
    }
  }

  lemma AnyCount(db: Db, name: string, tokens: seq<string>, ch: Choice)
    requires WrongCount(name, |tokens|) && tokens != [] && name != "AUTH"
    ensures RunData(db, VerbOf(name), tokens, ch) == (db, WrongArguments(ToLower(name)))
    ensures !OfTheSession(VerbOf(name))
  {
    hide RunData, ToLower, WrongArguments, VerbOf;
    if name in {"SET", "SETEX", "GET"} {
      StringCount(db, name, tokens, ch);
    } else if name in {"MGET", "MSET"} {
      ManyCount(db, name, tokens, ch);
    } else if name in {"INCR", "DECR", "INCRBY"} {
      CounterCount(db, name, tokens, ch);
    } else if name in {"HSET", "HGET", "HDEL"} {
      HashCount(db, name, tokens, ch);
    } else if name in {"HEXISTS", "HLEN", "HGETALL"} {
      HashReadCount(db, name, tokens, ch);
    } else if name in {"LPUSH", "RPUSH"} {
      PushCount(db, name, tokens, ch);
    } else if name in {"LPOP", "RPOP"} {
      PopCount(db, name, tokens, ch);
    } else if name in {"LLEN", "LRANGE"} {
      ListReadCount(db, name, tokens, ch);
    } else if name in {"DEL", "EXISTS"} {
      KeyCount(db, name, tokens, ch);
    } else {
      TimeCount(db, name, tokens, ch);
    }
    NotOfTheSession(name);
  }

  lemma NotOfTheSession(name: string)
    requires name != "AUTH" && name != "PING" && name != "QUIT"
    ensures !OfTheSession(VerbOf(name))
  {
  }

  lemma CountMessage(name: string)
    requires exists n :: WrongCount(name, n)
    ensures Is(WrongArguments(ToLower(name)),
               Failure("ERR " + ("wrong number of arguments for '" + ToLower(name) + "' command")))
  {
    hide ReadValue, ToLower;
    LowerIsUnbroken(name);
    assert Unbroken("wrong number of arguments ") && Unbroken("for '") && Unbroken("' command");
    Joins("wrong number of arguments ", "for '");
    Joins("wrong number of arguments for '", ToLower(name));
    Joins("wrong number of arguments for '" + ToLower(name), "' command");
    ErrorIsRead("wrong number of arguments for '" + ToLower(name) + "' command");
  }

  lemma LowerIsUnbroken(name: string)
    requires exists n :: WrongCount(name, n)
    ensures Unbroken(ToLower(name))
  {
    NamesAreUnbroken(name);
  }

  lemma NamesAreUnbroken(name: string)
    requires exists n :: WrongCount(name, n)
    ensures Unbroken(name)
  {
  }
}
