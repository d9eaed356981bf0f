/** The command dispatcher (src/CommandParser.cpp): what each request does to the
    store, the log, the session and the reply. `Run` is the specification; the method
    `Execute` carries it out on the real store and log. */
module Commands {
  import opened Basics
  import opened Numerals
  import opened Wire
  import opened Resp
  import opened FlatStore
  import opened Snapshots
  import opened Replay
  import AofManager
  import KeyValueStore
  import Shards

  /** std::toupper in the "C" locale. */
  function UpperChar(c: char): char {
    if 'a' <= c <= 'z' then (c as int - 32) as char else c
  }

  function ToUpper(s: string): (r: string)
    ensures |r| == |s|
  {
    seq(|s|, i requires 0 <= i < |s| => UpperChar(s[i]))
  }

  method RunToUpper(s: string) returns (r: string)
    ensures r == ToUpper(s)
  {
    r := "";
    for i := 0 to |s|
      invariant r == ToUpper(s)[..i]
    {
      r := r + [UpperChar(s[i])];
    }
  }

  lemma WriteNamesAreUpper()
    ensures ToUpper("SET") == "SET" && ToUpper("DEL") == "DEL" && ToUpper("EXPIRE") == "EXPIRE"
    ensures ToUpper("HSET") == "HSET" && ToUpper("HDEL") == "HDEL"
    ensures ToUpper("LPUSH") == "LPUSH" && ToUpper("RPUSH") == "RPUSH" && ToUpper("FLUSHDB") == "FLUSHDB"
  {
  }

  /** A name that is a command only after upper-casing is none the loader replays:
      it does not upper-case. */
  lemma OnlyUpperCaseIsReplayed(name: string)
    requires ToUpper(name) != name
    ensures VerbOf(name) !in {SetV, DelV, ExpireV, HsetV, HdelV, LpushV, RpushV, FlushdbV}
  {
    WriteNamesAreUpper();
    hide ToUpper;
  }

  /** The store and the log that a request works on. */
  datatype Db = Db(store: Flat, aof: Aof)

  /** What the environment contributes to one request: clock samples, the order in
      which a hash table yields fields, the bytes of a compaction, the INFO text. */
  datatype Choice = Choice(clock: Clock, pairs: FieldList, rewritten: string, info: string)

  datatype Outcome = Outcome(db: Db, authenticated: bool, reply: string, close: bool)

  const OK := SimpleString("OK")
  const NO_AUTH := "-NOAUTH Authentication required.\r\n"
  const NOT_AN_INTEGER := Error("value is not an integer or out of range")

  function WrongArguments(name: string): string {
    Error("wrong number of arguments for '" + name + "' command")
  }

  function OptionReply(r: Option<string>): string {
    if r.Some? then Bulk(r.value) else NULL
  }

  function BoolReply(b: bool): string {
    Integer(if b then 1 else 0)
  }

  function Perform(db: Db, op: Op, now: int): Db {
    db.(store := Apply(db.store, op, now).0)
  }

  function Logged(db: Db, tokens: seq<string>): Db {
    db.(aof := Appended(db.aof, tokens))
  }

  // ---- strings ----------------------------------------------------------------

  predicate HasExpiry(tokens: seq<string>) {
    |tokens| >= 5 && ToUpper(tokens[3]) == "EX"
  }

  function RunSet(db: Db, tokens: seq<string>, now: int): (Db, string) {
    if |tokens| < 3 then (db, WrongArguments("set"))
    else if HasExpiry(tokens) && Stoll(tokens[4]).None? then (db, NOT_AN_INTEGER)
    else
      var ttl := if HasExpiry(tokens) then Stoll(tokens[4]) else None;
      (Logged(Perform(db, Set(tokens[1], tokens[2], ttl), now), tokens), OK)
  }

  function RunSetex(db: Db, tokens: seq<string>, now: int): (Db, string) {
    if |tokens| != 4 then (db, WrongArguments("setex"))
    else if Stoll(tokens[2]).None? then (db, NOT_AN_INTEGER)
    else
      (Logged(Perform(db, Set(tokens[1], tokens[3], Stoll(tokens[2])), now),
              ["SET", tokens[1], tokens[3], "EX", tokens[2]]), OK)
  }

  function TextOf(answer: Answer): Option<string> {
    if answer.Text? then answer.text else None
  }

  function RunGet(db: Db, tokens: seq<string>, now: int): (Db, string) {
    if |tokens| != 2 then (db, WrongArguments("get")) else
      (Perform(db, Get(tokens[1]), now), OptionReply(TextOf(Apply(db.store, Get(tokens[1]), now).1)))
  }

  /** `get` on the first `n` keys, each with its own clock sample, and the replies. */
  function GetAll(f: Flat, keys: seq<string>, n: nat, clock: Clock): (Flat, string)
    requires n <= |keys|
  {
    if n == 0 then (f, "") else
      var (g, replies) := GetAll(f, keys, n - 1, clock);
      var (h, answer) := Apply(g, Get(keys[n - 1]), clock.at(n - 1));
      (h, replies + OptionReply(TextOf(answer)))
  }

  lemma GetAllOfNone(f: Flat, keys: seq<string>, clock: Clock)
    ensures GetAll(f, keys, 0, clock) == (f, "")
  {
  }

  lemma GetAllStep(f: Flat, keys: seq<string>, n: nat, clock: Clock)
    requires n < |keys|
    ensures var (g, replies) := GetAll(f, keys, n, clock);
            var (h, answer) := Apply(g, Get(keys[n]), clock.at(n));
            GetAll(f, keys, n + 1, clock) == (h, replies + OptionReply(TextOf(answer)))
  {
  }

  function RunMget(db: Db, tokens: seq<string>, clock: Clock): (Db, string) {
    if |tokens| < 2 then (db, WrongArguments("mget")) else
      var (store, replies) := GetAll(db.store, tokens[1..], |tokens| - 1, clock);
      (db.(store := store), ArrayHeader(|tokens| - 1) + replies)
  }

  /** `set` on the first `n` pairs of a flat list of keys and values. */
  function SetAll(f: Flat, pairs: seq<string>, n: nat, clock: Clock): Flat
    requires 2 * n <= |pairs|
  {
    if n == 0 then f else
      Apply(SetAll(f, pairs, n - 1, clock), Set(pairs[2 * n - 2], pairs[2 * n - 1], None), clock.at(n - 1)).0
  }

  lemma SetAllOfNone(f: Flat, pairs: seq<string>, clock: Clock)
    ensures SetAll(f, pairs, 0, clock) == f
  {
  }

  lemma SetAllStep(f: Flat, pairs: seq<string>, n: nat, clock: Clock)
    requires 2 * n + 2 <= |pairs|
    ensures SetAll(f, pairs, n + 1, clock)
            == Apply(SetAll(f, pairs, n, clock), Set(pairs[2 * n], pairs[2 * n + 1], None), clock.at(n)).0
  {
    hide Apply;
  }

  function RunMset(db: Db, tokens: seq<string>, clock: Clock): (Db, string) {
    if |tokens| < 3 || (|tokens| - 1) % 2 != 0 then (db, WrongArguments("mset")) else
      (Logged(db.(store := SetAll(db.store, tokens[1..], (|tokens| - 1) / 2, clock)), tokens), OK)
  }

  function Incremented(db: Db, tokens: seq<string>, delta: int, now: int): (Db, string)
    requires |tokens| >= 2
  {
    var (store, answer) := Apply(db.store, IncrBy(tokens[1], delta), now);
    if answer.Counter? && answer.ok then
      (Logged(db.(store := store), tokens), Integer(answer.number))
    else (db.(store := store), NOT_AN_INTEGER)
  }

  function RunIncr(db: Db, tokens: seq<string>, delta: int, now: int): (Db, string) {
    if |tokens| != 2 then (db, WrongArguments(if delta > 0 then "incr" else "decr"))
    else Incremented(db, tokens, delta, now)
  }

  function RunIncrby(db: Db, tokens: seq<string>, now: int): (Db, string) {
    if |tokens| != 3 then (db, WrongArguments("incrby"))
    else if Stoll(tokens[2]).None? then (db, NOT_AN_INTEGER)
    else Incremented(db, tokens, Stoll(tokens[2]).value, now)
  }

  // ---- hashes -----------------------------------------------------------------

  function FlagOf(answer: Answer): bool {
    answer == Flag(true)
  }

  function CountOf(answer: Answer): int {
    if answer.Count? then Wrap64(answer.count) else 0
  }

  function RunHset(db: Db, tokens: seq<string>, now: int): (Db, string) {
    if |tokens| != 4 then (db, WrongArguments("hset")) else
      var op := Hset(tokens[1], tokens[2], tokens[3]);
      (Logged(Perform(db, op, now), tokens), BoolReply(FlagOf(Apply(db.store, op, now).1)))
  }

  function RunHget(db: Db, tokens: seq<string>, now: int): (Db, string) {
    if |tokens| != 3 then (db, WrongArguments("hget")) else
      (db, OptionReply(TextOf(Apply(db.store, Hget(tokens[1], tokens[2]), now).1)))
  }

  function RunHdel(db: Db, tokens: seq<string>, now: int): (Db, string) {
    if |tokens| != 3 then (db, WrongArguments("hdel")) else
      var op := Hdel(tokens[1], tokens[2]);
      var removed := FlagOf(Apply(db.store, op, now).1);
      (if removed then Logged(Perform(db, op, now), tokens) else Perform(db, op, now), BoolReply(removed))
  }

  function RunHexists(db: Db, tokens: seq<string>, now: int): (Db, string) {
    if |tokens| != 3 then (db, WrongArguments("hexists")) else
      (db, BoolReply(TextOf(Apply(db.store, Hget(tokens[1], tokens[2]), now).1).Some?))
  }

  function RunHlen(db: Db, tokens: seq<string>, now: int): (Db, string) {
    if |tokens| != 2 then (db, WrongArguments("hlen")) else
      (db, Integer(CountOf(Apply(db.store, Hlen(tokens[1]), now).1)))
  }

  function Flattened(pairs: FieldList): seq<string> {
    if pairs == [] then [] else
      var n := |pairs| - 1;
      Flattened(pairs[..n]) + [pairs[n].0, pairs[n].1]
  }

  function RunHgetall(db: Db, tokens: seq<string>, pairs: FieldList): (Db, string) {
    if |tokens| != 2 then (db, WrongArguments("hgetall")) else (db, Array(Flattened(pairs)))
  }

  // ---- lists ------------------------------------------------------------------

  function RunPush(db: Db, tokens: seq<string>, front: bool, now: int): (Db, string) {
    if |tokens| < 3 then (db, WrongArguments(if front then "lpush" else "rpush")) else
      var (store, length) := PushAll(db.store, front, tokens[1], tokens[2..], |tokens| - 2, now);
      (Logged(db.(store := store), tokens), Integer(Wrap64(length)))
  }

  function RunPop(db: Db, tokens: seq<string>, front: bool, now: int): (Db, string) {
    if |tokens| != 2 then (db, WrongArguments(if front then "lpop" else "rpop")) else
      var op := if front then Lpop(tokens[1]) else Rpop(tokens[1]);
      var value := TextOf(Apply(db.store, op, now).1);
      (if value.Some? then Logged(Perform(db, op, now), tokens) else Perform(db, op, now), OptionReply(value))
  }

  function RunLlen(db: Db, tokens: seq<string>, now: int): (Db, string) {
    if |tokens| != 2 then (db, WrongArguments("llen")) else
      (db, Integer(CountOf(Apply(db.store, Llen(tokens[1]), now).1)))
  }

  function ItemsOf(answer: Answer): seq<string> {
    if answer.Items? then answer.items else []
  }

  function RunLrange(db: Db, tokens: seq<string>, now: int): (Db, string) {
    if |tokens| != 4 then (db, WrongArguments("lrange"))
    else if Stoll(tokens[2]).None? || Stoll(tokens[3]).None? then (db, NOT_AN_INTEGER)
    else
      (db, Array(ItemsOf(Apply(db.store, Lrange(tokens[1], Stoll(tokens[2]).value, Stoll(tokens[3]).value), now).1)))
  }

  // ---- keys and the whole store --------------------------------------------------

  function RunDel(db: Db, tokens: seq<string>, now: int): (Db, string) {
    if |tokens| < 2 then (db, WrongArguments("del")) else
      var (store, removed) := DelAll(db.store, tokens[1..], |tokens| - 1, now);
      (if removed > 0 then Logged(db.(store := store), tokens) else db.(store := store), Integer(Wrap64(removed)))
  }

  function RunExists(db: Db, tokens: seq<string>, now: int): (Db, string) {
    if |tokens| != 2 then (db, WrongArguments("exists")) else
      (db, BoolReply(FlagOf(Apply(db.store, Exists(tokens[1]), now).1)))
  }

  function RunExpire(db: Db, tokens: seq<string>, now: int): (Db, string) {
    if |tokens| != 3 then (db, WrongArguments("expire"))
    else if Stoll(tokens[2]).None? then (db, NOT_AN_INTEGER)
    else
      var op := Expire(tokens[1], Stoll(tokens[2]).value);
      var ok := FlagOf(Apply(db.store, op, now).1);
      (if ok then Logged(Perform(db, op, now), tokens) else Perform(db, op, now), BoolReply(ok))
  }

  function RunTtl(db: Db, tokens: seq<string>, now: int): (Db, string) {
    if |tokens| != 2 then (db, WrongArguments("ttl")) else
      (Perform(db, Ttl(tokens[1]), now), Integer(CountOf(Apply(db.store, Ttl(tokens[1]), now).1)))
  }

  function RunFlushdb(db: Db): (Db, string) {
    (Logged(db.(store := EMPTY), ["FLUSHDB"]), OK)
  }

  function RunBgrewriteaof(db: Db, rewritten: string): (Db, string) {
    if !Enabled(db.aof) then (db, Error("AOF is not enabled")) else
      (db.(aof := Aof(true, true, rewritten)),
       SimpleString("Background append only file rewriting finished successfully"))
  }

  // ---- dispatch -------------------------------------------------------------------

  /** The commands that work on the store; `v` is the upper-cased name. */
  function RunData(db: Db, v: Verb, tokens: seq<string>, ch: Choice): (Db, string)
    requires tokens != []
  {
    var now := ch.clock.at(0);
    match v
    case SetV => RunSet(db, tokens, now)
    case SetexV => RunSetex(db, tokens, now)
    case GetV => RunGet(db, tokens, now)
    case MgetV => RunMget(db, tokens, ch.clock)
    case MsetV => RunMset(db, tokens, ch.clock)
    case IncrV => RunIncr(db, tokens, 1, now)
    case DecrV => RunIncr(db, tokens, -1, now)
    case IncrbyV => RunIncrby(db, tokens, now)
    case HsetV => RunHset(db, tokens, now)
    case HgetV => RunHget(db, tokens, now)
    case HdelV => RunHdel(db, tokens, now)
    case HexistsV => RunHexists(db, tokens, now)
    case HlenV => RunHlen(db, tokens, now)
    case HgetallV => RunHgetall(db, tokens, ch.pairs)
    case LpushV => RunPush(db, tokens, true, now)
    case RpushV => RunPush(db, tokens, false, now)
    case LpopV => RunPop(db, tokens, true, now)
    case RpopV => RunPop(db, tokens, false, now)
    case LlenV => RunLlen(db, tokens, now)
    case LrangeV => RunLrange(db, tokens, now)
    case DelV => RunDel(db, tokens, now)
    case ExistsV => RunExists(db, tokens, now)
    case ExpireV => RunExpire(db, tokens, now)
    case TtlV => RunTtl(db, tokens, now)
    case DbsizeV => (db, Integer(Wrap64(Size(db.store, now))))
    case FlushdbV => RunFlushdb(db)
    case BgrewriteaofV => RunBgrewriteaof(db, ch.rewritten)
    case InfoV => (db, Bulk(ch.info))
    case _ => (db, Error("unknown command '" + tokens[0] + "'"))
  }

  function RunAuth(db: Db, authenticated: bool, password: string, tokens: seq<string>): Outcome {
    if |tokens| == 2 then
      if password == "" || tokens[1] == password then Outcome(db, true, OK, false)
      else Outcome(db, authenticated, Error("invalid password"), false)
    else Outcome(db, authenticated, WrongArguments("auth"), false)
  }

  /** A request before the session has authenticated, where that is required. */
  function RunLocked(db: Db, v: Verb, password: string, tokens: seq<string>): Outcome {
    if v.AuthV? then
      if |tokens| == 2 && tokens[1] == password then Outcome(db, true, OK, false)
      else Outcome(db, false, Error("invalid password"), false)
    else if v.QuitV? then Outcome(db, false, OK, true)
    else Outcome(db, false, NO_AUTH, false)
  }

  function RunTokens(db: Db, authenticated: bool, password: string, tokens: seq<string>, ch: Choice): Outcome {
    if tokens == [] then Outcome(db, authenticated, "", false) else
      var v := VerbOf(ToUpper(tokens[0]));
      if Locked(authenticated, password) then RunLocked(db, v, password, tokens)
      else if v.AuthV? then RunAuth(db, authenticated, password, tokens)
      else if v.PingV? then
        Outcome(db, authenticated, if |tokens| == 1 then SimpleString("PONG") else Bulk(tokens[1]), false)
      else if v.QuitV? then Outcome(db, authenticated, OK, true)
      else
        var (next, reply) := RunData(db, v, tokens, ch);
        Outcome(next, authenticated, reply, false)
  }

  function Run(db: Db, authenticated: bool, password: string, raw: string, ch: Choice): Outcome {
    RunTokens(db, authenticated, password, ParseRequest(raw), ch)
  }

  /** AUTH with the right password; any will do where none is required. */
  predicate GivesPassword(tokens: seq<string>, password: string) {
    |tokens| == 2 && ToUpper(tokens[0]) == "AUTH" && (password == "" || tokens[1] == password)
  }

  /** What a request can do to its session: it closes it exactly when it is QUIT, and
      leaves it authenticated exactly when it was, or when the request gives the
      password. Before authentication nothing of the store or the log changes, and
      nothing of them can be told from the outcome. */
  lemma AuthenticationGate(db: Db, other: Db, authenticated: bool, password: string, raw: string,
                           ch: Choice, any: Choice)
    ensures var tokens := ParseRequest(raw);
            var o := Run(db, authenticated, password, raw, ch);
            && (o.close <==> tokens != [] && ToUpper(tokens[0]) == "QUIT")
            && (o.authenticated <==> (authenticated || GivesPassword(tokens, password)))
            && (Locked(authenticated, password) ==>
                  o.db == db && Run(other, authenticated, password, raw, any) == o.(db := other))
  {
    hide ParseRequest, RunData, ToUpper, OK, NO_AUTH, Error, Bulk;
  }

  predicate IsStringCommand(v: Verb) {
    v in {SetV, SetexV, GetV, MgetV, MsetV, IncrV, DecrV, IncrbyV}
  }

  predicate IsKeyCommand(v: Verb) {
    v in {DelV, ExistsV, ExpireV, TtlV}
  }

  predicate IsCollectionCommand(v: Verb) {
    v in {HsetV, HgetV, HdelV, HexistsV, HlenV, LpushV, RpushV, LpopV, RpopV, LlenV, LrangeV}
  }

  /** A password is required and has not been given yet. */
  predicate Locked(authenticated: bool, password: string) {
    password != "" && !authenticated
  }

  /** The environment keeps to what the store and the log manager promise. */
  ghost predicate AllowedData(db: Db, v: Verb, tokens: seq<string>, ch: Choice) {
    && (v.HgetallV? && |tokens| == 2 ==> Lists(ch.pairs, SlotOf(db.store, tokens[1]).Hash()))
    && (v.BgrewriteaofV? && Enabled(db.aof) ==> IsRewrite(ch.rewritten, db.store, ch.clock.at(0)))
  }

  ghost predicate Allowed(db: Db, authenticated: bool, password: string, tokens: seq<string>, ch: Choice) {
    tokens != [] && !Locked(authenticated, password) ==> AllowedData(db, VerbOf(ToUpper(tokens[0])), tokens, ch)
  }

  /** Only HGETALL and BGREWRITEAOF leave anything to the environment. */
  lemma AllowedOtherwise(db: Db, v: Verb, tokens: seq<string>, ch: Choice)
    ensures v != HgetallV && v != BgrewriteaofV ==> AllowedData(db, v, tokens, ch)
  {
  }

  // ---- execution ------------------------------------------------------------------

  class CommandParser {
    const store: KeyValueStore.KeyValueStore
    const aof: AofManager.AofManager?
    const password: string

    constructor (store: KeyValueStore.KeyValueStore, aof: AofManager.AofManager?, password: string)
      ensures this.store == store && this.aof == aof && this.password == password
    {
      this.store := store;
      this.aof := aof;
      this.password := password;
    }

    ghost predicate Valid()
      reads store, store.shards
    {
      store.Valid()
    }

    function Log(): Aof
      reads aof
    {
      if aof == null then NoAof else aof.State()
    }

    ghost function State(): Db
      reads store, aof
    {
      Db(store.contents, Log())
    }

    method AppendToLog(tokens: seq<string>)
      modifies aof
      ensures Log() == Appended(old(Log()), tokens)
    {
      if aof != null && aof.enabled {
        aof.Append(tokens);
      }
    }

    /** `authenticated` is the session's flag, returned updated; `ch` reports what the
        environment contributed. */
    method Execute(raw: string, authenticated: bool, clock: Clock, info: string)
        returns (reply: string, close: bool, nowAuthenticated: bool, ghost ch: Choice)
      requires Valid()
      modifies store.shards, store`contents, aof
      ensures Valid() && ch.clock == clock && ch.info == info
      ensures Allowed(old(State()), authenticated, password, ParseRequest(raw), ch)
      ensures Outcome(State(), nowAuthenticated, reply, close) == Run(old(State()), authenticated, password, raw, ch)
    {
      hide Shards.Represents, FlatStore.Tidy, ParseRequest, RunData, VerbOf, AllowedData;
      hide OK, NO_AUTH, Error, WrongArguments;
      var tokens := RunParseRequest(raw);
      ch := Choice(clock, [], "", info);
      reply, nowAuthenticated, close := "", authenticated, false;
      if tokens == [] {
        return;
      }
      var name := RunToUpper(tokens[0]);
      var v := VerbOf(name);
      AllowedOtherwise(State(), v, tokens, ch);
      if Locked(authenticated, password) {
        reply, close, nowAuthenticated := ExecuteLocked(v, tokens);
        return;
      }
      match v {
        case AuthV => reply, nowAuthenticated := ExecuteAuth(tokens, authenticated);
        case PingV => reply := if |tokens| == 1 then SimpleString("PONG") else Bulk(tokens[1]);
        case QuitV => reply, close := OK, true;
        case _ => reply, ch := ExecuteData(v, tokens, clock, info);
      }
    }

    /** Before authentication: the password, QUIT, or nothing. */
    method ExecuteLocked(v: Verb, tokens: seq<string>) returns (reply: string, close: bool, authenticated: bool)
      ensures authenticated <==> v == AuthV && |tokens| == 2 && tokens[1] == password
      ensures close <==> v == QuitV
      ensures reply == OK <==> authenticated || close
      ensures reply == Error("invalid password") <==> v == AuthV && !authenticated
      ensures reply == NO_AUTH <==> v != AuthV && v != QuitV
    {
      authenticated, close := false, false;
      assert OK[0] == '+' && NO_AUTH[0] == '-' && Error("invalid password")[0] == '-';
      assert NO_AUTH[1] == 'N' && Error("invalid password")[1] == 'E';
      if v.AuthV? {
        if |tokens| == 2 && tokens[1] == password {
          return OK, false, true;
        }
        return Error("invalid password"), false, false;
      }
      if v.QuitV? {
        return OK, true, false;
      }
      reply := NO_AUTH;
    }

    /** AUTH with two tokens succeeds if the password matches or none is required. */
    method ExecuteAuth(tokens: seq<string>, authenticated: bool) returns (reply: string, nowAuthenticated: bool)
      ensures reply == OK <==> |tokens| == 2 && (password == "" || tokens[1] == password)
      ensures nowAuthenticated <==> authenticated || reply == OK
      ensures reply == OK || reply == (if |tokens| == 2 then Error("invalid password") else WrongArguments("auth"))
    {
      assert OK[0] == '+' && WrongArguments("auth")[0] == '-' && Error("invalid password")[0] == '-';
      nowAuthenticated := authenticated;
      if |tokens| == 2 {
        if password == "" || tokens[1] == password {
          return OK, true;
        }
        return Error("invalid password"), authenticated;
      }
      reply := WrongArguments("auth");
    }

    method ExecuteData(v: Verb, tokens: seq<string>, clock: Clock, info: string)
        returns (reply: string, ghost ch: Choice)
      requires Valid() && tokens != []
      modifies store.shards, store`contents, aof
      ensures Valid() && ch.clock == clock && ch.info == info && AllowedData(old(State()), v, tokens, ch)
      ensures (State(), reply) == RunData(old(State()), v, tokens, ch)
    {
      hide Shards.Represents, FlatStore.Tidy, IsRewrite, Lists, SlotOf, RunData;
      ch := Choice(clock, [], "", info);
      if IsStringCommand(v) {
        reply := ExecuteString(v, tokens, clock);
      } else if IsCollectionCommand(v) {
        reply := ExecuteCollection(v, tokens, clock.at(0));
      } else if IsKeyCommand(v) {
        reply := ExecuteKeys(v, tokens, clock.at(0));
      } else {
        reply, ch := ExecuteWhole(v, tokens, clock, info);
      }
    }

    /** The rest: HGETALL, the commands on the whole store, and the unknown ones. */
    method ExecuteWhole(v: Verb, tokens: seq<string>, clock: Clock, info: string)
        returns (reply: string, ghost ch: Choice)
      requires Valid() && tokens != []
      requires !IsStringCommand(v) && !IsCollectionCommand(v) && !IsKeyCommand(v)
      modifies store.shards, store`contents, aof
      ensures Valid() && ch.clock == clock && ch.info == info && AllowedData(old(State()), v, tokens, ch)
      ensures (State(), reply) == RunData(old(State()), v, tokens, ch)
    {
      hide Shards.Represents, FlatStore.Tidy, IsRewrite, Lists, SlotOf, Size, Integer, Error, Bulk;
      hide RunHgetall, RunFlushdb, RunBgrewriteaof;
      var name := tokens[0];
      ch := Choice(clock, [], "", info);
      match v {
        case HgetallV =>
          var pairs;
          reply, pairs := ExecuteHgetall(tokens, clock.at(0));
          ch := ch.(pairs := pairs);
        case DbsizeV =>
          var n := store.Size(clock.at(0));
          reply := Integer(Wrap64(n));
        case FlushdbV => reply := ExecuteFlushdb();
        case BgrewriteaofV => reply, ch := ExecuteBgrewriteaof(clock, info);
        case InfoV => reply := Bulk(info);
        case _ => reply := Error("unknown command '" + name + "'");
      }
    }

    method ExecuteFlushdb() returns (reply: string)
      requires Valid()
      modifies store.shards, store`contents, aof
      ensures Valid() && (State(), reply) == RunFlushdb(old(State()))
    {
      store.Clear();
      AppendToLog(["FLUSHDB"]);
      reply := OK;
    }

    /** The commands on keys of any kind. */
    method ExecuteKeys(v: Verb, tokens: seq<string>, now: int) returns (reply: string)
      requires Valid() && tokens != [] && IsKeyCommand(v)
      modifies store.shards, store`contents, aof
      ensures Valid()
      ensures forall ch: Choice :: ch.clock.at(0) == now ==> (State(), reply) == RunData(old(State()), v, tokens, ch)
    {
      hide Shards.Represents, FlatStore.Tidy, SlotOf, Bulk, DecimalInt, RunDel, RunExists, RunExpire, RunTtl;
      match v {
        case DelV => reply := ExecuteDel(tokens, now);
        case ExistsV => reply := ExecuteExists(tokens, now);
        case ExpireV => reply := ExecuteExpire(tokens, now);
        case TtlV => reply := ExecuteTtl(tokens, now);
      }
    }

    /** The commands on strings. */
    method ExecuteString(v: Verb, tokens: seq<string>, clock: Clock) returns (reply: string)
      requires Valid() && tokens != [] && IsStringCommand(v)
      modifies store.shards, store`contents, aof
      ensures Valid()
      ensures forall ch: Choice :: ch.clock == clock ==> (State(), reply) == RunData(old(State()), v, tokens, ch)
    {
      hide Shards.Represents, FlatStore.Tidy, SlotOf, Bulk, DecimalInt;
      hide RunSet, RunSetex, RunGet, RunMget, RunMset, RunIncr, RunIncrby;
      var now := clock.at(0);
      match v {
        case SetV => reply := ExecuteSet(tokens, now);
        case SetexV => reply := ExecuteSetex(tokens, now);
        case GetV => reply := ExecuteGet(tokens, now);
        case MgetV => reply := ExecuteMget(tokens, clock);
        case MsetV => reply := ExecuteMset(tokens, clock);
        case IncrV => reply := ExecuteIncr(tokens, 1, now);
        case DecrV => reply := ExecuteIncr(tokens, -1, now);
        case IncrbyV => reply := ExecuteIncrby(tokens, now);
      }
    }

    /** The commands on hashes and lists, but for HGETALL. */
    method ExecuteCollection(v: Verb, tokens: seq<string>, now: int) returns (reply: string)
      requires Valid() && tokens != [] && IsCollectionCommand(v)
      modifies store.shards, store`contents, aof
      ensures Valid()
      ensures forall ch: Choice :: ch.clock.at(0) == now ==> (State(), reply) == RunData(old(State()), v, tokens, ch)
    {
      hide Shards.Represents, FlatStore.Tidy, SlotOf, Bulk, DecimalInt;
      hide RunHset, RunHget, RunHdel, RunHexists, RunHlen, RunPush, RunPop, RunLlen, RunLrange;
      match v {
        case HsetV => reply := ExecuteHset(tokens, now);
        case HgetV => reply := ExecuteHget(tokens, now);
        case HdelV => reply := ExecuteHdel(tokens, now);
        case HexistsV => reply := ExecuteHexists(tokens, now);
        case HlenV => reply := ExecuteHlen(tokens, now);
        case LpushV => reply := ExecutePush(tokens, true, now);
        case RpushV => reply := ExecutePush(tokens, false, now);
        case LpopV => reply := ExecutePop(tokens, true, now);
        case RpopV => reply := ExecutePop(tokens, false, now);
        case LlenV => reply := ExecuteLlen(tokens, now);
        case LrangeV => reply := ExecuteLrange(tokens, now);
      }
    }

    // ---- strings ------------------------------------------------------------

    method ExecuteSet(tokens: seq<string>, now: int) returns (reply: string)
      requires Valid()
      modifies store.shards, store`contents, aof
      ensures Valid() && (State(), reply) == RunSet(old(State()), tokens, now)
    {
      hide Shards.Represents, FlatStore.Tidy, Stoll, Apply;
      if |tokens| < 3 { return WrongArguments("set"); }
      var ttl: Option<int> := None;
      if |tokens| >= 5 {
        var option := RunToUpper(tokens[3]);
        if option == "EX" {
          ttl := Stoll(tokens[4]);
          if ttl.None? { return NOT_AN_INTEGER; }
        }
      }
      store.Set(tokens[1], tokens[2], ttl, now);
      AppendToLog(tokens);
      return OK;
    }

    method ExecuteSetex(tokens: seq<string>, now: int) returns (reply: string)
      requires Valid()
      modifies store.shards, store`contents, aof
      ensures Valid() && (State(), reply) == RunSetex(old(State()), tokens, now)
    {
      hide Shards.Represents, FlatStore.Tidy, Stoll, Apply;
      if |tokens| != 4 { return WrongArguments("setex"); }
      var seconds := Stoll(tokens[2]);
      if seconds.None? { return NOT_AN_INTEGER; }
      store.Set(tokens[1], tokens[3], seconds, now);
      AppendToLog(["SET", tokens[1], tokens[3], "EX", tokens[2]]);
      return OK;
    }

    method ExecuteGet(tokens: seq<string>, now: int) returns (reply: string)
      requires Valid()
      modifies store.shards, store`contents, aof
      ensures Valid() && (State(), reply) == RunGet(old(State()), tokens, now)
    {
      hide Shards.Represents, FlatStore.Tidy, Apply;
      if |tokens| != 2 { return WrongArguments("get"); }
      var value := store.Get(tokens[1], now);
      if value.Some? { return Bulk(value.value); }
      return NULL;
    }

    method ExecuteMget(tokens: seq<string>, clock: Clock) returns (reply: string)
      requires Valid()
      modifies store.shards, store`contents, aof
      ensures Valid() && (State(), reply) == RunMget(old(State()), tokens, clock)
    {
      hide Shards.Represents, FlatStore.Tidy, Apply, ArrayHeader, Bulk, GetAll;
      if |tokens| < 2 { return WrongArguments("mget"); }
      ghost var was, log := store.contents, Log();
      ghost var keys, header, replies := tokens[1..], ArrayHeader(|tokens| - 1), "";
      reply := ArrayHeader(|tokens| - 1);
      GetAllOfNone(was, keys, clock);
      for i := 1 to |tokens|
        invariant Valid() && Log() == log
        invariant (store.contents, replies) == GetAll(was, keys, i - 1, clock)
        invariant reply == header + replies
      {
        GetAllStep(was, keys, i - 1, clock);
        var value := store.Get(tokens[i], clock.at(i - 1));
        Assoc(header, replies, OptionReply(value));
        replies := replies + OptionReply(value);
        reply := reply + if value.Some? then Bulk(value.value) else NULL;
      }
    }

    method ExecuteMset(tokens: seq<string>, clock: Clock) returns (reply: string)
      requires Valid()
      modifies store.shards, store`contents, aof
      ensures Valid() && (State(), reply) == RunMset(old(State()), tokens, clock)
    {
      hide Shards.Represents, FlatStore.Tidy, Apply, SetAll;
      if |tokens| < 3 || (|tokens| - 1) % 2 != 0 { return WrongArguments("mset"); }
      ghost var was, log := store.contents, Log();
      ghost var pairs := tokens[1..];
      SetAllOfNone(was, pairs, clock);
      var i, n := 1, 0;
      while i < |tokens|
        invariant i == 2 * n + 1 <= |tokens|
        invariant Valid() && Log() == log
        invariant store.contents == SetAll(was, pairs, n, clock)
        decreases |tokens| - i
      {
        SetAllStep(was, pairs, n, clock);
        store.Set(tokens[i], tokens[i + 1], None, clock.at(n));
        i, n := i + 2, n + 1;
      }
      AppendToLog(tokens);
      return OK;
    }

    method ExecuteIncr(tokens: seq<string>, delta: int, now: int) returns (reply: string)
      requires Valid()
      modifies store.shards, store`contents, aof
      ensures Valid() && (State(), reply) == RunIncr(old(State()), tokens, delta, now)
    {
      hide Shards.Represents, FlatStore.Tidy, Apply;
      if |tokens| != 2 { return WrongArguments(if delta > 0 then "incr" else "decr"); }
      var ok, number := store.IncrBy(tokens[1], delta, now);
      if !ok { return NOT_AN_INTEGER; }
      AppendToLog(tokens);
      return Integer(number);
    }

    method ExecuteIncrby(tokens: seq<string>, now: int) returns (reply: string)
      requires Valid()
      modifies store.shards, store`contents, aof
      ensures Valid() && (State(), reply) == RunIncrby(old(State()), tokens, now)
    {
      hide Shards.Represents, FlatStore.Tidy, Apply, Stoll;
      if |tokens| != 3 { return WrongArguments("incrby"); }
      var delta := Stoll(tokens[2]);
      if delta.None? { return NOT_AN_INTEGER; }
      var ok, number := store.IncrBy(tokens[1], delta.value, now);
      if !ok { return NOT_AN_INTEGER; }
      AppendToLog(tokens);
      return Integer(number);
    }

    // ---- hashes -------------------------------------------------------------

    method ExecuteHset(tokens: seq<string>, now: int) returns (reply: string)
      requires Valid()
      modifies store.shards, store`contents, aof
      ensures Valid() && (State(), reply) == RunHset(old(State()), tokens, now)
    {
      hide Shards.Represents, FlatStore.Tidy, Apply;
      if |tokens| != 4 { return WrongArguments("hset"); }
      var isNew := store.Hset(tokens[1], tokens[2], tokens[3], now);
      AppendToLog(tokens);
      return Integer(if isNew then 1 else 0);
    }

    method ExecuteHget(tokens: seq<string>, now: int) returns (reply: string)
      requires Valid()
      ensures (State(), reply) == RunHget(State(), tokens, now)
    {
      hide Shards.Represents, FlatStore.Tidy, Apply;
      if |tokens| != 3 { return WrongArguments("hget"); }
      var value := store.Hget(tokens[1], tokens[2], now);
      if value.Some? { return Bulk(value.value); }
      return NULL;
    }

    method ExecuteHdel(tokens: seq<string>, now: int) returns (reply: string)
      requires Valid()
      modifies store.shards, store`contents, aof
      ensures Valid() && (State(), reply) == RunHdel(old(State()), tokens, now)
    {
      hide Shards.Represents, FlatStore.Tidy, Apply;
      if |tokens| != 3 { return WrongArguments("hdel"); }
      var removed := store.Hdel(tokens[1], tokens[2], now);
      if removed { AppendToLog(tokens); }
      return Integer(if removed then 1 else 0);
    }

    method ExecuteHexists(tokens: seq<string>, now: int) returns (reply: string)
      requires Valid()
      ensures (State(), reply) == RunHexists(State(), tokens, now)
    {
      hide Shards.Represents, FlatStore.Tidy, WithSlot, SlotOf;
      if |tokens| != 3 { return WrongArguments("hexists"); }
      var found := store.Hexists(tokens[1], tokens[2], now);
      return Integer(if found then 1 else 0);
    }

    method ExecuteHlen(tokens: seq<string>, now: int) returns (reply: string)
      requires Valid()
      ensures (State(), reply) == RunHlen(State(), tokens, now)
    {
      hide Shards.Represents, FlatStore.Tidy, Apply;
      if |tokens| != 2 { return WrongArguments("hlen"); }
      var n := store.Hlen(tokens[1], now);
      return Integer(Wrap64(n));
    }

    /** `pairs` are the fields in the order in which the hash table yielded them. */
    method ExecuteHgetall(tokens: seq<string>, now: int) returns (reply: string, pairs: FieldList)
      requires Valid()
      ensures |tokens| == 2 ==> Lists(pairs, SlotOf(store.contents, tokens[1]).Hash())
      ensures (State(), reply) == RunHgetall(State(), tokens, pairs)
    {
      hide Shards.Represents, FlatStore.Tidy, MapOf, SlotOf, WithSlot;
      if |tokens| != 2 { return WrongArguments("hgetall"), []; }
      pairs := store.Hgetall(tokens[1], now);
      var items: seq<string> := [];
      for i := 0 to |pairs|
        invariant items == Flattened(pairs[..i])
      {
        assert pairs[..i + 1][..i] == pairs[..i];
        items := items + [pairs[i].0, pairs[i].1];
      }
      assert pairs[..|pairs|] == pairs;
      reply := SerializeArray(items);
    }

    // ---- lists --------------------------------------------------------------

    method ExecutePush(tokens: seq<string>, front: bool, now: int) returns (reply: string)
      requires Valid()
      modifies store.shards, store`contents, aof
      ensures Valid() && (State(), reply) == RunPush(old(State()), tokens, front, now)
    {
      hide Shards.Represents, FlatStore.Tidy, Apply, PushAll;
      if |tokens| < 3 { return WrongArguments(if front then "lpush" else "rpush"); }
      var length := AofManager.PushValues(store, front, tokens[1], tokens[2..], now);
      AppendToLog(tokens);
      return Integer(Wrap64(length));
    }

    method ExecutePop(tokens: seq<string>, front: bool, now: int) returns (reply: string)
      requires Valid()
      modifies store.shards, store`contents, aof
      ensures Valid() && (State(), reply) == RunPop(old(State()), tokens, front, now)
    {
      hide Shards.Represents, FlatStore.Tidy, Apply;
      if |tokens| != 2 { return WrongArguments(if front then "lpop" else "rpop"); }
      var value: Option<string>;
      if front {
        value := store.Lpop(tokens[1], now);
      } else {
        value := store.Rpop(tokens[1], now);
      }
      if value.None? { return NULL; }
      AppendToLog(tokens);
      return Bulk(value.value);
    }

    method ExecuteLlen(tokens: seq<string>, now: int) returns (reply: string)
      requires Valid()
      ensures (State(), reply) == RunLlen(State(), tokens, now)
    {
      hide Shards.Represents, FlatStore.Tidy, Apply;
      if |tokens| != 2 { return WrongArguments("llen"); }
      var n := store.Llen(tokens[1], now);
      return Integer(Wrap64(n));
    }

    method ExecuteLrange(tokens: seq<string>, now: int) returns (reply: string)
      requires Valid()
      ensures (State(), reply) == RunLrange(State(), tokens, now)
    {
      hide Shards.Represents, FlatStore.Tidy, Apply, Stoll;
      if |tokens| != 4 { return WrongArguments("lrange"); }
      var start := Stoll(tokens[2]);
      if start.None? { return NOT_AN_INTEGER; }
      var stop := Stoll(tokens[3]);
      if stop.None? { return NOT_AN_INTEGER; }
      var items := store.Lrange(tokens[1], start.value, stop.value, now);
      reply := SerializeArray(items);
    }

    // ---- keys and the whole store ---------------------------------------------

    method ExecuteDel(tokens: seq<string>, now: int) returns (reply: string)
      requires Valid()
      modifies store.shards, store`contents, aof
      ensures Valid() && (State(), reply) == RunDel(old(State()), tokens, now)
    {
      hide Shards.Represents, FlatStore.Tidy, Apply, DelAll;
      if |tokens| < 2 { return WrongArguments("del"); }
      var removed := AofManager.DelKeys(store, tokens[1..], now);
      if removed > 0 { AppendToLog(tokens); }
      return Integer(Wrap64(removed));
    }

    method ExecuteExists(tokens: seq<string>, now: int) returns (reply: string)
      requires Valid()
      ensures (State(), reply) == RunExists(State(), tokens, now)
    {
      hide Shards.Represents, FlatStore.Tidy, Apply;
      if |tokens| != 2 { return WrongArguments("exists"); }
      var found := store.Exists(tokens[1], now);
      return Integer(if found then 1 else 0);
    }

    method ExecuteExpire(tokens: seq<string>, now: int) returns (reply: string)
      requires Valid()
      modifies store.shards, store`contents, aof
      ensures Valid() && (State(), reply) == RunExpire(old(State()), tokens, now)
    {
      hide Shards.Represents, FlatStore.Tidy, Apply, Stoll;
      if |tokens| != 3 { return WrongArguments("expire"); }
      var seconds := Stoll(tokens[2]);
      if seconds.None? { return NOT_AN_INTEGER; }
      var ok := store.Expire(tokens[1], seconds.value, now);
      if ok { AppendToLog(tokens); }
      return Integer(if ok then 1 else 0);
    }

    method ExecuteTtl(tokens: seq<string>, now: int) returns (reply: string)
      requires Valid()
      modifies store.shards, store`contents, aof
      ensures Valid() && (State(), reply) == RunTtl(old(State()), tokens, now)
    {
      hide Shards.Represents, FlatStore.Tidy, Apply;
      if |tokens| != 2 { return WrongArguments("ttl"); }
      var left := store.Ttl(tokens[1], now);
      return Integer(Wrap64(left));
    }

    method ExecuteBgrewriteaof(clock: Clock, info: string) returns (reply: string, ghost ch: Choice)
      requires Valid()
      modifies aof
      ensures Valid() && ch.clock == clock && ch.info == info
      ensures AllowedData(old(State()), BgrewriteaofV, [], ch)
      ensures (State(), reply) == RunBgrewriteaof(old(State()), ch.rewritten)
    {
      hide Shards.Represents, FlatStore.Tidy, IsRewrite;
      ch := Choice(clock, [], "", info);
      if aof != null && aof.enabled {
        var ok := aof.Rewrite(store, clock.at(0));
        ch := ch.(rewritten := aof.file);
        return SimpleString("Background append only file rewriting finished successfully"), ch;
      }
      return Error("AOF is not enabled"), ch;
    }
  }
}
