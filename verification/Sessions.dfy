/** Whole runs of requests, from any mix of clients, on one store and one log: when
    the log keeps up with the store, and that compacting it changes nothing. */
module Sessions {
  import opened Basics
  import opened Numerals
  import opened Wire
  import opened Resp
  import opened FlatStore
  import opened Snapshots
  import opened LogCodec
  import opened Replay
  import opened ReplayLaws
  import opened Compaction
  import opened Commands
  import opened Durability

  /** One call of `execute`: what was received, whether that client had authenticated,
      and what the environment contributed. */
  datatype Request = Request(raw: string, authenticated: bool, ch: Choice)

  function Serve(db: Db, password: string, r: Request): Db {
    Run(db, r.authenticated, password, r.raw, r.ch).db
  }

  function ServeAll(db: Db, password: string, requests: seq<Request>): Db {
    if requests == [] then db else
      var n := |requests| - 1;
      Serve(ServeAll(db, password, requests[..n]), password, requests[n])
  }

  /** The request gets as far as the store. */
  predicate Reaches(password: string, r: Request) {
    ParseRequest(r.raw) != [] && !Locked(r.authenticated, password)
  }

  function VerbIn(r: Request): Verb
    requires ParseRequest(r.raw) != []
  {
    VerbOf(ToUpper(ParseRequest(r.raw)[0]))
  }

  /** The request fits in memory (so does the store, if it is to be rewritten), and the
      environment behaves. */
  ghost predicate Admissible(db: Db, password: string, r: Request) {
    && |r.raw| <= MAX_SIZE
    && (Reaches(password, r) ==>
          && AllowedData(db, VerbIn(r), ParseRequest(r.raw), r.ch)
          && (VerbIn(r).BgrewriteaofV? ==> Storable(LiveData(db.store, r.ch.clock.at(0)))))
  }

  predicate Breaks(db: Db, password: string, r: Request) {
    Reaches(password, r) && BreaksReload(db.store, VerbIn(r), ParseRequest(r.raw))
  }

  /** The store that a restart makes of the log. */
  function Reload(db: Db, clock: Clock): Flat {
    if db.aof.Aof? then Load(db.aof.file, clock) else EMPTY
  }

  lemma DurableMeans(db: Db, clock: Clock)
    requires Durable(db, clock)
    ensures SameButStamps(Reload(db, clock), db.store) && SameButStamps(db.store, Reload(db, clock))
    ensures Enabled(db.aof)
  {
    SameBothWays(Reload(db, clock), db.store);
  }

  // ---- one request ------------------------------------------------------------------

  lemma StringStep(db: Db, v: Verb, tokens: seq<string>, ch: Choice, clock: Clock)
    requires Durable(db, clock) && InMemory(tokens) && tokens != [] && v == VerbOf(ToUpper(tokens[0]))
    requires IsStringCommand(v)
    ensures Durable(RunData(db, v, tokens, ch).0, clock) <==> !BreaksReload(db.store, v, tokens)
  {
    hide Durable, VerbOf, ToUpper, CounterChanges, Stoll, Assigned, StringAt, RunSet, RunSetex, RunMset, Incremented;
    hide GetAll, WrongArguments, OptionReply;
    var now := ch.clock.at(0);
    match v
    case SetV => SetDurable(db, tokens, now, clock);
    case SetexV => SetexDurable(db, tokens, now, clock);
    case GetV => if |tokens| == 2 { GetDurable(db, tokens[1], now, clock); }
    case MgetV => if |tokens| >= 2 { MgetDurable(db, tokens[1..], |tokens| - 1, ch.clock, clock); }
    case MsetV => MsetDurable(db, tokens, ch.clock, clock);
    case IncrV => if |tokens| == 2 { CounterDurable(db, tokens, 1, now, clock); }
    case DecrV => if |tokens| == 2 { CounterDurable(db, tokens, -1, now, clock); }
    case IncrbyV =>
      if |tokens| == 3 && Stoll(tokens[2]).Some? { CounterDurable(db, tokens, Stoll(tokens[2]).value, now, clock); }
  }

  lemma CollectionStep(db: Db, v: Verb, tokens: seq<string>, ch: Choice, clock: Clock)
    requires Durable(db, clock) && InMemory(tokens) && tokens != [] && v == VerbOf(ToUpper(tokens[0]))
    requires IsCollectionCommand(v)
    ensures Durable(RunData(db, v, tokens, ch).0, clock) <==> !BreaksReload(db.store, v, tokens)
  {
    hide Durable, VerbOf, ToUpper, Stoll, SlotOf, RunHset, RunHdel, RunPush, WrongArguments, OptionReply;
    var now := ch.clock.at(0);
    match v
    case HsetV => HsetDurable(db, tokens, now, clock);
    case HdelV => HdelDurable(db, tokens, now, clock);
    case LpushV => PushDurable(db, tokens, true, now, clock);
    case RpushV => PushDurable(db, tokens, false, now, clock);
    case LpopV => if |tokens| == 2 { PopDurable(db, tokens, true, now, clock); }
    case RpopV => if |tokens| == 2 { PopDurable(db, tokens, false, now, clock); }
    case _ =>
  }

  lemma DataStep(db: Db, v: Verb, tokens: seq<string>, ch: Choice, clock: Clock)
    requires Durable(db, clock) && InMemory(tokens) && tokens != [] && v == VerbOf(ToUpper(tokens[0]))
    requires AllowedData(db, v, tokens, ch)
    requires v.BgrewriteaofV? ==> Storable(LiveData(db.store, ch.clock.at(0)))
    ensures Durable(RunData(db, v, tokens, ch).0, clock) <==> !BreaksReload(db.store, v, tokens)
  {
    hide Reload, SameButStamps, Durable, VerbOf, ToUpper, Storable, IsRewrite, Stoll, SlotOf;
    hide RunDel, RunExpire, RunFlushdb, RunBgrewriteaof, Error, Integer, Bulk, Array;
    if IsStringCommand(v) {
      StringStep(db, v, tokens, ch, clock);
    } else if IsCollectionCommand(v) {
      CollectionStep(db, v, tokens, ch, clock);
    } else {
      OtherStep(db, v, tokens, ch, clock);
    }
  }

  lemma OtherStep(db: Db, v: Verb, tokens: seq<string>, ch: Choice, clock: Clock)
    requires Durable(db, clock) && InMemory(tokens) && tokens != [] && v == VerbOf(ToUpper(tokens[0]))
    requires AllowedData(db, v, tokens, ch) && !IsStringCommand(v) && !IsCollectionCommand(v)
    requires v.BgrewriteaofV? ==> Storable(LiveData(db.store, ch.clock.at(0)))
    ensures Durable(RunData(db, v, tokens, ch).0, clock) <==> !BreaksReload(db.store, v, tokens)
  {
    hide Reload, SameButStamps, Durable, VerbOf, ToUpper, Storable, IsRewrite, Stoll, SlotOf, Size;
    hide RunDel, RunExpire, RunFlushdb, RunBgrewriteaof, WrongArguments, Error, Integer, Bulk, Array;
    DurableMeans(db, clock);
    var now := ch.clock.at(0);
    match v
    case DelV => DelDurable(db, tokens, now, clock);
    case ExpireV => ExpireDurable(db, tokens, now, clock);
    case TtlV => if |tokens| == 2 { ReadDurable(db, Ttl(tokens[1]), now, clock); }
    case FlushdbV => FlushDurable(db, clock);
    case BgrewriteaofV => RewriteDurable(db, ch.rewritten, now, clock);
    case _ =>
  }

  /** Where the log loads into the live store, it does so after one more request, of any
      kind, if and only if that request is no write the loader does not repeat and
      leaves no deadline in the store. */
  lemma ServeIsDurableIff(db: Db, password: string, r: Request, clock: Clock)
    requires Durable(db, clock) && Admissible(db, password, r)
    ensures Durable(Serve(db, password, r), clock) <==> !Breaks(db, password, r)
  {
    hide Durable, ParseRequest, RunData, VerbOf, ToUpper, AllowedData, BreaksReload, Storable;
    ParsedInMemory(r.raw);
    var tokens := ParseRequest(r.raw);
    if Reaches(password, r) {
      var v := VerbIn(r);
      DataStep(db, v, tokens, r.ch, clock);
      if v.AuthV? || v.PingV? || v.QuitV? { SessionCommands(db.store, v, tokens); }
    }
  }

  lemma SessionCommands(f: Flat, v: Verb, tokens: seq<string>)
    requires tokens != [] && (v.AuthV? || v.PingV? || v.QuitV?)
    ensures !BreaksReload(f, v, tokens)
  {
  }

  // ---- whole runs --------------------------------------------------------------------

  const FRESH := Db(EMPTY, Aof(true, true, ""))

  lemma FreshIsDurable(clock: Clock)
    ensures Durable(FRESH, clock)
  {
    EmptyIsPlain();
    assert GoodRecords([]) && Arrays([]) == "";
    RecordsOfLog([]);
  }

  ghost predicate AllAdmissible(db: Db, password: string, requests: seq<Request>) {
    requests == [] ||
    var n := |requests| - 1;
    && AllAdmissible(db, password, requests[..n])
    && Admissible(ServeAll(db, password, requests[..n]), password, requests[n])
  }

  predicate NoneBreaks(db: Db, password: string, requests: seq<Request>) {
    requests == [] ||
    var n := |requests| - 1;
    && NoneBreaks(db, password, requests[..n])
    && !Breaks(ServeAll(db, password, requests[..n]), password, requests[n])
  }

  /** Before, between and after the requests, the log loads into the live store. */
  ghost predicate DurableThroughout(db: Db, password: string, requests: seq<Request>, clock: Clock) {
    && Durable(ServeAll(db, password, requests), clock)
    && (requests != [] ==> DurableThroughout(db, password, requests[..|requests| - 1], clock))
  }

  /** Replay equals live state, and exactly when: along a run from an empty store and
      log, the log loads into the live store throughout if and only if no request of
      the run is one of those. */
  lemma {:induction false} DurableThroughoutIff(db: Db, password: string, requests: seq<Request>, clock: Clock)
    requires Durable(db, clock) && AllAdmissible(db, password, requests)
    ensures DurableThroughout(db, password, requests, clock) <==> NoneBreaks(db, password, requests)
    decreases |requests|
  {
    hide Durable, Serve, Admissible, Breaks;
    if requests != [] {
      var n := |requests| - 1;
      var before := ServeAll(db, password, requests[..n]);
      DurableThroughoutIff(db, password, requests[..n], clock);
      if DurableThroughout(db, password, requests[..n], clock) {
        ServeIsDurableIff(before, password, requests[n], clock);
      }
    }
  }

  lemma ReplayEqualsLiveIff(requests: seq<Request>, password: string, clock: Clock)
    requires AllAdmissible(FRESH, password, requests)
    ensures DurableThroughout(FRESH, password, requests, clock) <==> NoneBreaks(FRESH, password, requests)
  {
    hide AllAdmissible, NoneBreaks, DurableThroughout, Durable;
    FreshIsDurable(clock);
    DurableThroughoutIff(FRESH, password, requests, clock);
  }

  lemma RunIsDurable(db: Db, password: string, requests: seq<Request>, clock: Clock)
    requires Durable(db, clock) && AllAdmissible(db, password, requests) && NoneBreaks(db, password, requests)
    ensures Durable(ServeAll(db, password, requests), clock)
  {
    hide Durable, AllAdmissible, NoneBreaks, ServeAll;
    DurableThroughoutIff(db, password, requests, clock);
  }

  /** What a client sees after a restart: the same strings, hashes and lists. */
  lemma RestartKeepsData(requests: seq<Request>, password: string, clock: Clock, now: int)
    requires AllAdmissible(FRESH, password, requests) && NoneBreaks(FRESH, password, requests)
    ensures var db := ServeAll(FRESH, password, requests);
            LiveData(Reload(db, clock), now) == LiveData(db.store, now)
  {
    hide AllAdmissible, NoneBreaks, Durable, ServeAll, Reload, SameButStamps;
    FreshIsDurable(clock);
    RunIsDurable(FRESH, password, requests, clock);
    var db := ServeAll(FRESH, password, requests);
    DurableMeans(db, clock);
    SameData(Reload(db, clock), db.store, now);
  }

  lemma SameData(f: Flat, g: Flat, now: int)
    requires SameButStamps(f, g)
    ensures LiveData(f, now) == LiveData(g, now)
  {
    forall k
      ensures k in LiveValues(f.strings, now) <==> k in LiveValues(g.strings, now)
      ensures k in LiveValues(f.strings, now) ==> LiveValues(f.strings, now)[k] == LiveValues(g.strings, now)[k]
      ensures k in f.hashes <==> k in g.hashes
      ensures k in f.hashes ==> f.hashes[k] == g.hashes[k]
      ensures k in f.lists <==> k in g.lists
      ensures k in f.lists ==> f.lists[k] == g.lists[k]
    {
      assert Unstamped(SlotOf(f, k)) == Unstamped(SlotOf(g, k));
    }
    assert f.hashes == g.hashes && f.lists == g.lists;
    assert LiveValues(f.strings, now) == LiveValues(g.strings, now);
  }

  // ---- compaction at any point of a run ------------------------------------------------

  /** The compacted log in place of the old one, the same later records after it: both
      load into the same data. */
  lemma CompactionSwapsLogs(db: Db, rewritten: string, now: int, later: seq<seq<string>>, clock: Clock)
    requires Durable(db, clock) && Storable(LiveData(db.store, now)) && IsRewrite(rewritten, db.store, now)
    requires GoodRecords(later)
    ensures SameButStamps(Load(rewritten + Arrays(later), clock), Load(db.aof.file + Arrays(later), clock))
  {
    hide IsRewrite, Storable, SameButStamps, GoodRecord, Load, Tidy, NoDeadlines, Arrays, Holds;
    CompactedLogLoads(rewritten, db.store, now, clock);
    HoldsIsSame(Load(rewritten, clock), db.store, now);
    SameBothWays(Load(db.aof.file, clock), db.store);
    var a :| GoodRecords(a) && rewritten == Arrays(a);
    var b :| GoodRecords(b) && db.aof.file == Arrays(b);
    SameBothWays(Load(rewritten, clock), db.store);
    LoadLonger(a, later, clock);
    LoadLonger(b, later, clock);
    var f := db.store;
    AllGood(later);
    ReplayIgnoresStamps(f, Load(rewritten, clock), later, clock, 0, clock, |a|);
    ReplayIgnoresStamps(f, Load(db.aof.file, clock), later, clock, 0, clock, |b|);
    var r := ReplayAll(f, later, clock, 0);
    SameBothWays(r, Load(rewritten + Arrays(later), clock));
    SameThrough(Load(rewritten + Arrays(later), clock), r, Load(db.aof.file + Arrays(later), clock));
  }

  lemma AllGood(records: seq<seq<string>>)
    requires GoodRecords(records)
    ensures AllWritable(records) && AllDeadlineFree(records)
  {
    hide Writable, DeadlineFree;
  }

  lemma LoadLonger(a: seq<seq<string>>, b: seq<seq<string>>, clock: Clock)
    requires GoodRecords(a) && GoodRecords(b)
    ensures Load(Arrays(a) + Arrays(b), clock) == ReplayAll(Load(Arrays(a), clock), b, clock, |a|)
  {
    hide GoodRecord, Arrays, ReplayAll, Records;
    GoodConcat(a, b);
    AllGood(a);
    AllGood(a + b);
    RecordsOfLog(a);
    RecordsOfLog(a + b);
    ArraysConcat(a, b);
    ReplayConcat(EMPTY, a, b, clock, 0);
  }

  /** The store is served the same whatever the log holds. */
  lemma DataIgnoresLog(c: Db, d: Db, v: Verb, tokens: seq<string>, ch: Choice)
    requires c.store == d.store && Enabled(c.aof) && Enabled(d.aof) && tokens != []
    ensures var (p, q) := (RunData(c, v, tokens, ch).0, RunData(d, v, tokens, ch).0);
            p.store == q.store && Enabled(p.aof) && Enabled(q.aof)
  {
    hide Stoll, Apply, DelAll, PushAll, GetAll, SetAll, HasExpiry, Array, Bulk, Integer, Error, SimpleString, Flattened;
    hide Appended, WrongArguments, OptionReply, BoolReply, Size, FlagOf, TextOf, CountOf, ItemsOf;
    if IsStringCommand(v) {
      StringsIgnoreLog(c, d, v, tokens, ch);
    } else if IsCollectionCommand(v) {
      CollectionsIgnoreLog(c, d, v, tokens, ch);
    }
  }

  lemma StringsIgnoreLog(c: Db, d: Db, v: Verb, tokens: seq<string>, ch: Choice)
    requires c.store == d.store && Enabled(c.aof) && Enabled(d.aof) && tokens != [] && IsStringCommand(v)
    ensures var (p, q) := (RunData(c, v, tokens, ch).0, RunData(d, v, tokens, ch).0);
            p.store == q.store && Enabled(p.aof) && Enabled(q.aof)
  {
    hide Stoll, Apply, GetAll, SetAll, HasExpiry, Integer, Appended, WrongArguments, OptionReply, TextOf;
  }

  lemma CollectionsIgnoreLog(c: Db, d: Db, v: Verb, tokens: seq<string>, ch: Choice)
    requires c.store == d.store && Enabled(c.aof) && Enabled(d.aof) && tokens != [] && IsCollectionCommand(v)
    ensures var (p, q) := (RunData(c, v, tokens, ch).0, RunData(d, v, tokens, ch).0);
            p.store == q.store && Enabled(p.aof) && Enabled(q.aof)
  {
    hide Stoll, Apply, PushAll, Integer, Appended, WrongArguments, OptionReply, BoolReply, Array;
    hide FlagOf, TextOf, CountOf;
  }

  lemma ServeIgnoresLog(c: Db, d: Db, password: string, r: Request)
    requires c.store == d.store && Enabled(c.aof) && Enabled(d.aof)
    ensures Serve(c, password, r).store == Serve(d, password, r).store
    ensures Enabled(Serve(c, password, r).aof) && Enabled(Serve(d, password, r).aof)
    ensures Admissible(c, password, r) <==> Admissible(d, password, r)
    ensures Breaks(c, password, r) <==> Breaks(d, password, r)
  {
    hide ParseRequest, VerbOf, ToUpper, IsRewrite, Lists, Storable, BreaksReload, RunData, LiveData;
    if Reaches(password, r) {
      DataIgnoresLog(c, d, VerbIn(r), ParseRequest(r.raw), r.ch);
    }
  }

  lemma {:induction false} RunIgnoresLog(c: Db, d: Db, password: string, requests: seq<Request>)
    requires c.store == d.store && Enabled(c.aof) && Enabled(d.aof)
    requires AllAdmissible(c, password, requests) && NoneBreaks(c, password, requests)
    ensures ServeAll(c, password, requests).store == ServeAll(d, password, requests).store
    ensures Enabled(ServeAll(c, password, requests).aof) && Enabled(ServeAll(d, password, requests).aof)
    ensures AllAdmissible(d, password, requests) && NoneBreaks(d, password, requests)
    decreases |requests|
  {
    hide Serve, Admissible, Breaks, Enabled;
    if requests != [] {
      var n := |requests| - 1;
      RunIgnoresLog(c, d, password, requests[..n]);
      var (p, q) := (ServeAll(c, password, requests[..n]), ServeAll(d, password, requests[..n]));
      ServeIgnoresLog(p, q, password, requests[n]);
    }
  }

  /** Compaction preserves meaning over whole runs: compact at any point, or do not;
      after the same later requests the store is the same and both logs load into it. */
  lemma CompactionAnywhere(before: seq<Request>, rewritten: string, now: int, after: seq<Request>,
                           password: string, clock: Clock)
    requires AllAdmissible(FRESH, password, before) && NoneBreaks(FRESH, password, before)
    requires var db := ServeAll(FRESH, password, before);
             && Storable(LiveData(db.store, now)) && IsRewrite(rewritten, db.store, now)
             && AllAdmissible(db, password, after) && NoneBreaks(db, password, after)
    ensures var db := ServeAll(FRESH, password, before);
            var kept := ServeAll(db, password, after);
            var compacted := ServeAll(RunBgrewriteaof(db, rewritten).0, password, after);
            && compacted.store == kept.store
            && SameButStamps(Reload(compacted, clock), kept.store)
            && SameButStamps(Reload(compacted, clock), Reload(kept, clock))
  {
    hide AllAdmissible, NoneBreaks, ServeAll, IsRewrite, Storable, Reload, SameButStamps, Durable, RunBgrewriteaof;
    var db := ServeAll(FRESH, password, before);
    var c := RunBgrewriteaof(db, rewritten).0;
    var kept, compacted := ServeAll(db, password, after), ServeAll(c, password, after);
    FreshIsDurable(clock);
    RunIsDurable(FRESH, password, before, clock);
    DurableMeans(db, clock);
    RewriteDurable(db, rewritten, now, clock);
    DurableMeans(c, clock);
    RewriteKeepsStore(db, rewritten);
    RunIgnoresLog(db, c, password, after);
    RunIsDurable(db, password, after, clock);
    DurableMeans(kept, clock);
    RunIsDurable(c, password, after, clock);
    DurableMeans(compacted, clock);
    SameThrough(Reload(compacted, clock), kept.store, Reload(kept, clock));
  }

  lemma RewriteKeepsStore(db: Db, rewritten: string)
    ensures RunBgrewriteaof(db, rewritten).0.store == db.store
  {
  }

  // ---- the writes that a restart loses, and the deadlines -----------------------------

  /** A request in plain text. */
  function Plainly(tokens: seq<string>, ch: Choice): Request {
    Request(Spaced(tokens), true, ch)
  }

  /** Words that a plain-text line of at most 10 * |tokens| + 1 bytes can carry. */
  predicate Typable(tokens: seq<string>) {
    && tokens != [] && |tokens| <= 10 && tokens[0] != "" && tokens[0][0] != '*'
    && forall i :: 0 <= i < |tokens| ==> Bare(tokens[i]) && |tokens[i]| <= 9
  }

  lemma {:induction false} TypableIsShort(tokens: seq<string>)
    requires forall i :: 0 <= i < |tokens| ==> |tokens[i]| <= 9
    ensures |Spaced(tokens)| <= 10 * |tokens| + 1
  {
    if |tokens| > 1 { TypableIsShort(tokens[1..]); }
  }

  /** Such a line is read as those words: the request is admissible unless it depends on
      the environment, and what it breaks is said by its words. */
  lemma Typed(db: Db, v: Verb, tokens: seq<string>, ch: Choice, clock: Clock)
    requires Durable(db, clock) && Typable(tokens) && v == VerbOf(ToUpper(tokens[0]))
    requires !v.HgetallV? && !v.BgrewriteaofV?
    ensures Admissible(db, "", Plainly(tokens, ch))
    ensures Durable(Serve(db, "", Plainly(tokens, ch)), clock) <==> !BreaksReload(db.store, v, tokens)
  {
    hide Durable, BreaksReload, Serve, VerbOf, ToUpper, Spaced, ParseRequest, Bare;
    PlainTextRoundTrip(tokens);
    TypableIsShort(tokens);
    ServeIsDurableIff(db, "", Plainly(tokens, ch), clock);
  }

  /** One request of each family, from an empty store and log: what it wrote is lost, or
      the deadline it set is. */
  lemma LostWrites(ch: Choice, clock: Clock)
    ensures !Durable(Serve(FRESH, "", Plainly(["MSET", "a", "1"], ch)), clock)
    ensures !Durable(Serve(FRESH, "", Plainly(["INCR", "n"], ch)), clock)
    ensures !Durable(Serve(FRESH, "", Plainly(["DECR", "n"], ch)), clock)
    ensures !Durable(Serve(FRESH, "", Plainly(["INCRBY", "n", "5"], ch)), clock)
    ensures !Durable(Serve(FRESH, "", Plainly(["set", "a", "1"], ch)), clock)
    ensures !Durable(Serve(FRESH, "", Plainly(["SETEX", "a", "5", "1"], ch)), clock)
  {
    hide Durable, Serve, BreaksReload, VerbOf, ToUpper, Typable, Plainly, FRESH;
    FreshIsDurable(clock);
    MsetBreaks(["MSET", "a", "1"]);
    IncrBreaks(["INCR", "n"]);
    DecrBreaks(["DECR", "n"]);
    IncrbyBreaks(["INCRBY", "n", "5"]);
    LowerSetBreaks(["set", "a", "1"]);
    SetexBreaks(["SETEX", "a", "5", "1"]);
    Typed(FRESH, MsetV, ["MSET", "a", "1"], ch, clock);
    Typed(FRESH, IncrV, ["INCR", "n"], ch, clock);
    Typed(FRESH, DecrV, ["DECR", "n"], ch, clock);
    Typed(FRESH, IncrbyV, ["INCRBY", "n", "5"], ch, clock);
    Typed(FRESH, SetV, ["set", "a", "1"], ch, clock);
    Typed(FRESH, SetexV, ["SETEX", "a", "5", "1"], ch, clock);
  }

  /** A pop in a run: RPUSH and LPOP (or RPOP) of the same list. */
  lemma LostPops(a: Choice, b: Choice, clock: Clock)
    ensures var db := Serve(FRESH, "", Plainly(["RPUSH", "l", "x"], a));
            && Durable(db, clock)
            && !Durable(Serve(db, "", Plainly(["LPOP", "l"], b)), clock)
            && !Durable(Serve(db, "", Plainly(["RPOP", "l"], b)), clock)
  {
    hide Durable, Serve, BreaksReload, VerbOf, ToUpper, Typable, Plainly, FRESH;
    var r := Plainly(["RPUSH", "l", "x"], a);
    FreshIsDurable(clock);
    RpushIsRepeated(["RPUSH", "l", "x"]);
    Typed(FRESH, RpushV, ["RPUSH", "l", "x"], a, clock);
    RpushLeaves(r, a);
    var db := Serve(FRESH, "", r);
    LpopBreaks(db.store, ["LPOP", "l"]);
    RpopBreaks(db.store, ["RPOP", "l"]);
    Typed(db, LpopV, ["LPOP", "l"], b, clock);
    Typed(db, RpopV, ["RPOP", "l"], b, clock);
  }

  lemma RpushLeaves(r: Request, ch: Choice)
    requires r == Plainly(["RPUSH", "l", "x"], ch)
    ensures SlotOf(Serve(FRESH, "", r).store, "l").List() != []
  {
    hide ParseRequest, ToUpper, VerbOf, Spaced, PushAll, SlotOf, Appended;
    var tokens := ["RPUSH", "l", "x"];
    RpushIsRead(r, ch);
    PushLength(EMPTY, false, "l", tokens[2..], 1, ch.clock.at(0));
  }

  lemma RpushIsRead(r: Request, ch: Choice)
    requires r == Plainly(["RPUSH", "l", "x"], ch)
    ensures ParseRequest(r.raw) == ["RPUSH", "l", "x"] && r.ch == ch
    ensures VerbIn(r) == RpushV && ToUpper("RPUSH") == "RPUSH"
  {
    var tokens := ["RPUSH", "l", "x"];
    PlainTextRoundTrip(tokens);
    WriteNamesAreUpper();
    hide ParseRequest, VerbOf, Spaced;
  }

  lemma RpushIsRepeated(tokens: seq<string>)
    requires tokens == ["RPUSH", "l", "x"]
    ensures Typable(tokens) && VerbOf(ToUpper(tokens[0])) == RpushV && !BreaksReload(FRESH.store, RpushV, tokens)
  {
    WriteNamesAreUpper();
  }

  lemma LpopBreaks(f: Flat, tokens: seq<string>)
    requires SlotOf(f, "l").List() != [] && tokens == ["LPOP", "l"]
    ensures Typable(tokens) && VerbOf(ToUpper(tokens[0])) == LpopV && BreaksReload(f, LpopV, tokens)
  {
    assert ToUpper("LPOP") == "LPOP";
    hide SlotOf;
  }

  lemma RpopBreaks(f: Flat, tokens: seq<string>)
    requires SlotOf(f, "l").List() != [] && tokens == ["RPOP", "l"]
    ensures Typable(tokens) && VerbOf(ToUpper(tokens[0])) == RpopV && BreaksReload(f, RpopV, tokens)
  {
    assert ToUpper("RPOP") == "RPOP";
    hide SlotOf;
  }

  lemma MsetBreaks(tokens: seq<string>)
    requires tokens == ["MSET", "a", "1"]
    ensures Typable(tokens) && VerbOf(ToUpper(tokens[0])) == MsetV && BreaksReload(FRESH.store, MsetV, tokens)
  {
    assert tokens[1..] == ["a", "1"] && ToUpper("MSET") == "MSET";
    assert Assigned(tokens[1..], 1) == map["a" := "1"] by { assert Assigned(tokens[1..], 0) == map[]; }
    assert "a" in Assigned(tokens[1..], (|tokens| - 1) / 2);
  }

  lemma IncrBreaks(tokens: seq<string>)
    requires tokens == ["INCR", "n"]
    ensures Typable(tokens) && VerbOf(ToUpper(tokens[0])) == IncrV && BreaksReload(FRESH.store, IncrV, tokens)
  {
    assert ToUpper("INCR") == "INCR";
  }

  lemma DecrBreaks(tokens: seq<string>)
    requires tokens == ["DECR", "n"]
    ensures Typable(tokens) && VerbOf(ToUpper(tokens[0])) == DecrV && BreaksReload(FRESH.store, DecrV, tokens)
  {
    assert ToUpper("DECR") == "DECR";
  }

  lemma IncrbyBreaks(tokens: seq<string>)
    requires tokens == ["INCRBY", "n", "5"]
    ensures Typable(tokens) && VerbOf(ToUpper(tokens[0])) == IncrbyV && BreaksReload(FRESH.store, IncrbyV, tokens)
  {
    assert ToUpper("INCRBY") == "INCRBY";
    FiveIsFive();
    hide Stoll;
  }

  lemma LowerSetBreaks(tokens: seq<string>)
    requires tokens == ["set", "a", "1"]
    ensures Typable(tokens) && VerbOf(ToUpper(tokens[0])) == SetV && BreaksReload(FRESH.store, SetV, tokens)
  {
    assert ToUpper("set") == "SET";
  }

  lemma SetexBreaks(tokens: seq<string>)
    requires tokens == ["SETEX", "a", "5", "1"]
    ensures Typable(tokens) && VerbOf(ToUpper(tokens[0])) == SetexV && BreaksReload(FRESH.store, SetexV, tokens)
  {
    assert ToUpper("SETEX") == "SETEX";
    FiveIsFive();
    hide Stoll;
  }

  lemma FiveIsFive()
    ensures Stoll("5") == Some(5)
  {
    assert DecimalInt(5) == "5";
    StollOfDecimalInt(5);
  }

  /** The same at the level of requests: after SET in plain text the log loads into the
      live store; after INCR it no longer does. */
  lemma CounterIsLost(a: Choice, b: Choice, clock: Clock)
    ensures var first, second := Request(Spaced(["SET", "a", "1"]), true, a), Request(Spaced(["INCR", "a"]), true, b);
            && AllAdmissible(FRESH, "", [first, second])
            && Durable(ServeAll(FRESH, "", [first]), clock)
            && !Durable(ServeAll(FRESH, "", [first, second]), clock)
  {
    hide Durable, Serve, ServeAll, AllAdmissible, Admissible, Breaks, Spaced;
    var first, second := Request(Spaced(["SET", "a", "1"]), true, a), Request(Spaced(["INCR", "a"]), true, b);
    TwoRequests(FRESH, first, second);
    FreshIsDurable(clock);
    PlainSet(FRESH, first);
    ServeIsDurableIff(FRESH, "", first, clock);
    PlainIncr(Serve(FRESH, "", first), second);
    ServeIsDurableIff(Serve(FRESH, "", first), "", second, clock);
  }

  lemma PlainSet(db: Db, r: Request)
    requires r.raw == Spaced(["SET", "a", "1"])
    ensures Admissible(db, "", r) && !Breaks(db, "", r)
    ensures StringAt(Serve(db, "", r).store, "a") == Some("1")
  {
    var tokens := ["SET", "a", "1"];
    assert |r.raw| == 8;
    PlainTextRoundTrip(tokens);
    WriteNamesAreUpper();
    hide Spaced, ParseRequest, ToUpper, Stoll, Appended;
    assert VerbIn(r) == SetV;
  }

  lemma PlainIncr(db: Db, r: Request)
    requires r.raw == Spaced(["INCR", "a"]) && StringAt(db.store, "a") == Some("1")
    ensures Admissible(db, "", r) && Breaks(db, "", r)
  {
    var tokens := ["INCR", "a"];
    assert |r.raw| == 7;
    PlainTextRoundTrip(tokens);
    assert ToUpper("INCR") == "INCR";
    OneIsNotTwo();
    hide Spaced, ParseRequest, ToUpper, Stoll, DecimalInt;
    assert VerbIn(r) == IncrV;
  }

  lemma TwoRequests(db: Db, r: Request, q: Request)
    ensures ServeAll(db, "", [r]) == Serve(db, "", r)
    ensures ServeAll(db, "", [r, q]) == Serve(Serve(db, "", r), "", q)
    ensures AllAdmissible(db, "", [r, q]) <==> Admissible(db, "", r) && Admissible(Serve(db, "", r), "", q)
  {
    assert [r, q][..1] == [r] && [r][..0] == [];
    assert ServeAll(db, "", []) == db && AllAdmissible(db, "", []);
    hide Serve, Admissible;
  }

  lemma OneIsNotTwo()
    ensures Stoll("1") == Some(1) && DecimalInt(Wrap64(1 + 1)) != "1"
  {
    assert DecimalInt(1) == "1" && DecimalInt(2) == "2";
    StollOfDecimalInt(1);
  }

  function DeadlineAt(f: Flat, key: string): Option<int> {
    if key in f.strings then f.strings[key].expires else None
  }

  /** SET with a positive EX: the live string has a deadline; the reloaded one is
      there, and never expires. */
  lemma ExpiryIsDropped(db: Db, tokens: seq<string>, now: int, clock: Clock)
    requires Durable(db, clock) && InMemory(tokens) && |tokens| >= 3 && tokens[0] == "SET"
    requires HasExpiry(tokens) && Positive(tokens[4])
    ensures var next := RunSet(db, tokens, now).0;
            var loaded := Reload(next, clock);
            && DeadlineAt(next.store, tokens[1]).Some?
            && StringAt(loaded, tokens[1]) == Some(tokens[2])
            && DeadlineAt(loaded, tokens[1]).None?
  {
    hide Stoll, ToUpper, GoodRecords, Arrays, Array, Load, Plain, SameButStamps;
    assert GoodRecord(tokens);
    LoadAppended(db.aof.file, tokens, clock);
  }

  /** SETEX with positive seconds is logged as SET with EX: the same happens. */
  lemma SetexExpiryIsDropped(db: Db, tokens: seq<string>, now: int, clock: Clock)
    requires Durable(db, clock) && InMemory(tokens) && |tokens| == 4 && Positive(tokens[2])
    ensures var next := RunSetex(db, tokens, now).0;
            var loaded := Reload(next, clock);
            && DeadlineAt(next.store, tokens[1]).Some?
            && StringAt(loaded, tokens[1]) == Some(tokens[3])
            && DeadlineAt(loaded, tokens[1]).None?
  {
    hide Stoll, ToUpper, GoodRecords, Arrays, Array, Load, Plain, SameButStamps;
    var record := ["SET", tokens[1], tokens[3], "EX", tokens[2]];
    assert GoodRecord(record);
    LoadAppended(db.aof.file, record, clock);
  }

  /** EXPIRE with positive seconds on a live string: the reloaded deadline counts from
      the time of the load. */
  lemma ExpiryRestarts(db: Db, tokens: seq<string>, now: int, clock: Clock)
    requires Durable(db, clock) && InMemory(tokens) && |tokens| == 3 && tokens[0] == "EXPIRE"
    requires Positive(tokens[2]) && tokens[1] in db.store.strings
    ensures var seconds := Stoll(tokens[2]).value;
            var records := Records(db.aof.file);
            && DeadlineAt(RunExpire(db, tokens, now).0.store, tokens[1]) == Some(now + seconds * SECOND)
            && DeadlineAt(ReplayAll(EMPTY, records + [tokens], clock, 0), tokens[1])
               == Some(clock.at(|records|) + seconds * SECOND)
  {
    hide Durable, Load, Stoll, Records, ReplayAll, ReplayOne, Apply, Appended;
    DurableMeans(db, clock);
    var loaded, key, seconds := Load(db.aof.file, clock), tokens[1], Stoll(tokens[2]).value;
    SameString(db, key, clock);
    LoadIsReplay(db.aof.file, clock);
    ReplaySnoc(EMPTY, Records(db.aof.file), tokens, clock, 0);
    ExpireInLog(loaded, tokens, clock.at(|Records(db.aof.file)|));
    ExpireSets(db.store, key, seconds, now);
    ExpireSets(loaded, key, seconds, clock.at(|Records(db.aof.file)|));
  }

  lemma LoadIsReplay(file: string, clock: Clock)
    ensures Load(file, clock) == ReplayAll(EMPTY, Records(file), clock, 0)
  {
  }

  lemma SameString(db: Db, key: string, clock: Clock)
    requires Durable(db, clock) && key in db.store.strings
    ensures db.aof.Aof?
    ensures var loaded := Load(db.aof.file, clock); key in loaded.strings && loaded.strings[key].expires.None?
    ensures db.store.strings[key].expires.None?
  {
    hide Load, Tidy, GoodRecords;
    assert Unstamped(SlotOf(Load(db.aof.file, clock), key)) == Unstamped(SlotOf(db.store, key));
    assert NoDeadline(SlotOf(db.store, key));
  }

  lemma ExpireInLog(f: Flat, tokens: seq<string>, now: int)
    requires |tokens| == 3 && tokens[0] == "EXPIRE" && Stoll(tokens[2]).Some?
    ensures ReplayOne(f, tokens, now) == Apply(f, Expire(tokens[1], Stoll(tokens[2]).value), now).0
  {
    hide Apply, Stoll;
    assert VerbOf(tokens[0]) == ExpireV;
  }

  lemma ExpireSets(f: Flat, key: string, seconds: int, now: int)
    requires key in f.strings && f.strings[key].expires.None? && seconds > 0
    ensures var (g, answer) := Apply(f, Expire(key, seconds), now);
            key in g.strings && g.strings[key].expires == Some(now + seconds * SECOND) && answer == Flag(true)
  {
  }
}
