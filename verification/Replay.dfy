/** What the log means: the interpreter that replays one command of it, the loader's
    fold over all of them, and the records a compaction writes (src/AofManager.cpp). */
module Replay {
  import opened Basics
  import opened Numerals
  import opened Wire
  import opened FlatStore
  import opened Snapshots
  import LogCodec

  /** A steady clock: the time of its n-th sample. */
  datatype Clock = Clock(at: nat -> int)

  /** Its first n + 1 samples never step back. */
  predicate Monotone(clock: Clock, n: nat) {
    forall i, j :: 0 <= i <= j <= n ==> clock.at(i) <= clock.at(j)
  }

  // ---- command names --------------------------------------------------------

  datatype Verb =
    | AuthV | PingV | SetV | SetexV | GetV | MgetV | MsetV | IncrV | DecrV | IncrbyV
    | HsetV | HgetV | HdelV | HexistsV | HlenV | HgetallV
    | LpushV | RpushV | LpopV | RpopV | LlenV | LrangeV
    | DelV | ExistsV | ExpireV | TtlV | DbsizeV | FlushdbV | BgrewriteaofV | InfoV | QuitV
    | UnknownV

  function VerbOf(name: string): Verb {
    if name == "AUTH" then AuthV else if name == "PING" then PingV
    else if name == "SET" then SetV else if name == "SETEX" then SetexV
    else if name == "GET" then GetV else if name == "MGET" then MgetV
    else if name == "MSET" then MsetV else if name == "INCR" then IncrV
    else if name == "DECR" then DecrV else if name == "INCRBY" then IncrbyV
    else if name == "HSET" then HsetV else if name == "HGET" then HgetV
    else if name == "HDEL" then HdelV else if name == "HEXISTS" then HexistsV
    else if name == "HLEN" then HlenV else if name == "HGETALL" then HgetallV
    else if name == "LPUSH" then LpushV else if name == "RPUSH" then RpushV
    else if name == "LPOP" then LpopV else if name == "RPOP" then RpopV
    else if name == "LLEN" then LlenV else if name == "LRANGE" then LrangeV
    else if name == "DEL" then DelV else if name == "EXISTS" then ExistsV
    else if name == "EXPIRE" then ExpireV else if name == "TTL" then TtlV
    else if name == "DBSIZE" then DbsizeV else if name == "FLUSHDB" then FlushdbV
    else if name == "BGREWRITEAOF" then BgrewriteaofV else if name == "INFO" then InfoV
    else if name == "QUIT" then QuitV else UnknownV
  }

  // ---- commands with several arguments ----------------------------------------

  /** `del` on the first `n` keys: the store, and how many were removed. */
  function DelAll(f: Flat, keys: seq<string>, n: nat, now: int): (Flat, nat)
    requires n <= |keys|
  {
    if n == 0 then (f, 0) else
      var (g, removed) := DelAll(f, keys, n - 1, now);
      var (h, answer) := Apply(g, Del(keys[n - 1]), now);
      (h, removed + if answer == Flag(true) then 1 else 0)
  }

  function PushOp(front: bool, key: string, value: string): Op {
    if front then Lpush(key, value) else Rpush(key, value)
  }

  /** `lpush` or `rpush` of the first `n` values: the store, and the last length. */
  function PushAll(f: Flat, front: bool, key: string, values: seq<string>, n: nat, now: int): (Flat, int)
    requires n <= |values|
  {
    if n == 0 then (f, 0) else
      var (h, answer) := Apply(PushAll(f, front, key, values, n - 1, now).0, PushOp(front, key, values[n - 1]), now);
      (h, if answer.Count? then answer.count else 0)
  }

  // ---- the loader's interpreter -------------------------------------------------

  /** One command of the log. Anything but these eight names, in upper case and with
      enough arguments, leaves the store alone. An empty command (the header `*0`,
      never written) is undefined in C++; here it is one of those others. */
  function ReplayOne(f: Flat, cmd: seq<string>, now: int): Flat {
    if cmd == [] then f else
      match VerbOf(cmd[0])
      case SetV => if |cmd| >= 3 then Apply(f, Set(cmd[1], cmd[2], None), now).0 else f
      case DelV => if |cmd| >= 2 then DelAll(f, cmd[1..], |cmd| - 1, now).0 else f
      case ExpireV =>
        if |cmd| >= 3 && Stoll(cmd[2]).Some? then Apply(f, Expire(cmd[1], Stoll(cmd[2]).value), now).0 else f
      case HsetV => if |cmd| >= 4 then Apply(f, Hset(cmd[1], cmd[2], cmd[3]), now).0 else f
      case HdelV => if |cmd| >= 3 then Apply(f, Hdel(cmd[1], cmd[2]), now).0 else f
      case LpushV => if |cmd| >= 3 then PushAll(f, true, cmd[1], cmd[2..], |cmd| - 2, now).0 else f
      case RpushV => if |cmd| >= 3 then PushAll(f, false, cmd[1], cmd[2..], |cmd| - 2, now).0 else f
      case FlushdbV => EMPTY
      case _ => f
  }

  /** The one exception the interpreter can meet: EXPIRE with a malformed number.
      It is caught, and the command is not counted as replayed. */
  predicate Throws(cmd: seq<string>) {
    cmd != [] && VerbOf(cmd[0]).ExpireV? && |cmd| >= 3 && Stoll(cmd[2]).None?
  }

  /** Commands in order; the i-th takes the clock's sample number base + i. */
  function ReplayAll(f: Flat, cmds: seq<seq<string>>, clock: Clock, base: nat): Flat {
    if cmds == [] then f else
      var n := |cmds| - 1;
      ReplayOne(ReplayAll(f, cmds[..n], clock, base), cmds[n], clock.at(base + n))
  }

  function CountReplayed(cmds: seq<seq<string>>): nat {
    if cmds == [] then 0 else
      CountReplayed(cmds[..|cmds| - 1]) + if Throws(cmds[|cmds| - 1]) then 0 else 1
  }

  /** Loading a log into a fresh store. */
  function Load(log: string, clock: Clock): Flat {
    ReplayAll(EMPTY, LogCodec.Records(log), clock, 0)
  }

  lemma ReplaySnoc(f: Flat, cmds: seq<seq<string>>, cmd: seq<string>, clock: Clock, base: nat)
    ensures ReplayAll(f, cmds + [cmd], clock, base)
            == ReplayOne(ReplayAll(f, cmds, clock, base), cmd, clock.at(base + |cmds|))
  {
    hide ReplayOne;
    assert (cmds + [cmd])[..|cmds|] == cmds;
  }

  lemma {:induction false} ReplayConcat(f: Flat, a: seq<seq<string>>, b: seq<seq<string>>, clock: Clock, base: nat)
    ensures ReplayAll(f, a + b, clock, base)
            == ReplayAll(ReplayAll(f, a, clock, base), b, clock, base + |a|)
    decreases |b|
  {
    hide ReplayOne;
    if b == [] {
      assert a + b == a;
    } else {
      var n := |b| - 1;
      var most, last := b[..n], b[n];
      assert b == most + [last];
      ReplayConcat(f, a, most, clock, base);
      Assoc(a, most, [last]);
      ReplaySnoc(f, a + most, last, clock, base);
      ReplaySnoc(ReplayAll(f, a, clock, base), most, last, clock, base + |a|);
    }
  }

  // ---- the log file as the dispatcher sees it -------------------------------------

  /** The pointer to the log manager, and what is behind it. */
  datatype Aof =
    | NoAof
    | Aof(enabled: bool, open: bool, file: string)

  predicate Enabled(aof: Aof) {
    aof.Aof? && aof.enabled
  }

  function Appended(aof: Aof, tokens: seq<string>): (r: Aof)
    ensures Enabled(r) == Enabled(aof)
  {
    if Enabled(aof) && tokens != [] && aof.open then aof.(file := aof.file + Array(tokens)) else aof
  }

  // ---- what a compaction writes ---------------------------------------------------

  function StringRecords(pairs: seq<(string, string)>): seq<seq<string>> {
    if pairs == [] then [] else
      var n := |pairs| - 1;
      StringRecords(pairs[..n]) + [["SET", pairs[n].0, pairs[n].1]]
  }

  function FieldRecords(key: string, fields: FieldList): seq<seq<string>> {
    if fields == [] then [] else
      var n := |fields| - 1;
      FieldRecords(key, fields[..n]) + [["HSET", key, fields[n].0, fields[n].1]]
  }

  function HashRecords(hashes: seq<(string, FieldList)>): seq<seq<string>> {
    if hashes == [] then [] else
      var n := |hashes| - 1;
      HashRecords(hashes[..n]) + FieldRecords(hashes[n].0, hashes[n].1)
  }

  function ListRecords(lists: seq<(string, seq<string>)>): seq<seq<string>> {
    if lists == [] then [] else
      var n := |lists| - 1;
      ListRecords(lists[..n]) + if lists[n].1 == [] then [] else [["RPUSH", lists[n].0] + lists[n].1]
  }

  function RewriteRecords(s: Snapshot): seq<seq<string>> {
    StringRecords(s.strings) + HashRecords(s.hashes) + ListRecords(s.lists)
  }

  /** The bytes a compaction may produce for this store at this instant: those of
      any snapshot of it, whatever order the hash tables yield. */
  ghost predicate IsRewrite(bytes: string, f: Flat, now: int) {
    exists s :: IsSnapshot(s, LiveData(f, now)) && bytes == Arrays(RewriteRecords(s))
  }
}
