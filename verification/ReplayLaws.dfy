/** What replaying respects: stores that differ in last-access stamps only stay so,
    whatever the clock, as long as no deadline is stored or set. */
module ReplayLaws {
  import opened Basics
  import opened Numerals
  import opened FlatStore
  import opened Replay

  /** Nothing about the store depends on the clock. */
  ghost predicate Plain(f: Flat) {
    Tidy(f) && NoDeadlines(f)
  }

  /** The record sets no deadline when it is replayed. */
  predicate DeadlineFree(record: seq<string>) {
    record != [] && VerbOf(record[0]).ExpireV? && |record| >= 3 && Stoll(record[2]).Some? ==>
      Stoll(record[2]).value <= 0
  }

  predicate AllDeadlineFree(records: seq<seq<string>>) {
    forall i :: 0 <= i < |records| ==> DeadlineFree(records[i])
  }

  lemma EmptyIsPlain()
    ensures Plain(EMPTY)
  {
  }

  lemma ApplyKeepsPlain(f: Flat, op: Op, now: int)
    requires Plain(f) && !SetsDeadline(op)
    ensures Plain(Apply(f, op, now).0)
  {
    hide Apply, Tidy, NoDeadlines, SetsDeadline;
    ApplyKeepsTidy(f, op, now);
    ApplyKeepsNoDeadlines(f, op, now);
  }

  // ---- commands with several arguments ----------------------------------------

  lemma {:induction false} DelAllIgnoresStamps(f: Flat, g: Flat, keys: seq<string>, n: nat, now: int, later: int)
    requires Plain(f) && SameButStamps(f, g) && n <= |keys|
    ensures SameButStamps(DelAll(f, keys, n, now).0, DelAll(g, keys, n, later).0)
    ensures DelAll(f, keys, n, now).1 == DelAll(g, keys, n, later).1
    ensures Plain(DelAll(f, keys, n, now).0)
  {
    hide Apply, Plain, SameButStamps;
    if n > 0 {
      DelAllIgnoresStamps(f, g, keys, n - 1, now, later);
      var p, q := DelAll(f, keys, n - 1, now).0, DelAll(g, keys, n - 1, later).0;
      PlainIgnoresStamps(p, q, Del(keys[n - 1]), now, later);
    }
  }

  lemma {:induction false} PushAllIgnoresStamps(f: Flat, g: Flat, front: bool, key: string, values: seq<string>,
                                                n: nat, now: int, later: int)
    requires Plain(f) && SameButStamps(f, g) && n <= |values|
    ensures SameButStamps(PushAll(f, front, key, values, n, now).0, PushAll(g, front, key, values, n, later).0)
    ensures Plain(PushAll(f, front, key, values, n, now).0)
  {
    hide Apply, Plain, SameButStamps;
    if n > 0 {
      PushAllIgnoresStamps(f, g, front, key, values, n - 1, now, later);
      var p, q := PushAll(f, front, key, values, n - 1, now).0, PushAll(g, front, key, values, n - 1, later).0;
      PlainIgnoresStamps(p, q, PushOp(front, key, values[n - 1]), now, later);
    }
  }

  lemma PlainIgnoresStamps(f: Flat, g: Flat, op: Op, now: int, later: int)
    requires Plain(f) && SameButStamps(f, g) && !SetsDeadline(op)
    ensures Plain(Apply(f, op, now).0)
    ensures SameButStamps(Apply(f, op, now).0, Apply(g, op, later).0)
    ensures Apply(f, op, now).1 == Apply(g, op, later).1
  {
    hide Apply, SameButStamps, Tidy, NoDeadlines, SetsDeadline;
    StampsAreInvisible(f, g, op, now, later);
    ApplyKeepsPlain(f, op, now);
  }

  // ---- replaying ----------------------------------------------------------------

  lemma ReplayOneIgnoresStamps(f: Flat, g: Flat, cmd: seq<string>, now: int, later: int)
    requires Plain(f) && SameButStamps(f, g) && DeadlineFree(cmd)
    ensures Plain(ReplayOne(f, cmd, now))
    ensures SameButStamps(ReplayOne(f, cmd, now), ReplayOne(g, cmd, later))
  {
    hide Apply, SameButStamps, Plain, VerbOf, DelAll, PushAll, Stoll;
    SameToItself(EMPTY);
    EmptyIsPlain();
    if cmd == [] { return; }
    match VerbOf(cmd[0])
    case SetV => if |cmd| >= 3 { PlainIgnoresStamps(f, g, Set(cmd[1], cmd[2], None), now, later); }
    case DelV => if |cmd| >= 2 { DelAllIgnoresStamps(f, g, cmd[1..], |cmd| - 1, now, later); }
    case ExpireV =>
      if |cmd| >= 3 && Stoll(cmd[2]).Some? {
        PlainIgnoresStamps(f, g, Expire(cmd[1], Stoll(cmd[2]).value), now, later);
      }
    case HsetV => if |cmd| >= 4 { PlainIgnoresStamps(f, g, Hset(cmd[1], cmd[2], cmd[3]), now, later); }
    case HdelV => if |cmd| >= 3 { PlainIgnoresStamps(f, g, Hdel(cmd[1], cmd[2]), now, later); }
    case LpushV => if |cmd| >= 3 { PushAllIgnoresStamps(f, g, true, cmd[1], cmd[2..], |cmd| - 2, now, later); }
    case RpushV => if |cmd| >= 3 { PushAllIgnoresStamps(f, g, false, cmd[1], cmd[2..], |cmd| - 2, now, later); }
    case _ =>
  }

  /** Replaying deadline-free records into stores with the same data gives stores
      with the same data, at any two times. */
  lemma {:induction false} ReplayIgnoresStamps(f: Flat, g: Flat, cmds: seq<seq<string>>,
                                               now: Clock, from: nat, later: Clock, start: nat)
    requires Plain(f) && SameButStamps(f, g) && AllDeadlineFree(cmds)
    ensures Plain(ReplayAll(f, cmds, now, from))
    ensures SameButStamps(ReplayAll(f, cmds, now, from), ReplayAll(g, cmds, later, start))
  {
    hide ReplayOne, Plain, SameButStamps, DeadlineFree;
    if cmds != [] {
      var n := |cmds| - 1;
      ReplayIgnoresStamps(f, g, cmds[..n], now, from, later, start);
      ReplayOneIgnoresStamps(ReplayAll(f, cmds[..n], now, from), ReplayAll(g, cmds[..n], later, start), cmds[n],
                             now.at(from + n), later.at(start + n));
    }
  }
}
