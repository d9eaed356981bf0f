/** What the loader does with each command it finds in a log, whoever wrote it
    (src/AofManager.cpp, lines 75-101). */
module LoaderLaws {
  import opened Basics
  import opened Numerals
  import opened FlatStore
  import opened Replay
  import opened StoreLaws
  import opened CommandLaws
  import opened CollectionLaws
  import opened KeyLaws

  /** SET drops all but its key and its value. */
  lemma SetIsReplayed(f: Flat, cmd: seq<string>, now: int)
    requires |cmd| >= 3 && cmd[0] == "SET"
    ensures Becomes(f, ReplayOne(f, cmd, now), cmd[1], SlotOf(f, cmd[1]).(entry := Some(Entry(cmd[2], None, now))))
  {
    StringVerbs();
    hide VerbOf, Apply, Becomes, SlotOf;
    SetStore(f, cmd[1], cmd[2], now);
  }

  lemma DelIsReplayed(f: Flat, cmd: seq<string>, now: int)
    requires |cmd| >= 2 && cmd[0] == "DEL"
    ensures Without(f, ReplayOne(f, cmd, now), cmd[1..])
  {
    KeyVerbs();
    hide VerbOf, DelAll, Without;
    DelAllCounts(f, cmd[1..], |cmd| - 1, now);
    assert cmd[1..][..|cmd| - 1] == cmd[1..];
  }

  /** EXPIRE counts its seconds from the time of the load; malformed, it is skipped. */
  lemma ExpireIsReplayed(f: Flat, cmd: seq<string>, now: int)
    requires |cmd| >= 3 && cmd[0] == "EXPIRE"
    ensures Throws(cmd) <==> Stoll(cmd[2]).None?
    ensures Throws(cmd) ==> ReplayOne(f, cmd, now) == f
    ensures !Throws(cmd) ==>
              var there, was := TextAt(f, cmd[1], now).Some?, SlotOf(f, cmd[1]);
              var deadline := now + Stoll(cmd[2]).value * 1_000_000_000;
              && (there ==> was.entry.Some?)
              && Becomes(f, ReplayOne(f, cmd, now), cmd[1], was.(entry :=
                   if there && Stoll(cmd[2]).value > 0 then Some(was.entry.value.(expires := Some(deadline)))
                   else None))
  {
    TimeVerbs();
    hide VerbOf, Apply, Becomes, SlotOf, TextAt, Stoll;
    if Stoll(cmd[2]).Some? { ExpireStore(f, cmd[1], Stoll(cmd[2]).value, now); }
  }

  lemma HsetIsReplayed(f: Flat, cmd: seq<string>, now: int)
    requires |cmd| >= 4 && cmd[0] == "HSET"
    ensures Becomes(f, ReplayOne(f, cmd, now), cmd[1],
                    SlotOf(f, cmd[1]).(fields := Some(HashAt(f, cmd[1])[cmd[2] := cmd[3]])))
  {
    HashVerbs();
    hide VerbOf, Apply, Becomes, SlotOf, HashAt;
    HsetStore(f, cmd[1], cmd[2], cmd[3], now);
  }

  lemma HdelIsReplayed(f: Flat, cmd: seq<string>, now: int)
    requires |cmd| >= 3 && cmd[0] == "HDEL"
    ensures var left := HashAt(f, cmd[1]) - {cmd[2]};
            Becomes(f, ReplayOne(f, cmd, now), cmd[1],
                    SlotOf(f, cmd[1]).(fields := if left == map[] then None else Some(left)))
  {
    HashVerbs();
    hide VerbOf, Apply, Becomes, SlotOf, HashAt;
    HdelStore(f, cmd[1], cmd[2], now);
  }

  /** LPUSH and RPUSH push every value, in the order of the record. */
  lemma PushIsReplayed(f: Flat, cmd: seq<string>, now: int)
    requires |cmd| >= 3 && (cmd[0] == "LPUSH" || cmd[0] == "RPUSH")
    ensures var (was, values) := (ListAt(f, cmd[1]), cmd[2..]);
            Becomes(f, ReplayOne(f, cmd, now), cmd[1], SlotOf(f, cmd[1]).(items :=
              Some(if cmd[0] == "LPUSH" then Reversed(values) + was else was + values)))
  {
    PushVerbs();
    hide VerbOf, PushAll, SlotOf, ListAt, Reversed;
    var values := cmd[2..];
    PushAllItems(f, cmd[0] == "LPUSH", cmd[1], values, |values|, now);
    assert values[..|values|] == values;
    AtSlot(f, cmd[1]);
  }

  lemma FlushdbIsReplayed(f: Flat, cmd: seq<string>, now: int)
    requires |cmd| >= 1 && cmd[0] == "FLUSHDB"
    ensures ReplayOne(f, cmd, now) == Flat(map[], map[], map[])
  {
    StoreVerbs();
    hide VerbOf;
  }

  /** Enough words for the loader to act on. */
  predicate IsReplayable(cmd: seq<string>) {
    && cmd != []
    && (|| cmd[0] == "FLUSHDB"
        || (cmd[0] == "DEL" && |cmd| >= 2)
        || (cmd[0] in {"SET", "EXPIRE", "HDEL", "LPUSH", "RPUSH"} && |cmd| >= 3)
        || (cmd[0] == "HSET" && |cmd| >= 4))
  }

  /** Everything else is left alone: other names, lower case, too few words. */
  lemma NothingElseIsReplayed(f: Flat, cmd: seq<string>, now: int)
    requires !IsReplayable(cmd)
    ensures ReplayOne(f, cmd, now) == f && !Throws(cmd)
  {
    hide VerbOf, Apply, DelAll, PushAll, Stoll;
    if cmd != [] {
      NamesOfKeys(cmd[0]);
      NamesOfCollections(cmd[0]);
    }
  }

  lemma NamesOfKeys(name: string)
    ensures VerbOf(name).SetV? <==> name == "SET"
    ensures VerbOf(name).DelV? <==> name == "DEL"
    ensures VerbOf(name).ExpireV? <==> name == "EXPIRE"
    ensures VerbOf(name).FlushdbV? <==> name == "FLUSHDB"
  {
  }

  lemma NamesOfCollections(name: string)
    ensures VerbOf(name).HsetV? <==> name == "HSET"
    ensures VerbOf(name).HdelV? <==> name == "HDEL"
    ensures VerbOf(name).LpushV? <==> name == "LPUSH"
    ensures VerbOf(name).RpushV? <==> name == "RPUSH"
  {
  }

  /** A record that makes the loader's number parser throw. */
  predicate Malformed(cmd: seq<string>) {
    |cmd| >= 3 && cmd[0] == "EXPIRE" && Stoll(cmd[2]).None?
  }

  lemma ThrowsIff(cmd: seq<string>)
    ensures Throws(cmd) <==> Malformed(cmd)
  {
    hide VerbOf, Stoll;
    if |cmd| >= 3 { NamesOfKeys(cmd[0]); }
  }

  /** The number reported is that of the records but for those. */
  lemma {:induction false} ReplayedCount(cmds: seq<seq<string>>)
    ensures CountReplayed(cmds) + |set i | 0 <= i < |cmds| && Malformed(cmds[i])| == |cmds|
  {
    hide Throws, Malformed;
    var bad := set i | 0 <= i < |cmds| && Malformed(cmds[i]);
    if cmds == [] {
      assert bad == {};
    } else {
      var n := |cmds| - 1;
      var before := set i | 0 <= i < |cmds[..n]| && Malformed(cmds[..n][i]);
      ReplayedCount(cmds[..n]);
      ThrowsIff(cmds[n]);
      assert before == set i | 0 <= i < n && Malformed(cmds[i]);
      assert bad == if Malformed(cmds[n]) then before + {n} else before;
    }
  }
}
