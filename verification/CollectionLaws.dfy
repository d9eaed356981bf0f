/** What the commands on hashes and lists do, as a client sees it
    (src/CommandParser.cpp, lines 191-303). */
module CollectionLaws {
  import opened Basics
  import opened Numerals
  import opened Wire
  import opened Resp
  import opened FlatStore
  import opened Snapshots
  import opened Replay
  import opened Commands
  import opened Replies
  import opened StoreLaws
  import opened CommandLaws

  lemma AtSlot(f: Flat, key: string)
    ensures SlotOf(f, key).Hash() == HashAt(f, key) && SlotOf(f, key).List() == ListAt(f, key)
  {
  }

  // ---- hashes ---------------------------------------------------------------------------

  lemma HsetStore(f: Flat, key: string, field: string, value: string, now: int)
    ensures var (g, answer) := Apply(f, Hset(key, field, value), now);
            && answer == Flag(field !in HashAt(f, key))
            && Becomes(f, g, key, SlotOf(f, key).(fields := Some(HashAt(f, key)[field := value])))
  {
    AtSlot(f, key);
    hide SlotOf, HashAt, WithSlot;
  }

  /** HSET sets the field and tells whether it is new. */
  lemma HsetLaw(db: Db, authenticated: bool, password: string, raw: string, ch: Choice)
    requires Asks(authenticated, password, raw, "HSET") && |ParseRequest(raw)| == 4
    ensures var tokens, o := ParseRequest(raw), Run(db, authenticated, password, raw, ch);
            var (key, field) := (tokens[1], tokens[2]);
            var was := HashAt(db.store, key);
            && Is(o.reply, Whole(if field in was then 0 else 1)) && o.db.aof == Appended(db.aof, tokens)
            && Becomes(db.store, o.db.store, key, SlotOf(db.store, key).(fields := Some(was[field := tokens[3]])))
  {
    HashVerbs();
    hide ParseRequest, VerbOf, Run, Is, ToUpper, Apply, BoolReply, HashAt, SlotOf, Becomes, Appended;
    RunIs(db, authenticated, password, raw, ch, "HSET");
    var tokens := ParseRequest(raw);
    HsetStore(db.store, tokens[1], tokens[2], tokens[3], ch.clock.at(0));
    BoolIsRead(tokens[2] !in HashAt(db.store, tokens[1]));
  }

  lemma HgetStore(f: Flat, key: string, field: string, now: int)
    ensures Apply(f, Hget(key, field), now).1
            == Text(if field in HashAt(f, key) then Some(HashAt(f, key)[field]) else None)
  {
    AtSlot(f, key);
    hide SlotOf, HashAt, WithSlot;
  }

  /** HGET answers the field's value, or null. */
  lemma HgetLaw(db: Db, authenticated: bool, password: string, raw: string, ch: Choice)
    requires Asks(authenticated, password, raw, "HGET") && |ParseRequest(raw)| == 3
    ensures var tokens, o := ParseRequest(raw), Run(db, authenticated, password, raw, ch);
            var h := HashAt(db.store, tokens[1]);
            o.db == db && Is(o.reply, if tokens[2] in h then BulkString(h[tokens[2]]) else Null)
  {
    HashVerbs();
    hide ParseRequest, VerbOf, Run, Is, ToUpper, Apply, OptionReply, HashAt;
    RunIs(db, authenticated, password, raw, ch, "HGET");
    var tokens := ParseRequest(raw);
    var h := HashAt(db.store, tokens[1]);
    HgetStore(db.store, tokens[1], tokens[2], ch.clock.at(0));
    OptionReplyIsRead(if tokens[2] in h then Some(h[tokens[2]]) else None);
  }

  /** HEXISTS tells whether the field is there. */
  lemma HexistsLaw(db: Db, authenticated: bool, password: string, raw: string, ch: Choice)
    requires Asks(authenticated, password, raw, "HEXISTS") && |ParseRequest(raw)| == 3
    ensures var tokens, o := ParseRequest(raw), Run(db, authenticated, password, raw, ch);
            o.db == db && Is(o.reply, Whole(if tokens[2] in HashAt(db.store, tokens[1]) then 1 else 0))
  {
    HashReadVerbs();
    hide ParseRequest, VerbOf, Run, Is, ToUpper, Apply, BoolReply, HashAt;
    RunIs(db, authenticated, password, raw, ch, "HEXISTS");
    var tokens := ParseRequest(raw);
    HgetStore(db.store, tokens[1], tokens[2], ch.clock.at(0));
    BoolIsRead(tokens[2] in HashAt(db.store, tokens[1]));
  }

  lemma HdelStore(f: Flat, key: string, field: string, now: int)
    ensures var (g, answer) := Apply(f, Hdel(key, field), now);
            var left := HashAt(f, key) - {field};
            && answer == Flag(field in HashAt(f, key))
            && Becomes(f, g, key, SlotOf(f, key).(fields := if left == map[] then None else Some(left)))
  {
    AtSlot(f, key);
    hide SlotOf, HashAt, WithSlot;
  }

  /** HDEL removes the field, and the hash with its last one; it is logged only if the
      field was there. */
  lemma HdelLaw(db: Db, authenticated: bool, password: string, raw: string, ch: Choice)
    requires Asks(authenticated, password, raw, "HDEL") && |ParseRequest(raw)| == 3
    ensures var tokens, o := ParseRequest(raw), Run(db, authenticated, password, raw, ch);
            var (key, field) := (tokens[1], tokens[2]);
            var was := HashAt(db.store, key);
            var left := was - {field};
            && Is(o.reply, Whole(if field in was then 1 else 0))
            && o.db.aof == (if field in was then Appended(db.aof, tokens) else db.aof)
            && Becomes(db.store, o.db.store, key,
                       SlotOf(db.store, key).(fields := if left == map[] then None else Some(left)))
  {
    HashVerbs();
    hide ParseRequest, VerbOf, Run, Is, ToUpper, Apply, BoolReply, HashAt, SlotOf, Becomes, Appended;
    RunIs(db, authenticated, password, raw, ch, "HDEL");
    var tokens := ParseRequest(raw);
    HdelStore(db.store, tokens[1], tokens[2], ch.clock.at(0));
    BoolIsRead(tokens[2] in HashAt(db.store, tokens[1]));
  }

  lemma LengthStore(f: Flat, key: string, now: int)
    ensures Apply(f, Hlen(key), now).1 == Count(|HashAt(f, key)|)
    ensures Apply(f, Llen(key), now).1 == Count(|ListAt(f, key)|)
  {
    AtSlot(f, key);
    hide SlotOf, HashAt, ListAt, WithSlot;
  }

  /** HLEN counts the fields. */
  lemma HlenLaw(db: Db, authenticated: bool, password: string, raw: string, ch: Choice)
    requires Asks(authenticated, password, raw, "HLEN") && |ParseRequest(raw)| == 2
    ensures var tokens, o := ParseRequest(raw), Run(db, authenticated, password, raw, ch);
            o.db == db && Is(o.reply, Whole(Wrap64(|HashAt(db.store, tokens[1])|)))
  {
    HashReadVerbs();
    hide ParseRequest, VerbOf, Run, Is, ToUpper, Apply, Integer, HashAt, Wrap64;
    RunIs(db, authenticated, password, raw, ch, "HLEN");
    var key := ParseRequest(raw)[1];
    LengthStore(db.store, key, ch.clock.at(0));
    NumberReplyIsRead(Wrap64(|HashAt(db.store, key)|));
  }

  lemma {:induction false} BulksAt(items: seq<string>, i: nat)
    requires i < |items|
    ensures |AsBulks(items)| == |items| && AsBulks(items)[i] == BulkString(items[i])
  {
    if |items| > 1 { BulksAt(items[1..], if i == 0 then 0 else i - 1); } else { assert AsBulks(items[1..]) == []; }
  }

  lemma {:induction false} FlattenedAt(pairs: FieldList, i: nat)
    requires i < |pairs|
    ensures |Flattened(pairs)| == 2 * |pairs|
    ensures Flattened(pairs)[2 * i] == pairs[i].0 && Flattened(pairs)[2 * i + 1] == pairs[i].1
  {
    var n := |pairs| - 1;
    if n > 0 {
      FlattenedAt(pairs[..n], if i == n then 0 else i);
    } else {
      assert Flattened(pairs[..0]) == [];
    }
  }

  /** Fields and values in turn. */
  predicate InTurn(values: seq<RespValue>, pairs: FieldList) {
    && |values| == 2 * |pairs|
    && forall i :: 0 <= i < |pairs| ==>
         values[2 * i] == BulkString(pairs[i].0) && values[2 * i + 1] == BulkString(pairs[i].1)
  }

  lemma FlattenedInTurn(pairs: FieldList)
    ensures InTurn(AsBulks(Flattened(pairs)), pairs)
  {
    hide AsBulks, Flattened;
    if pairs == [] {
      NothingFlattened();
    } else {
      forall i | 0 <= i < |pairs|
        ensures |AsBulks(Flattened(pairs))| == 2 * |pairs|
        ensures AsBulks(Flattened(pairs))[2 * i] == BulkString(pairs[i].0)
        ensures AsBulks(Flattened(pairs))[2 * i + 1] == BulkString(pairs[i].1)
      {
        FlattenedAt(pairs, i);
        BulksAt(Flattened(pairs), 2 * i);
        BulksAt(Flattened(pairs), 2 * i + 1);
      }
      FlattenedAt(pairs, 0);
      BulksAt(Flattened(pairs), 0);
    }
  }

  lemma NothingFlattened()
    ensures AsBulks(Flattened([])) == []
  {
  }

  /** HGETALL answers every field with its value, each once, each field before its value. */
  lemma HgetallLaw(db: Db, authenticated: bool, password: string, raw: string, ch: Choice)
    requires Asks(authenticated, password, raw, "HGETALL") && |ParseRequest(raw)| == 2
    requires Allowed(db, authenticated, password, ParseRequest(raw), ch)
    ensures var tokens, o := ParseRequest(raw), Run(db, authenticated, password, raw, ch);
            o.db == db && exists pairs, values ::
              Lists(pairs, HashAt(db.store, tokens[1])) && InTurn(values, pairs) && Is(o.reply, Elements(values))
  {
    HashReadVerbs();
    hide ParseRequest, VerbOf, Run, Is, ToUpper, HashAt, SlotOf, Lists, InTurn, Flattened, AsBulks;
    RunIs(db, authenticated, password, raw, ch, "HGETALL");
    AtSlot(db.store, ParseRequest(raw)[1]);
    FlattenedInTurn(ch.pairs);
    ArrayReplyIsRead(Flattened(ch.pairs));
  }

  // ---- lists ----------------------------------------------------------------------------

  /** LPUSH puts its values before the list, the last one first; RPUSH after it, in order.
      The new length is answered. */
  lemma PushLaw(db: Db, authenticated: bool, password: string, raw: string, ch: Choice, name: string)
    requires Asks(authenticated, password, raw, name) && (name == "LPUSH" || name == "RPUSH")
    requires |ParseRequest(raw)| >= 3
    ensures var tokens, o := ParseRequest(raw), Run(db, authenticated, password, raw, ch);
            var (key, values) := (tokens[1], tokens[2..]);
            var was := ListAt(db.store, key);
            var items := if name == "LPUSH" then Reversed(values) + was else was + values;
            && Is(o.reply, Whole(Wrap64(|items|))) && o.db.aof == Appended(db.aof, tokens)
            && Becomes(db.store, o.db.store, key, SlotOf(db.store, key).(items := Some(items)))
  {
    PushVerbs();
    hide ParseRequest, VerbOf, Run, Is, ToUpper, PushAll, Integer, ListAt, SlotOf, Appended, Wrap64, Reversed;
    RunIs(db, authenticated, password, raw, ch, name);
    var tokens := ParseRequest(raw);
    var values := tokens[2..];
    PushAllItems(db.store, name == "LPUSH", tokens[1], values, |values|, ch.clock.at(0));
    assert values[..|values|] == values;
    AtSlot(db.store, tokens[1]);
    NumberReplyIsRead(Wrap64(|ListAt(db.store, tokens[1])| + |values|));
  }

  lemma PopStore(f: Flat, front: bool, key: string, now: int)
    ensures var (g, answer) := Apply(f, PopOp(front, key), now);
            var was := ListAt(f, key);
            if was == [] then g == f && answer == Text(None)
            else
              var n := |was| - 1;
              var left := if front then was[1..] else was[..n];
              && answer == Text(Some(if front then was[0] else was[n]))
              && Becomes(f, g, key, SlotOf(f, key).(items := if left == [] then None else Some(left)))
  {
    AtSlot(f, key);
    ApplyBecomes(f, PopOp(front, key), now);
    hide SlotOf, ListAt, WithSlot, Becomes;
    if ListAt(f, key) == [] { StaysTheSame(f, Apply(f, PopOp(front, key), now).0, key); }
  }

  /** LPOP takes the first value of the list and RPOP the last; the list goes with its
      last value. Without a list the answer is null, nothing changes, nothing is logged. */
  lemma PopLaw(db: Db, authenticated: bool, password: string, raw: string, ch: Choice, name: string)
    requires Asks(authenticated, password, raw, name) && (name == "LPOP" || name == "RPOP")
    requires |ParseRequest(raw)| == 2
    ensures var tokens, o := ParseRequest(raw), Run(db, authenticated, password, raw, ch);
            var key := tokens[1];
            var was := ListAt(db.store, key);
            if was == [] then Is(o.reply, Null) && o.db == db
            else
              var n := |was| - 1;
              var left := if name == "LPOP" then was[1..] else was[..n];
              && Is(o.reply, BulkString(if name == "LPOP" then was[0] else was[n]))
              && o.db.aof == Appended(db.aof, tokens)
              && Becomes(db.store, o.db.store, key,
                         SlotOf(db.store, key).(items := if left == [] then None else Some(left)))
  {
    PopVerbs();
    hide ParseRequest, VerbOf, Run, Is, ToUpper, Apply, OptionReply, ListAt, SlotOf, Becomes, Appended;
    RunIs(db, authenticated, password, raw, ch, name);
    var key, now := ParseRequest(raw)[1], ch.clock.at(0);
    PopStore(db.store, name == "LPOP", key, now);
    OptionReplyIsRead(TextOf(Apply(db.store, PopOp(name == "LPOP", key), now).1));
  }

  /** LLEN counts the values. */
  lemma LlenLaw(db: Db, authenticated: bool, password: string, raw: string, ch: Choice)
    requires Asks(authenticated, password, raw, "LLEN") && |ParseRequest(raw)| == 2
    ensures var tokens, o := ParseRequest(raw), Run(db, authenticated, password, raw, ch);
            o.db == db && Is(o.reply, Whole(Wrap64(|ListAt(db.store, tokens[1])|)))
  {
    ListReadVerbs();
    hide ParseRequest, VerbOf, Run, Is, ToUpper, Apply, Integer, ListAt, Wrap64;
    RunIs(db, authenticated, password, raw, ch, "LLEN");
    var key := ParseRequest(raw)[1];
    LengthStore(db.store, key, ch.clock.at(0));
    NumberReplyIsRead(Wrap64(|ListAt(db.store, key)|));
  }

  /** Part lo..hi of the list is what lies between the two bounds, each counted from the
      end when negative. */
  predicate Between(items: seq<string>, start: int, stop: int, lo: int, hi: int) {
    var from := if start < 0 then |items| + start else start;
    var to := if stop < 0 then |items| + stop else stop;
    0 <= lo <= hi <= |items| && forall p :: 0 <= p < |items| ==> (lo <= p < hi <==> Within(from, p, to))
  }

  lemma RangeStore(f: Flat, key: string, start: int, stop: int, now: int)
    ensures Apply(f, Lrange(key, start, stop), now).1 == Items(Slice(ListAt(f, key), start, stop))
    ensures exists lo, hi ::
              Between(ListAt(f, key), start, stop, lo, hi)
              && Slice(ListAt(f, key), start, stop) == ListAt(f, key)[lo..hi]
  {
    AtSlot(f, key);
    SliceSelects(ListAt(f, key), start, stop);
    hide SlotOf, ListAt, WithSlot, Slice, Within;
  }

  /** LRANGE answers the values between the first bound and the second, in order. */
  lemma LrangeLaw(db: Db, authenticated: bool, password: string, raw: string, ch: Choice)
    requires Asks(authenticated, password, raw, "LRANGE") && |ParseRequest(raw)| == 4
    ensures var tokens, o := ParseRequest(raw), Run(db, authenticated, password, raw, ch);
            var (start, stop) := (Stoll(tokens[2]), Stoll(tokens[3]));
            var items := ListAt(db.store, tokens[1]);
            && o.db == db
            && if start.None? || stop.None? then Is(o.reply, NOT_A_NUMBER)
               else exists lo, hi ::
                 Between(items, start.value, stop.value, lo, hi) && Is(o.reply, Elements(AsBulks(items[lo..hi])))
  {
    ListReadVerbs();
    hide ParseRequest, VerbOf, Run, Is, ToUpper, Apply, Slice, ListAt, Stoll, Between, Array, AsBulks;
    RunIs(db, authenticated, password, raw, ch, "LRANGE");
    NotANumber();
    var tokens := ParseRequest(raw);
    var start, stop := Stoll(tokens[2]), Stoll(tokens[3]);
    if start.Some? && stop.Some? {
      RangeStore(db.store, tokens[1], start.value, stop.value, ch.clock.at(0));
      ArrayReplyIsRead(Slice(ListAt(db.store, tokens[1]), start.value, stop.value));
    }
  }
}
