/** What clients rely on between operations of the flat store: a string lives until its
    deadline, lists are queues and stacks, hashes are maps. */
module StoreLaws {
  import opened Basics
  import opened Numerals
  import opened FlatStore
  import opened Replay

  // ---- strings and their deadlines -----------------------------------------------------

  /** A string that was set is read back exactly until its deadline, if it was given one. */
  lemma SetThenGet(f: Flat, key: string, value: string, ttl: Option<int>, now: int, later: int)
    ensures var g := Apply(f, Set(key, value, ttl), now).0;
            Apply(g, Get(key), later).1
            == Text(if ttl.Some? && ttl.value > 0 && later >= now + ttl.value * SECOND then None else Some(value))
  {
    var g := Apply(f, Set(key, value, ttl), now).0;
    assert SlotOf(g, key).entry == Some(Entry(value, Deadline(ttl, now), now));
    hide WithSlot;
  }

  /** After EXPIRE with a positive number of seconds on a live string, TTL counts down
      in whole seconds; at the deadline the string is gone, and with it the key unless
      a hash or a list has the same name. */
  lemma ExpireThenTtl(f: Flat, key: string, seconds: int, now: int, later: int)
    requires SlotOf(f, key).IsLive(now) && seconds > 0 && now <= later
    ensures var g := Apply(f, Expire(key, seconds), now).0;
            var passed := later - now;
            && (passed < seconds * SECOND ==>
                  exists n :: Apply(g, Ttl(key), later).1 == Count(n)
                    && n * SECOND <= seconds * SECOND - passed < (n + 1) * SECOND)
            && (passed >= seconds * SECOND ==>
                  && Apply(g, Ttl(key), later).1 == Count(-2)
                  && Apply(g, Get(key), later).1 == Text(None)
                  && Apply(g, Exists(key), later).1 == Flag(SlotOf(f, key).HasCollection()))
  {
    var g := Apply(f, Expire(key, seconds), now).0;
    var left := now + seconds * SECOND - later;
    assert SlotOf(g, key).entry == Some(SlotOf(f, key).entry.value.(expires := Some(now + seconds * SECOND)));
    hide WithSlot;
    if later - now < seconds * SECOND {
      assert Apply(g, Ttl(key), later).1 == Count(left / SECOND);
      assert left / SECOND * SECOND <= left < (left / SECOND + 1) * SECOND;
    }
  }

  /** DEL removes every kind of value under the key and nothing else; a second DEL finds
      nothing. */
  lemma DelIsTotal(f: Flat, key: string, now: int, later: int)
    ensures var g := Apply(f, Del(key), now).0;
            && Apply(g, Exists(key), later).1 == Flag(false)
            && Apply(g, Del(key), later) == (g, Flag(false))
            && forall k :: k != key ==> SlotOf(g, k) == SlotOf(f, k)
  {
    var g := Apply(f, Del(key), now).0;
    assert SlotOf(g, key) == NOTHING;
    SlotsDetermine(Apply(g, Del(key), later).0, g);
  }

  // ---- hashes ----------------------------------------------------------------------------

  /** A hash is a map: a field set is the field read, other fields keep their values, and
      the count grows exactly when the field is new. */
  lemma HsetThenHget(f: Flat, key: string, field: string, value: string, other: string, now: int)
    ensures var (g, isNew) := Apply(f, Hset(key, field, value), now);
            && Apply(g, Hget(key, field), now).1 == Text(Some(value))
            && (other != field ==> Apply(g, Hget(key, other), now).1 == Apply(f, Hget(key, other), now).1)
            && Apply(g, Hlen(key), now).1 == Count(|SlotOf(f, key).Hash()| + if isNew == Flag(true) then 1 else 0)
  {
    hide WithSlot, SlotOf, Act;
    HsetSlot(SlotOf(f, key), key, field, value, other, now);
  }

  lemma HsetSlot(s: Slot, key: string, field: string, value: string, other: string, now: int)
    ensures var (t, isNew) := Act(s, Hset(key, field, value), now);
            && Act(t, Hget(key, field), now).1 == Text(Some(value))
            && (other != field ==> Act(t, Hget(key, other), now).1 == Act(s, Hget(key, other), now).1)
            && Act(t, Hlen(key), now).1 == Count(|s.Hash()| + if isNew == Flag(true) then 1 else 0)
  {
    assert s.Hash()[field := value].Keys == s.Hash().Keys + {field};
  }

  /** Setting a new field and deleting it leaves the store as it was. */
  lemma HdelUndoesHset(f: Flat, key: string, field: string, value: string, now: int)
    requires Tidy(f) && field !in SlotOf(f, key).Hash()
    ensures Apply(Apply(f, Hset(key, field, value), now).0, Hdel(key, field), now) == (f, Flag(true))
  {
    var s := SlotOf(f, key);
    var g := Apply(f, Hset(key, field, value), now).0;
    var h := Apply(g, Hdel(key, field), now).0;
    assert TidySlot(s);
    assert s.Hash()[field := value] - {field} == s.Hash();
    assert SlotOf(g, key).Hash() == s.Hash()[field := value];
    hide WithSlot, Tidy;
    forall k ensures SlotOf(h, k) == SlotOf(f, k) {}
    SlotsDetermine(h, f);
  }

  // ---- lists -----------------------------------------------------------------------------

  function Reversed(items: seq<string>): (r: seq<string>)
    ensures |r| == |items|
  {
    if items == [] then [] else Reversed(items[1..]) + [items[0]]
  }

  lemma ReversedNothing()
    ensures Reversed([]) == []
  {
  }

  lemma {:induction false} ReversedSnoc(items: seq<string>, x: string)
    ensures Reversed(items + [x]) == [x] + Reversed(items)
  {
    if items != [] {
      assert (items + [x])[1..] == items[1..] + [x];
      ReversedSnoc(items[1..], x);
    }
  }

  /** RPUSH of several values appends them in order; LPUSH puts them before the list,
      the last one first. Nothing but this list changes, and the length is returned. */
  lemma {:induction false} PushAllItems(f: Flat, front: bool, key: string, values: seq<string>, n: nat, now: int)
    requires 0 < n <= |values|
    ensures var (g, length) := PushAll(f, front, key, values, n, now);
            var was := SlotOf(f, key).List();
            && SlotOf(g, key) == SlotOf(f, key).(items :=
                 Some(if front then Reversed(values[..n]) + was else was + values[..n]))
            && length == |was| + n
            && forall k :: k != key ==> SlotOf(g, k) == SlotOf(f, k)
  {
    hide WithSlot, SlotOf, Act;
    var was, v, g := SlotOf(f, key).List(), values[n - 1], PushAll(f, front, key, values, n - 1, now).0;
    PushStep(SlotOf(g, key), front, key, v, now);
    assert values[..n] == values[..n - 1] + [v];
    ReversedSnoc(values[..n - 1], v);
    if n == 1 {
      assert values[..0] == [] && g == f;
      assert [v] + Reversed([]) + was == [v] + was && was + ([] + [v]) == was + [v];
    } else {
      PushAllItems(f, front, key, values, n - 1, now);
      Assoc([v], Reversed(values[..n - 1]), was);
      Assoc(was, values[..n - 1], [v]);
    }
  }

  lemma PushStep(s: Slot, front: bool, key: string, v: string, now: int)
    ensures Act(s, PushOp(front, key, v), now)
            == (s.(items := Some(if front then [v] + s.List() else s.List() + [v])), Count(|s.List()| + 1))
  {
  }

  function PopOp(front: bool, key: string): Op {
    if front then Lpop(key) else Rpop(key)
  }

  /** n pops at one end: the store, and the values in the order they came. */
  function PopAll(f: Flat, front: bool, key: string, n: nat, now: int): (Flat, seq<string>) {
    if n == 0 then (f, []) else
      var (g, values) := PopAll(f, front, key, n - 1, now);
      var (h, answer) := Apply(g, PopOp(front, key), now);
      (h, if answer.Text? && answer.text.Some? then values + [answer.text.value] else values)
  }

  /** What n pops take and leave. */
  lemma {:induction false} PopAllItems(f: Flat, front: bool, key: string, n: nat, now: int)
    requires n <= |SlotOf(f, key).List()| && Tidy(f)
    ensures var (g, values) := PopAll(f, front, key, n, now);
            var was := SlotOf(f, key).List();
            && values == (if front then was[..n] else Reversed(was[|was| - n..]))
            && SlotOf(g, key) == SlotOf(f, key).(items := NonEmptyItems(if front then was[n..] else was[..|was| - n]))
            && forall k :: k != key ==> SlotOf(g, k) == SlotOf(f, k)
  {
    var was := SlotOf(f, key).List();
    hide WithSlot, SlotOf, Act, NonEmptyItems, Tidy, TidySlot, Reversed;
    if n == 0 {
      assert was[0..] == was && was[..|was|] == was && was[|was|..] == [] && was[..0] == [];
      assert Reversed([]) == [] by { ReversedNothing(); }
      TidyItems(f, key);
    } else {
      PopAllItems(f, front, key, n - 1, now);
      var g := PopAll(f, front, key, n - 1, now).0;
      var rest := if front then was[n - 1..] else was[..|was| - n + 1];
      ItemsBack(SlotOf(f, key), rest);
      PopStep(SlotOf(g, key), front, key, now);
      Ends(was, n);
    }
  }

  /** The first n elements and the last n, one more at a time. */
  lemma Ends(l: seq<string>, n: nat)
    requires 0 < n <= |l|
    ensures l[n - 1..][0] == l[n - 1] && l[n - 1..][1..] == l[n..] && l[..n] == l[..n - 1] + [l[n - 1]]
    ensures var m := |l| - n;
            && l[..m + 1][m] == l[m] && l[..m + 1][..m] == l[..m]
            && Reversed(l[m..]) == Reversed(l[m + 1..]) + [l[m]]
  {
    var m := |l| - n;
    assert l[m..][1..] == l[m + 1..];
  }

  lemma TidyItems(f: Flat, key: string)
    requires Tidy(f)
    ensures SlotOf(f, key).items == NonEmptyItems(SlotOf(f, key).List())
  {
    assert TidySlot(SlotOf(f, key));
  }

  lemma ItemsBack(s: Slot, items: seq<string>)
    ensures s.(items := NonEmptyItems(items)).List() == items
  {
  }

  lemma PopStep(s: Slot, front: bool, key: string, now: int)
    requires s.List() != []
    ensures var l := s.List();
            var n := |l| - 1;
            Act(s, PopOp(front, key), now)
            == (s.(items := NonEmptyItems(if front then l[1..] else l[..n])), Text(Some(if front then l[0] else l[n])))
  {
  }

  /** A queue: what RPUSH put in comes out of LPOP in the same order. A stack: what LPUSH
      put in comes out of LPOP last in, first out. Either way the store is as before. */
  lemma QueueAndStack(f: Flat, front: bool, key: string, values: seq<string>, now: int)
    requires Tidy(f) && values != [] && (front || SlotOf(f, key).items.None?)
    ensures var g := PushAll(f, front, key, values, |values|, now).0;
            PopAll(g, true, key, |values|, now) == (f, if front then Reversed(values) else values)
  {
    var n, was := |values|, SlotOf(f, key).List();
    var g := PushAll(f, front, key, values, n, now).0;
    PushAllItems(f, front, key, values, n, now);
    assert values[..n] == values;
    TidyAfterPush(f, g, key);
    PopAllItems(g, true, key, n, now);
    var all := SlotOf(g, key).List();
    assert front ==> all[..n] == Reversed(values) && all[n..] == was;
    assert !front ==> all == values && all[..n] == values && all[n..] == [];
    assert TidySlot(SlotOf(f, key));
    hide PushAll, PopAll, SlotOf, Tidy;
    SlotsDetermine(PopAll(g, true, key, n, now).0, f);
  }

  lemma TidyAfterPush(f: Flat, g: Flat, key: string)
    requires Tidy(f) && (forall k :: k != key ==> SlotOf(g, k) == SlotOf(f, k))
    requires SlotOf(g, key).items.Some? && SlotOf(g, key).items.value != []
    requires SlotOf(g, key).fields == SlotOf(f, key).fields
    ensures Tidy(g)
  {
    hide SlotOf;
    forall k ensures TidySlot(SlotOf(g, k)) {
      assert TidySlot(SlotOf(f, k));
    }
  }
}
