/** Active expiry is invisible: a purge may be inserted anywhere in a run without
    changing a later answer (src/KeyValueStore.cpp, purge_expired_keys). */
module Expiry {
  import opened Basics
  import opened FlatStore

  /** What a purge at `now` leaves when it visits the strings in `visited`. */
  function Purge(f: Flat, visited: set<string>, now: int): Flat {
    f.(strings := map k | k in f.strings && (k in visited ==> Live(f.strings[k], now)) :: f.strings[k])
  }

  // ---- stores that agree on everything that has not expired ---------------

  predicate AgreeSlot(s: Slot, t: Slot, now: int) {
    && s.fields == t.fields
    && s.items == t.items
    && s.IsLive(now) == t.IsLive(now)
    && (s.IsLive(now) ==> s.entry == t.entry)
  }

  ghost predicate Agree(f: Flat, g: Flat, now: int) {
    forall k :: AgreeSlot(SlotOf(f, k), SlotOf(g, k), now)
  }

  /** The answers the claim leaves out: `del` counts an expired string as removed,
      and `ttl` sees it in front of a hash or list of the same name. */
  predicate Excluded(op: Op, s: Slot) {
    op.Del? || (op.Ttl? && s.HasCollection())
  }

  lemma ActAgrees(s: Slot, t: Slot, op: Op, now: int)
    requires AgreeSlot(s, t, now)
    ensures AgreeSlot(Act(s, op, now).0, Act(t, op, now).0, now)
    ensures Excluded(op, s) == Excluded(op, t)
    ensures !Excluded(op, s) ==> Act(s, op, now).1 == Act(t, op, now).1
  {
  }

  lemma ApplyAgrees(f: Flat, g: Flat, op: Op, now: int)
    requires Agree(f, g, now)
    ensures Agree(Apply(f, op, now).0, Apply(g, op, now).0, now)
    ensures Excluded(op, SlotOf(f, op.key)) == Excluded(op, SlotOf(g, op.key))
    ensures !Excluded(op, SlotOf(f, op.key)) ==> Apply(f, op, now).1 == Apply(g, op, now).1
  {
    hide Act, WithSlot, AgreeSlot, SlotOf, Excluded;
    assert AgreeSlot(SlotOf(f, op.key), SlotOf(g, op.key), now);
    ActAgrees(SlotOf(f, op.key), SlotOf(g, op.key), op, now);
    forall k ensures AgreeSlot(SlotOf(Apply(f, op, now).0, k), SlotOf(Apply(g, op, now).0, k), now) {
      assert AgreeSlot(SlotOf(f, k), SlotOf(g, k), now);
    }
  }

  lemma AgreeLater(f: Flat, g: Flat, now: int, later: int)
    requires Agree(f, g, now) && now <= later
    ensures Agree(f, g, later)
  {
    forall k ensures AgreeSlot(SlotOf(f, k), SlotOf(g, k), later) {
      assert AgreeSlot(SlotOf(f, k), SlotOf(g, k), now);
    }
  }

  lemma PurgeAgrees(f: Flat, g: Flat, visited: set<string>, now: int)
    requires Agree(f, g, now)
    ensures Agree(Purge(f, visited, now), g, now)
  {
    forall k ensures AgreeSlot(SlotOf(Purge(f, visited, now), k), SlotOf(g, k), now) {
      assert AgreeSlot(SlotOf(f, k), SlotOf(g, k), now);
    }
  }

  lemma AgreeOnWholeStore(f: Flat, g: Flat, now: int)
    requires Agree(f, g, now)
    ensures LiveStrings(f, now) == LiveStrings(g, now)
    ensures LiveData(f, now) == LiveData(g, now)
    ensures Size(f, now) == Size(g, now)
  {
    forall k
      ensures k in LiveStrings(f, now) <==> k in LiveStrings(g, now)
      ensures k in LiveStrings(f, now) ==> f.strings[k] == g.strings[k]
      ensures k in f.hashes <==> k in g.hashes
      ensures k in f.lists <==> k in g.lists
      ensures k in f.hashes ==> f.hashes[k] == g.hashes[k]
      ensures k in f.lists ==> f.lists[k] == g.lists[k]
    {
      assert AgreeSlot(SlotOf(f, k), SlotOf(g, k), now);
    }
    assert f.hashes == g.hashes && f.lists == g.lists;
    assert LiveStrings(f, now) == LiveStrings(g, now);
    assert LiveData(f, now).strings == LiveData(g, now).strings;
  }

  // ---- runs ---------------------------------------------------------------

  /** One thing that happens to the store; a purge carries the entries it visits,
      so any limit and any iteration order is covered. */
  datatype Event =
    | Client(op: Op, now: int)
    | Flush
    | AskSize(now: int)
    | TakeSnapshot(now: int)
    | Purged(visited: set<string>, now: int)

  datatype Reply =
    | Silent
    | Answered(answer: Answer)
    | SizeIs(size: nat)
    | SnapshotIs(data: Data)

  function Happen(f: Flat, e: Event): (Flat, Reply) {
    match e
    case Client(op, now) =>
      (Apply(f, op, now).0, if Excluded(op, SlotOf(f, op.key)) then Silent else Answered(Apply(f, op, now).1))
    case Flush => (EMPTY, Silent)
    case AskSize(now) => (f, SizeIs(Size(f, now)))
    case TakeSnapshot(now) => (f, SnapshotIs(LiveData(f, now)))
    case Purged(visited, now) => (Purge(f, visited, now), Silent)
  }

  /** The replies to everything but purges, in order. */
  function Replies(f: Flat, events: seq<Event>): seq<Reply>
    decreases |events|
  {
    if events == [] then [] else
      var (g, reply) := Happen(f, events[0]);
      (if events[0].Purged? then [] else [reply]) + Replies(g, events[1..])
  }

  function WithoutPurges(events: seq<Event>): seq<Event> {
    if events == [] then [] else
      (if events[0].Purged? then [] else [events[0]]) + WithoutPurges(events[1..])
  }

  /** The clock never goes back. */
  predicate Ordered(events: seq<Event>, from: int) {
    events == [] ||
    (if events[0].Flush? then Ordered(events[1..], from)
     else from <= events[0].now && Ordered(events[1..], events[0].now))
  }

  lemma HappenAgrees(f: Flat, g: Flat, e: Event, from: int)
    requires Agree(f, g, from) && !e.Purged?
    requires !e.Flush? ==> from <= e.now
    ensures Happen(f, e).1 == Happen(g, e).1
    ensures Agree(Happen(f, e).0, Happen(g, e).0, if e.Flush? then from else e.now)
  {
    hide Apply, SlotOf, AgreeSlot, Excluded;
    match e {
      case Client(op, now) =>
        AgreeLater(f, g, from, now);
        ApplyAgrees(f, g, op, now);
      case Flush =>
        AgreeWithItself(EMPTY, from);
      case AskSize(now) =>
        AgreeLater(f, g, from, now);
        AgreeOnWholeStore(f, g, now);
      case TakeSnapshot(now) =>
        AgreeLater(f, g, from, now);
        AgreeOnWholeStore(f, g, now);
    }
  }

  lemma AgreeWithItself(f: Flat, now: int)
    ensures Agree(f, f, now)
  {
  }

  lemma {:induction false} PurgesAreInvisibleFrom(f: Flat, g: Flat, events: seq<Event>, from: int)
    requires Agree(f, g, from) && Ordered(events, from)
    ensures Replies(f, events) == Replies(g, WithoutPurges(events))
    decreases |events|
  {
    if events != [] {
      hide Happen, Agree;
      var e := events[0];
      if e.Purged? {
        PurgeHappens(f, g, e, from);
        PurgesAreInvisibleFrom(Happen(f, e).0, g, events[1..], e.now);
        assert Replies(f, events) == Replies(Happen(f, e).0, events[1..]);
        assert WithoutPurges(events) == WithoutPurges(events[1..]);
      } else {
        HappenAgrees(f, g, e, from);
        PurgesAreInvisibleFrom(Happen(f, e).0, Happen(g, e).0, events[1..], if e.Flush? then from else e.now);
        var rest := WithoutPurges(events[1..]);
        assert WithoutPurges(events) == [e] + rest;
        assert ([e] + rest)[0] == e && ([e] + rest)[1..] == rest;
        assert Replies(g, [e] + rest) == [Happen(g, e).1] + Replies(Happen(g, e).0, rest);
      }
    }
  }

  lemma PurgeHappens(f: Flat, g: Flat, e: Event, from: int)
    requires Agree(f, g, from) && e.Purged? && from <= e.now
    ensures Agree(Happen(f, e).0, g, e.now)
  {
    AgreeLater(f, g, from, e.now);
    PurgeAgrees(f, g, e.visited, e.now);
  }

  /** Two runs that differ only in their purges give the same replies. */
  lemma PurgesAreInvisible(f: Flat, events: seq<Event>, others: seq<Event>, from: int)
    requires Ordered(events, from) && Ordered(others, from)
    requires WithoutPurges(events) == WithoutPurges(others)
    ensures Replies(f, events) == Replies(f, others)
  {
    AgreeWithItself(f, from);
    PurgesAreInvisibleFrom(f, f, events, from);
    PurgesAreInvisibleFrom(f, f, others, from);
  }

  /** The exclusions, exactly. A purge changes `del`'s answer for a key if and only
      if it erases the only thing stored under it: an expired string. */
  lemma DelSeesPurge(f: Flat, key: string, visited: set<string>, now: int)
    ensures Apply(Purge(f, visited, now), Del(key), now).1 == Apply(f, Del(key), now).1
            <==> !(key in visited && key in f.strings && !Live(f.strings[key], now)
                   && key !in f.hashes && key !in f.lists)
  {
  }

  /** It changes `ttl`'s answer if and only if the expired string it erases hid a
      hash or list of the same name: the answer goes from -2 to -1. */
  lemma TtlSeesPurge(f: Flat, key: string, visited: set<string>, now: int)
    ensures Apply(Purge(f, visited, now), Ttl(key), now).1 == Apply(f, Ttl(key), now).1
            <==> !(key in visited && key in f.strings && !Live(f.strings[key], now)
                   && (key in f.hashes || key in f.lists))
  {
    var s := SlotOf(f, key);
    var t := SlotOf(Purge(f, visited, now), key);
    assert t == s || t == s.(entry := None);
  }
}
