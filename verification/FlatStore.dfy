/** The store as one flat value: three maps, and every single-key operation as a
    function of the map contents, the operation and its own clock sample. This is
    the specification the sharded class refines (src/KeyValueStore.cpp). */
module FlatStore {
  import opened Basics
  import opened Numerals

  /** Clock ticks (nanoseconds of steady_clock) in one second. */
  const SECOND := 1_000_000_000

  datatype Entry = Entry(value: string, expires: Option<int>, accessed: int)

  type Fields = map<string, string>

  datatype Flat = Flat(strings: map<string, Entry>, hashes: map<string, Fields>, lists: map<string, seq<string>>)

  const EMPTY := Flat(map[], map[], map[])

  predicate Live(e: Entry, now: int) {
    e.expires.None? || e.expires.value > now
  }

  datatype Op =
    | Set(key: string, value: string, ttl: Option<int>)
    | Get(key: string)
    | Del(key: string)
    | Exists(key: string)
    | Expire(key: string, seconds: int)
    | Ttl(key: string)
    | IncrBy(key: string, delta: int)
    | Hset(key: string, field: string, value: string)
    | Hget(key: string, field: string)
    | Hdel(key: string, field: string)
    | Hlen(key: string)
    | Hgetall(key: string)
    | Lpush(key: string, value: string)
    | Rpush(key: string, value: string)
    | Lpop(key: string)
    | Rpop(key: string)
    | Llen(key: string)
    | Lrange(key: string, start: int, stop: int)

  datatype Answer =
    | Done
    | Flag(yes: bool)
    | Text(text: Option<string>)
    | Count(count: int)
    | Counter(ok: bool, number: int)
    | Pairs(pairs: Fields)
    | Items(items: seq<string>)

  // ---- one key ------------------------------------------------------------

  /** What the store holds under one key. */
  datatype Slot = Slot(entry: Option<Entry>, fields: Option<Fields>, items: Option<seq<string>>) {
    predicate IsLive(now: int) {
      entry.Some? && Live(entry.value, now)
    }

    predicate HasCollection() {
      fields.Some? || items.Some?
    }

    function Hash(): Fields {
      if fields.Some? then fields.value else map[]
    }

    function List(): seq<string> {
      if items.Some? then items.value else []
    }
  }

  const NOTHING := Slot(None, None, None)

  /** Each operation: the slot of its key before, its clock sample, the slot after
      and the answer. */
  function Act(s: Slot, op: Op, now: int): (Slot, Answer) {
    match op
    case Set(_, value, ttl) => (s.(entry := Some(Entry(value, Deadline(ttl, now), now))), Done)
    case Get(_) =>
      if s.entry.None? then (s, Text(None))
      else if s.IsLive(now) then
        (s.(entry := Some(s.entry.value.(accessed := now))), Text(Some(s.entry.value.value)))
      else (s.(entry := None), Text(None))
    case Del(_) => (NOTHING, Flag(s != NOTHING))
    case Exists(_) => (s, Flag(s.IsLive(now) || s.HasCollection()))
    case Expire(_, seconds) => ActExpire(s, seconds, now)
    case Ttl(_) => ActTtl(s, now)
    case IncrBy(_, delta) => ActIncrBy(s, delta, now)
    case Hset(_, field, value) => (s.(fields := Some(s.Hash()[field := value])), Flag(field !in s.Hash()))
    case Hget(_, field) => (s, Text(if field in s.Hash() then Some(s.Hash()[field]) else None))
    case Hdel(_, field) => (s.(fields := NonEmptyFields(s.Hash() - {field})), Flag(field in s.Hash()))
    case Hlen(_) => (s, Count(|s.Hash()|))
    case Hgetall(_) => (s, Pairs(s.Hash()))
    case Lpush(_, value) => (s.(items := Some([value] + s.List())), Count(|s.List()| + 1))
    case Rpush(_, value) => (s.(items := Some(s.List() + [value])), Count(|s.List()| + 1))
    case Lpop(_) =>
      var l := s.List();
      if l == [] then (s, Text(None)) else (s.(items := NonEmptyItems(l[1..])), Text(Some(l[0])))
    case Rpop(_) =>
      var l := s.List();
      if l == [] then (s, Text(None))
      else (s.(items := NonEmptyItems(l[..|l| - 1])), Text(Some(l[|l| - 1])))
    case Llen(_) => (s, Count(|s.List()|))
    case Lrange(_, start, stop) => (s, Items(Slice(s.List(), start, stop)))
  }

  function Deadline(ttl: Option<int>, now: int): Option<int> {
    if ttl.Some? && ttl.value > 0 then Some(now + ttl.value * SECOND) else None
  }

  function ActExpire(s: Slot, seconds: int, now: int): (Slot, Answer) {
    if s.entry.None? then (s, Flag(false))
    else if !s.IsLive(now) then (s.(entry := None), Flag(false))
    else if seconds > 0 then
      (s.(entry := Some(s.entry.value.(expires := Some(now + seconds * SECOND)))), Flag(true))
    else (s.(entry := None), Flag(true))
  }

  function ActTtl(s: Slot, now: int): (Slot, Answer) {
    if s.entry.None? then (s, Count(if s.HasCollection() then -1 else -2))
    else if s.entry.value.expires.None? then (s, Count(-1))
    else if !s.IsLive(now) then (s.(entry := None), Count(-2))
    else (s, Count((s.entry.value.expires.value - now) / SECOND))
  }

  function ActIncrBy(s: Slot, delta: int, now: int): (Slot, Answer) {
    if !s.IsLive(now) then (s.(entry := Some(Entry(DecimalInt(delta), None, now))), Counter(true, delta)) else
      var current := Stoll(s.entry.value.value);
      if current.None? then (s, Counter(false, 0)) else
        var sum := Wrap64(current.value + delta);
        (s.(entry := Some(s.entry.value.(value := DecimalInt(sum), accessed := now))), Counter(true, sum))
  }

  /** A hash or list left empty is erased from its map. */
  function NonEmptyFields(h: Fields): Option<Fields> {
    if h == map[] then None else Some(h)
  }

  function NonEmptyItems(l: seq<string>): Option<seq<string>> {
    if l == [] then None else Some(l)
  }

  /** lrange's index arithmetic: negative indices count from the end. */
  function Slice(items: seq<string>, start: int, stop: int): seq<string> {
    var len := |items|;
    var from := if start >= 0 then start else if len + start > 0 then len + start else 0;
    var to := if stop < 0 then len + stop else stop;
    if from >= len || from > to then [] else items[from..Min(to, len - 1) + 1]
  }

  predicate Within(from: int, p: int, to: int) {
    from <= p <= to
  }

  /** What `lrange` promises: position p of the list is returned exactly when it
      lies between the two bounds, each counted from the end when negative. */
  lemma SliceSelects(items: seq<string>, start: int, stop: int)
    ensures var from := if start < 0 then |items| + start else start;
            var to := if stop < 0 then |items| + stop else stop;
            exists lo, hi ::
              && 0 <= lo <= hi <= |items|
              && Slice(items, start, stop) == items[lo..hi]
              && forall p :: 0 <= p < |items| ==> (lo <= p < hi <==> Within(from, p, to))
  {
    var from := if start < 0 then |items| + start else start;
    var to := if stop < 0 then |items| + stop else stop;
    var lo := if from < 0 then 0 else from;
    if lo >= |items| || lo > to {
      assert Slice(items, start, stop) == items[0..0];
    } else {
      assert Slice(items, start, stop) == items[lo..Min(to, |items| - 1) + 1];
    }
  }

  // ---- the whole store ----------------------------------------------------

  function SlotOf(f: Flat, key: string): Slot {
    Slot(if key in f.strings then Some(f.strings[key]) else None,
         if key in f.hashes then Some(f.hashes[key]) else None,
         if key in f.lists then Some(f.lists[key]) else None)
  }

  function Put<V>(m: map<string, V>, key: string, v: Option<V>): map<string, V> {
    if v.Some? then m[key := v.value] else m - {key}
  }

  function WithSlot(f: Flat, key: string, s: Slot): (g: Flat)
    ensures SlotOf(g, key) == s
    ensures forall k :: k != key ==> SlotOf(g, k) == SlotOf(f, k)
  {
    Flat(Put(f.strings, key, s.entry), Put(f.hashes, key, s.fields), Put(f.lists, key, s.items))
  }

  /** A store is determined by its slots. */
  lemma SlotsDetermine(f: Flat, g: Flat)
    requires forall k :: SlotOf(f, k) == SlotOf(g, k)
    ensures f == g
  {
    forall k
      ensures k in f.strings <==> k in g.strings
      ensures k in f.hashes <==> k in g.hashes
      ensures k in f.lists <==> k in g.lists
      ensures k in f.strings ==> f.strings[k] == g.strings[k]
      ensures k in f.hashes ==> f.hashes[k] == g.hashes[k]
      ensures k in f.lists ==> f.lists[k] == g.lists[k]
    {
      assert SlotOf(f, k) == SlotOf(g, k);
    }
    assert f.strings == g.strings && f.hashes == g.hashes && f.lists == g.lists;
  }

  function Apply(f: Flat, op: Op, now: int): (Flat, Answer) {
    var (s, answer) := Act(SlotOf(f, op.key), op, now);
    (WithSlot(f, op.key, s), answer)
  }

  // ---- the invariant: no hash and no list is ever stored empty ------------

  predicate TidySlot(s: Slot) {
    s.fields != Some(map[]) && s.items != Some([])
  }

  ghost predicate Tidy(f: Flat) {
    forall k :: TidySlot(SlotOf(f, k))
  }

  lemma ActKeepsTidy(s: Slot, op: Op, now: int)
    requires TidySlot(s)
    ensures TidySlot(Act(s, op, now).0)
  {
    if op.Hset? {
      assert op.field in s.Hash()[op.field := op.value];
    }
  }

  lemma ApplyKeepsTidy(f: Flat, op: Op, now: int)
    requires Tidy(f)
    ensures Tidy(Apply(f, op, now).0)
  {
    hide Act, WithSlot, TidySlot, SlotOf;
    ActKeepsTidy(SlotOf(f, op.key), op, now);
    forall k ensures TidySlot(SlotOf(Apply(f, op, now).0, k)) {
      assert TidySlot(SlotOf(f, k));
    }
  }

  // ---- whole-store questions ----------------------------------------------

  /** The keys of the strings that have not expired. */
  function LiveStrings(f: Flat, now: int): set<string> {
    set k | k in f.strings && Live(f.strings[k], now)
  }

  function Size(f: Flat, now: int): nat {
    |LiveStrings(f, now)| + |f.hashes| + |f.lists|
  }

  /** The stored data without deadlines and stamps. */
  datatype Data = Data(strings: map<string, string>, hashes: map<string, Fields>, lists: map<string, seq<string>>)

  function LiveValues(strings: map<string, Entry>, now: int): map<string, string> {
    map k | k in strings && Live(strings[k], now) :: strings[k].value
  }

  function LiveData(f: Flat, now: int): Data {
    Data(LiveValues(f.strings, now), f.hashes, f.lists)
  }

  // ---- equality up to last-access stamps ----------------------------------

  function Unstamped(s: Slot): Slot {
    if s.entry.Some? then s.(entry := Some(s.entry.value.(accessed := 0))) else s
  }

  /** The stores differ at most in when their strings were last accessed. */
  ghost predicate SameButStamps(f: Flat, g: Flat) {
    forall k :: Unstamped(SlotOf(f, k)) == Unstamped(SlotOf(g, k))
  }

  lemma SameToItself(f: Flat)
    ensures SameButStamps(f, f)
  {
  }

  lemma SameBothWays(f: Flat, g: Flat)
    requires SameButStamps(f, g)
    ensures SameButStamps(g, f)
  {
  }

  lemma SameThrough(f: Flat, g: Flat, h: Flat)
    requires SameButStamps(f, g) && SameButStamps(g, h)
    ensures SameButStamps(f, h)
  {
    hide Unstamped, SlotOf;
    forall k ensures Unstamped(SlotOf(f, k)) == Unstamped(SlotOf(h, k)) {
      assert Unstamped(SlotOf(f, k)) == Unstamped(SlotOf(g, k));
      assert Unstamped(SlotOf(g, k)) == Unstamped(SlotOf(h, k));
    }
  }

  predicate NoDeadline(s: Slot) {
    s.entry.Some? ==> s.entry.value.expires.None?
  }

  ghost predicate NoDeadlines(f: Flat) {
    forall k :: NoDeadline(SlotOf(f, k))
  }

  predicate SetsDeadline(op: Op) {
    (op.Set? && op.ttl.Some? && op.ttl.value > 0) || (op.Expire? && op.seconds > 0)
  }

  lemma ActIgnoresStamps(s: Slot, t: Slot, op: Op, now: int, later: int)
    requires Unstamped(s) == Unstamped(t)
    requires now == later || (NoDeadline(s) && !SetsDeadline(op))
    ensures Unstamped(Act(s, op, now).0) == Unstamped(Act(t, op, later).0)
    ensures Act(s, op, now).1 == Act(t, op, later).1
  {
  }

  /** No answer depends on a last-access stamp; and where no deadline is stored or
      set, none depends on the clock either. */
  lemma StampsAreInvisible(f: Flat, g: Flat, op: Op, now: int, later: int)
    requires SameButStamps(f, g)
    requires now == later || (NoDeadlines(f) && !SetsDeadline(op))
    ensures SameButStamps(Apply(f, op, now).0, Apply(g, op, later).0)
    ensures Apply(f, op, now).1 == Apply(g, op, later).1
  {
    hide Act, WithSlot, Unstamped, SlotOf, NoDeadline, SetsDeadline;
    ActIgnoresStamps(SlotOf(f, op.key), SlotOf(g, op.key), op, now, later);
    forall k ensures Unstamped(SlotOf(Apply(f, op, now).0, k)) == Unstamped(SlotOf(Apply(g, op, later).0, k)) {
      assert Unstamped(SlotOf(f, k)) == Unstamped(SlotOf(g, k));
    }
  }

  lemma ActSetsNoDeadline(s: Slot, op: Op, now: int)
    requires NoDeadline(s) && !SetsDeadline(op)
    ensures NoDeadline(Act(s, op, now).0)
  {
  }

  lemma ApplyKeepsNoDeadlines(f: Flat, op: Op, now: int)
    requires NoDeadlines(f) && !SetsDeadline(op)
    ensures NoDeadlines(Apply(f, op, now).0)
  {
    hide Act, WithSlot, NoDeadline, SlotOf, SetsDeadline;
    ActSetsNoDeadline(SlotOf(f, op.key), op, now);
    forall k ensures NoDeadline(SlotOf(Apply(f, op, now).0, k)) {
      assert NoDeadline(SlotOf(f, k));
    }
  }
}
