/** What "least recently used" means to a client: the stamps that eviction compares are
    the times at which strings were last set, read or counted (src/KeyValueStore.cpp). */
module Recency {
  import opened Basics
  import opened Numerals
  import opened FlatStore
  import opened Shards
  import opened Sampling
  import Expiry

  /** What can happen to the store: an operation, or the work of the janitor. */
  datatype Event =
    | Call(op: Op, now: int)
    | Purged(visited: set<string>, at: int)
    | Evicted(victims: set<string>)
    | Cleared

  function Happen(f: Flat, e: Event): Flat {
    match e
    case Call(op, now) => Apply(f, op, now).0
    case Purged(visited, at) => Expiry.Purge(f, visited, at)
    case Evicted(victims) => Evict(f, victims)
    case Cleared => EMPTY
  }

  function After(f: Flat, events: seq<Event>): Flat {
    if events == [] then f else
      var n := |events| - 1;
      Happen(After(f, events[..n]), events[n])
  }

  /** The event is a use of the string: it is set, it is read, or it is counted. Which it
      is can be told from the operation and its answer. */
  predicate Uses(f: Flat, e: Event, key: string) {
    e.Call? && e.op.key == key && IsUse(e.op, Apply(f, e.op, e.now).1)
  }

  predicate IsUse(op: Op, answer: Answer) {
    match op
    case Set(_, _, _) => true
    case Get(_) => answer != Text(None)
    case IncrBy(_, _) => answer != Counter(false, 0)
    case _ => false
  }

  /** The clock sample of the last use of the key in a run, if it was used at all. */
  function LastUse(f: Flat, events: seq<Event>, key: string): Option<int> {
    if events == [] then None else
      var n := |events| - 1;
      if Uses(After(f, events[..n]), events[n], key) then Some(events[n].now)
      else LastUse(f, events[..n], key)
  }

  lemma ActStamps(s: Slot, op: Op, now: int)
    requires Act(s, op, now).0.entry.Some?
    ensures var (t, answer) := Act(s, op, now);
            if IsUse(op, answer) then t.entry.value.accessed == now
            else s.entry.Some? && t.entry.value.accessed == s.entry.value.accessed
  {
    hide Stoll, DecimalInt, Slice, Wrap64;
  }

  lemma CallStamps(f: Flat, op: Op, now: int, key: string)
    requires key in Apply(f, op, now).0.strings
    ensures Uses(f, Call(op, now), key) ==> Apply(f, op, now).0.strings[key].accessed == now
    ensures !Uses(f, Call(op, now), key) ==>
              key in f.strings && Apply(f, op, now).0.strings[key].accessed == f.strings[key].accessed
  {
    hide Act, WithSlot, IsUse;
    var g := Apply(f, op, now).0;
    assert SlotOf(g, key).entry == Some(g.strings[key]);
    if key == op.key {
      assert SlotOf(g, key) == Act(SlotOf(f, key), op, now).0;
      ActStamps(SlotOf(f, key), op, now);
    } else {
      assert SlotOf(g, key) == SlotOf(f, key);
    }
  }

  lemma EventStamps(f: Flat, e: Event, key: string)
    requires key in Happen(f, e).strings
    ensures Uses(f, e, key) ==> Happen(f, e).strings[key].accessed == e.now
    ensures !Uses(f, e, key) ==> key in f.strings && Happen(f, e).strings[key].accessed == f.strings[key].accessed
  {
    hide Apply;
    if e.Call? { CallStamps(f, e.op, e.now, key); }
  }

  /** After any run from an empty store every string bears the time of its last use. */
  lemma {:induction false} StampIsLastUse(events: seq<Event>, key: string)
    requires key in After(EMPTY, events).strings
    ensures LastUse(EMPTY, events, key) == Some(After(EMPTY, events).strings[key].accessed)
  {
    hide Happen, Uses;
    if events != [] {
      var n := |events| - 1;
      EventStamps(After(EMPTY, events[..n]), events[n], key);
      if !Uses(After(EMPTY, events[..n]), events[n], key) {
        StampIsLastUse(events[..n], key);
      }
    }
  }

  /** So eviction goes by use: no victim was used later than a string of the sample that
      stays; and with at most ten strings in every shard, than any string that stays. */
  lemma LeastRecentlyUsedGo(events: seq<Event>, hash: Hash, sample: set<string>, victims: set<string>, k: nat)
    requires var strings := After(EMPTY, events).strings;
             IsSample(sample, strings, hash) && IsEviction(victims, sample, k, strings)
    ensures var strings := After(EMPTY, events).strings;
            var small := forall i :: 0 <= i < NUM_SHARDS ==> |In(strings, hash, i)| <= 10;
            forall v, s :: v in victims && s in strings && s !in victims && (s in sample || small) ==>
              && LastUse(EMPTY, events, v).Some? && LastUse(EMPTY, events, s).Some?
              && LastUse(EMPTY, events, v).value <= LastUse(EMPTY, events, s).value
  {
    hide After, LastUse, In, InShard, IsSample;
    var strings := After(EMPTY, events).strings;
    var small := forall i :: 0 <= i < NUM_SHARDS ==> |In(strings, hash, i)| <= 10;
    if small { EvictionIsGloballyLru(victims, sample, k, strings, hash); }
    forall v, s | v in victims && s in strings && s !in victims && (s in sample || small)
      ensures LastUse(EMPTY, events, v).Some? && LastUse(EMPTY, events, s).Some?
      ensures LastUse(EMPTY, events, v).value <= LastUse(EMPTY, events, s).value
    {
      assert v in strings;
      StampIsLastUse(events, v);
      StampIsLastUse(events, s);
    }
  }

  /** Three strings are set, the first is read: it is the second that goes. */
  lemma TheOneJustReadStays(hash: Hash, sample: set<string>, victims: set<string>, events: seq<Event>)
    requires events == [Call(Set("k1", "a", None), 1), Call(Set("k2", "b", None), 2), Call(Set("k3", "c", None), 3),
                        Call(Get("k1"), 4)]
    requires var strings := After(EMPTY, events).strings;
             IsSample(sample, strings, hash) && IsEviction(victims, sample, 1, strings)
    ensures victims == {"k2"}
  {
    var strings := After(EMPTY, events).strings;
    ThreeStrings(events);
    hide After, IsSample, IsEviction;
    OldestOfThree(strings);
    SampleIsAll(sample, strings, hash);
    TheOldestGoes(victims, strings, "k2");
  }

  lemma OldestOfThree(strings: map<string, Entry>)
    requires strings
             == map["k1" := Entry("a", None, 4), "k2" := Entry("b", None, 2), "k3" := Entry("c", None, 3)]
    ensures |strings| == 3 && "k2" in strings
    ensures forall k :: k in strings && k != "k2" ==> strings["k2"].accessed < strings[k].accessed
  {
    assert strings.Keys == {"k1", "k2", "k3"};
    assert strings["k1"].accessed == 4 && strings["k2"].accessed == 2 && strings["k3"].accessed == 3;
  }

  lemma TheOldestGoes(victims: set<string>, strings: map<string, Entry>, oldest: string)
    requires IsEviction(victims, strings.Keys, 1, strings) && oldest in strings
    requires forall k :: k in strings && k != oldest ==> strings[oldest].accessed < strings[k].accessed
    ensures victims == {oldest}
  {
    assert |strings.Keys| > 0;
    var v :| v in victims;
    OneElement(victims, v);
  }

  lemma ThreeStrings(events: seq<Event>)
    requires events == [Call(Set("k1", "a", None), 1), Call(Set("k2", "b", None), 2), Call(Set("k3", "c", None), 3),
                        Call(Get("k1"), 4)]
    ensures After(EMPTY, events).strings
            == map["k1" := Entry("a", None, 4), "k2" := Entry("b", None, 2), "k3" := Entry("c", None, 3)]
  {
    assert events[..3][..2] == events[..2] && events[..2][..1] == events[..1] && events[..1][..0] == [];
    assert After(EMPTY, []) == EMPTY;
    assert After(EMPTY, events[..1]).strings == map["k1" := Entry("a", None, 1)];
    assert After(EMPTY, events[..2]).strings == map["k1" := Entry("a", None, 1), "k2" := Entry("b", None, 2)];
    assert After(EMPTY, events[..3]).strings
           == map["k1" := Entry("a", None, 1), "k2" := Entry("b", None, 2), "k3" := Entry("c", None, 3)];
  }

  lemma SampleIsAll(sample: set<string>, strings: map<string, Entry>, hash: Hash)
    requires IsSample(sample, strings, hash) && |strings| <= 10
    ensures sample == strings.Keys
  {
    forall i | 0 <= i < NUM_SHARDS ensures |In(strings, hash, i)| <= 10 {
      Subset(In(strings, hash, i).Keys, strings.Keys);
    }
    IsEvictionOfNone(sample, strings);
    EvictionIsGloballyLru({}, sample, 0, strings, hash);
  }

  lemma IsEvictionOfNone(sample: set<string>, strings: map<string, Entry>)
    requires sample <= strings.Keys
    ensures IsEviction({}, sample, 0, strings)
  {
  }

  lemma OneElement(s: set<string>, x: string)
    requires |s| == 1 && x in s
    ensures s == {x}
  {
    assert |s - {x}| == 0;
  }
}
