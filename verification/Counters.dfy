/** Counters sum exactly: what a series of `incr_by` calls on one key answers and
    leaves, whatever the order of the deltas (src/KeyValueStore.cpp, `incr_by`). */
module Counters {
  import opened Basics
  import opened Numerals
  import opened FlatStore
  import opened Replay

  /** The store after the first n calls; the i-th takes the clock's sample i. */
  function IncrAll(f: Flat, key: string, deltas: seq<int>, n: nat, clock: Clock): Flat
    requires n <= |deltas|
  {
    if n == 0 then f else
      Apply(IncrAll(f, key, deltas, n - 1, clock), IncrBy(key, deltas[n - 1]), clock.at(n - 1)).0
  }

  /** What call number n (from 0) answers. */
  function AnswerTo(f: Flat, key: string, deltas: seq<int>, n: nat, clock: Clock): Answer
    requires n < |deltas|
  {
    Apply(IncrAll(f, key, deltas, n, clock), IncrBy(key, deltas[n]), clock.at(n)).1
  }

  /** The exact running total, in unbounded arithmetic. */
  function Total(start: int, deltas: seq<int>, n: nat): int
    requires n <= |deltas|
  {
    if n == 0 then start else Total(start, deltas, n - 1) + deltas[n - 1]
  }

  /** The key is missing (or expired), or holds text that reads as `start` and does
      not expire at any of the n + 1 samples. */
  predicate StartsAt(f: Flat, key: string, start: int, clock: Clock, n: nat) {
    var s := SlotOf(f, key);
    if !s.IsLive(clock.at(0)) then start == 0
    else Stoll(s.entry.value.value) == Some(start) && forall i :: 0 <= i <= n ==> Live(s.entry.value, clock.at(i))
  }

  predicate AllInt64(deltas: seq<int>) {
    forall i :: 0 <= i < |deltas| ==> IsInt64(deltas[i])
  }

  lemma WrapAdds(a: int, d: int)
    ensures Wrap64(Wrap64(a) + d) == Wrap64(a + d)
  {
    var q := (a - INT64_MIN) / TWO_64;
    assert Wrap64(a) == a - q * TWO_64;
    WrapMultiple(a + d, q);
  }

  lemma WrapMultiple(a: int, q: int)
    ensures Wrap64(a - q * TWO_64) == Wrap64(a)
  {
    var x := a - INT64_MIN;
    ModMultiple(x, q);
  }

  lemma ModMultiple(x: int, q: int)
    ensures (x - q * TWO_64) % TWO_64 == x % TWO_64
  {
    var k := x / TWO_64;
    assert x - q * TWO_64 == (k - q) * TWO_64 + x % TWO_64;
  }

  /** One call on one slot. */
  lemma IncrOnce(s: Slot, key: string, delta: int, now: int, current: int)
    requires if s.IsLive(now) then Stoll(s.entry.value.value) == Some(current) else current == 0 && IsInt64(delta)
    ensures var (t, answer) := Act(s, IncrBy(key, delta), now);
            && answer == Counter(true, Wrap64(current + delta))
            && t.entry.Some? && t.entry.value.value == DecimalInt(Wrap64(current + delta))
            && t.entry.value.expires == if s.IsLive(now) then s.entry.value.expires else None
  {
    hide Stoll, DecimalInt;
  }

  /** After some calls the key holds the canonical text of the wrapped total. */
  lemma {:induction false} CounterHolds(f: Flat, key: string, start: int, deltas: seq<int>, n: nat, clock: Clock)
    requires n < |deltas| && StartsAt(f, key, start, clock, |deltas|) && AllInt64(deltas)
    ensures AnswerTo(f, key, deltas, n, clock) == Counter(true, Wrap64(Total(start, deltas, n + 1)))
    ensures var s := SlotOf(IncrAll(f, key, deltas, n + 1, clock), key);
            && s.entry.Some? && s.entry.value.value == DecimalInt(Wrap64(Total(start, deltas, n + 1)))
            && forall i :: n <= i <= |deltas| ==> Live(s.entry.value, clock.at(i))
  {
    hide Stoll, DecimalInt, Wrap64, Act, SlotOf, WithSlot;
    var g := IncrAll(f, key, deltas, n, clock);
    assert IncrAll(f, key, deltas, n + 1, clock) == Apply(g, IncrBy(key, deltas[n]), clock.at(n)).0;
    if n > 0 {
      CounterHolds(f, key, start, deltas, n - 1, clock);
      StollOfDecimalInt(Wrap64(Total(start, deltas, n)));
      IncrOnce(SlotOf(g, key), key, deltas[n], clock.at(n), Wrap64(Total(start, deltas, n)));
      WrapAdds(Total(start, deltas, n), deltas[n]);
    } else {
      assert g == f && Total(start, deltas, 0) == start;
      IncrOnce(SlotOf(f, key), key, deltas[0], clock.at(0), start);
    }
  }

  /** Every call answers the running total, and a `get` after it returns its decimal
      text, exactly as long as the total is an std::int64_t. */
  lemma CountersSum(f: Flat, key: string, start: int, deltas: seq<int>, n: nat, clock: Clock)
    requires n < |deltas| && StartsAt(f, key, start, clock, |deltas|) && AllInt64(deltas)
    ensures var total := Total(start, deltas, n + 1);
            && (AnswerTo(f, key, deltas, n, clock) == Counter(true, total) <==> IsInt64(total))
            && (Apply(IncrAll(f, key, deltas, n + 1, clock), Get(key), clock.at(n + 1)).1
                == Text(Some(DecimalInt(total)))
                <==> IsInt64(total))
  {
    hide Stoll, DecimalInt, IncrAll, Total, WithSlot;
    var total := Total(start, deltas, n + 1);
    CounterHolds(f, key, start, deltas, n, clock);
    if !IsInt64(total) { DecimalIntInjective(total, Wrap64(total)); }
  }

  lemma DecimalIntInjective(m: int, n: int)
    requires m != n
    ensures DecimalInt(m) != DecimalInt(n)
  {
    if m < 0 && n < 0 {
      assert DecimalInt(m)[1..] == Decimal(-m) && DecimalInt(n)[1..] == Decimal(-n);
      if Decimal(-m) == Decimal(-n) { DecimalInjective(-m, -n); }
    } else if m >= 0 && n >= 0 {
      if Decimal(m) == Decimal(n) { DecimalInjective(m, n); }
    } else {
      assert DecimalInt(m)[0] == '-' <==> m < 0;
      assert DecimalInt(n)[0] == '-' <==> n < 0;
    }
  }

  // ---- any order ------------------------------------------------------------------------

  lemma {:induction false} TotalOfSum(start: int, deltas: seq<int>, n: nat)
    requires n <= |deltas|
    ensures Total(start, deltas, n) == start + Total(0, deltas, n)
  {
    if n > 0 { TotalOfSum(start, deltas, n - 1); }
  }

  lemma {:induction false} TotalWithout(deltas: seq<int>, i: nat, n: nat)
    requires i < n <= |deltas|
    ensures Total(0, deltas, n) == deltas[i] + Total(0, deltas[..i] + deltas[i + 1..], n - 1)
  {
    var rest := deltas[..i] + deltas[i + 1..];
    if n - 1 == i {
      SameTotal(deltas, rest, i);
    } else {
      TotalWithout(deltas, i, n - 1);
      assert rest[n - 2] == deltas[n - 1];
    }
  }

  lemma {:induction false} SameTotal(a: seq<int>, b: seq<int>, n: nat)
    requires n <= |a| && n <= |b| && forall j :: 0 <= j < n ==> a[j] == b[j]
    ensures Total(0, a, n) == Total(0, b, n)
  {
    if n > 0 { SameTotal(a, b, n - 1); }
  }

  /** Taking one element out of a sequence, at any place. */
  lemma WithoutOne(b: seq<int>, i: nat)
    requires i < |b|
    ensures multiset(b[..i] + b[i + 1..]) == multiset(b) - multiset{b[i]}
  {
    assert b == b[..i] + [b[i]] + b[i + 1..];
  }

  lemma SameLength(a: seq<int>, b: seq<int>)
    requires multiset(a) == multiset(b)
    ensures |a| == |b|
  {
    assert |multiset(a)| == |a| && |multiset(b)| == |b|;
  }

  lemma {:induction false} SumIgnoresOrder(a: seq<int>, b: seq<int>)
    requires multiset(a) == multiset(b)
    ensures |a| == |b| && Total(0, a, |a|) == Total(0, b, |b|)
    decreases |a|
  {
    SameLength(a, b);
    if a != [] {
      var n := |a| - 1;
      assert a[n] in multiset(a);
      var i :| 0 <= i < |b| && b[i] == a[n];
      var most, rest := a[..n], b[..i] + b[i + 1..];
      WithoutOne(a, n);
      assert a[..n] + a[n + 1..] == most;
      WithoutOne(b, i);
      SumIgnoresOrder(most, rest);
      TotalWithout(b, i, |b|);
      SameTotal(a, most, n);
    }
  }

  lemma GetAfterAll(f: Flat, key: string, start: int, deltas: seq<int>, clock: Clock)
    requires deltas != [] && AllInt64(deltas) && StartsAt(f, key, start, clock, |deltas|)
    ensures Apply(IncrAll(f, key, deltas, |deltas|, clock), Get(key), clock.at(|deltas|)).1
            == Text(Some(DecimalInt(Wrap64(start + Total(0, deltas, |deltas|)))))
  {
    hide Total, IncrAll, DecimalInt, Wrap64, StartsAt, WithSlot;
    CounterHolds(f, key, start, deltas, |deltas| - 1, clock);
    TotalOfSum(start, deltas, |deltas|);
  }

  lemma SameDeltas(a: seq<int>, b: seq<int>)
    requires multiset(a) == multiset(b) && AllInt64(a)
    ensures AllInt64(b)
  {
    forall i | 0 <= i < |b| ensures IsInt64(b[i]) {
      assert b[i] in multiset(b);
    }
  }

  /** The order of the calls does not change the value they leave. */
  lemma OrderDoesNotMatter(f: Flat, key: string, start: int, a: seq<int>, b: seq<int>, clock: Clock)
    requires multiset(a) == multiset(b) && a != [] && AllInt64(a)
    requires StartsAt(f, key, start, clock, |a|)
    ensures |a| == |b|
    ensures Apply(IncrAll(f, key, a, |a|, clock), Get(key), clock.at(|a|)).1
            == Apply(IncrAll(f, key, b, |b|, clock), Get(key), clock.at(|b|)).1
            == Text(Some(DecimalInt(Wrap64(start + Total(0, a, |a|)))))
  {
    hide Total, IncrAll, DecimalInt, Wrap64, StartsAt, AllInt64, Apply;
    SumIgnoresOrder(a, b);
    SameDeltas(a, b);
    GetAfterAll(f, key, start, a, clock);
    GetAfterAll(f, key, start, b, clock);
  }

  function Abs(i: int): nat {
    if i < 0 then -i else i
  }

  function AbsTotal(deltas: seq<int>, n: nat): nat
    requires n <= |deltas|
  {
    if n == 0 then 0 else AbsTotal(deltas, n - 1) + Abs(deltas[n - 1])
  }

  /** Where the start and the absolute deltas fit together, no running total leaves
      std::int64_t, in any order: nothing ever wraps. */
  lemma {:induction false} FittingNeverWraps(start: int, deltas: seq<int>, n: nat)
    requires n <= |deltas| && Abs(start) + AbsTotal(deltas, |deltas|) <= INT64_MAX
    ensures IsInt64(Total(start, deltas, n)) && Abs(Total(start, deltas, n)) <= Abs(start) + AbsTotal(deltas, n)
  {
    AbsTotalGrows(deltas, n, |deltas|);
    if n > 0 { FittingNeverWraps(start, deltas, n - 1); }
  }

  lemma {:induction false} AbsTotalGrows(deltas: seq<int>, n: nat, m: nat)
    requires n <= m <= |deltas|
    ensures AbsTotal(deltas, n) <= AbsTotal(deltas, m)
    decreases m
  {
    if n < m { AbsTotalGrows(deltas, n, m - 1); }
  }
}
