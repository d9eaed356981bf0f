/** Many threads on one store. Each operation runs as one section under its shard's
    lock, except `get` (src/KeyValueStore.cpp, lines 20-56) and `ttl` (lines 109-136),
    which may take the lock twice. Whatever the interleaving, the answers are those of
    the flat store taken in some sequential order that respects real time, unless the
    second section of `ttl` erases something it has not looked at. */
module Linearizability {
  import opened Basics
  import opened FlatStore

  /** An operation together with its clock sample, the answer it gives, and the number
      of the step at which it began. */
  datatype Call = Call(thread: nat, op: Op, now: int, answer: Answer, began: nat)

  /** Where a thread is between its lock sections. */
  datatype Pc =
    | Idle
    | Touching(call: Call)                       // get found it live, will refresh the stamp
    | Rechecking(key: string, now: int, began: nat) // get found it expired, will look again
    | Erasing(key: string, now: int, began: nat)    // ttl found it expired, will erase

  /** One lock section of one thread, with the operation's clock sample. */
  datatype Section =
    | Whole(op: Op, now: int)
    | Look(key: string, now: int)
    | Touch
    | Recheck
    | TtlLook(key: string, now: int)
    | TtlErase

  datatype Step = Step(thread: nat, section: Section)

  /** `order` lists the operations as they take effect, `returned` as they return. */
  datatype State = State(store: Flat, pcs: map<nat, Pc>, order: seq<Call>, returned: seq<Call>, steps: nat)

  function PcOf(s: State, thread: nat): Pc {
    if thread in s.pcs then s.pcs[thread] else Idle
  }

  predicate Enabled(s: State, step: Step) {
    match step.section
    case Whole(op, _) => PcOf(s, step.thread).Idle? && !op.Get? && !op.Ttl?
    case Look(_, _) => PcOf(s, step.thread).Idle?
    case Touch => PcOf(s, step.thread).Touching?
    case Recheck => PcOf(s, step.thread).Rechecking?
    case TtlLook(_, _) => PcOf(s, step.thread).Idle?
    case TtlErase => PcOf(s, step.thread).Erasing?
  }

  function Effect(s: State, step: Step): State
    requires Enabled(s, step)
  {
    SectionEffect(s, step).(steps := s.steps + 1)
  }

  function SectionEffect(s: State, step: Step): State
    requires Enabled(s, step)
  {
    match step.section
    case Whole(op, now) => EffectOfWhole(s, step.thread, op, now)
    case Look(key, now) => EffectOfLook(s, step.thread, key, now)
    case Touch => EffectOfTouch(s, step.thread)
    case Recheck => EffectOfRecheck(s, step.thread)
    case TtlLook(key, now) => EffectOfTtlLook(s, step.thread, key, now)
    case TtlErase => EffectOfTtlErase(s, step.thread)
  }

  /** The call takes effect and returns in the same section. */
  function Respond(s: State, call: Call): State {
    s.(order := s.order + [call], returned := s.returned + [call])
  }

  function Resume(s: State, thread: nat, pc: Pc): State {
    s.(pcs := s.pcs[thread := pc])
  }

  function EffectOfWhole(s: State, thread: nat, op: Op, now: int): State {
    var (store, answer) := Apply(s.store, op, now);
    Respond(s.(store := store), Call(thread, op, now, answer, s.steps))
  }

  /** The first section of `get`, under the shared lock. */
  function EffectOfLook(s: State, thread: nat, key: string, now: int): State {
    var entry := SlotOf(s.store, key).entry;
    if entry.None? then
      Respond(s, Call(thread, Get(key), now, Text(None), s.steps))
    else if Live(entry.value, now) then
      var call := Call(thread, Get(key), now, Text(Some(entry.value.value)), s.steps);
      Resume(s, thread, Touching(call)).(order := s.order + [call])
    else
      Resume(s, thread, Rechecking(key, now, s.steps))
  }

  /** Its second section when the entry was live: refresh the stamp of whatever is
      stored there now, and return the value read before. */
  function EffectOfTouch(s: State, thread: nat): State
    requires PcOf(s, thread).Touching?
  {
    var call := PcOf(s, thread).call;
    var slot := SlotOf(s.store, call.op.key);
    var touched := if slot.entry.Some? then slot.(entry := Some(slot.entry.value.(accessed := call.now))) else slot;
    Resume(s, thread, Idle).(store := WithSlot(s.store, call.op.key, touched), returned := s.returned + [call])
  }

  /** Its second section when the entry had expired: erase it only if it still has. */
  function EffectOfRecheck(s: State, thread: nat): State
    requires PcOf(s, thread).Rechecking?
  {
    var pc := PcOf(s, thread);
    var slot := SlotOf(s.store, pc.key);
    var idle := Resume(s, thread, Idle);
    if slot.entry.None? then
      Respond(idle, Call(thread, Get(pc.key), pc.now, Text(None), pc.began))
    else if Live(slot.entry.value, pc.now) then
      Respond(idle, Call(thread, Get(pc.key), pc.now, Text(Some(slot.entry.value.value)), pc.began))
    else
      Respond(idle.(store := WithSlot(s.store, pc.key, slot.(entry := None))),
              Call(thread, Get(pc.key), pc.now, Text(None), pc.began))
  }

  /** The first section of `ttl`, under the shared lock. */
  function EffectOfTtlLook(s: State, thread: nat, key: string, now: int): State {
    var slot := SlotOf(s.store, key);
    if slot.entry.None? then
      Respond(s, Call(thread, Ttl(key), now, Count(if slot.HasCollection() then -1 else -2), s.steps))
    else if slot.entry.value.expires.None? then
      Respond(s, Call(thread, Ttl(key), now, Count(-1), s.steps))
    else if slot.entry.value.expires.value <= now then
      Resume(s, thread, Erasing(key, now, s.steps))
    else
      Respond(s, Call(thread, Ttl(key), now, Count((slot.entry.value.expires.value - now) / SECOND), s.steps))
  }

  /** Its second section: erase whatever string is stored there by now. */
  function EffectOfTtlErase(s: State, thread: nat): State
    requires PcOf(s, thread).Erasing?
  {
    var pc := PcOf(s, thread);
    var slot := SlotOf(s.store, pc.key);
    Respond(Resume(s, thread, Idle).(store := WithSlot(s.store, pc.key, slot.(entry := None))),
            Call(thread, Ttl(pc.key), pc.now, Count(-2), pc.began))
  }

  // ---- runs -----------------------------------------------------------------

  predicate Feasible(f: Flat, steps: seq<Step>)
    decreases |steps|, 0
  {
    steps == [] ||
    (var n := |steps| - 1; Feasible(f, steps[..n]) && Enabled(Execute(f, steps[..n]), steps[n]))
  }

  function Execute(f: Flat, steps: seq<Step>): State
    requires Feasible(f, steps)
    decreases |steps|, 1
  {
    if steps == [] then State(f, map[], [], [], 0) else
      Effect(Execute(f, steps[..|steps| - 1]), steps[|steps| - 1])
  }

  lemma ExecuteSnoc(f: Flat, steps: seq<Step>, step: Step)
    requires Feasible(f, steps) && Enabled(Execute(f, steps), step)
    ensures Feasible(f, steps + [step]) && Execute(f, steps + [step]) == Effect(Execute(f, steps), step)
  {
    assert (steps + [step])[..|steps|] == steps;
  }

  // ---- the sequential specification ------------------------------------------

  /** The flat store after the calls, one at a time. */
  function Serial(f: Flat, calls: seq<Call>): Flat {
    if calls == [] then f else
      var last := calls[|calls| - 1];
      Apply(Serial(f, calls[..|calls| - 1]), last.op, last.now).0
  }

  /** Every call gives the answer the flat store gives in that order. */
  predicate Legal(f: Flat, calls: seq<Call>) {
    calls == [] ||
    (var n := |calls| - 1;
     Legal(f, calls[..n]) && calls[n].answer == Apply(Serial(f, calls[..n]), calls[n].op, calls[n].now).1)
  }

  function CallsOf(calls: seq<Call>, thread: nat): seq<Call> {
    if calls == [] then [] else
      CallsOf(calls[..|calls| - 1], thread)
      + (if calls[|calls| - 1].thread == thread then [calls[|calls| - 1]] else [])
  }

  /** The call that has taken effect but not returned yet. */
  function Outstanding(s: State, thread: nat): seq<Call> {
    match PcOf(s, thread)
    case Touching(call) => [call]
    case _ => []
  }

  /** Each thread's returned calls are its calls in the order of effect, but for one. */
  ghost predicate KeepsOrder(s: State) {
    forall t :: CallsOf(s.order, t) == CallsOf(s.returned, t) + Outstanding(s, t)
  }

  ghost predicate Linearized(f: Flat, s: State) {
    && Legal(f, s.order)
    && SameButStamps(Serial(f, s.order), s.store)
    && KeepsOrder(s)
    && forall t :: PcMeansGet(s, t)
  }

  /** A thread that is touching has a `get` of its own outstanding. */
  predicate PcMeansGet(s: State, thread: nat) {
    PcOf(s, thread).Touching? ==> PcOf(s, thread).call.op.Get? && PcOf(s, thread).call.thread == thread
  }

  lemma CallsSnoc(calls: seq<Call>, call: Call, thread: nat)
    ensures CallsOf(calls + [call], thread)
            == CallsOf(calls, thread) + (if call.thread == thread then [call] else [])
  {
    assert (calls + [call])[..|calls|] == calls;
  }

  lemma SerialSnoc(f: Flat, calls: seq<Call>, call: Call)
    ensures Serial(f, calls + [call]) == Apply(Serial(f, calls), call.op, call.now).0
    ensures Legal(f, calls + [call]) <==>
            Legal(f, calls) && call.answer == Apply(Serial(f, calls), call.op, call.now).1
  {
    hide Apply;
    assert (calls + [call])[..|calls|] == calls;
  }

  /** A call takes effect on a store that differs from the sequential one in stamps
      only: the history stays legal exactly when the answer is the store's. */
  lemma TakesEffect(f: Flat, order: seq<Call>, store: Flat, call: Call)
    requires Legal(f, order) && SameButStamps(Serial(f, order), store)
    ensures Legal(f, order + [call]) <==> call.answer == Apply(store, call.op, call.now).1
    ensures SameButStamps(Serial(f, order + [call]), Apply(store, call.op, call.now).0)
  {
    hide Apply, Unstamped, SlotOf;
    SerialSnoc(f, order, call);
    StampsAreInvisible(Serial(f, order), store, call.op, call.now, call.now);
  }

  // ---- each section --------------------------------------------------------------

  /** What the operation's flat counterpart does, if it takes effect now. */
  ghost predicate Agrees(s: State, call: Call, after: Flat) {
    call.answer == Apply(s.store, call.op, call.now).1 && SameButStamps(Apply(s.store, call.op, call.now).0, after)
  }

  /** A section in which an idle or resumed thread's call takes effect and returns. */
  lemma Responds(f: Flat, s: State, call: Call, after: Flat)
    requires Linearized(f, s) && !PcOf(s, call.thread).Touching? && Agrees(s, call, after)
    ensures Linearized(f, Respond(Resume(s, call.thread, Idle).(store := after), call))
  {
    hide Apply, SameButStamps, Serial, Legal, CallsOf;
    var r := Respond(Resume(s, call.thread, Idle).(store := after), call);
    TakesEffect(f, s.order, s.store, call);
    SameThrough(Serial(f, r.order), Apply(s.store, call.op, call.now).0, after);
    assert Outstanding(s, call.thread) == [] == Outstanding(r, call.thread);
    forall t ensures CallsOf(r.order, t) == CallsOf(r.returned, t) + Outstanding(r, t) {
      assert t != call.thread ==> Outstanding(r, t) == Outstanding(s, t);
      CallsSnoc(s.order, call, t);
      CallsSnoc(s.returned, call, t);
    }
    forall t ensures PcMeansGet(r, t) {
      assert PcMeansGet(s, t);
    }
  }

  /** Linearized does not see whether an idle thread is recorded, nor the step count. */
  lemma SameForLinearized(f: Flat, s: State, r: State)
    requires Linearized(f, s) && r.store == s.store && r.order == s.order && r.returned == s.returned
    requires forall t :: PcOf(r, t) == PcOf(s, t) || (!PcOf(r, t).Touching? && !PcOf(s, t).Touching?)
    ensures Linearized(f, r)
  {
    hide SameButStamps, Serial, Legal, CallsOf;
    forall t
      ensures CallsOf(r.order, t) == CallsOf(r.returned, t) + Outstanding(r, t)
      ensures PcMeansGet(r, t)
    {
      assert Outstanding(r, t) == Outstanding(s, t);
      assert PcMeansGet(s, t);
    }
  }

  lemma WholeIsLinearized(f: Flat, s: State, thread: nat, op: Op, now: int)
    requires Linearized(f, s) && PcOf(s, thread).Idle?
    ensures Linearized(f, EffectOfWhole(s, thread, op, now))
  {
    hide Apply, SameButStamps, Linearized;
    var (store, answer) := Apply(s.store, op, now);
    var call := Call(thread, op, now, answer, s.steps);
    SameToItself(store);
    Responds(f, s, call, store);
    SameForLinearized(f, Respond(Resume(s, thread, Idle).(store := store), call), EffectOfWhole(s, thread, op, now));
  }

  /** What `get` does to the flat store. */
  lemma GetOnFlat(store: Flat, key: string, now: int)
    ensures var entry := SlotOf(store, key).entry;
            && Apply(store, Get(key), now).1
               == Text(if entry.Some? && Live(entry.value, now) then Some(entry.value.value) else None)
            && (entry.None? || Live(entry.value, now) ==> SameButStamps(Apply(store, Get(key), now).0, store))
            && (entry.Some? && !Live(entry.value, now) ==>
                  Apply(store, Get(key), now).0 == WithSlot(store, key, SlotOf(store, key).(entry := None)))
  {
  }

  /** What `ttl` does to the flat store. */
  lemma TtlOnFlat(store: Flat, key: string, now: int)
    ensures var slot := SlotOf(store, key);
            && (slot.entry.None? ==> Apply(store, Ttl(key), now).1 == Count(if slot.HasCollection() then -1 else -2))
            && (slot.entry.Some? && slot.entry.value.expires.None? ==> Apply(store, Ttl(key), now).1 == Count(-1))
            && (slot.IsLive(now) && slot.entry.value.expires.Some? ==>
                  Apply(store, Ttl(key), now).1 == Count((slot.entry.value.expires.value - now) / SECOND))
            && (slot.entry.Some? && !slot.IsLive(now) ==> Apply(store, Ttl(key), now).1 == Count(-2))
            && (slot.entry.None? || slot.IsLive(now) ==> SameButStamps(Apply(store, Ttl(key), now).0, store))
            && SameButStamps(WithSlot(store, key, slot), store)
            && (slot.entry.None? || !slot.IsLive(now) ==>
                  SameButStamps(Apply(store, Ttl(key), now).0, WithSlot(store, key, slot.(entry := None))))
  {
  }

  lemma LookIsLinearized(f: Flat, s: State, thread: nat, key: string, now: int)
    requires Linearized(f, s) && PcOf(s, thread).Idle?
    ensures Linearized(f, EffectOfLook(s, thread, key, now))
  {
    hide Apply, SameButStamps, SlotOf, Linearized, Live;
    GetOnFlat(s.store, key, now);
    var entry, after := SlotOf(s.store, key).entry, EffectOfLook(s, thread, key, now);
    if entry.None? {
      var call := Call(thread, Get(key), now, Text(None), s.steps);
      Responds(f, s, call, s.store);
      SameForLinearized(f, Respond(Resume(s, thread, Idle).(store := s.store), call), after);
    } else if Live(entry.value, now) {
      var call := Call(thread, Get(key), now, Text(Some(entry.value.value)), s.steps);
      AwaitsTouch(f, s, call);
    } else {
      SameForLinearized(f, s, after);
    }
  }

  /** The call takes effect; its thread will return it later. */
  lemma AwaitsTouch(f: Flat, s: State, call: Call)
    requires Linearized(f, s) && PcOf(s, call.thread).Idle? && call.op.Get? && Agrees(s, call, s.store)
    ensures Linearized(f, Resume(s, call.thread, Touching(call)).(order := s.order + [call]))
  {
    hide Apply, SameButStamps, Serial, Legal, CallsOf;
    var r := Resume(s, call.thread, Touching(call)).(order := s.order + [call]);
    TakesEffect(f, s.order, s.store, call);
    SameThrough(Serial(f, r.order), Apply(s.store, call.op, call.now).0, s.store);
    assert Outstanding(s, call.thread) == [] && Outstanding(r, call.thread) == [call];
    forall t ensures CallsOf(r.order, t) == CallsOf(r.returned, t) + Outstanding(r, t) {
      assert t != call.thread ==> Outstanding(r, t) == Outstanding(s, t);
      CallsSnoc(s.order, call, t);
    }
    forall t ensures PcMeansGet(r, t) {
      assert PcMeansGet(s, t);
    }
  }

  lemma TouchChangesStampsOnly(s: State, thread: nat)
    requires PcOf(s, thread).Touching?
    ensures SameButStamps(s.store, EffectOfTouch(s, thread).store)
  {
  }

  lemma TouchIsLinearized(f: Flat, s: State, thread: nat)
    requires Linearized(f, s) && PcOf(s, thread).Touching?
    ensures Linearized(f, EffectOfTouch(s, thread))
  {
    hide Serial, Legal, CallsOf, SameButStamps, SlotOf, WithSlot;
    var call, after := PcOf(s, thread).call, EffectOfTouch(s, thread);
    TouchChangesStampsOnly(s, thread);
    SameThrough(Serial(f, s.order), s.store, after.store);
    assert PcMeansGet(s, thread);
    assert Outstanding(s, thread) == [call] && Outstanding(after, thread) == [];
    forall t ensures CallsOf(after.order, t) == CallsOf(after.returned, t) + Outstanding(after, t) {
      assert t != thread ==> Outstanding(after, t) == Outstanding(s, t);
      CallsSnoc(s.returned, call, t);
    }
    forall t ensures PcMeansGet(after, t) {
      assert PcMeansGet(s, t);
    }
  }

  lemma RecheckIsLinearized(f: Flat, s: State, thread: nat)
    requires Linearized(f, s) && PcOf(s, thread).Rechecking?
    ensures Linearized(f, EffectOfRecheck(s, thread))
  {
    hide Apply, SameButStamps, SlotOf, WithSlot, Linearized, Live;
    var pc := PcOf(s, thread);
    GetOnFlat(s.store, pc.key, pc.now);
    SameToItself(Apply(s.store, Get(pc.key), pc.now).0);
    var call := Call(thread, Get(pc.key), pc.now, Apply(s.store, Get(pc.key), pc.now).1, pc.began);
    Responds(f, s, call, EffectOfRecheck(s, thread).store);
  }

  lemma TtlLookIsLinearized(f: Flat, s: State, thread: nat, key: string, now: int)
    requires Linearized(f, s) && PcOf(s, thread).Idle?
    ensures Linearized(f, EffectOfTtlLook(s, thread, key, now))
  {
    hide Apply, SameButStamps, SlotOf, WithSlot, Linearized;
    TtlOnFlat(s.store, key, now);
    var after := EffectOfTtlLook(s, thread, key, now);
    var call := Call(thread, Ttl(key), now, Apply(s.store, Ttl(key), now).1, s.steps);
    if after.order == s.order {
      SameForLinearized(f, s, after);
    } else {
      Responds(f, s, call, s.store);
      SameForLinearized(f, Respond(Resume(s, thread, Idle).(store := s.store), call), after);
    }
  }

  /** What `ttl` would have to find under the exclusive lock: no string and no hash or
      list of that name, or a string that has expired at its sample. It does not look. */
  predicate EraseIsSafe(s: State, thread: nat)
    requires PcOf(s, thread).Erasing?
  {
    var pc := PcOf(s, thread);
    var slot := SlotOf(s.store, pc.key);
    if slot.entry.None? then !slot.HasCollection() else !Live(slot.entry.value, pc.now)
  }

  /** The second section of `ttl` keeps the history linearized exactly when a recheck
      would have let it erase. */
  lemma EraseIsLinearizedIff(f: Flat, s: State, thread: nat)
    requires Linearized(f, s) && PcOf(s, thread).Erasing?
    ensures Linearized(f, EffectOfTtlErase(s, thread)) <==> EraseIsSafe(s, thread)
  {
    var pc, after := PcOf(s, thread), EffectOfTtlErase(s, thread);
    var call := Call(thread, Ttl(pc.key), pc.now, Count(-2), pc.began);
    assert after.order == s.order + [call];
    hide Apply, SameButStamps, SlotOf, WithSlot, Legal, Serial, CallsOf;
    TtlOnFlat(s.store, pc.key, pc.now);
    if EraseIsSafe(s, thread) {
      Responds(f, s, call, after.store);
    } else {
      TakesEffect(f, s.order, s.store, call);
    }
  }

  lemma StepIsLinearizedIff(f: Flat, s: State, step: Step)
    requires Linearized(f, s) && Enabled(s, step)
    ensures Linearized(f, Effect(s, step)) <==> (step.section.TtlErase? ==> EraseIsSafe(s, step.thread))
  {
    hide Linearized, EraseIsSafe, EffectOfWhole, EffectOfLook, EffectOfTouch, EffectOfRecheck, EffectOfTtlLook;
    hide EffectOfTtlErase;
    match step.section {
      case Whole(op, now) => WholeIsLinearized(f, s, step.thread, op, now);
      case Look(key, now) => LookIsLinearized(f, s, step.thread, key, now);
      case Touch => TouchIsLinearized(f, s, step.thread);
      case Recheck => RecheckIsLinearized(f, s, step.thread);
      case TtlLook(key, now) => TtlLookIsLinearized(f, s, step.thread, key, now);
      case TtlErase => EraseIsLinearizedIff(f, s, step.thread);
    }
    var r := SectionEffect(s, step);
    if Linearized(f, r) { SameForLinearized(f, r, Effect(s, step)); }
    if Linearized(f, Effect(s, step)) { SameForLinearized(f, Effect(s, step), r); }
  }

  // ---- whole runs ----------------------------------------------------------------

  /** No `ttl` of the run erases what a recheck would have spared. */
  predicate NoBlindErase(f: Flat, steps: seq<Step>)
    requires Feasible(f, steps)
  {
    steps == [] ||
    (var n := |steps| - 1;
     && NoBlindErase(f, steps[..n])
     && (steps[n].section.TtlErase? ==> EraseIsSafe(Execute(f, steps[..n]), steps[n].thread)))
  }

  /** After every step the calls so far, in the order in which they took effect, are a
      legal sequential history whose outcome is the store. */
  ghost predicate LinearizedThroughout(f: Flat, steps: seq<Step>)
    requires Feasible(f, steps)
  {
    && Linearized(f, Execute(f, steps))
    && (steps != [] ==> LinearizedThroughout(f, steps[..|steps| - 1]))
  }

  /** Exactly when a run with `ttl` in it is linearized throughout. */
  lemma {:induction false} RunIsLinearizableIff(f: Flat, steps: seq<Step>)
    requires Feasible(f, steps)
    ensures LinearizedThroughout(f, steps) <==> NoBlindErase(f, steps)
  {
    hide Effect, Enabled, EraseIsSafe, Linearized;
    if steps == [] {
      StartIsLinearized(f);
    } else {
      var n := |steps| - 1;
      RunIsLinearizableIff(f, steps[..n]);
      if LinearizedThroughout(f, steps[..n]) {
        StepIsLinearizedIff(f, Execute(f, steps[..n]), steps[n]);
      }
    }
  }

  lemma StartIsLinearized(f: Flat)
    ensures Linearized(f, State(f, map[], [], [], 0))
  {
    SameToItself(f);
  }

  // ---- real time --------------------------------------------------------------------

  /** Every call recorded began in the past, and what has returned has taken effect. */
  ghost predicate Timed(s: State) {
    && (forall i :: 0 <= i < |s.order| ==> s.order[i].began < s.steps)
    && (forall i :: 0 <= i < |s.returned| ==> s.returned[i] in s.order)
    && (forall t :: t in s.pcs ==> TimedPc(s, s.pcs[t]))
  }

  predicate TimedPc(s: State, pc: Pc) {
    match pc
    case Idle => true
    case Touching(call) => call in s.order
    case Rechecking(_, _, began) => began < s.steps
    case Erasing(_, _, began) => began < s.steps
  }

  /** A section may record a call, return it, and leave its thread with a new counter. */
  lemma StepIsTimed(s: State, step: Step)
    requires Timed(s) && Enabled(s, step)
    ensures Timed(Effect(s, step)) && s.order <= Effect(s, step).order
  {
    hide Timed, Effect;
    match step.section {
      case Touch => ResumedStepIsTimed(s, step);
      case Recheck => ResumedStepIsTimed(s, step);
      case TtlErase => ResumedStepIsTimed(s, step);
      case _ => FirstStepIsTimed(s, step);
    }
  }

  lemma FirstStepIsTimed(s: State, step: Step)
    requires Timed(s) && Enabled(s, step)
    requires step.section.Whole? || step.section.Look? || step.section.TtlLook?
    ensures Timed(Effect(s, step)) && s.order <= Effect(s, step).order
  {
    hide Apply, SlotOf, WithSlot, Live, Timed, TimedPc;
    var r := Effect(s, step);
    if r.order != s.order {
      AddsTimed(s, r, step.thread, r.order[|s.order|]);
    } else {
      KeepsTimed(s, r, step.thread);
    }
  }

  lemma ResumedStepIsTimed(s: State, step: Step)
    requires Timed(s) && Enabled(s, step)
    requires step.section.Touch? || step.section.Recheck? || step.section.TtlErase?
    ensures Timed(Effect(s, step)) && s.order <= Effect(s, step).order
  {
    hide Apply, SlotOf, WithSlot, Live, Timed, TimedPc;
    var pc, r := PcOf(s, step.thread), Effect(s, step);
    PcIsTimed(s, step.thread);
    PcOnTime(s, pc);
    if pc.Touching? {
      ReturnsTimed(s, r, step.thread, pc.call);
    } else {
      AddsTimed(s, r, step.thread, r.order[|s.order|]);
    }
  }

  lemma PcOnTime(s: State, pc: Pc)
    requires TimedPc(s, pc)
    ensures pc.Touching? ==> pc.call in s.order
    ensures pc.Rechecking? || pc.Erasing? ==> pc.began < s.steps
  {
  }

  lemma PcIsTimed(s: State, thread: nat)
    requires Timed(s)
    ensures TimedPc(s, PcOf(s, thread))
  {
  }

  ghost predicate OthersStay(s: State, r: State, thread: nat) {
    r.steps == s.steps + 1 && forall t :: t in r.pcs ==> t == thread || (t in s.pcs && r.pcs[t] == s.pcs[t])
  }

  lemma KeepsTimed(s: State, r: State, thread: nat)
    requires Timed(s) && OthersStay(s, r, thread) && r.order == s.order && r.returned == s.returned
    requires PcOf(r, thread).Rechecking? || PcOf(r, thread).Erasing?
    requires PcOf(r, thread).began == s.steps
    ensures Timed(r)
  {
    forall t | t in r.pcs && t != thread ensures TimedPc(r, r.pcs[t]) { assert TimedPc(s, s.pcs[t]); }
  }

  lemma ReturnsTimed(s: State, r: State, thread: nat, call: Call)
    requires Timed(s) && OthersStay(s, r, thread) && r.order == s.order && r.returned == s.returned + [call]
    requires call in s.order && PcOf(r, thread).Idle?
    ensures Timed(r)
  {
    forall t | t in r.pcs && t != thread ensures TimedPc(r, r.pcs[t]) { assert TimedPc(s, s.pcs[t]); }
  }

  lemma AddsTimed(s: State, r: State, thread: nat, call: Call)
    requires Timed(s) && OthersStay(s, r, thread) && r.order == s.order + [call] && call.began <= s.steps
    requires r.returned == s.returned || r.returned == s.returned + [call]
    requires PcOf(r, thread).Idle? || PcOf(r, thread) == PcOf(s, thread) || PcOf(r, thread) == Touching(call)
    ensures Timed(r)
  {
    assert r.order[|s.order|] == call;
    forall c | c in s.order ensures c in r.order {}
    forall t | t in r.pcs ensures TimedPc(r, r.pcs[t]) {
      if t in s.pcs { assert TimedPc(s, s.pcs[t]); }
    }
  }

  lemma {:induction false} RunIsTimed(f: Flat, steps: seq<Step>)
    requires Feasible(f, steps)
    ensures Timed(Execute(f, steps)) && Execute(f, steps).steps == |steps|
  {
    hide Timed, Enabled, SectionEffect;
    if steps == [] {
      assert Timed(State(f, map[], [], [], 0)) by { StartIsTimed(f); }
    } else {
      RunIsTimed(f, steps[..|steps| - 1]);
      StepIsTimed(Execute(f, steps[..|steps| - 1]), steps[|steps| - 1]);
    }
  }

  lemma StartIsTimed(f: Flat)
    ensures Timed(State(f, map[], [], [], 0))
  {
  }

  lemma {:induction false} PrefixIsFeasible(f: Flat, steps: seq<Step>, n: nat)
    requires Feasible(f, steps) && n <= |steps|
    ensures Feasible(f, steps[..n]) && Execute(f, steps[..n]).order <= Execute(f, steps).order
    decreases |steps|
  {
    hide Enabled, Effect, Timed;
    if n == |steps| {
      assert steps[..n] == steps;
    } else {
      var m := |steps| - 1;
      PrefixIsFeasible(f, steps[..m], n);
      assert steps[..m][..n] == steps[..n];
      RunIsTimed(f, steps[..m]);
      StepIsTimed(Execute(f, steps[..m]), steps[m]);
    }
  }

  /** A call that has returned by step n comes, in the order of effect, before every
      call that begins at step n or later. */
  ghost predicate RespectsRealTime(f: Flat, steps: seq<Step>)
    requires Feasible(f, steps)
  {
    forall n: nat, i, j ::
      n <= |steps| && Feasible(f, steps[..n]) && 0 <= i < |Execute(f, steps[..n]).returned|
      && 0 <= j < |Execute(f, steps).order| && Execute(f, steps).order[j].began >= n
      ==> Execute(f, steps[..n]).returned[i] in Execute(f, steps).order[..j]
  }

  lemma RunRespectsRealTime(f: Flat, steps: seq<Step>)
    requires Feasible(f, steps)
    ensures RespectsRealTime(f, steps)
  {
    hide Feasible, Execute;
    var order := Execute(f, steps).order;
    forall n: nat, i, j |
      n <= |steps| && Feasible(f, steps[..n]) && 0 <= i < |Execute(f, steps[..n]).returned|
      && 0 <= j < |order| && order[j].began >= n
      ensures Execute(f, steps[..n]).returned[i] in order[..j]
    {
      var was := Execute(f, steps[..n]);
      RunIsTimed(f, steps[..n]);
      PrefixIsFeasible(f, steps, n);
      assert forall k :: 0 <= k < |was.order| ==> order[k] == was.order[k] && was.order[k].began < n;
      assert was.order <= order[..j];
    }
  }

  /** Linearizability: after any run, by any number of threads, of single-section
      operations, two-section gets, and ttls that erase nothing unseen, the calls in the
      order in which they took effect are a legal sequential history of the flat store,
      each judged at its own clock sample; the store is its outcome up to last-access
      stamps; every thread's returned calls are that history's calls of the thread, in
      order, with at most one still to return; and real time is respected. */
  lemma RunIsLinearizable(f: Flat, steps: seq<Step>)
    requires Feasible(f, steps) && NoBlindErase(f, steps)
    ensures Linearized(f, Execute(f, steps)) && RespectsRealTime(f, steps)
  {
    hide Linearized, NoBlindErase, RespectsRealTime;
    RunIsLinearizableIff(f, steps);
    RunRespectsRealTime(f, steps);
  }

  /** A run without `ttl` never erases blindly. */
  lemma {:induction false} NoTtlNoBlindErase(f: Flat, steps: seq<Step>)
    requires Feasible(f, steps) && forall i :: 0 <= i < |steps| ==> !steps[i].section.TtlLook?
    ensures NoBlindErase(f, steps) && forall t :: !PcOf(Execute(f, steps), t).Erasing?
  {
    hide SectionEffect, Enabled, EraseIsSafe;
    if steps != [] {
      var n := |steps| - 1;
      NoTtlNoBlindErase(f, steps[..n]);
      StepWithoutTtl(Execute(f, steps[..n]), steps[n]);
    }
  }

  lemma StepWithoutTtl(s: State, step: Step)
    requires Enabled(s, step) && !step.section.TtlLook? && forall t :: !PcOf(s, t).Erasing?
    ensures !step.section.TtlErase? && forall t :: !PcOf(Effect(s, step), t).Erasing?
  {
    hide Apply, SlotOf, WithSlot, Live;
    forall t ensures !PcOf(Effect(s, step), t).Erasing? {
      assert !PcOf(s, t).Erasing?;
    }
  }

  lemma {:induction false} TouchingMeansGet(f: Flat, steps: seq<Step>)
    requires Feasible(f, steps)
    ensures forall t :: PcMeansGet(Execute(f, steps), t)
  {
    hide SectionEffect, Enabled;
    if steps != [] {
      var n := |steps| - 1;
      TouchingMeansGet(f, steps[..n]);
      StepMeansGet(Execute(f, steps[..n]), steps[n]);
    }
  }

  lemma StepMeansGet(s: State, step: Step)
    requires Enabled(s, step) && forall t :: PcMeansGet(s, t)
    ensures forall t :: PcMeansGet(Effect(s, step), t)
  {
    hide Apply, SlotOf, WithSlot, Live;
    forall t ensures PcMeansGet(Effect(s, step), t) {
      assert PcMeansGet(s, t);
    }
  }

  /** In every run, a `get` that found a string refreshes, when it takes the lock again,
      the stamp of whatever string is stored there by then, and nothing else. */
  lemma TouchRefreshes(f: Flat, steps: seq<Step>, thread: nat, key: string)
    requires Feasible(f, steps) && PcOf(Execute(f, steps), thread).Touching?
    ensures var s := Execute(f, steps);
            var call, after := PcOf(s, thread).call, Effect(s, Step(thread, Touch)).store;
            && call.op.Get?
            && SlotOf(after, key) ==
               if key == call.op.key && key in s.store.strings
               then SlotOf(s.store, key).(entry := Some(s.store.strings[key].(accessed := call.now)))
               else SlotOf(s.store, key)
  {
    TouchingMeansGet(f, steps);
    hide Execute, Feasible;
    assert PcMeansGet(Execute(f, steps), thread);
  }

  /** In every run, `get` erases an entry only if it is expired when it is erased, and
      changes nothing else: no other field of that entry and no other key. */
  lemma GetErasesOnlyExpired(f: Flat, steps: seq<Step>, step: Step, key: string)
    requires Feasible(f, steps) && Enabled(Execute(f, steps), step)
    requires step.section.Look? || step.section.Touch? || step.section.Recheck?
    ensures var s := Execute(f, steps);
            var was, after := SlotOf(s.store, key), SlotOf(Effect(s, step).store, key);
            || Unstamped(after) == Unstamped(was)
            || (&& step.section.Recheck? && key == PcOf(s, step.thread).key
                && was.entry.Some? && !Live(was.entry.value, PcOf(s, step.thread).now)
                && after == was.(entry := None))
  {
    TouchingMeansGet(f, steps);
    hide Execute, Feasible;
    assert PcMeansGet(Execute(f, steps), step.thread);
  }

  // ---- a run that no order explains ---------------------------------------------------

  const OLD := Flat(map["k" := Entry("old", Some(5), 0)], map[], map[])
  const SET_NEW := Set("k", "new", None)

  /** `ttl` at time 7 sees an expired entry; before it erases, another thread sets the
      key; after it has, that thread reads the key and finds nothing. */
  const BLIND_RUN := [Step(0, TtlLook("k", 7)), Step(1, Whole(SET_NEW, 8)), Step(0, TtlErase), Step(1, Look("k", 9))]

  const SET_CALL := Call(1, SET_NEW, 8, Done, 1)
  const TTL_CALL := Call(0, Ttl("k"), 7, Count(-2), 0)
  const GET_CALL := Call(1, Get("k"), 9, Text(None), 3)

  lemma BlindRun()
    ensures Feasible(OLD, BLIND_RUN) && Execute(OLD, BLIND_RUN).returned == [SET_CALL, TTL_CALL, GET_CALL]
    ensures !NoBlindErase(OLD, BLIND_RUN)
  {
    var a, b, c, d := BLIND_RUN[0], BLIND_RUN[1], BLIND_RUN[2], BLIND_RUN[3];
    assert Feasible(OLD, []) && Execute(OLD, []) == State(OLD, map[], [], [], 0);
    ExecuteSnoc(OLD, [], a);
    assert [] + [a] == [a] && [a] + [b] == [a, b] && [a, b] + [c] == [a, b, c] && [a, b, c] + [d] == BLIND_RUN;
    var s := Execute(OLD, [a]);
    assert s.store == OLD && PcOf(s, 0) == Erasing("k", 7, 0) && PcOf(s, 1).Idle?;
    ExecuteSnoc(OLD, [a], b);
    var t := Execute(OLD, [a, b]);
    assert SlotOf(t.store, "k").entry == Some(Entry("new", None, 8));
    ExecuteSnoc(OLD, [a, b], c);
    var u := Execute(OLD, [a, b, c]);
    assert SlotOf(u.store, "k").entry.None?;
    ExecuteSnoc(OLD, [a, b, c], d);
    assert BLIND_RUN[..3] == [a, b, c] && [a, b, c][..2] == [a, b];
    assert !NoBlindErase(OLD, [a, b, c]);
  }

  lemma LastCall(calls: seq<Call>, thread: nat)
    requires calls != []
    ensures var n := |calls| - 1;
            CallsOf(calls, thread)
            == CallsOf(calls[..n], thread) + if calls[n].thread == thread then [calls[n]] else []
  {
  }

  /** The calls of the first `a` of thread 1 and the first `b` of thread 0. */
  predicate Has(calls: seq<Call>, a: nat, b: nat, t: nat)
    requires a <= 2 && b <= 1
  {
    CallsOf(calls, t) == if t == 1 then [SET_CALL, GET_CALL][..a] else if t == 0 then [TTL_CALL][..b] else []
  }

  ghost predicate AllHas(calls: seq<Call>, a: nat, b: nat)
    requires a <= 2 && b <= 1
  {
    forall t :: Has(calls, a, b, t)
  }

  lemma LastIs(calls: seq<Call>, a: nat, b: nat)
    requires a <= 2 && b <= 1 && a + b > 0 && AllHas(calls, a, b)
    ensures calls != []
    ensures var n := |calls| - 1;
            || (a > 0 && calls[n] == [SET_CALL, GET_CALL][a - 1] && AllHas(calls[..n], a - 1, b))
            || (b > 0 && calls[n] == TTL_CALL && AllHas(calls[..n], a, b - 1))
  {
    hide CallsOf;
    assert Has(calls, a, b, 1) && Has(calls, a, b, 0);
    if calls == [] { NoCalls(0); NoCalls(1); }
    var n := |calls| - 1;
    var x := calls[n].thread;
    assert Has(calls, a, b, x);
    LastCall(calls, x);
    assert CallsOf(calls, x)[|CallsOf(calls, x)| - 1] == calls[n];
    if x == 1 { OneFewer(calls, a, b, a - 1, b); } else { OneFewer(calls, a, b, a, b - 1); }
  }

  predicate OneLess(thread: nat, a: nat, b: nat, c: nat, d: nat) {
    if thread == 1 then a > 0 && c == a - 1 && d == b else thread == 0 && b > 0 && c == a && d == b - 1
  }

  lemma OneFewer(calls: seq<Call>, a: nat, b: nat, c: nat, d: nat)
    requires a <= 2 && b <= 1 && calls != [] && AllHas(calls, a, b)
    requires OneLess(calls[|calls| - 1].thread, a, b, c, d)
    ensures AllHas(calls[..|calls| - 1], c, d)
  {
    hide CallsOf;
    var most := calls[..|calls| - 1];
    forall t ensures Has(most, c, d, t) {
      assert Has(calls, a, b, t);
      LastCall(calls, t);
    }
  }

  lemma NoCalls(t: nat)
    ensures CallsOf([], t) == []
  {
  }

  /** After the SET, with or without the TTL, the key holds the new value. */
  lemma SetIsThere(calls: seq<Call>, b: nat)
    requires b <= 1 && AllHas(calls, 1, b)
    ensures SlotOf(Serial(OLD, calls), "k").entry == Some(Entry("new", None, 8))
  {
    hide AllHas, Apply, Serial;
    LastIs(calls, 1, b);
    var n := |calls| - 1;
    var g := Serial(OLD, calls[..n]);
    SerialSnoc(OLD, calls[..n], calls[n]);
    assert calls == calls[..n] + [calls[n]];
    if calls[n] == TTL_CALL {
      SetIsThere(calls[..n], 0);
      TtlLeaves(g);
    } else {
      SetLeaves(g);
    }
  }

  lemma TtlLeaves(g: Flat)
    requires SlotOf(g, "k").entry == Some(Entry("new", None, 8))
    ensures SlotOf(Apply(g, Ttl("k"), 7).0, "k").entry == Some(Entry("new", None, 8))
  {
  }

  lemma SetLeaves(g: Flat)
    ensures SlotOf(Apply(g, SET_NEW, 8).0, "k").entry == Some(Entry("new", None, 8))
  {
  }

  lemma GetFinds(g: Flat)
    requires SlotOf(g, "k").entry == Some(Entry("new", None, 8))
    ensures Apply(g, Get("k"), 9).1 == Text(Some("new"))
  {
  }

  /** Every sequence of these threads' calls, each thread's in its own order, gives some
      call an answer the flat store does not. */
  lemma TtlIsNotLinearizable(order: seq<Call>)
    requires Feasible(OLD, BLIND_RUN)
    requires forall t :: CallsOf(order, t) == CallsOf(Execute(OLD, BLIND_RUN).returned, t)
    ensures !Legal(OLD, order)
  {
    BlindRun();
    CallsOfRun();
    hide Execute, Feasible;
    assert AllHas(order, 2, 1) by {
      forall t ensures Has(order, 2, 1, t) {
        assert Has([SET_CALL, TTL_CALL, GET_CALL], 2, 1, t);
      }
    }
    NoOrderExplains(order);
  }

  lemma CallsOfRun()
    ensures AllHas([SET_CALL, TTL_CALL, GET_CALL], 2, 1)
  {
    var calls := [SET_CALL, TTL_CALL, GET_CALL];
    forall t ensures Has(calls, 2, 1, t) {
      LastCall(calls, t);
      assert calls[..2] == [SET_CALL, TTL_CALL];
      LastCall(calls[..2], t);
      assert calls[..2][..1] == [SET_CALL];
      LastCall([SET_CALL], t);
      assert [SET_CALL][..0] == [];
    }
  }

  lemma NoOrderExplains(order: seq<Call>)
    requires AllHas(order, 2, 1)
    ensures !Legal(OLD, order)
  {
    hide AllHas, Apply, Serial;
    LastIs(order, 2, 1);
    var n := |order| - 1;
    if order[n] == GET_CALL && AllHas(order[..n], 1, 1) {
      SetIsThere(order[..n], 1);
      GetFinds(Serial(OLD, order[..n]));
    } else {
      LastIs(order[..n], 2, 0);
      var m := n - 1;
      assert order[..n][..m] == order[..m];
      SetIsThere(order[..m], 0);
      GetFinds(Serial(OLD, order[..m]));
    }
  }
}
