/** Battle mode: activation, its end timer, and the gauge drain
    (cmd/gameserver/packet/battle_mode.go). Both timers are guarded by the generation of their activation. */
module BattleMode {
  import opened Options
  import opened Numbers

  const LAMP: nat := 5000

  datatype Mode = Mode(kind: nat, skill: nat, mpPercent: int, remaining: int, waste: int, generation: nat) {
    predicate Active() { kind == 1 || kind == 2 }

    function StyleEx(): nat { if kind == 1 then 0x10 else if kind == 2 then 0x20 else 0 }
  }

  const IDLE := Mode(0, 0, 0, 0, 0, 0)

  /** What the client data and the skill list say about the pressed skill. `allowed` is the check that it is a mode
      skill of this style, learned in the given slot; then `kind` is 1 or 2. */
  datatype Skill = Skill(id: nat, allowed: bool, kind: nat, mpCost: nat, mpPercent: int, waste: int) {
    predicate Ok() { allowed ==> kind == 1 || kind == 2 }
  }

  /** `timer` holds the generation the armed end timer will report. */
  datatype State = State(mode: Mode, counter: nat, sp: nat, mp: nat, timer: Option<nat>)

  datatype Event =
    | Press(skill: Skill, start: bool)
    | Vitals(sp: nat, mp: nat)
    | Arm(generation: nat)
    | Reset
    | Finish(generation: nat)
    | Consume(generation: nat)

  datatype Failure = NoFailure | Spirit | Mana

  datatype Reply = Reply(accepted: bool, failure: Failure, started: bool, mp: nat, sp: nat, styleEx: nat)

  predicate CanStart(s: State, k: Skill) {
    k.allowed && !s.mode.Active() && s.sp >= LAMP && s.mp >= k.mpCost
  }

  predicate CanStop(s: State, k: Skill) {
    k.allowed && (s.mode.Active() ==> s.mode.kind == k.kind)
  }

  predicate Current(s: State, g: nat) {
    s.mode.Active() && s.mode.generation == g
  }

  function Ended(s: State): State { s.(mode := IDLE, timer := None) }

  function Drained(s: State): State {
    var left := s.mode.remaining - s.mode.waste;
    if s.mode.waste > 0 && left >= s.mode.waste then s.(mode := s.mode.(remaining := left)) else Ended(s)
  }

  function Step(s: State, e: Event): State {
    match e
    case Press(k, true) =>
      if CanStart(s, k) then
        State(Mode(k.kind, k.id, k.mpPercent, LAMP, k.waste, s.counter + 1), s.counter + 1, s.sp - LAMP,
              s.mp - k.mpCost, s.timer)
      else s
    case Press(k, false) => if CanStop(s, k) then Ended(s) else s
    case Vitals(sp, mp) => s.(sp := sp, mp := mp)
    case Arm(g) => if Current(s, g) then s.(timer := Some(g)) else s
    case Reset => Ended(s).(counter := s.counter + 1)
    case Finish(g) => if Current(s, g) then Ended(s) else s
    case Consume(g) => if Current(s, g) then Drained(s) else s
  }

  function Run(s: State, es: seq<Event>): State
    decreases |es|
  {
    if es == [] then s else Run(Step(s, es[0]), es[1..])
  }

  predicate EventOk(e: Event) { e.Press? ==> e.skill.Ok() }

  predicate EventsOk(es: seq<Event>) { forall i :: 0 <= i < |es| ==> EventOk(es[i]) }

  const INITIAL: State := State(IDLE, 0, 0, 0, None)

  /** An inactive mode is fully cleared, a live one was issued by the counter and can pay the next drain (or has not
      been drained yet), and an armed end timer always belongs to the live activation. */
  predicate ModeOk(s: State) {
    && s.mode.generation <= s.counter
    && (!s.mode.Active() ==> s.mode == IDLE)
    && (s.mode.Active() ==> s.mode.generation > 0 && s.mode.remaining <= LAMP)
    && (s.mode.Active() && s.mode.remaining < LAMP ==> 0 < s.mode.waste <= s.mode.remaining)
    && (s.timer.Some? ==> Current(s, s.timer.value))
  }

  lemma {:induction false} ModeOkAlways(s: State, es: seq<Event>)
    requires ModeOk(s) && EventsOk(es)
    ensures ModeOk(Run(s, es)) && Run(s, es).counter >= s.counter
    decreases |es|
  {
    if es != [] {
      assert EventOk(es[0]);
      ModeOkAlways(Step(s, es[0]), es[1..]);
    }
  }

  /** An old callback cannot clear a later activation: once generation `g` is over it is over in every run, and
      neither its end timer, its drain nor its arming changes anything. */
  lemma {:induction false} StaleCallback(s: State, es: seq<Event>, g: nat)
    requires ModeOk(s) && EventsOk(es) && g <= s.counter && !Current(s, g)
    ensures var later := Run(s, es);
            && !Current(later, g)
            && Step(later, Finish(g)) == later && Step(later, Consume(g)) == later && Step(later, Arm(g)) == later
    decreases |es|
  {
    if es != [] {
      assert EventOk(es[0]);
      ModeOkAlways(s, es[..1]);
      assert Run(s, es[..1]) == Step(s, es[0]) by {
        assert es[..1][1..] == [];
      }
      StaleCallback(Step(s, es[0]), es[1..], g);
    }
  }

  /** Generation `g` is over for good: in no later state does any of its callbacks change anything. */
  ghost predicate Over(s: State, g: nat) {
    forall es :: EventsOk(es) ==> Ineffective(Run(s, es), g)
  }

  predicate Ineffective(s: State, g: nat) {
    !Current(s, g) && Step(s, Finish(g)) == s && Step(s, Consume(g)) == s && Step(s, Arm(g)) == s
  }

  lemma OverOnceEnded(s: State, g: nat)
    requires ModeOk(s) && g <= s.counter && !Current(s, g)
    ensures Over(s, g)
  {
    forall es | EventsOk(es) ensures Ineffective(Run(s, es), g) {
      StaleCallback(s, es, g);
    }
  }

  /** What a callback owes: the mode stays in order, and unless its generation is live afterwards, that one is over. */
  ghost predicate Settled(s: State, s': State, g: nat) {
    ModeOk(s) ==> ModeOk(s') && (g <= s.counter && !Current(s', g) ==> Over(s', g))
  }

  lemma CallbackSettles(s: State, e: Event, g: nat)
    requires EventOk(e)
    ensures Settled(s, Step(s, e), g)
  {
    if ModeOk(s) {
      ModeOkAlways(s, [e]);
      assert Run(s, [e]) == Step(s, e) by {
        assert [e][1..] == [];
      }
      if g <= s.counter && !Current(Step(s, e), g) {
        hide Step, ModeOk;
        OverOnceEnded(Step(s, e), g);
      }
    }
  }

  // --- What each step does ---

  /** A start takes effect exactly when it can be paid for and no mode is on; then the mode of the pressed skill is on,
      with a full gauge and under a new generation. */
  lemma StartEffect(s: State, k: Skill)
    requires k.Ok()
    ensures var s' := Step(s, Press(k, true));
            if k.allowed && !s.mode.Active() && s.sp >= 5000 && s.mp >= k.mpCost then
              && Current(s', s.counter + 1) && s'.counter == s.counter + 1
              && s'.mode == Mode(k.kind, k.id, k.mpPercent, 5000, k.waste, s.counter + 1)
              && s'.sp == s.sp - 5000 && s'.mp == s.mp - k.mpCost && s'.timer == s.timer
            else s' == s
  {
  }

  /** An accepted stop leaves no mode and no timer, and the generation it ended is over for good. */
  lemma StopEffect(s: State, k: Skill)
    requires ModeOk(s)
    ensures var s' := Step(s, Press(k, false));
            if k.allowed && (s.mode.Active() ==> s.mode.kind == k.kind) then
              && s'.mode == IDLE && s'.timer == None && s' == s.(mode := IDLE, timer := None)
              && forall g: nat :: g <= s.counter ==> Over(s', g)
            else s' == s
  {
    var s' := Step(s, Press(k, false));
    if CanStop(s, k) {
      forall g: nat | g <= s.counter ensures Over(s', g) {
        OverOnceEnded(s', g);
      }
    }
    hide Over;
  }

  /** The end timer ends the mode it was armed for, the reset any, a drain one whose gauge does not hold two drains. */
  lemma EndEffect(s: State, g: nat)
    ensures Current(s, g) ==> Step(s, Finish(g)) == s.(mode := IDLE, timer := None)
    ensures Step(s, Reset) == s.(mode := IDLE, timer := None, counter := s.counter + 1)
    ensures Current(s, g) && (s.mode.waste <= 0 || s.mode.remaining < 2 * s.mode.waste) ==>
              Step(s, Consume(g)) == s.(mode := IDLE, timer := None)
    ensures Current(s, g) && s.mode.waste > 0 && s.mode.remaining >= 2 * s.mode.waste ==>
              Step(s, Consume(g)) == s.(mode := s.mode.(remaining := s.mode.remaining - s.mode.waste))
    ensures Current(s, g) ==> Step(s, Arm(g)) == s.(timer := Some(g))
  {
  }

  // --- Timing ---

  /** The number of drain intervals the end timer waits for. */
  function Ticks(remaining: int, waste: int): int {
    if remaining <= 0 || waste <= 0 then 1
    else
      var ticks := (remaining + waste - 1) / waste;
      if ticks > 1 then ticks - 1 else ticks
  }

  /** The number of drains until the gauge cannot pay for another one. */
  function Drains(remaining: int, waste: int): (n: nat)
    requires waste > 0
    ensures n >= 1
    decreases remaining
  {
    if remaining - waste >= waste then 1 + Drains(remaining - waste, waste) else 1
  }

  lemma QuotientIs(a: int, d: int, q: int)
    requires d > 0 && q * d <= a < q * d + d
    ensures a / d == q
  {
    var k := a / d - q;
    assert k * d == (a / d) * d - q * d;
    MultipleBound(k, d);
  }

  lemma TicksClosed(remaining: int, q: nat, r: nat, waste: int)
    requires r < waste && remaining == q * waste + r && remaining > 0
    ensures var up := if r == 0 then q else q + 1;
            Ticks(remaining, waste) == if up > 1 then up - 1 else up
  {
    if r == 0 {
      QuotientIs(remaining + waste - 1, waste, q);
    } else {
      assert (q + 1) * waste == q * waste + waste;
      QuotientIs(remaining + waste - 1, waste, q + 1);
    }
  }

  lemma ScaledOrder(q: nat, r: nat, waste: int)
    requires r < waste
    ensures q * waste + r < waste <==> q == 0
    ensures q * waste + r >= 2 * waste <==> q >= 2
  {
    if q >= 2 {
      assert (q - 2) * waste >= 0;
    }
  }

  lemma {:induction false} DrainsClosed(remaining: int, q: nat, r: nat, waste: int)
    requires r < waste && remaining == q * waste + r
    ensures Drains(remaining, waste) == if q == 0 then 1 else q
  {
    ScaledOrder(q, r, waste);
    if q >= 2 {
      assert (q - 1) * waste == q * waste - waste;
      DrainsClosed(remaining - waste, q - 1, r, waste);
    }
  }

  lemma Divided(a: int, d: int) returns (q: int, r: nat)
    requires d > 0
    ensures q == a / d && r == a % d && r < d && a == q * d + r && (a >= 0 ==> q >= 0)
  {
    q, r := a / d, a % d;
  }

  /** The end timer never waits for more intervals than the drain needs to empty the gauge, and it comes one interval
      early exactly when the cost divides a gauge of at least two drains. */
  lemma TicksBound(remaining: int, waste: int)
    requires waste > 0
    ensures 1 <= Ticks(remaining, waste) <= Drains(remaining, waste) <= Ticks(remaining, waste) + 1
    ensures Ticks(remaining, waste) < Drains(remaining, waste) <==> remaining >= 2 * waste && remaining % waste == 0
  {
    if remaining > 0 {
      var q, r := Divided(remaining, waste);
      TicksClosed(remaining, q, r, waste);
      DrainsClosed(remaining, q, r, waste);
      ScaledOrder(q, r, waste);
      hide Ticks, Drains;
    }
  }

  /** A gauge of 5000 at 100 a drain: the timer waits 49 intervals, the drain takes 50. */
  lemma TimerEndsEarly()
    ensures Ticks(5000, 100) == 49 && Drains(5000, 100) == 50
  {
    DrainsClosed(5000, 50, 0, 100);
  }

  function DrainCount(es: seq<Event>, g: nat): nat {
    if es == [] then 0 else (if es[0] == Consume(g) then 1 else 0) + DrainCount(es[1..], g)
  }

  /** Events that end activation `g` other than by draining it. */
  predicate Ends(e: Event, g: nat) {
    e == Reset || e == Finish(g) || (e.Press? && !e.start)
  }

  lemma StepAlive(s: State, e: Event, g: nat)
    requires ModeOk(s) && EventOk(e) && Current(s, g) && s.mode.waste > 0 && !Ends(e, g)
    ensures ModeOk(Step(s, e)) && g <= Step(s, e).counter
    ensures e != Consume(g) ==> Step(s, e).mode == s.mode
    ensures e == Consume(g) ==> (Current(Step(s, e), g) <==> s.mode.remaining - s.mode.waste >= s.mode.waste)
    ensures e == Consume(g) && Current(Step(s, e), g) ==>
      Step(s, e).mode == s.mode.(remaining := s.mode.remaining - s.mode.waste)
  {
  }

  /** Over every run without a stop, reset or timer, the mode is alive exactly while fewer than `Drains` drains have
      happened; the gauge has then paid for each of them and, once drained, still holds at least one more. */
  lemma {:induction false} AliveWhile(s: State, es: seq<Event>, g: nat)
    requires ModeOk(s) && EventsOk(es) && Current(s, g) && s.mode.waste > 0
    requires forall i :: 0 <= i < |es| ==> !Ends(es[i], g)
    ensures Current(Run(s, es), g) <==> DrainCount(es, g) < Drains(s.mode.remaining, s.mode.waste)
    ensures Current(Run(s, es), g) ==>
      Run(s, es).mode == s.mode.(remaining := s.mode.remaining - DrainCount(es, g) * s.mode.waste)
    ensures Current(Run(s, es), g) && DrainCount(es, g) > 0 ==> Run(s, es).mode.remaining >= s.mode.waste
    decreases |es|
  {
    if es != [] {
      var e, next := es[0], Step(s, es[0]);
      assert EventOk(e) && !Ends(e, g);
      StepAlive(s, e, g);
      var k := DrainCount(es[1..], g);
      assert (k + 1) * s.mode.waste == k * s.mode.waste + s.mode.waste;
      hide Step, ModeOk, EventOk, Ends;
      if Current(next, g) {
        AliveWhile(next, es[1..], g);
      } else {
        StaleCallback(next, es[1..], g);
      }
    }
  }

  /** A mode that has been started lasts exactly as many drains as its gauge of 5000 pays for. */
  lemma StartedLasts(s: State, k: Skill, es: seq<Event>)
    requires ModeOk(s) && k.Ok() && CanStart(s, k) && k.waste > 0 && EventsOk(es)
    requires forall i :: 0 <= i < |es| ==> !Ends(es[i], s.counter + 1)
    ensures Current(Run(Step(s, Press(k, true)), es), s.counter + 1) <==>
            DrainCount(es, s.counter + 1) < Drains(5000, k.waste)
  {
    StartEffect(s, k);
    AliveWhile(Step(s, Press(k, true)), es, s.counter + 1);
  }

  // --- The session context ---

  class Context {
    var mode: Mode
    var counter: nat
    var sp: nat
    var mp: nat
    var timer: Option<nat>

    constructor ()
      ensures Value() == INITIAL
    {
      mode, counter, sp, mp, timer := IDLE, 0, 0, 0, None;
    }

    function Value(): State
      reads this
    {
      State(mode, counter, sp, mp, timer)
    }

    method HandleBattleModeSkill(skill: Skill, requested: nat) returns (r: Reply)
      modifies this
      ensures skill.Ok() && old(ModeOk(Value())) ==> ModeOk(Value())
      ensures Value() == Step(old(Value()), Press(skill, requested != 0))
      ensures r.accepted == if requested != 0 then CanStart(old(Value()), skill) else CanStop(old(Value()), skill)
      ensures sp == old(sp) - (if r.started then LAMP else 0) && mp == old(mp) - (if r.started then skill.mpCost else 0)
      ensures r.started && skill.Ok() ==>
                Current(Value(), old(counter) + 1) && mode.skill == skill.id && mode.kind == skill.kind
                  && mode.remaining == 5000
      ensures requested == 0 && r.accepted ==> mode == IDLE && timer == None
      ensures r.started == (requested != 0 && r.accepted) && r.mp == mp && r.sp == sp && r.styleEx == mode.StyleEx()
      ensures r.failure == Spirit <==> requested != 0 && skill.allowed && !old(mode).Active() && old(sp) < LAMP
      ensures r.failure == Mana <==>
        requested != 0 && skill.allowed && !old(mode).Active() && old(sp) >= LAMP && old(mp) < skill.mpCost
    {
      if skill.Ok() {
        CallbackSettles(Value(), Press(skill, requested != 0), 0);
      }
      hide Over;
      r := Reply(false, NoFailure, false, mp, sp, mode.StyleEx());
      if !skill.allowed {
        return;
      }
      if requested != 0 {
        if mode.Active() {
          return;
        }
        if sp < LAMP {
          return r.(failure := Spirit);
        }
        if mp < skill.mpCost {
          return r.(failure := Mana);
        }
        sp := sp - LAMP;
        mp := mp - skill.mpCost;
        counter := counter + 1;
        mode := Mode(skill.kind, skill.id, skill.mpPercent, LAMP, skill.waste, counter);
        r := r.(started := true);
      } else {
        if mode.Active() && mode.kind != skill.kind {
          return;
        }
        timer := None;
        mode := IDLE;
      }
      r := r.(accepted := true, mp := mp, sp := sp, styleEx := mode.StyleEx());
    }

    /** The second critical section of startBattleModeDrain. */
    method ArmEndTimer(generation: nat) returns (active: bool)
      modifies this
      ensures active ==> timer == Some(generation) && mode == old(mode)
      ensures Value() == Step(old(Value()), Arm(generation)) && active == Current(old(Value()), generation)
      ensures Settled(old(Value()), Value(), generation)
    {
      CallbackSettles(Value(), Arm(generation), generation);
      hide Settled;
      active := false;
      if mode.Active() && mode.generation == generation {
        timer := Some(generation);
        active := true;
      }
    }

    method ResetBattleMode()
      modifies this
      ensures Value() == Step(old(Value()), Reset)
      ensures old(ModeOk(Value())) ==> ModeOk(Value()) && forall g: nat :: g <= counter ==> Over(Value(), g)
    {
      CallbackSettles(Value(), Reset, 0);
      if ModeOk(Value()) {
        forall g: nat | g <= counter + 1 ensures Over(Step(Value(), Reset), g) {
          OverOnceEnded(Step(Value(), Reset), g);
        }
      }
      hide Over;
      timer := None;
      counter := counter + 1;
      mode := IDLE;
    }

    method FinishBattleMode(generation: nat) returns (skill: nat, ended: bool)
      modifies this
      ensures Value() == Step(old(Value()), Finish(generation))
      ensures ended == Current(old(Value()), generation) && skill == if ended then old(mode).skill else 0
      ensures !Current(Value(), generation) && Settled(old(Value()), Value(), generation)
    {
      CallbackSettles(Value(), Finish(generation), generation);
      hide Settled;
      var state := mode;
      if !state.Active() || state.generation != generation {
        return 0, false;
      }
      timer := None;
      mode := IDLE;
      return state.skill, true;
    }

    method ConsumeBattleModeGauge(generation: nat) returns (ended: bool, skill: nat)
      modifies this
      ensures Value() == Step(old(Value()), Consume(generation))
      ensures ended == !Current(Value(), generation)
      ensures skill == if ended && Current(old(Value()), generation) then old(mode).skill else 0
      ensures Settled(old(Value()), Value(), generation)
    {
      CallbackSettles(Value(), Consume(generation), generation);
      hide Settled;
      var state := mode;
      if !state.Active() || state.generation != generation {
        return true, 0;
      }
      if state.waste <= 0 {
        timer := None;
        mode := IDLE;
        return true, state.skill;
      }
      state := state.(remaining := state.remaining - state.waste);
      if state.remaining >= state.waste {
        mode := state;
        return false, 0;
      }
      mode := IDLE;
      timer := None;
      return true, state.skill;
    }
  }

  /** Milliseconds. */
  const DRAIN_INTERVAL: int := 2000

  method BattleModeDuration(remaining: int, waste: int, preparation: nat) returns (duration: int)
    ensures duration == preparation + Ticks(remaining, waste) * 2000
    ensures waste > 0 ==> duration <= preparation + Drains(remaining, waste) * 2000
  {
    if waste > 0 {
      TicksBound(remaining, waste);
      assert Ticks(remaining, waste) * DRAIN_INTERVAL <= Drains(remaining, waste) * DRAIN_INTERVAL;
    }
    var gauge := DRAIN_INTERVAL;
    if remaining <= 0 {
      return preparation + gauge;
    }
    if waste > 0 {
      var ticks := (remaining + waste - 1) / waste;
      if ticks > 1 {
        ticks := ticks - 1;
      }
      gauge := ticks * DRAIN_INTERVAL;
    }
    return preparation + gauge;
  }
}
