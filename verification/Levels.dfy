/** Character levels (cmd/gameserver/clientdata/levels.go) and the experience grant that moves them
    (cmd/gameserver/packet/skill.go, addExperience). */
module Levels {
  import opened Numbers

  const MAX_U32: nat := 0xFFFF_FFFF
  const LEVELS: nat := 0x1_0000
  const EXP_MULTIPLIER: nat := 30
  const POINTS_PER_LEVEL: nat := 5

  type Level = n: nat | n < LEVELS

  /** Accumulated experience needed to leave a level. The loader refuses level 0 and duplicates; it does not
      ask the thresholds to rise, nor the levels to be contiguous. */
  type LevelTable = t: map<Level, nat> | 0 !in t witness map[]

  /** 16-bit increment. */
  function NextLevel(l: Level): Level { (l + 1) % LEVELS }

  function First(l: Level): Level { if l == 0 then 1 else l }

  /** The level reached from `l` with `exp` in total. */
  function LevelFor(t: LevelTable, l: Level, exp: nat): (r: Level)
    ensures r >= l
    decreases LEVELS - l
  {
    if l == 0 then LevelFor(t, 1, exp)
    else if l in t && exp >= t[l] && NextLevel(l) in t then LevelFor(t, NextLevel(l), exp)
    else l
  }

  /** The loop stops at the first level it cannot leave; 65535 wraps to level 0, which no table holds. */
  method LevelForExperience(t: LevelTable, currentLevel: Level, exp: nat) returns (r: Level)
    ensures r == LevelFor(t, currentLevel, exp)
    ensures r >= First(currentLevel) && !(r in t && exp >= t[r] && NextLevel(r) in t)
    ensures forall k: Level :: First(currentLevel) <= k < r ==> k in t && exp >= t[k]
  {
    r := First(currentLevel);
    while true
      invariant r >= First(currentLevel) >= 1 && LevelFor(t, r, exp) == LevelFor(t, currentLevel, exp)
      invariant forall k: Level :: First(currentLevel) <= k < r ==> k in t && exp >= t[k]
      decreases LEVELS - r
    {
      if r !in t || exp < t[r] {
        return;
      }
      var next := NextLevel(r);
      if next !in t {
        return;
      }
      r := next;
    }
  }

  lemma {:induction false} LevelMonotone(t: LevelTable, l: Level, e1: nat, e2: nat)
    requires e1 <= e2
    ensures LevelFor(t, l, e1) <= LevelFor(t, l, e2)
    decreases LEVELS - l
  {
    if l == 0 {
      LevelMonotone(t, 1, e1, e2);
    } else if l in t && e1 >= t[l] && NextLevel(l) in t {
      LevelMonotone(t, NextLevel(l), e1, e2);
    }
  }

  /** Levelling in two stages ends where one stage does, whatever the thresholds. */
  lemma {:induction false} LevelInTwo(t: LevelTable, l: Level, e1: nat, e2: nat)
    requires e1 <= e2
    ensures LevelFor(t, LevelFor(t, l, e1), e2) == LevelFor(t, l, e2)
    decreases LEVELS - l
  {
    if l == 0 {
      LevelInTwo(t, 1, e1, e2);
    } else if l in t && e1 >= t[l] && NextLevel(l) in t {
      LevelInTwo(t, NextLevel(l), e1, e2);
    }
  }

  // --- Granting experience. ---

  datatype Hero = Hero(exp: nat, level: Level, points: nat)

  predicate HeroOk(h: Hero) { h.exp <= MAX_U64 && h.points <= MAX_U32 }

  /** Multiplied gain, clamped to 64 bits. */
  function Boosted(gained: nat): nat {
    if gained > MAX_U64 / EXP_MULTIPLIER then MAX_U64 else gained * EXP_MULTIPLIER
  }

  /** A grant is taken unless it is empty, the total would not fit, or the stat points would not. */
  predicate Taken(t: LevelTable, h: Hero, gained: nat) {
    && gained > 0 && h.exp + Boosted(gained) <= MAX_U64
    && h.points + POINTS_PER_LEVEL * (LevelFor(t, h.level, h.exp + Boosted(gained)) - h.level) <= MAX_U32
  }

  /** Experience, level and stat points after a grant. */
  function Grown(t: LevelTable, h: Hero, gained: nat): Hero {
    if !Taken(t, h, gained) then h
    else
      var exp := h.exp + Boosted(gained);
      var level := LevelFor(t, h.level, exp);
      Hero(exp, level, h.points + POINTS_PER_LEVEL * (level - h.level))
  }

  /** The level `r` is where `exp` in all leads from level `l`: every level from there on below it is in the table with
      its threshold met, and it cannot be left. */
  predicate Attained(t: LevelTable, l: Level, exp: nat, r: Level) {
    && r >= First(l) && !(r in t && exp >= t[r] && NextLevel(r) in t)
    && forall k: Level :: First(l) <= k < r ==> k in t && exp >= t[k] && NextLevel(k) in t
  }

  lemma {:induction false} LevelForIs(t: LevelTable, l: Level, exp: nat)
    ensures Attained(t, l, exp, LevelFor(t, l, exp))
    decreases LEVELS - l
  {
    if l == 0 {
      LevelForIs(t, 1, exp);
    } else if l in t && exp >= t[l] && NextLevel(l) in t {
      LevelForIs(t, NextLevel(l), exp);
    }
  }

  /** A grant that is taken adds thirty times the gain, leads to the level attained with the total, and gives five
      points for each level on the way; one too large to multiply is taken only by a character without experience,
      as the largest number there is. */
  lemma GrantEffect(t: LevelTable, h: Hero, gained: nat)
    requires HeroOk(h)
    ensures var r := Grown(t, h, gained);
            if Taken(t, h, gained) then
              && gained > 0
              && (30 * gained <= MAX_U64 ==> r.exp == h.exp + 30 * gained <= MAX_U64)
              && (30 * gained > MAX_U64 ==> h.exp == 0 && r.exp == MAX_U64)
              && Attained(t, h.level, r.exp, r.level)
              && r.level >= h.level && r.points == h.points + 5 * (r.level - h.level) <= MAX_U32
            else r == h
  {
    LevelForIs(t, h.level, h.exp + Boosted(gained));
    hide LevelFor;
  }

  /** A grant is refused only if it is empty, or the total or the points would not fit. */
  lemma RefusedOnly(t: LevelTable, h: Hero, gained: nat, r: Level)
    requires HeroOk(h) && 0 < gained && 30 * gained <= MAX_U64
    requires Attained(t, h.level, h.exp + 30 * gained, r) && r >= h.level
    ensures Taken(t, h, gained) <==> h.exp + 30 * gained <= MAX_U64 && h.points + 5 * (r - h.level) <= MAX_U32
  {
    LevelForIs(t, h.level, h.exp + 30 * gained);
    AttainedOnce(t, h.level, h.exp + 30 * gained, r, LevelFor(t, h.level, h.exp + 30 * gained));
    hide LevelFor, Attained;
  }

  lemma AttainedOnce(t: LevelTable, l: Level, exp: nat, a: Level, b: Level)
    requires Attained(t, l, exp, a) && Attained(t, l, exp, b)
    ensures a == b
  {
  }

  class Character {
    var exp: nat
    var level: Level
    var points: nat

    ghost predicate Valid() reads this { HeroOk(Value()) }

    ghost function Value(): Hero reads this { Hero(exp, level, points) }

    /** `saved` is the Master's answer to the optimistic update. */
    method AddExperience(t: LevelTable, gained: nat, saved: bool) returns (ok: bool)
      requires Valid() && gained <= MAX_U64
      modifies this
      ensures Valid()
      ensures ok == (Taken(t, old(Value()), gained) && saved)
      ensures Value() == if ok then Grown(t, old(Value()), gained) else old(Value())
    {
      if gained == 0 {
        return false;
      }
      var boosted := gained;
      if gained > MAX_U64 / EXP_MULTIPLIER {
        boosted := MAX_U64;
      } else {
        boosted := gained * EXP_MULTIPLIER;
      }
      if MAX_U64 - exp < boosted {
        return false;
      }
      var currentExp := exp + boosted;
      var currentLevel := LevelForExperience(t, level, currentExp);
      var levelsGained := currentLevel - level;
      if levelsGained > MAX_U32 / POINTS_PER_LEVEL {
        return false;
      }
      var statPoints := levelsGained * POINTS_PER_LEVEL;
      if MAX_U32 - points < statPoints {
        return false;
      }
      if !saved {
        return false;
      }
      exp := currentExp;
      level := currentLevel;
      points := points + statPoints;
      return true;
    }
  }

  /** Any split of a gain that neither overflows ends at the same experience and level with the same stat points,
      five per level gained. */
  lemma SplitGrowth(t: LevelTable, h: Hero, g1: nat, g2: nat)
    requires HeroOk(h) && g1 > 0 && g2 > 0 && g1 + g2 <= MAX_U64 / EXP_MULTIPLIER
    requires Taken(t, h, g1 + g2)
    ensures Taken(t, h, g1) && Taken(t, Grown(t, h, g1), g2)
    ensures Grown(t, Grown(t, h, g1), g2) == Grown(t, h, g1 + g2)
    ensures var r := Grown(t, h, g1 + g2); r.points - h.points == POINTS_PER_LEVEL * (r.level - h.level)
  {
    hide LevelFor;
    var e1, e2 := h.exp + Boosted(g1), h.exp + Boosted(g1 + g2);
    assert Boosted(g1) + Boosted(g2) == Boosted(g1 + g2);
    LevelInTwo(t, h.level, e1, e2);
    LevelMonotone(t, h.level, e1, e2);
  }

  function GrownAll(t: LevelTable, h: Hero, gains: seq<nat>): Hero {
    if gains == [] then h else Grown(t, GrownAll(t, h, gains[..|gains| - 1]), gains[|gains| - 1])
  }

  /** The same for a gain cut into any number of parts. */
  lemma {:induction false} AnySplit(t: LevelTable, h: Hero, gains: seq<nat>)
    requires HeroOk(h) && gains != [] && (forall i :: 0 <= i < |gains| ==> gains[i] > 0)
    requires Total(gains) <= MAX_U64 / EXP_MULTIPLIER && Taken(t, h, Total(gains))
    ensures GrownAll(t, h, gains) == Grown(t, h, Total(gains))
    decreases |gains|
  {
    hide Grown, Taken;
    var n := |gains| - 1;
    if n == 0 {
      assert gains[..0] == [];
    } else {
      var front := gains[..n];
      FrontPositive(front);
      SplitGrowth(t, h, Total(front), gains[n]);
      AnySplit(t, h, front);
    }
  }

  lemma {:induction false} FrontPositive(gains: seq<nat>)
    requires gains != [] && forall i :: 0 <= i < |gains| ==> gains[i] > 0
    ensures Total(gains) > 0
  {
    assert gains[|gains| - 1] > 0;
  }
}
