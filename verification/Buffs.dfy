/** Active buffs and their generation-guarded expiry (cmd/gameserver/context/buff.go). */
module Buffs {

  datatype Key = Key(skill: nat, buffType: nat, kind: nat)

  datatype Effect = Effect(forceId: int, value: int)

  datatype Buff = Buff(key: Key, level: nat, generation: nat, effects: seq<Effect>)

  /** The buffs under other keys, in order. */
  function Others(bs: seq<Buff>, k: Key): seq<Buff> {
    if bs == [] then []
    else
      var front := Others(bs[..|bs| - 1], k);
      if bs[|bs| - 1].key == k then front else front + [bs[|bs| - 1]]
  }

  /** The list without the instance of generation `g`, if there is one. */
  function WithoutGen(bs: seq<Buff>, g: nat): seq<Buff> {
    if bs == [] then []
    else if bs[0].generation == g then bs[1..]
    else [bs[0]] + WithoutGen(bs[1..], g)
  }

  predicate HasGen(bs: seq<Buff>, g: nat) {
    exists i :: 0 <= i < |bs| && bs[i].generation == g
  }

  datatype State = State(generation: nat, buffs: seq<Buff>)

  datatype Event =
    | Apply(key: Key, level: nat, effects: seq<Effect>)
    | Remove(key: Key)
    | Expire(generation: nat)

  function Step(s: State, e: Event): State {
    match e
    case Apply(k, level, effects) =>
      State(s.generation + 1, Others(s.buffs, k) + [Buff(k, level, s.generation + 1, effects)])
    case Remove(k) => s.(buffs := Others(s.buffs, k))
    case Expire(g) => s.(buffs := WithoutGen(s.buffs, g))
  }

  function Run(s: State, es: seq<Event>): State
    decreases |es|
  {
    if es == [] then s else Run(Step(s, es[0]), es[1..])
  }

  /** One instance per key, one per generation, none from the future. */
  predicate BuffsOk(s: State) {
    && (forall i :: 0 <= i < |s.buffs| ==> s.buffs[i].generation <= s.generation)
    && (forall i, j :: 0 <= i < j < |s.buffs| ==>
          s.buffs[i].key != s.buffs[j].key && s.buffs[i].generation != s.buffs[j].generation)
  }

  lemma {:induction false} OthersContents(bs: seq<Buff>, k: Key)
    ensures forall b :: b in Others(bs, k) <==> b in bs && b.key != k
    ensures |Others(bs, k)| <= |bs|
    ensures (forall b :: b in bs ==> b.key != k) ==> Others(bs, k) == bs
  {
    if bs != [] {
      var n := |bs| - 1;
      OthersContents(bs[..n], k);
      assert bs == bs[..n] + [bs[n]];
    }
  }

  /** Filtering keeps the order of the rest: the two halves of a list are filtered independently. */
  lemma {:induction false} OthersConcat(a: seq<Buff>, b: seq<Buff>, k: Key)
    ensures Others(a + b, k) == Others(a, k) + Others(b, k)
    decreases |b|
  {
    if b == [] {
      assert a + b == a;
    } else {
      var n := |b| - 1;
      OthersConcat(a, b[..n], k);
      assert (a + b)[..|a + b| - 1] == a + b[..n];
    }
  }

  lemma OthersStep(bs: seq<Buff>, i: nat, k: Key)
    requires i < |bs|
    ensures Others(bs[..i + 1], k) == Others(bs[..i], k) + (if bs[i].key == k then [] else [bs[i]])
  {
    assert bs[..i + 1][..i] == bs[..i];
  }

  lemma AppendOk(s: State, b: Buff)
    requires BuffsOk(s) && b.generation <= s.generation
    requires forall i :: 0 <= i < |s.buffs| ==> s.buffs[i].key != b.key && s.buffs[i].generation != b.generation
    ensures BuffsOk(s.(buffs := s.buffs + [b]))
  {
  }

  lemma FrontDiffers(s: State, i: nat, k: Key)
    requires BuffsOk(s) && i < |s.buffs|
    ensures var front := Others(s.buffs[..i], k);
            forall j :: 0 <= j < |front| ==>
              front[j].key != s.buffs[i].key && front[j].generation != s.buffs[i].generation
  {
    OthersContents(s.buffs[..i], k);
    hide Others;
    var front := Others(s.buffs[..i], k);
    forall j | 0 <= j < |front| ensures front[j].key != s.buffs[i].key && front[j].generation != s.buffs[i].generation {
      assert front[j] in s.buffs[..i];
    }
  }

  lemma {:induction false} OthersPrefixOk(s: State, i: nat, k: Key)
    requires BuffsOk(s) && i <= |s.buffs|
    ensures BuffsOk(s.(buffs := Others(s.buffs[..i], k)))
  {
    if i > 0 {
      var b, front := s.buffs[i - 1], Others(s.buffs[..i - 1], k);
      OthersPrefixOk(s, i - 1, k);
      FrontDiffers(s, i - 1, k);
      OthersStep(s.buffs, i - 1, k);
      assert b.generation <= s.generation;
      hide Others, BuffsOk;
      if b.key == k {
        assert front + [] == front;
      } else {
        AppendOk(s.(buffs := front), b);
      }
    }
  }

  lemma OthersOk(s: State, k: Key)
    requires BuffsOk(s)
    ensures BuffsOk(s.(buffs := Others(s.buffs, k)))
  {
    OthersPrefixOk(s, |s.buffs|, k);
    assert s.buffs[..|s.buffs|] == s.buffs;
  }

  lemma {:induction false} WithoutGenContents(bs: seq<Buff>, g: nat)
    requires forall i, j :: 0 <= i < j < |bs| ==> bs[i].generation != bs[j].generation
    ensures forall b :: b in WithoutGen(bs, g) <==> b in bs && b.generation != g
    ensures !HasGen(bs, g) ==> WithoutGen(bs, g) == bs
  {
    if bs != [] {
      assert bs == [bs[0]] + bs[1..];
      if bs[0].generation == g {
        forall b | b in bs[1..] ensures b.generation != g {
          var i :| 0 <= i < |bs[1..]| && bs[1..][i] == b;
          assert bs[i + 1] == b;
        }
      } else {
        WithoutGenContents(bs[1..], g);
        if HasGen(bs[1..], g) {
          var i :| 0 <= i < |bs[1..]| && bs[1..][i].generation == g;
          assert bs[i + 1].generation == g;
        }
      }
    }
  }

  /** Expiry takes out exactly the instance it names and leaves the rest in order, or takes out nothing. */
  lemma {:induction false} CutAt(bs: seq<Buff>, g: nat, index: nat)
    requires index <= |bs| && (forall k :: 0 <= k < index ==> bs[k].generation != g)
      && (index < |bs| ==> bs[index].generation == g)
    ensures WithoutGen(bs, g) == if index == |bs| then bs else bs[..index] + bs[index + 1..]
    ensures HasGen(bs, g) <==> index < |bs|
    decreases |bs|
  {
    if bs != [] && index > 0 {
      CutAt(bs[1..], g, index - 1);
      assert bs[..index] == [bs[0]] + bs[1..][..index - 1];
    }
  }

  lemma ExcisedOk(s: State, i: nat)
    requires BuffsOk(s) && i < |s.buffs|
    ensures BuffsOk(s.(buffs := s.buffs[..i] + s.buffs[i + 1..]))
  {
    var bs, rest := s.buffs, s.buffs[..i] + s.buffs[i + 1..];
    forall j | 0 <= j < |rest| ensures rest[j] == if j < i then bs[j] else bs[j + 1] {
    }
  }

  lemma WithoutGenOk(s: State, g: nat)
    requires BuffsOk(s)
    ensures BuffsOk(s.(buffs := WithoutGen(s.buffs, g)))
  {
    if HasGen(s.buffs, g) {
      var i :| 0 <= i < |s.buffs| && s.buffs[i].generation == g;
      CutAt(s.buffs, g, i);
      hide WithoutGen;
      ExcisedOk(s, i);
    } else {
      CutAt(s.buffs, g, |s.buffs|);
    }
  }

  lemma StepOk(s: State, e: Event)
    requires BuffsOk(s)
    ensures BuffsOk(Step(s, e)) && Step(s, e).generation >= s.generation
  {
    hide BuffsOk, Others, WithoutGen;
    match e
    case Apply(k, level, effects) => ApplyOk(s, k, Buff(k, level, s.generation + 1, effects));
    case Remove(k) => OthersOk(s, k);
    case Expire(g) => WithoutGenOk(s, g);
  }

  lemma ApplyOk(s: State, k: Key, b: Buff)
    requires BuffsOk(s) && b.key == k && b.generation == s.generation + 1
    ensures BuffsOk(State(s.generation + 1, Others(s.buffs, k) + [b]))
  {
    OthersOk(s, k);
    OthersContents(s.buffs, k);
    var front := Others(s.buffs, k);
    hide Others;
    forall i | 0 <= i < |front| ensures front[i].key != k {
      assert front[i] in front;
    }
    AppendOk(State(s.generation + 1, front), b);
  }

  /** An instance survives every step except its own expiry, its removal and its replacement. */
  lemma Survives(s: State, e: Event, b: Buff)
    requires BuffsOk(s) && b in s.buffs
    ensures b in Step(s, e).buffs <==>
      !(e == Expire(b.generation) || (e.Remove? && e.key == b.key) || (e.Apply? && e.key == b.key))
  {
    match e
    case Apply(k, level, effects) =>
      OthersContents(s.buffs, k);
      var i :| 0 <= i < |s.buffs| && s.buffs[i] == b;
    case Remove(k) => OthersContents(s.buffs, k);
    case Expire(g) => WithoutGenContents(s.buffs, g);
  }

  /** A buff that is applied is there afterwards, last, as the only one under its key and under a new generation; the
      others are those there were under other keys. */
  lemma AppliedThere(s: State, k: Key, level: nat, effects: seq<Effect>)
    requires BuffsOk(s)
    ensures var s' := Step(s, Apply(k, level, effects));
            var b := Buff(k, level, s.generation + 1, effects);
            && s'.generation == s.generation + 1 && s'.buffs != [] && s'.buffs[|s'.buffs| - 1] == b && b !in s.buffs
            && (forall x :: x in s'.buffs <==> x == b || (x in s.buffs && x.key != k))
  {
    OthersContents(s.buffs, k);
    hide Others;
  }

  lemma NewOnlyApplied(s: State, e: Event, b: Buff)
    requires BuffsOk(s) && b in Step(s, e).buffs && b !in s.buffs
    ensures e == Apply(b.key, b.level, b.effects) && b.generation == s.generation + 1
  {
    match e
    case Apply(k, level, effects) => OthersContents(s.buffs, k);
    case Remove(k) => OthersContents(s.buffs, k);
    case Expire(g) => WithoutGenContents(s.buffs, g);
  }

  /** Over every run each buff there is goes back to the step that applied it, with its level and effects. */
  lemma {:induction false} BuffApplied(s: State, es: seq<Event>, b: Buff) returns (k: nat)
    requires BuffsOk(s) && b in Run(s, es).buffs && b !in s.buffs
    ensures k < |es| && es[k] == Apply(b.key, b.level, b.effects)
    ensures b.generation == Run(s, es[..k]).generation + 1
    decreases |es|
  {
    hide Step, BuffsOk;
    if es == [] {
      assert false;
    }
    var next := Step(s, es[0]);
    StepOk(s, es[0]);
    if b in next.buffs {
      NewOnlyApplied(s, es[0], b);
      k := 0;
    } else {
      var i := BuffApplied(next, es[1..], b);
      k := i + 1;
      assert es[..k][0] == es[0] && es[..k][1..] == es[1..][..i];
    }
  }

  lemma GoneStep(s: State, e: Event, g: nat)
    requires BuffsOk(s) && g <= s.generation && !HasGen(s.buffs, g)
    ensures !HasGen(Step(s, e).buffs, g)
  {
    var s' := Step(s, e);
    match e
    case Apply(k, level, effects) => OthersContents(s.buffs, k);
    case Remove(k) => OthersContents(s.buffs, k);
    case Expire(h) => WithoutGenContents(s.buffs, h);
    forall i | 0 <= i < |s'.buffs| ensures s'.buffs[i].generation != g {
      assert s'.buffs[i] in s'.buffs;
      if s'.buffs[i] in s.buffs {
        var j :| 0 <= j < |s.buffs| && s.buffs[j] == s'.buffs[i];
      }
    }
  }

  /** A stale timer never ends a newer effect: once an issued generation is gone it stays gone through every run,
      and its expiry callback changes nothing. */
  lemma {:induction false} StaleTimer(s: State, es: seq<Event>, g: nat)
    requires BuffsOk(s) && g <= s.generation && !HasGen(s.buffs, g)
    ensures BuffsOk(Run(s, es)) && !HasGen(Run(s, es).buffs, g)
    ensures Step(Run(s, es), Expire(g)) == Run(s, es)
    decreases |es|
  {
    if es == [] {
      WithoutGenContents(s.buffs, g);
    } else {
      StepOk(s, es[0]);
      GoneStep(s, es[0], g);
      StaleTimer(Step(s, es[0]), es[1..], g);
    }
  }

  lemma AlwaysOk(es: seq<Event>)
    ensures BuffsOk(Run(State(0, []), es))
  {
    StaleTimer(State(0, []), es, 0);
  }

  /** Reapplying replaces: the earlier instance's timer is stale from then on. */
  lemma ReapplyMakesStale(s: State, b: Buff, level: nat, effects: seq<Effect>, es: seq<Event>)
    requires BuffsOk(s) && b in s.buffs
    ensures var later := Run(Step(s, Apply(b.key, level, effects)), es);
            Step(later, Expire(b.generation)) == later
  {
    var e := Apply(b.key, level, effects);
    StepOk(s, e);
    OthersContents(s.buffs, b.key);
    var s' := Step(s, e);
    var at :| 0 <= at < |s.buffs| && s.buffs[at] == b;
    forall i | 0 <= i < |s'.buffs| ensures s'.buffs[i].generation != b.generation {
      if i < |s'.buffs| - 1 {
        assert s'.buffs[i] in Others(s.buffs, b.key);
        var j :| 0 <= j < |s.buffs| && s.buffs[j] == s'.buffs[i];
        assert j != at;
      }
    }
    StaleTimer(s', es, b.generation);
  }

  // --- The object: a slice over a backing array, filtered and compacted in place. ---

  class Context {
    var buffGeneration: nat
    var backing: array<Buff>
    var count: nat

    ghost predicate Valid()
      reads this
    {
      count <= backing.Length
    }

    ghost function Value(): State
      requires Valid()
      reads this, backing
    {
      State(buffGeneration, backing[..count])
    }

    constructor ()
      ensures Valid() && fresh(backing) && Value() == State(0, [])
    {
      buffGeneration, count := 0, 0;
      backing := new Buff[0];
    }

    /** Moves the buffs under other keys to the front of the backing array. */
    method Compact(key: Key) returns (n: nat)
      requires Valid()
      modifies backing
      ensures n <= count && backing[..n] == Others(old(backing[..count]), key)
    {
      ghost var was := backing[..count];
      n := 0;
      assert Others(was[..0], key) == [];
      hide Others;
      for i := 0 to count
        invariant n <= i
        invariant backing[..n] == Others(was[..i], key)
        invariant backing[i..count] == was[i..]
      {
        OthersStep(was, i, key);
        assert backing[i] == was[i] && backing[i + 1..count] == was[i + 1..];
        if backing[i].key != key {
          backing[n] := backing[i];
          n := n + 1;
          assert backing[..n] == Others(was[..i], key) + [was[i]];
        }
      }
      assert was[..count] == was;
    }

    /** Go's append: in place while there is room, otherwise into a larger array. */
    method Append(n: nat, b: Buff)
      requires n <= backing.Length
      modifies this, backing
      ensures backing == old(backing) || fresh(backing)
      ensures n < backing.Length && count == n + 1 && backing[..count] == old(backing[..n]) + [b]
      ensures buffGeneration == old(buffGeneration)
    {
      if n < backing.Length {
        backing[n] := b;
      } else {
        var kept := backing[..n];
        backing := new Buff[2 * n + 1](i requires 0 <= i => if i < n then kept[i] else b);
      }
      count := n + 1;
    }

    method ApplyBuff(key: Key, level: nat, effects: seq<Effect>) returns (generation: nat)
      requires Valid()
      modifies this, backing
      ensures Valid() && (backing == old(backing) || fresh(backing))
      ensures Value() == Step(old(Value()), Apply(key, level, effects)) && generation == buffGeneration
    {
      hide Others;
      buffGeneration := buffGeneration + 1;
      generation := buffGeneration;
      var n := Compact(key);
      Append(n, Buff(key, level, generation, effects));
    }

    /** A fresh list is built; the old one stays when nothing matched. */
    method RemoveBuff(key: Key) returns (removed: bool, left: seq<Buff>)
      requires Valid()
      modifies this
      ensures Valid() && (backing == old(backing) || fresh(backing))
      ensures Value() == Step(old(Value()), Remove(key))
      ensures removed == exists b :: b in old(Value()).buffs && b.key == key
      ensures left == if removed then Value().buffs else []
    {
      ghost var was := backing[..count];
      removed := false;
      var remaining: seq<Buff> := [];
      for i := 0 to count
        invariant remaining == Others(was[..i], key)
        invariant removed == exists b :: b in was[..i] && b.key == key
      {
        assert was[..i + 1] == was[..i] + [was[i]];
        if backing[i].key == key {
          removed := true;
        } else {
          remaining := remaining + [backing[i]];
        }
      }
      assert was[..count] == was;
      if !removed {
        OthersContents(was, key);
        return false, [];
      }
      backing := new Buff[|remaining|](i requires 0 <= i < |remaining| => remaining[i]);
      count := |remaining|;
      assert backing[..count] == remaining;
      left := remaining;
    }

    /** Closes the gap at `index` by copying the tail down. */
    method CopyDown(index: nat)
      requires Valid() && index < count
      modifies backing
      ensures backing[..count - 1] == old(backing[..count])[..index] + old(backing[..count])[index + 1..]
    {
      ghost var was := backing[..count];
      var i := index;
      while i + 1 < count
        invariant index <= i < count
        invariant forall k :: 0 <= k < index ==> backing[k] == was[k]
        invariant forall k :: index <= k < i ==> backing[k] == was[k + 1]
        invariant forall k :: i < k < count ==> backing[k] == was[k]
      {
        backing[i] := backing[i + 1];
        i := i + 1;
      }
    }

    method ExpireBuff(generation: nat) returns (expired: bool)
      requires Valid()
      modifies this, backing
      ensures Valid() && backing == old(backing)
      ensures Value() == Step(old(Value()), Expire(generation))
      ensures expired == HasGen(old(Value()).buffs, generation)
    {
      hide WithoutGen, HasGen;
      ghost var was := backing[..count];
      var index := 0;
      while index < count && backing[index].generation != generation
        invariant 0 <= index <= count && forall k :: 0 <= k < index ==> was[k].generation != generation
      {
        index := index + 1;
      }
      CutAt(was, generation, index);
      if index == count {
        return false;
      }
      CopyDown(index);
      count := count - 1;
      return true;
    }
  }
}
