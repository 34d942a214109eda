/** Reconciling the battle-mode skills of a character with their reserved slots
    (cmd/masterserver/rpc/skill.go, GrantBattleModeSkills) and following the delta in memory
    (cmd/gameserver/packet/battle_mode.go, applyBattleModeSkills). */
module BattleSkills {

  const SLOT_MIN: nat := 70
  const SLOT_MAX: nat := 81

  datatype Skill = Skill(id: nat, level: nat)

  /** The skill rows of one character, by slot. */
  type Rows = map<nat, Skill>

  datatype Wanted = Wanted(id: nat, level: nat, slot: nat)

  predicate Reserved(s: nat) { SLOT_MIN <= s <= SLOT_MAX }

  /** The requests the Master accepts: real skills in reserved slots, one skill per slot. */
  predicate Acceptable(req: seq<Wanted>) {
    && (forall i :: 0 <= i < |req| ==> req[i].id != 0 && req[i].level != 0 && Reserved(req[i].slot))
    && (forall i, j :: 0 <= i < j < |req| && req[i].slot == req[j].slot ==> req[i].id == req[j].id)
  }

  /** No skill is asked for in two slots. */
  predicate Consistent(req: seq<Wanted>) {
    forall i, j :: 0 <= i < j < |req| && req[i].id == req[j].id ==> req[i].slot == req[j].slot
  }

  predicate OneRowPerSkill(rows: Rows) {
    forall a, b :: a in rows && b in rows && a != b ==> rows[a].id != rows[b].id
  }

  predicate Asked(req: seq<Wanted>, s: nat, id: nat) {
    exists k :: 0 <= k < |req| && req[k].slot == s && req[k].id == id
  }

  predicate AskedAnywhere(req: seq<Wanted>, id: nat) {
    exists k :: 0 <= k < |req| && req[k].id == id
  }

  /** The reserved slots hold exactly the requested skills. */
  predicate Exactly(rows: Rows, req: seq<Wanted>) {
    && (forall s :: s in rows && Reserved(s) ==> Asked(req, s, rows[s].id))
    && (forall k :: 0 <= k < |req| ==> req[k].slot in rows && rows[req[k].slot].id == req[k].id)
  }

  /** A skill keeps the level it had in place, else the level it had outside the range, else the requested one. */
  predicate LevelKept(rows0: Rows, req: seq<Wanted>, s: nat, sk: Skill) {
    if s in rows0 && rows0[s].id == sk.id then sk.level == rows0[s].level
    else if exists a :: a in rows0 && !Reserved(a) && rows0[a].id == sk.id then
      forall a :: a in rows0 && !Reserved(a) && rows0[a].id == sk.id ==> sk.level == rows0[a].level
    else Wanted(sk.id, sk.level, s) in req
  }

  /** Outside the range a row is as it was, unless its skill was called into the range. */
  ghost predicate OutsideKept(rows0: Rows, rows: Rows, req: seq<Wanted>) {
    forall s :: !Reserved(s) ==>
      && (s in rows <==> s in rows0 && !AskedAnywhere(req, rows0[s].id))
      && (s in rows ==> rows[s] == rows0[s])
  }

  ghost predicate Reconciled(rows0: Rows, req: seq<Wanted>, rows: Rows) {
    && Exactly(rows, req) && OneRowPerSkill(rows) && OutsideKept(rows0, rows, req)
    && forall s :: s in rows && Reserved(s) ==> LevelKept(rows0, req, s, rows[s])
  }

  // --- The in-memory mirror. ---

  function Drop(m: Rows, removed: seq<nat>): Rows {
    m - set i | 0 <= i < |removed| :: removed[i]
  }

  /** A skill arrives: it leaves any other slot, and takes its own. */
  function Place(m: Rows, a: Wanted): Rows {
    (map s | s in m && m[s].id != a.id :: m[s])[a.slot := Skill(a.id, a.level)]
  }

  function PlaceAll(m: Rows, added: seq<Wanted>): Rows {
    if added == [] then m else Place(PlaceAll(m, added[..|added| - 1]), added[|added| - 1])
  }

  function Follow(m: Rows, removed: seq<nat>, added: seq<Wanted>): Rows {
    PlaceAll(Drop(m, removed), added)
  }

  /** `applyBattleModeSkills`. */
  method ApplyDelta(m: Rows, removed: seq<nat>, added: seq<Wanted>) returns (r: Rows)
    ensures r == Follow(m, removed, added)
  {
    r := m;
    for i := 0 to |removed|
      invariant r == Drop(m, removed[..i])
    {
      assert removed[..i + 1] == removed[..i] + [removed[i]];
      r := r - {removed[i]};
    }
    assert removed[..|removed|] == removed;
    ghost var dropped := r;
    for i := 0 to |added|
      invariant r == PlaceAll(dropped, added[..i])
    {
      assert added[..i + 1][..i] == added[..i];
      r := Arrive(r, added[i]);
    }
    assert added[..|added|] == added;
  }

  /** One arrival: the scan over the list deletes the skill's other slots and a different skill in its slot. */
  method Arrive(m: Rows, a: Wanted) returns (r: Rows)
    ensures r == Place(m, a)
  {
    r := m;
    var slots := m.Keys;
    while slots != {}
      invariant slots <= m.Keys && r.Keys <= m.Keys
      invariant forall s :: s in m ==> (s in r <==> s in slots || ((m[s].id == a.id) == (s == a.slot)))
      invariant forall s :: s in r ==> r[s] == m[s]
      decreases slots
    {
      var s :| s in slots;
      slots := slots - {s};
      if m[s].id == a.id && s != a.slot {
        r := r - {s};
      } else if s == a.slot && m[s].id != a.id {
        r := r - {s};
      }
    }
    r := r[a.slot := Skill(a.id, a.level)];
  }

  // --- The reconciliation. ---

  /** The first loop: refuses bad entries and two skills for one slot. */
  method CheckRequest(req: seq<Wanted>) returns (ok: bool, desired: map<nat, nat>)
    ensures ok == Acceptable(req)
    ensures ok ==> forall s :: s in desired <==> exists k :: 0 <= k < |req| && req[k].slot == s
    ensures ok ==> forall k :: 0 <= k < |req| ==> desired[req[k].slot] == req[k].id
  {
    desired := map[];
    for i := 0 to |req|
      invariant Acceptable(req[..i])
      invariant forall s :: s in desired <==> exists k :: 0 <= k < i && req[k].slot == s
      invariant forall k :: 0 <= k < i ==> desired[req[k].slot] == req[k].id
    {
      var w := req[i];
      if w.id == 0 || w.level == 0 || !Reserved(w.slot) {
        return false, desired;
      }
      if w.slot in desired && desired[w.slot] != w.id {
        return false, desired;
      }
      desired := desired[w.slot := w.id];
      assert req[..i + 1] == req[..i] + [w];
    }
    assert req[..|req|] == req;
    ok := true;
  }

  /** After the second loop: the range holds only what is asked for, nothing else has moved. */
  ghost predicate Cleaned(rows0: Rows, req: seq<Wanted>, rows: Rows) {
    && (forall s :: s in rows <==> s in rows0 && (Reserved(s) ==> Asked(req, s, rows0[s].id)))
    && (forall s :: s in rows ==> rows[s] == rows0[s])
  }

  /** The second loop: rows of the range that are not asked for go. */
  method RemoveUnwanted(rows0: Rows, req: seq<Wanted>, desired: map<nat, nat>) returns (rows: Rows, removed: seq<nat>)
    requires forall s :: s in desired <==> exists k :: 0 <= k < |req| && req[k].slot == s
    requires forall k :: 0 <= k < |req| ==> desired[req[k].slot] == req[k].id
    ensures Cleaned(rows0, req, rows) && rows == Drop(rows0, removed)
    ensures (forall s :: s in rows0 && Reserved(s) ==> Asked(req, s, rows0[s].id)) ==> removed == []
  {
    DropNone(rows0, []);
    hide Asked, Drop;
    rows, removed := rows0, [];
    for s := SLOT_MIN to SLOT_MAX + 1
      invariant forall k :: k in rows <==> k in rows0 && (SLOT_MIN <= k < s ==> Asked(req, k, rows0[k].id))
      invariant forall k :: k in rows ==> rows[k] == rows0[k]
      invariant rows == Drop(rows0, removed)
      invariant (forall k :: k in rows0 && Reserved(k) ==> Asked(req, k, rows0[k].id)) ==> removed == []
    {
      if s in rows0 {
        WantedHere(req, desired, s, rows0[s].id);
        if s in desired && desired[s] == rows0[s].id {
          continue;
        }
        rows := rows - {s};
        removed := removed + [s];
        DropOneMore(rows0, removed);
      }
    }
  }

  lemma WantedHere(req: seq<Wanted>, desired: map<nat, nat>, s: nat, id: nat)
    requires forall s :: s in desired <==> exists k :: 0 <= k < |req| && req[k].slot == s
    requires forall k :: 0 <= k < |req| ==> desired[req[k].slot] == req[k].id
    ensures Asked(req, s, id) <==> s in desired && desired[s] == id
  {
  }

  lemma DropOneMore(m: Rows, removed: seq<nat>)
    requires removed != []
    ensures Drop(m, removed) == Drop(m, removed[..|removed| - 1]) - {removed[|removed| - 1]}
  {
    var n := |removed| - 1;
    assert removed == removed[..n] + [removed[n]];
  }

  /** How far the third loop has come after the first `i` requests, for a consistent request. */
  ghost predicate Filled(rows0: Rows, req: seq<Wanted>, i: nat, rows: Rows)
    requires i <= |req|
  {
    && (forall s :: s in rows && Reserved(s) ==> Asked(req, s, rows[s].id) && LevelKept(rows0, req, s, rows[s]))
    && (forall k :: 0 <= k < i ==> req[k].slot in rows && rows[req[k].slot].id == req[k].id)
    && OutsideKept(rows0, rows, req[..i])
    && (forall s :: s in rows0 && Reserved(s) && Asked(req, s, rows0[s].id) ==> s in rows && rows[s] == rows0[s])
  }

  /** The third loop's turn for one request: what it does to the rows and what it reports. */
  function Turn(rows: Rows, w: Wanted, at: int): (Rows, seq<Wanted>)
    requires at >= 0 ==> at in rows && rows[at].id == w.id
  {
    if at >= 0 then
      if at == w.slot then (rows, [])
      else ((rows - {at})[w.slot := rows[at]], [Wanted(w.id, rows[at].level, w.slot)])
    else (rows[w.slot := Skill(w.id, w.level)], [w])
  }

  /** The row the lookup by skill returns. */
  predicate FoundAt(rows: Rows, id: nat, at: int) {
    if at >= 0 then at in rows && rows[at].id == id else forall s :: s in rows ==> rows[s].id != id
  }

  /** One request handled as the source does it, statement by statement. */
  method FillOne(rows0: Rows, w: Wanted) returns (rows: Rows, reported: seq<Wanted>, at: int)
    requires Reserved(w.slot)
    ensures FoundAt(rows0, w.id, at) && (rows, reported) == Turn(rows0, w, at)
  {
    rows, reported := rows0, [];
    if s :| s in rows && rows[s].id == w.id {
      at := s;
      if s == w.slot {
        return;
      }
      var existing := rows[s];
      if w.slot in rows && rows[w.slot].id != w.id {
        rows := rows - {w.slot};
      }
      if s in rows {
        rows := (rows - {s})[w.slot := existing];
        assert rows == (rows0 - {s})[w.slot := existing];
        reported := [Wanted(w.id, existing.level, w.slot)];
      }
      return;
    }
    at := -1;
    if w.slot in rows {
      rows := rows - {w.slot};
    }
    rows := rows[w.slot := Skill(w.id, w.level)];
    assert rows == rows0[w.slot := Skill(w.id, w.level)];
    reported := [w];
  }

  lemma TurnKeepsOneRow(rows: Rows, w: Wanted, at: int)
    requires OneRowPerSkill(rows) && FoundAt(rows, w.id, at)
    ensures OneRowPerSkill(Turn(rows, w, at).0)
  {
  }

  /** What the turn reports is what the mirror needs to follow it. */
  lemma TurnFollowed(rows: Rows, w: Wanted, at: int)
    requires OneRowPerSkill(rows) && FoundAt(rows, w.id, at)
    ensures var (after, reported) := Turn(rows, w, at); PlaceAll(rows, reported) == after
  {
    var (after, reported) := Turn(rows, w, at);
    if reported != [] {
      assert reported[..0] == [];
      assert after == Place(rows, reported[0]);
    }
  }

  lemma {:induction false} PlaceAllConcat(m: Rows, a: seq<Wanted>, b: seq<Wanted>)
    ensures PlaceAll(m, a + b) == PlaceAll(PlaceAll(m, a), b)
    decreases |b|
  {
    if b == [] {
      assert a + b == a;
    } else {
      var n := |b| - 1;
      assert (a + b)[..|a + b| - 1] == a + b[..n];
      PlaceAllConcat(m, a, b[..n]);
    }
  }

  lemma TurnFills(rows0: Rows, req: seq<Wanted>, i: nat, rows: Rows, at: int)
    requires Acceptable(req) && Consistent(req) && i < |req| && OneRowPerSkill(rows0) && OneRowPerSkill(rows)
    requires Filled(rows0, req, i, rows) && FoundAt(rows, req[i].id, at)
    ensures Filled(rows0, req, i + 1, Turn(rows, req[i], at).0)
  {
    var w := req[i];
    var after := Turn(rows, w, at).0;
    forall id ensures AskedAnywhere(req[..i + 1], id) <==> AskedAnywhere(req[..i], id) || id == w.id {
      OneMoreAsked(req, i, id);
    }
    FilledInPlace(rows0, req, i, rows, at);
    forall s | s in after && Reserved(s) ensures Asked(req, s, after[s].id) && LevelKept(rows0, req, s, after[s]) {
      if s == w.slot && at != s {
        assert Asked(req, s, w.id);
        FilledLevel(rows0, req, i, rows, at);
      }
    }
    forall k | 0 <= k < i + 1 ensures req[k].slot in after && after[req[k].slot].id == req[k].id {
      if k < i && at >= 0 && at != w.slot {
        assert req[k].slot != at;
      }
    }
  }

  /** For a consistent request a skill found elsewhere is outside the range. */
  lemma FilledInPlace(rows0: Rows, req: seq<Wanted>, i: nat, rows: Rows, at: int)
    requires Acceptable(req) && Consistent(req) && i < |req| && Filled(rows0, req, i, rows)
      && FoundAt(rows, req[i].id, at)
    ensures at >= 0 && at != req[i].slot ==> !Reserved(at)
  {
    if at >= 0 && Reserved(at) {
      var k :| 0 <= k < |req| && req[k].slot == at && req[k].id == req[i].id;
      assert k < i || k == i || i < k;
    }
  }

  /** The level that arrives with a skill is the one it should have. */
  lemma FilledLevel(rows0: Rows, req: seq<Wanted>, i: nat, rows: Rows, at: int)
    requires Acceptable(req) && Consistent(req) && i < |req| && OneRowPerSkill(rows0)
    requires Filled(rows0, req, i, rows) && OneRowPerSkill(rows) && FoundAt(rows, req[i].id, at) && at != req[i].slot
    ensures LevelKept(rows0, req, req[i].slot, Turn(rows, req[i], at).0[req[i].slot])
  {
    var w := req[i];
    assert Asked(req, w.slot, w.id);
    FilledInPlace(rows0, req, i, rows, at);
    AskedIsThere(rows0, req, i, rows, w.id);
  }

  /** A skill already asked for has its row. */
  lemma AskedIsThere(rows0: Rows, req: seq<Wanted>, i: nat, rows: Rows, id: nat)
    requires i <= |req| && Filled(rows0, req, i, rows)
    ensures AskedAnywhere(req[..i], id) ==> exists s :: s in rows && rows[s].id == id
  {
    if AskedAnywhere(req[..i], id) {
      var k :| 0 <= k < i && req[..i][k].id == id;
      assert req[k].slot in rows && rows[req[k].slot].id == id;
    }
  }

  lemma OneMoreAsked(req: seq<Wanted>, i: nat, id: nat)
    requires i < |req|
    ensures AskedAnywhere(req[..i + 1], id) <==> AskedAnywhere(req[..i], id) || id == req[i].id
  {
    if AskedAnywhere(req[..i], id) {
      var k :| 0 <= k < i && req[..i][k].id == id;
      assert req[..i + 1][k].id == id;
    }
    assert req[..i + 1][i] == req[i];
    if AskedAnywhere(req[..i + 1], id) {
      var k :| 0 <= k < i + 1 && req[..i + 1][k].id == id;
      assert k < i ==> req[..i][k].id == id;
    }
  }

  lemma CleanedFills(rows0: Rows, req: seq<Wanted>, rows: Rows)
    requires Cleaned(rows0, req, rows)
    ensures Filled(rows0, req, 0, rows)
    ensures OneRowPerSkill(rows0) ==> OneRowPerSkill(rows)
  {
    assert forall id :: !AskedAnywhere(req[..0], id);
  }

  /** Two slots cannot both hold a skill that has one row. */
  lemma ExactlyNeedsConsistency(rows: Rows, req: seq<Wanted>)
    requires OneRowPerSkill(rows) && Exactly(rows, req)
    ensures Consistent(req)
  {
  }

  lemma CalmTurn(rows: Rows, req: seq<Wanted>, i: nat, at: int)
    requires i < |req| && OneRowPerSkill(rows) && Exactly(rows, req) && FoundAt(rows, req[i].id, at)
    ensures Turn(rows, req[i], at) == (rows, [])
  {
    assert req[i].slot in rows && rows[req[i].slot].id == req[i].id;
  }

  /** GrantBattleModeSkills. With one row per skill beforehand: the reserved slots end up holding exactly the
      requested skills if and only if no skill was asked for in two slots; then every other row is untouched
      except those called into the range, and levels survive the move. The reported delta takes a mirror of
      the old rows to the new rows, and is empty when there is nothing to do. */
  method GrantBattleModeSkills(rows0: Rows, req: seq<Wanted>)
    returns (ok: bool, rows: Rows, added: seq<Wanted>, removed: seq<nat>)
    ensures ok == Acceptable(req)
    ensures !ok ==> rows == rows0 && added == [] && removed == []
    ensures ok && OneRowPerSkill(rows0) ==> OneRowPerSkill(rows) && rows == Follow(rows0, removed, added)
    ensures ok && OneRowPerSkill(rows0) ==> (Exactly(rows, req) <==> Consistent(req))
    ensures ok && OneRowPerSkill(rows0) && Consistent(req) ==> Reconciled(rows0, req, rows)
    ensures ok && OneRowPerSkill(rows0) && Exactly(rows0, req) ==> rows == rows0 && added == [] && removed == []
  {
    hide OneRowPerSkill, Filled, Exactly, Consistent, Acceptable, OutsideKept, Cleaned, LevelKept, PlaceAll, Drop;
    rows, added, removed := rows0, [], [];
    var desired;
    ok, desired := CheckRequest(req);
    if !ok {
      return;
    }
    ghost var calm := OneRowPerSkill(rows0) && Exactly(rows0, req);
    if calm {
      CalmStart(rows0, req);
    }
    rows, removed := RemoveUnwanted(rows0, req, desired);
    ghost var cleaned := rows;
    CleanedFills(rows0, req, rows);
    PlaceNone(rows);
    if calm {
      DropNone(rows0, removed);
    }
    for i := 0 to |req|
      invariant OneRowPerSkill(rows0) ==> OneRowPerSkill(rows) && PlaceAll(cleaned, added) == rows
      invariant OneRowPerSkill(rows0) && Consistent(req) ==> Filled(rows0, req, i, rows)
      invariant calm ==> rows == rows0 && added == []
    {
      ReservedSlot(req, i);
      ghost var before := rows;
      var reported, at;
      rows, reported, at := FillOne(rows, req[i]);
      if OneRowPerSkill(rows0) {
        TurnKeepsOneRow(before, req[i], at);
        TurnFollowed(before, req[i], at);
        PlaceAllConcat(cleaned, added, reported);
        if Consistent(req) {
          TurnFills(rows0, req, i, before, at);
        }
        if calm {
          CalmTurn(rows0, req, i, at);
        }
      }
      added := added + reported;
    }
    if OneRowPerSkill(rows0) {
      if Consistent(req) {
        FilledDone(rows0, req, rows);
      }
      if Exactly(rows, req) {
        ExactlyNeedsConsistency(rows, req);
      }
    }
  }

  lemma ReservedSlot(req: seq<Wanted>, i: nat)
    requires Acceptable(req) && i < |req|
    ensures Reserved(req[i].slot)
  {
  }

  lemma CalmStart(rows0: Rows, req: seq<Wanted>)
    requires Exactly(rows0, req)
    ensures forall s :: s in rows0 && Reserved(s) ==> Asked(req, s, rows0[s].id)
  {
  }

  lemma PlaceNone(m: Rows)
    ensures PlaceAll(m, []) == m
  {
  }

  lemma DropNone(m: Rows, removed: seq<nat>)
    requires removed == []
    ensures Drop(m, removed) == m
  {
  }

  lemma FilledDone(rows0: Rows, req: seq<Wanted>, rows: Rows)
    requires OneRowPerSkill(rows) && Filled(rows0, req, |req|, rows)
    ensures Reconciled(rows0, req, rows) && Exactly(rows, req)
  {
    assert req[..|req|] == req;
  }

  /** One skill asked for in two slots is accepted, and no list of rows with one row per skill can meet it. */
  lemma TwoSlotsCannotBeMet(rows: Rows)
    requires OneRowPerSkill(rows)
    ensures var req := [Wanted(7, 1, 70), Wanted(7, 1, 71)];
            Acceptable(req) && !Consistent(req) && !Exactly(rows, req)
  {
    var req := [Wanted(7, 1, 70), Wanted(7, 1, 71)];
    assert req[0].id == req[1].id && req[0].slot != req[1].slot;
    if Exactly(rows, req) {
      ExactlyNeedsConsistency(rows, req);
    }
  }
}
