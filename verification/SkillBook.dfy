/** What the Master has stored of a character's skills and what the game server has in memory, over every run of
    learning, upgrading, untraining and battle-mode grants (cmd/masterserver/rpc/skill.go, cmd/gameserver/packet). */
module SkillBook {
  import opened BattleSkills

  /** Skill rows by slot, item kinds by inventory slot, the purse, and skills by quick slot. */
  datatype Record = Record(rows: Rows, items: map<nat, nat>, alz: nat, links: map<nat, nat>)

  /** What the client data say of a skill book: the skill, its level and the slots it may take. */
  datatype Book = Book(id: nat, level: nat, first: nat, last: nat)

  predicate Known(rows: Rows, id: nat) {
    exists s :: s in rows && rows[s].id == id
  }

  function Unlinked(links: map<nat, nat>, id: nat): map<nat, nat> {
    map s | s in links && links[s] != id :: links[s]
  }

  lemma UnlinkedHolds(links: map<nat, nat>, id: nat)
    ensures Unlinked(links, id).Keys <= links.Keys
    ensures forall q :: q in links ==>
              (q in Unlinked(links, id) <==> links[q] != id)
              && (q in Unlinked(links, id) ==> Unlinked(links, id)[q] == links[q])
  {
  }

  // --- The Master's transactions. ---

  /** LearnSkill: the book goes and the skill comes, unless the book is not there or the skill or the slot is taken. */
  function Learn(r: Record, itemSlot: nat, kind: nat, id: nat, level: nat, slot: nat): (Record, bool) {
    if kind == 0 || id == 0 || level == 0 || itemSlot !in r.items || r.items[itemSlot] != kind
       || Known(r.rows, id) || slot in r.rows then (r, false)
    else (r.(items := r.items - {itemSlot}, rows := r.rows[slot := Skill(id, level)]), true)
  }

  /** SaveSkill: one level up, if the row is as the caller saw it. */
  function Save(r: Record, id: nat, slot: nat, previous: nat): (Record, bool) {
    if previous >= 255 || slot !in r.rows || r.rows[slot] != Skill(id, previous) then (r, false)
    else (r.(rows := r.rows[slot := Skill(id, previous + 1)]), true)
  }

  /** UntrainSkill: one level down, or the row and its quick slots gone, for the price. */
  function Untrain(r: Record, id: nat, slot: nat, previous: nat, price: nat): (Record, bool) {
    if id == 0 || previous == 0 || r.alz < price || slot !in r.rows || r.rows[slot] != Skill(id, previous) then
      (r, false)
    else if previous == 1 then (r.(rows := r.rows - {slot}, links := Unlinked(r.links, id), alz := r.alz - price), true)
    else (r.(rows := r.rows[slot := Skill(id, previous - 1)], alz := r.alz - price), true)
  }

  /** RemoveSkillLocal: the scan over the quick slots, in whatever order. */
  method RemoveSkillLocal(links: map<nat, nat>, id: nat) returns (r: map<nat, nat>)
    ensures r == Unlinked(links, id)
    ensures forall s :: s in r <==> s in links && links[s] != id
    ensures forall s :: s in r ==> r[s] == links[s]
  {
    r := links;
    var slots := links.Keys;
    while slots != {}
      invariant slots <= links.Keys && r.Keys <= links.Keys
      invariant forall s :: s in links ==> (s in r <==> s in slots || links[s] != id)
      invariant forall s :: s in r ==> r[s] == links[s]
      decreases slots
    {
      var s :| s in slots;
      slots := slots - {s};
      if links[s] == id {
        r := r - {s};
      }
    }
  }

  datatype Action =
    | UseBook(itemSlot: nat, books: map<nat, Book>)
    | Upgrade(id: nat)
    | Forget(id: nat, slot: nat, permitted: bool, price: nat)
    | Grant(req: seq<Wanted>)

  class Skills {
    var stored: Record
    var memory: Record

    /** One row per skill, and memory is what the Master has stored. */
    ghost predicate Valid()
      reads this
    {
      OneRowPerSkill(stored.rows) && memory == stored
    }

    constructor (loaded: Record)
      requires OneRowPerSkill(loaded.rows)
      ensures Valid() && stored == loaded
    {
      stored, memory := loaded, loaded;
    }

    /** Using a skill book: it succeeds exactly when there is a book in that slot, its skill is real and new and a
        slot of its range is free; then the book is gone and the skill is in the lowest such slot. The Master's own
        tests never add a refusal. */
    method UseSkillBook(itemSlot: nat, books: map<nat, Book>) returns (ok: bool, slot: nat)
      requires Valid()
      modifies this
      ensures Valid()
      ensures var r := old(stored);
              ok <==> itemSlot in r.items && r.items[itemSlot] != 0 && r.items[itemSlot] in books
                      && var b := books[r.items[itemSlot]];
                      && b.id != 0 && b.level != 0 && !Known(r.rows, b.id)
                      && exists s :: b.first <= s <= b.last && s !in r.rows
      ensures !ok ==> stored == old(stored)
      ensures ok ==> var b := books[old(stored).items[itemSlot]];
                     && b.first <= slot <= b.last && slot !in old(stored).rows
                     && (forall k :: b.first <= k < slot ==> k in old(stored).rows)
                     && stored == old(stored).(items := old(stored).items - {itemSlot},
                                               rows := old(stored).rows[slot := Skill(b.id, b.level)])
    {
      slot := 0;
      var kind := if itemSlot in memory.items then memory.items[itemSlot] else 0;
      if kind !in books || itemSlot !in memory.items {
        return false, slot;
      }
      var b := books[kind];
      if s :| s in memory.rows && memory.rows[s].id == b.id {
        return false, slot;
      }
      slot := b.first;
      while slot <= b.last && slot in memory.rows
        invariant b.first <= slot && forall k :: b.first <= k < slot ==> k in memory.rows
      {
        slot := slot + 1;
      }
      if slot > b.last {
        return false, slot;
      }
      ok := Learn(stored, itemSlot, kind, b.id, b.level, slot).1;
      stored := Learn(stored, itemSlot, kind, b.id, b.level, slot).0;
      if ok {
        memory := memory.(items := memory.items - {itemSlot});
        memory := memory.(rows := memory.rows[slot := Skill(b.id, b.level)]);
      }
    }

    /** One level more, exactly when the skill is known below the highest level; the Master never refuses. */
    method UpgradeSkill(id: nat) returns (ok: bool)
      requires Valid()
      modifies this
      ensures Valid()
      ensures ok <==> exists s :: s in old(stored).rows && old(stored).rows[s].id == id
                        && old(stored).rows[s].level < 255
      ensures !ok ==> stored == old(stored)
      ensures ok ==> forall s :: s in old(stored).rows && old(stored).rows[s].id == id ==>
                stored == old(stored).(rows := old(stored).rows[s := Skill(id, old(stored).rows[s].level + 1)])
    {
      if s :| s in memory.rows && memory.rows[s].id == id {
        var previous := memory.rows[s].level;
        if previous >= 255 {
          return false;
        }
        ok := Save(stored, id, s, previous).1;
        stored := Save(stored, id, s, previous).0;
        if ok {
          memory := memory.(rows := memory.rows[s := Skill(id, previous + 1)]);
        }
      } else {
        return false;
      }
    }

    /** One level less, exactly when that skill is in that slot at some level, the client data permit it and the price
        can be paid. The price is taken in full; a skill at its first level goes, and its quick slots with it. */
    method UntrainSkill(id: nat, slot: nat, permitted: bool, price: nat) returns (ok: bool)
      requires Valid()
      modifies this
      ensures Valid()
      ensures var r := old(stored);
              ok <==>
              && id != 0 && slot in r.rows && r.rows[slot].id == id && r.rows[slot].level != 0
              && permitted && price <= r.alz
      ensures !ok ==> stored == old(stored)
      ensures ok ==> var r := old(stored);
                     && stored.alz == r.alz - price && stored.items == r.items
                     && (r.rows[slot].level == 1 ==>
                           && stored.rows == r.rows - {slot} && stored.links.Keys <= r.links.Keys
                           && forall q :: q in r.links ==>
                                (q in stored.links <==> r.links[q] != id)
                                && (q in stored.links ==> stored.links[q] == r.links[q]))
                     && (r.rows[slot].level > 1 ==>
                           stored.rows == r.rows[slot := Skill(id, r.rows[slot].level - 1)] && stored.links == r.links)
    {
      UnlinkedHolds(stored.links, id);
      hide Unlinked;
      var skill := if slot in memory.rows then memory.rows[slot] else Skill(0, 0);
      if skill.id == 0 || skill.id != id || skill.level == 0 || !permitted {
        return false;
      }
      ok := Untrain(stored, id, slot, skill.level, price).1;
      stored := Untrain(stored, id, slot, skill.level, price).0;
      if ok {
        memory := memory.(alz := stored.alz);
        if skill.level == 1 {
          var links := RemoveSkillLocal(memory.links, id);
          memory := memory.(rows := memory.rows - {slot}, links := links);
        } else {
          memory := memory.(rows := memory.rows[slot := Skill(id, skill.level - 1)]);
        }
      }
    }

    /** The reconciliation, followed in memory from the reported delta alone. */
    method GrantBattleMode(req: seq<Wanted>) returns (ok: bool)
      requires Valid()
      modifies this
      ensures Valid() && stored == old(stored).(rows := stored.rows)
      ensures ok == Acceptable(req) && (!ok ==> stored == old(stored))
      ensures ok ==> (Exactly(stored.rows, req) <==> Consistent(req))
      ensures ok && Consistent(req) ==> Reconciled(old(stored).rows, req, stored.rows)
    {
      hide Follow, Exactly, Reconciled, Consistent, Acceptable, OneRowPerSkill;
      var granted, added, removed;
      ok, granted, added, removed := GrantBattleModeSkills(stored.rows, req);
      stored := stored.(rows := granted);
      if ok {
        var followed := ApplyDelta(memory.rows, removed, added);
        memory := memory.(rows := followed);
      }
    }

    /** In every run of these, from one row per skill and an equal memory, both hold in every state. */
    method Serve(actions: seq<Action>)
      requires Valid()
      modifies this
      ensures Valid()
    {
      for i := 0 to |actions|
        invariant Valid()
      {
        var done, slot;
        match actions[i]
        case UseBook(itemSlot, books) => done, slot := UseSkillBook(itemSlot, books);
        case Upgrade(id) => done := UpgradeSkill(id);
        case Forget(id, at, permitted, price) => done := UntrainSkill(id, at, permitted, price);
        case Grant(req) => done := GrantBattleMode(req);
      }
    }
  }
}
