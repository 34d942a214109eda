/** Gains as the handler takes them: in 32 bits, one after another. */
module SkillGain {
  import opened Numbers
  import opened SkillRank

  function Progressed(t: Ladder, b: Bonuses, allowed: nat, p: Progress, gained: nat): Progress
    requires 1 <= allowed <= MAX_RANK
  {
    Handled(t, b, allowed, p, gained).0
  }

  predicate Ready(t: Ladder, allowed: nat, p: Progress) {
    WellFormed(t, p.track) && p.track.rank <= allowed <= MAX_RANK && p.point < U16
  }

  /** From a well-formed track the handler ends in the closed form of the wrapped bar. */
  lemma ProgressedIs(t: Ladder, b: Bonuses, allowed: nat, p: Progress, gained: nat)
    requires Ready(t, allowed, p) && gained > 0
    ensures 1 <= p.track.rank && Placed(t, p.track)
    ensures Progressed(t, b, allowed, p, gained) == Granted(t, b, allowed, p, Wrap(p.track.exp + gained))
  {
    WellPlaced(t, p.track);
    hide Granted, Spent, Bars;
    if Finished(t, p.track) {
      FinishedStays(t, b, p, Wrap(p.track.exp + gained));
    }
  }

  lemma SmallBar(t: Ladder, s: Track)
    requires WellFormed(t, s)
    ensures s.exp <= RungAt(t, s.rank).exp < U16
    ensures s.exp > 0 ==> s.rankExp < RungAt(t, s.rank).points
  {
  }

  lemma GrantedPlace(t: Ladder, b: Bonuses, allowed: nat, p: Progress, total: nat)
    requires Placed(t, p.track) && p.track.rank <= allowed <= MAX_RANK
    ensures var q := Granted(t, b, allowed, p, total);
            && WellFormed(t, q.track) && p.track.rank <= q.track.rank <= allowed
              && Points(t, p.track) <= Points(t, q.track)
            && Phi(t, q.track) == Min(Banked(t, p.track) + total, Cap(t, allowed))
  {
    LocatePhi(t, allowed, Banked(t, p.track) + total);
    PointsGrow(t, allowed, p.track, total);
    hide Locate, Promote, Counted, Crossed, Phi, Points, Cap, Banked, WellFormed;
  }

  /** Too little for a point: only the bar changes. */
  lemma NoPoint(t: Ladder, b: Bonuses, allowed: nat, p: Progress, total: nat)
    requires Placed(t, p.track) && p.track.rank <= allowed <= MAX_RANK && p.point < U16
    requires p.track.rankExp < RungAt(t, p.track.rank).points && total < RungAt(t, p.track.rank).exp
    ensures Granted(t, b, allowed, p, total) == p.(track := p.track.(exp := total))
  {
    ClimbStart(t, b, allowed, p, total);
    ClimbRest(t, b, allowed, p, total, p.track.rank, p.track.rankExp, total, p.point, p.stats);
    hide Granted, Climbing, Banked, Cap;
  }

  /** What is granted depends on the bar only through the total. */
  lemma SameBase(t: Ladder, b: Bonuses, allowed: nat, p: Progress, exp: nat, total: nat)
    requires Placed(t, p.track) && p.track.rank <= allowed <= MAX_RANK
    ensures Placed(t, p.track.(exp := exp))
    ensures Granted(t, b, allowed, p.(track := p.track.(exp := exp)), total) == Granted(t, b, allowed, p, total)
  {
    hide Locate, Promote, Spent, Earned, Bars;
  }

  lemma Wrapped(e: nat, gained: nat)
    requires e < U16 && gained < U32
    ensures Wrap(e + gained) == if e + gained < U32 then e + gained else e + gained - U32
  {
  }

  lemma PhiIs(t: Ladder, s: Track)
    requires 1 <= s.rank <= MAX_RANK
    ensures Phi(t, s) == Banked(t, s) + s.exp
  {
  }

  lemma MinIs(a: nat, b: nat)
    ensures Min(a, b) == if a < b then a else b
  {
  }

  /** Experience grows by the gain, up to the cap, if and only if bar and gain fit in 32 bits. */
  lemma GainExact(t: Ladder, b: Bonuses, allowed: nat, p: Progress, gained: nat)
    requires Ready(t, allowed, p) && 0 < gained < U32
    ensures var q := Progressed(t, b, allowed, p, gained);
            && WellFormed(t, q.track) && p.track.rank <= q.track.rank <= allowed
            && (Phi(t, q.track) == Min(Phi(t, p.track) + gained, Cap(t, allowed)) <==> p.track.exp + gained < U32)
  {
    hide *;
    ReadyMeans(t, allowed, p);
    ProgressedIs(t, b, allowed, p, gained);
    SmallBar(t, p.track);
    PhiBelowCap(t, allowed, p.track);
    GrantedPlace(t, b, allowed, p, Wrap(p.track.exp + gained));
    PhiIs(t, p.track);
    Wrapped(p.track.exp, gained);
    MinIs(Phi(t, p.track) + gained, Cap(t, allowed));
    MinIs(Banked(t, p.track) + Wrap(p.track.exp + gained), Cap(t, allowed));
  }

  lemma MinZero()
    ensures Min(U16 - 1, 0) == 0
  {
  }

  lemma HandledReport(t: Ladder, b: Bonuses, allowed: nat, p: Progress, gained: nat)
    requires Ready(t, allowed, p) && 0 < gained && !Finished(t, p.track)
    ensures Placed(t, p.track)
    ensures var c := FromPlace(t, b, allowed, p, Wrap(p.track.exp + gained));
            var r := Handled(t, b, allowed, p, gained).1;
            && r.rankUp == (Progressed(t, b, allowed, p, gained).track.rank > p.track.rank)
            && r.limitReached == c.limited && r.applied == if c.limited then 0 else Min(U16 - 1, Wrap(gained - c.left))
  {
    WellPlaced(t, p.track);
    hide FromPlace, Min;
  }

  lemma LeftIs(t: Ladder, b: Bonuses, allowed: nat, p: Progress, total: nat)
    requires Placed(t, p.track) && p.track.rank <= allowed <= MAX_RANK
    ensures var c, phi := FromPlace(t, b, allowed, p, total), Banked(t, p.track) + total;
            && c.left == (if phi >= Cap(t, allowed) then phi - Cap(t, allowed) else 0)
            && c.limited == (allowed < MAX_RANK && phi >= Cap(t, allowed))
  {
    hide Granted, Banked, Cap;
  }

  /** What the handler reports of a gain that fits, and that is not refused: all of it below the cap, what was missing
      to the cap at the last rank, nothing at a limit. */
  lemma ReportExact(t: Ladder, b: Bonuses, allowed: nat, p: Progress, gained: nat)
    requires Ready(t, allowed, p) && 0 < gained && p.track.exp + gained < U32 && !Finished(t, p.track)
    ensures 1 <= p.track.rank && Phi(t, p.track) <= Cap(t, allowed)
    ensures var report := Handled(t, b, allowed, p, gained).1;
            var full := Phi(t, p.track) + gained >= Cap(t, allowed);
            && report.limitReached == (full && allowed < MAX_RANK)
            && report.rankUp == (Progressed(t, b, allowed, p, gained).track.rank > p.track.rank)
            && report.applied == Min(U16 - 1, if !full then gained
                                              else if allowed == MAX_RANK then Cap(t, allowed) - Phi(t, p.track) else 0)
  {
    hide *;
    ReadyMeans(t, allowed, p);
    SmallBar(t, p.track);
    Wrapped(p.track.exp, gained);
    PhiBelowCap(t, allowed, p.track);
    PhiIs(t, p.track);
    HandledReport(t, b, allowed, p, gained);
    LeftIs(t, b, allowed, p, p.track.exp + gained);
    Wrapped(0, gained);
    MinZero();
    if Phi(t, p.track) + gained >= Cap(t, allowed) {
      Wrapped(0, Cap(t, allowed) - Phi(t, p.track));
    }
  }

  /** The bar left over is never longer than the total. */
  lemma BarShrinks(t: Ladder, b: Bonuses, allowed: nat, p: Progress, total: nat)
    requires Placed(t, p.track) && p.track.rank <= allowed <= MAX_RANK
    ensures Granted(t, b, allowed, p, total).track.exp <= total
  {
    var q := Granted(t, b, allowed, p, total);
    GrantedPlace(t, b, allowed, p, total);
    BankedGrows(t, p.track, q.track);
    hide Granted, Cap, Spent, Bars, WellFormed, Placed;
  }

  lemma BankedGrows(t: Ladder, s: Track, s': Track)
    requires Placed(t, s) && s.rank <= s'.rank <= MAX_RANK && Points(t, s) <= Points(t, s')
    ensures Banked(t, s) <= Banked(t, s')
  {
    hide Bars;
    if s.rank == s'.rank {
      BarsMonotone(s.rankExp, s'.rankExp, RungAt(t, s.rank).exp);
    } else {
      BankedBelowCap(t, s.rank, s);
      SpentMonotone(t, s.rank + 1, s'.rank);
    }
  }

  // --- Splitting a gain. ---

  /** When a gain may be split in two: it fits in 32 bits, or the first part alone does not, or the first part does not
      complete a point, or it just fills the bar of a limit without the point counter being full. */
  predicate SplitHarmless(t: Ladder, allowed: nat, p: Progress, g1: nat, g2: nat)
    requires 1 <= p.track.rank <= MAX_RANK
  {
    var e, r := p.track.exp, RungAt(t, p.track.rank);
    || e + g1 + g2 < U32 || e + g1 >= U32 || e + g1 < r.exp
    || (e + g1 == r.exp && p.track.rank == allowed < MAX_RANK && p.track.rankExp == r.points - 1 && p.point < U16 - 1)
  }

  lemma ProgressedFits(t: Ladder, b: Bonuses, allowed: nat, p: Progress, gained: nat)
    requires Ready(t, allowed, p) && gained > 0 && p.track.exp + gained < U32
    ensures Placed(t, p.track) && Progressed(t, b, allowed, p, gained) ==
      Granted(t, b, allowed, p, p.track.exp + gained)
    ensures var q := Progressed(t, b, allowed, p, gained);
            Ready(t, allowed, q) && q.track.exp <= p.track.exp + gained
  {
    hide *;
    ReadyMeans(t, allowed, p);
    ProgressedIs(t, b, allowed, p, gained);
    SmallBar(t, p.track);
    Wrapped(p.track.exp, gained);
    GrantedPhi(t, b, allowed, p, gained);
    GrantedIs(t, b, allowed, p, gained);
    BarShrinks(t, b, allowed, p, p.track.exp + gained);
    MeansReady(t, allowed, Granted(t, b, allowed, p, p.track.exp + gained));
  }

  lemma SplitFits(t: Ladder, b: Bonuses, allowed: nat, p: Progress, g1: nat, g2: nat)
    requires Ready(t, allowed, p) && 0 < g1 && 0 < g2 && p.track.exp + g1 + g2 < U32
    ensures 1 <= allowed <= MAX_RANK
    ensures var q := Progressed(t, b, allowed, p, g1);
            && Ready(t, allowed, q) && q.track.exp + g2 < U32
            && Progressed(t, b, allowed, q, g2) == Progressed(t, b, allowed, p, g1 + g2)
  {
    hide *;
    ReadyMeans(t, allowed, p);
    ProgressedFits(t, b, allowed, p, g1);
    ProgressedFits(t, b, allowed, p, g1 + g2);
    var q := Progressed(t, b, allowed, p, g1);
    ProgressedFits(t, b, allowed, q, g2);
    SplitGain(t, b, allowed, p, g1, g2);
    assert Progressed(t, b, allowed, q, g2) == Granted(t, b, allowed, q, q.track.exp + g2);
  }

  lemma ReadyMeans(t: Ladder, allowed: nat, p: Progress)
    requires Ready(t, allowed, p)
    ensures 1 <= p.track.rank <= allowed <= MAX_RANK && p.point < U16 && WellFormed(t, p.track)
  {
  }

  lemma MeansReady(t: Ladder, allowed: nat, p: Progress)
    requires p.track.rank <= allowed <= MAX_RANK && p.point < U16 && WellFormed(t, p.track)
    ensures Ready(t, allowed, p)
  {
  }

  lemma ProgressedShort(t: Ladder, b: Bonuses, allowed: nat, p: Progress, gained: nat)
    requires Ready(t, allowed, p) && gained > 0 && p.track.rankExp < RungAt(t, p.track.rank).points
    requires Wrap(p.track.exp + gained) < RungAt(t, p.track.rank).exp
    ensures var q := p.(track := p.track.(exp := Wrap(p.track.exp + gained)));
            Ready(t, allowed, q) && Progressed(t, b, allowed, p, gained) == q
  {
    ProgressedIs(t, b, allowed, p, gained);
    hide Handled, Granted;
    NoPoint(t, b, allowed, p, Wrap(p.track.exp + gained));
  }

  lemma WrapTwice(e: nat, g1: nat, g2: nat)
    ensures Wrap(Wrap(e + g1) + g2) == Wrap(e + (g1 + g2))
  {
  }

  /** The first part does not complete a point, wrapped or not. */
  lemma SplitShort(t: Ladder, b: Bonuses, allowed: nat, p: Progress, g1: nat, g2: nat)
    requires Ready(t, allowed, p) && 0 < g1 && 0 < g2 && g1 + g2 < U32 && p.track.exp + g1 + g2 >= U32
    requires Wrap(p.track.exp + g1) < RungAt(t, p.track.rank).exp
    ensures 1 <= allowed <= MAX_RANK
    ensures Progressed(t, b, allowed, Progressed(t, b, allowed, p, g1), g2) == Progressed(t, b, allowed, p, g1 + g2)
  {
    hide *;
    ReadyMeans(t, allowed, p);
    SmallBar(t, p.track);
    WrapTwice(p.track.exp, g1, g2);
    ProgressedShort(t, b, allowed, p, g1);
    var bar := Wrap(p.track.exp + g1);
    var q := p.(track := p.track.(exp := bar));
    assert Progressed(t, b, allowed, p, g1) == q;
    ProgressedIs(t, b, allowed, p, g1 + g2);
    ProgressedIs(t, b, allowed, q, g2);
    SameBase(t, b, allowed, p, bar, Wrap(p.track.exp + (g1 + g2)));
  }

  /** A gain that does not fit leaves the place as it is and the bar shorter. */
  lemma WrapsDown(t: Ladder, b: Bonuses, allowed: nat, p: Progress, gained: nat)
    requires Ready(t, allowed, p) && 0 < gained < U32 && p.track.exp + gained >= U32
    ensures Progressed(t, b, allowed, p, gained) == p.(track := p.track.(exp := p.track.exp + gained - U32))
    ensures p.track.exp + gained - U32 < p.track.exp
  {
    hide *;
    ReadyMeans(t, allowed, p);
    SmallBar(t, p.track);
    ProgressedIs(t, b, allowed, p, gained);
    Wrapped(p.track.exp, gained);
    NoPoint(t, b, allowed, p, p.track.exp + gained - U32);
  }

  /** The first part fills the bar or more and fits; the whole does not. */
  lemma SplitCrossing(t: Ladder, b: Bonuses, allowed: nat, p: Progress, g1: nat, g2: nat)
    requires Ready(t, allowed, p) && 0 < g1 && 0 < g2 && g1 + g2 < U32
    requires p.track.exp + g1 < U32 <= p.track.exp + g1 + g2 && p.track.exp + g1 >= RungAt(t, p.track.rank).exp
    ensures 1 <= allowed <= MAX_RANK
    ensures Progressed(t, b, allowed, Progressed(t, b, allowed, p, g1), g2) == Progressed(t, b, allowed, p, g1 + g2)
       <==> SplitHarmless(t, allowed, p, g1, g2)
  {
    hide *;
    ReadyMeans(t, allowed, p);
    WrapsDown(t, b, allowed, p, g1 + g2);
    SmallBar(t, p.track);
    CornerIs(t, allowed, p, g1, g2);
    var q := Progressed(t, b, allowed, p, g1);
    FirstPart(t, b, allowed, p, g1);
    if q.track.rank == p.track.rank && q.track.rankExp == p.track.rankExp {
      CounterRolls(p.point);
      FullBarPart(t, b, allowed, q, g2);
    } else {
      Moved(t, b, allowed, p, q, g2);
    }
  }

  lemma CornerIs(t: Ladder, allowed: nat, p: Progress, g1: nat, g2: nat)
    requires 1 <= p.track.rank <= MAX_RANK
    requires p.track.exp + g1 < U32 <= p.track.exp + g1 + g2 && p.track.exp + g1 >= RungAt(t, p.track.rank).exp
    ensures SplitHarmless(t, allowed, p, g1, g2) <==>
      && p.track.exp + g1 == RungAt(t, p.track.rank).exp && p.track.rank == allowed < MAX_RANK
      && p.track.rankExp == RungAt(t, p.track.rank).points - 1 && p.point < U16 - 1
  {
  }

  lemma CounterRolls(point: nat)
    requires point < U16
    ensures Min(U16 - 1, point + 1) - 1 == point <==> point < U16 - 1
  {
  }

  /** Experience for another point takes a track somewhere else, unless a limit rolls the point back. */
  lemma AnotherPoint(t: Ladder, allowed: nat, s: Track, phi: nat)
    requires 1 <= s.rank <= allowed <= MAX_RANK && s.rankExp < RungAt(t, s.rank).points
    requires phi >= Banked(t, s) + RungAt(t, s.rank).exp
    ensures var s' := Locate(t, allowed, phi);
            s'.rank == s.rank && s'.rankExp == s.rankExp ==>
              && s'.exp == RungAt(t, s.rank).exp && s.rank == allowed < MAX_RANK && Limited(t, allowed, phi)
              && s.rankExp == RungAt(t, s.rank).points - 1
    ensures var s' := Locate(t, allowed, phi);
            s.rank == allowed < MAX_RANK && s.rankExp == RungAt(t, s.rank).points - 1 ==>
              s'.rank == s.rank && s'.rankExp == s.rankExp
  {
    LocatePhi(t, allowed, phi);
    if s.rank == allowed && s.rankExp == RungAt(t, s.rank).points - 1 {
      FullIsCap(t, s.(exp := RungAt(t, s.rank).exp));
    }
    if phi >= Cap(t, allowed) {
      AtCap(t, allowed, phi);
    }
    hide Cap, Spent, Bars, Locate, LocateFrom;
  }

  /** After a first part that completes a point the place has changed, unless a limit rolled the point back. */
  lemma FirstPart(t: Ladder, b: Bonuses, allowed: nat, p: Progress, g1: nat)
    requires Ready(t, allowed, p) && 0 < g1 && p.track.exp + g1 < U32
    requires p.track.exp + g1 >= RungAt(t, p.track.rank).exp && p.track.rankExp < RungAt(t, p.track.rank).points
    ensures var q := Progressed(t, b, allowed, p, g1);
            && Ready(t, allowed, q) && p.track.rank <= q.track.rank && Points(t, p.track) <= Points(t, q.track)
            && (q.track.rank == p.track.rank && q.track.rankExp == p.track.rankExp ==>
                && q.track.exp == RungAt(t, p.track.rank).exp && p.track.rank == allowed < MAX_RANK
                && p.track.rankExp == RungAt(t, p.track.rank).points - 1
                && q.point == Min(U16 - 1, p.point + 1) - 1 && q.stats == p.stats)
            && (p.track.rank == allowed < MAX_RANK && p.track.rankExp == RungAt(t, p.track.rank).points - 1 ==>
                q.track.rank == p.track.rank && q.track.rankExp == p.track.rankExp)
  {
    hide *;
    ReadyMeans(t, allowed, p);
    PhiIs(t, p.track);
    ProgressedFits(t, b, allowed, p, g1);
    GrantedIs(t, b, allowed, p, g1);
    AnotherPoint(t, allowed, p.track, Phi(t, p.track) + g1);
    PromoteNone(b, p.track.rank, p.stats);
    SamePoints(t, p.track, Progressed(t, b, allowed, p, g1).track);
    RolledBack(p.point);
  }

  lemma RolledBack(point: nat)
    ensures Counted(point, 1, true) == Min(U16 - 1, point + 1) - 1
  {
  }

  lemma SamePoints(t: Ladder, s: Track, s': Track)
    requires 1 <= s.rank <= MAX_RANK
    ensures s'.rank == s.rank && s'.rankExp == s.rankExp ==> Points(t, s) == Points(t, s')
  {
  }

  /** Standing at the full bar of a limit. */
  lemma FullBarPart(t: Ladder, b: Bonuses, allowed: nat, q: Progress, g2: nat)
    requires Ready(t, allowed, q) && 0 < g2 < U32
    requires q.track.rank == allowed < MAX_RANK && q.track.exp == RungAt(t, allowed).exp
    requires q.track.rankExp == RungAt(t, allowed).points - 1
    ensures var s := Progressed(t, b, allowed, q, g2);
            if q.track.exp + g2 >= U32 then s == q.(track := q.track.(exp := q.track.exp + g2 - U32))
            else s.track.exp == q.track.exp
  {
    hide *;
    ReadyMeans(t, allowed, q);
    if q.track.exp + g2 >= U32 {
      WrapsDown(t, b, allowed, q, g2);
    } else {
      ProgressedFits(t, b, allowed, q, g2);
      FullIsCap(t, q.track);
      AtCap(t, allowed, Phi(t, q.track) + g2);
      GrantedIs(t, b, allowed, q, g2);
    }
  }

  lemma FullIsCap(t: Ladder, s: Track)
    requires 1 <= s.rank <= MAX_RANK && s.exp == RungAt(t, s.rank).exp && s.rankExp == RungAt(t, s.rank).points - 1
    ensures Phi(t, s) == Cap(t, s.rank)
  {
    BarsStep(s.rankExp, s.exp);
    hide Bars;
  }

  /** A place once left is not come back to. */
  lemma Moved(t: Ladder, b: Bonuses, allowed: nat, p: Progress, q: Progress, g2: nat)
    requires Ready(t, allowed, p) && Ready(t, allowed, q) && 0 < g2 < U32
    requires p.track.rank <= q.track.rank && Points(t, p.track) <= Points(t, q.track)
    requires q.track.rank != p.track.rank || q.track.rankExp != p.track.rankExp
    ensures var s := Progressed(t, b, allowed, q, g2).track; s.rank != p.track.rank || s.rankExp != p.track.rankExp
  {
    ProgressedIs(t, b, allowed, q, g2);
    hide Handled, Granted, Cap, Spent, Bars, WellFormed;
    GrantedPlace(t, b, allowed, q, Wrap(q.track.exp + g2));
  }

  lemma HarmlessIs(t: Ladder, allowed: nat, p: Progress, g1: nat, g2: nat)
    requires 1 <= p.track.rank <= MAX_RANK
    ensures var e := p.track.exp;
            e + g1 + g2 < U32 || e + g1 >= U32 || e + g1 < RungAt(t, p.track.rank).exp ==>
              SplitHarmless(t, allowed, p, g1, g2)
  {
  }

  /** Granting g1 and then g2 is granting g1 + g2 if and only if the split is harmless; in particular whenever the bar
      and the whole gain fit in 32 bits. */
  lemma SplitExact(t: Ladder, b: Bonuses, allowed: nat, p: Progress, g1: nat, g2: nat)
    requires Ready(t, allowed, p) && 0 < g1 && 0 < g2 && g1 + g2 < U32
    ensures 1 <= p.track.rank
    ensures Progressed(t, b, allowed, Progressed(t, b, allowed, p, g1), g2) == Progressed(t, b, allowed, p, g1 + g2)
       <==> SplitHarmless(t, allowed, p, g1, g2)
  {
    hide *;
    ReadyMeans(t, allowed, p);
    SmallBar(t, p.track);
    HarmlessIs(t, allowed, p, g1, g2);
    Wrapped(p.track.exp, g1);
    var e := p.track.exp;
    if e + g1 + g2 < U32 {
      SplitFits(t, b, allowed, p, g1, g2);
    } else if e + g1 >= U32 {
      SplitShort(t, b, allowed, p, g1, g2);
    } else if e + g1 < RungAt(t, p.track.rank).exp {
      SplitShort(t, b, allowed, p, g1, g2);
    } else {
      SplitCrossing(t, b, allowed, p, g1, g2);
    }
  }

  function ProgressedAll(t: Ladder, b: Bonuses, allowed: nat, p: Progress, gains: seq<nat>): Progress
    requires 1 <= allowed <= MAX_RANK
  {
    if gains == [] then p
    else Progressed(t, b, allowed, ProgressedAll(t, b, allowed, p, gains[..|gains| - 1]), gains[|gains| - 1])
  }

  /** A gain that fits may be cut into any number of parts. */
  lemma {:induction false} AnySplit(t: Ladder, b: Bonuses, allowed: nat, p: Progress, gains: seq<nat>)
    requires Ready(t, allowed, p) && p.track.exp + Total(gains) < U32
    ensures ProgressedAll(t, b, allowed, p, gains) == Progressed(t, b, allowed, p, Total(gains))
    decreases |gains|
  {
    hide *;
    ReadyMeans(t, allowed, p);
    if gains == [] {
      NoGains(t, b, allowed, p);
      ZeroGain(t, b, allowed, p);
    } else {
      var n := |gains| - 1;
      var front, last := gains[..n], gains[n];
      OneMoreGain(t, b, allowed, p, gains);
      AnySplit(t, b, allowed, p, front);
      var q := Progressed(t, b, allowed, p, Total(front));
      ZeroGain(t, b, allowed, p);
      ZeroGain(t, b, allowed, q);
      if Total(front) > 0 && last > 0 {
        SplitFits(t, b, allowed, p, Total(front), last);
      }
    }
  }

  lemma NoGains(t: Ladder, b: Bonuses, allowed: nat, p: Progress)
    requires 1 <= allowed <= MAX_RANK
    ensures Total([]) == 0 && ProgressedAll(t, b, allowed, p, []) == p
  {
  }

  lemma OneMoreGain(t: Ladder, b: Bonuses, allowed: nat, p: Progress, gains: seq<nat>)
    requires 1 <= allowed <= MAX_RANK && gains != []
    ensures var n := |gains| - 1;
            && Total(gains) == Total(gains[..n]) + gains[n]
            && ProgressedAll(t, b, allowed, p, gains) ==
              Progressed(t, b, allowed, ProgressedAll(t, b, allowed, p, gains[..n]), gains[n])
  {
    hide Progressed;
  }

  lemma ZeroGain(t: Ladder, b: Bonuses, allowed: nat, p: Progress)
    requires 1 <= allowed <= MAX_RANK
    ensures Progressed(t, b, allowed, p, 0) == p
  {
  }

  // --- Standing at the cap. ---

  /** A character at the full bar of a limit is a fixed point of a gain if and only if its point counter is not full and
      the bar and the gain fit in 32 bits. */
  lemma FullBarExact(t: Ladder, b: Bonuses, p: Progress, gained: nat)
    requires Ready(t, p.track.rank, p) && p.track.rank < MAX_RANK && p.track.exp == RungAt(t, p.track.rank).exp
    requires 0 < gained < U32
    ensures Progressed(t, b, p.track.rank, p, gained) == p <==> p.point < U16 - 1 && p.track.exp + gained < U32
  {
    hide *;
    ReadyMeans(t, p.track.rank, p);
    if p.track.exp + gained < U32 {
      ProgressedFits(t, b, p.track.rank, p, gained);
      FullBarFixed(t, b, p, gained);
    } else {
      WrapsDown(t, b, p.track.rank, p, gained);
    }
  }

  /** Once a gain that fits has reached the cap, a further gain changes nothing if and only if the last rank is finished
      or the bar and the gain fit in 32 bits. */
  lemma CappedExact(t: Ladder, b: Bonuses, allowed: nat, p: Progress, g1: nat, g2: nat)
    requires Ready(t, allowed, p) && 0 < g1 && p.track.exp + g1 < U32 && Phi(t, p.track) + g1 >= Cap(t, allowed)
    requires 0 < g2 < U32
    ensures var q := Progressed(t, b, allowed, p, g1);
            Progressed(t, b, allowed, q, g2) == q <==> allowed == MAX_RANK || q.track.exp + g2 < U32
  {
    hide *;
    ReadyMeans(t, allowed, p);
    ProgressedFits(t, b, allowed, p, g1);
    GrantedIs(t, b, allowed, p, g1);
    AtCap(t, allowed, Phi(t, p.track) + g1);
    var q := Progressed(t, b, allowed, p, g1);
    if q.track.exp + g2 < U32 {
      ProgressedFits(t, b, allowed, q, g2);
      CappedIsFixed(t, b, allowed, p, g1, g2);
      assert Granted(t, b, allowed, q, q.track.exp + g2) == q;
    } else {
      WrapsDown(t, b, allowed, q, g2);
    }
  }

  // --- The gains that occur. ---

  /** A skill's experience is a 16-bit number and is multiplied by 30 by both callers. */
  const MAX_CALLED: nat := 30 * 0xFFFF

  lemma CalledFits(t: Ladder, p: Progress, gains: nat)
    requires WellFormed(t, p.track) && gains <= 2 * MAX_CALLED
    ensures p.track.exp + gains < U32
  {
    SmallBar(t, p.track);
  }

  /** For the gains that callers pass, growth and splitting are exact without further condition. */
  lemma CalledGains(t: Ladder, b: Bonuses, allowed: nat, p: Progress, g1: nat, g2: nat)
    requires Ready(t, allowed, p) && 0 < g1 <= MAX_CALLED && 0 < g2 <= MAX_CALLED
    ensures 1 <= p.track.rank
    ensures var q := Progressed(t, b, allowed, p, g1);
            && 1 <= q.track.rank <= allowed && Phi(t, q.track) == Min(Phi(t, p.track) + g1, Cap(t, allowed))
            && Progressed(t, b, allowed, q, g2) == Progressed(t, b, allowed, p, g1 + g2)
  {
    ReadyMeans(t, allowed, p);
    CalledFits(t, p, g1 + g2);
    assert g1 < U32;
    hide *;
    GainExact(t, b, allowed, p, g1);
    SplitFits(t, b, allowed, p, g1, g2);
    ReadyMeans(t, allowed, Progressed(t, b, allowed, p, g1));
  }

  // --- Inputs at which a promise fails. ---

  /** Ten points of ten experience at every rank. */
  const PLAIN: Ladder := seq(MAX_RANK, _ => Rung(10, 10))

  /** A bar of 5 and a gain of 2^32 - 1 leave a bar of 4. */
  lemma GainLost()
    ensures var p := Progress(Track(1, 0, 5), 0, Stats(0, 0, 0));
            Ready(PLAIN, 10, p) && Progressed(PLAIN, map[], 10, p, U32 - 1) == p.(track := Track(1, 0, 4))
  {
    var p := Progress(Track(1, 0, 5), 0, Stats(0, 0, 0));
    WrapsDown(PLAIN, map[], 10, p, U32 - 1);
  }

  /** The same gain in two parts, the first of which completes a point, does not leave that bar. */
  lemma SplitMatters()
    ensures var p := Progress(Track(1, 0, 5), 0, Stats(0, 0, 0));
            Progressed(PLAIN, map[], 10, Progressed(PLAIN, map[], 10, p, 5), U32 - 6) !=
            Progressed(PLAIN, map[], 10, p, U32 - 1)
  {
    var p := Progress(Track(1, 0, 5), 0, Stats(0, 0, 0));
    assert Ready(PLAIN, 10, p) && !SplitHarmless(PLAIN, 10, p, 5, U32 - 6);
    SplitExact(PLAIN, map[], 10, p, 5, U32 - 6);
  }

  /** At the full bar of a limit with a full counter, a gain of 1 costs a point. */
  lemma FullCounterLosesPoint()
    ensures var p := Progress(Track(1, 9, 10), U16 - 1, Stats(0, 0, 0));
            Ready(PLAIN, 1, p) && Progressed(PLAIN, map[], 1, p, 1) != p
  {
    var p := Progress(Track(1, 9, 10), U16 - 1, Stats(0, 0, 0));
    FullBarExact(PLAIN, map[], p, 1);
  }

  /** At the full bar of a limit with an empty counter, a gain of 2^32 - 1 shortens the bar. */
  lemma FullBarWraps()
    ensures var p := Progress(Track(1, 9, 10), 0, Stats(0, 0, 0));
            Ready(PLAIN, 1, p) && Progressed(PLAIN, map[], 1, p, U32 - 1) == p.(track := Track(1, 9, 9))
  {
    var p := Progress(Track(1, 9, 10), 0, Stats(0, 0, 0));
    WrapsDown(PLAIN, map[], 1, p, U32 - 1);
  }
}
