/** Sword and magic rank progression (cmd/gameserver/packet/skill.go, cmd/gameserver/clientdata/rankup.go):
    the experience loop with its promotions, caps and rollback, against a closed form. */
module SkillRank {

  const MAX_RANK: nat := 10
  const U16: nat := 0x1_0000
  const U32: nat := 0x1_0000_0000

  /** What one rank asks for: experience per skill point, and points to be promoted. */
  datatype Rung = Rung(exp: nat, points: nat)

  /** The table guarantees the loader checks for every style: ten ranks, no zero entry, 16-bit values. */
  type Ladder = t: seq<Rung> |
      |t| == MAX_RANK && forall i :: 0 <= i < MAX_RANK ==> 0 < t[i].exp < U16 && 0 < t[i].points < U16
    witness seq(MAX_RANK, _ => Rung(1, 1))

  datatype Bonus = Bonus(str: nat, dex: nat, int_: nat)

  /** Bonus granted on leaving a rank; ranks without an entry grant nothing. */
  type Bonuses = map<nat, Bonus>

  /** One of the two skill tracks of a character. */
  datatype Track = Track(rank: nat, rankExp: nat, exp: nat)

  datatype Stats = Stats(str: nat, dex: nat, int_: nat)

  function RungAt(t: Ladder, rank: nat): Rung
    requires 1 <= rank <= MAX_RANK
  {
    t[rank - 1]
  }

  /** `k` full bars of `e`. */
  function Bars(k: nat, e: nat): nat { k * e }

  lemma BarsStep(k: nat, e: nat)
    ensures Bars(k + 1, e) == Bars(k, e) + e && Bars(0, e) == 0
  {
  }

  lemma {:induction false} BarsMonotone(a: nat, b: nat, e: nat)
    requires a <= b
    ensures Bars(a, e) <= Bars(b, e)
    decreases b
  {
    hide Bars;
    if a < b {
      BarsMonotone(a, b - 1, e);
      BarsStep(b - 1, e);
    }
  }

  lemma BarsUnique(q: nat, m: nat, k: nat, x: nat, e: nat)
    requires Bars(q, e) + m == Bars(k, e) + x && m < e && x < e
    ensures q == k && m == x
  {
    hide Bars;
    BarsStep(q, e);
    BarsStep(k, e);
    if q < k {
      BarsMonotone(q + 1, k, e);
    } else if k < q {
      BarsMonotone(k + 1, q, e);
    }
  }

  lemma BarsOf(a: nat, e: nat)
    requires e > 0
    ensures Bars(a / e, e) + a % e == a
  {
  }

  /** Experience a rank takes from start to promotion. */
  function Cost(t: Ladder, rank: nat): nat
    requires 1 <= rank <= MAX_RANK
  {
    Bars(RungAt(t, rank).points, RungAt(t, rank).exp)
  }

  /** Experience spent on all ranks below `rank`. */
  function Spent(t: Ladder, rank: nat): nat
    requires 1 <= rank <= MAX_RANK + 1
  {
    if rank == 1 then 0 else Spent(t, rank - 1) + Cost(t, rank - 1)
  }

  /** Points earned on all ranks below `rank`. */
  function Earned(t: Ladder, rank: nat): nat
    requires 1 <= rank <= MAX_RANK + 1
  {
    if rank == 1 then 0 else Earned(t, rank - 1) + RungAt(t, rank - 1).points
  }

  /** Where progress stops while `allowed` is the highest open rank. */
  function Cap(t: Ladder, allowed: nat): nat
    requires 1 <= allowed <= MAX_RANK
  {
    Spent(t, allowed + 1)
  }

  /** All the experience a track stands for. */
  function Phi(t: Ladder, s: Track): nat
    requires 1 <= s.rank <= MAX_RANK
  {
    Spent(t, s.rank) + Bars(s.rankExp, RungAt(t, s.rank).exp) + s.exp
  }

  /** All the points a track stands for. */
  function Points(t: Ladder, s: Track): nat
    requires 1 <= s.rank <= MAX_RANK
  {
    Earned(t, s.rank) + s.rankExp
  }

  /** Ordinary progress, the full bar a rank limit leaves, or the finished last rank. */
  predicate WellFormed(t: Ladder, s: Track) {
    && 1 <= s.rank <= MAX_RANK
    && var r := RungAt(t, s.rank);
    || (s.rankExp < r.points && s.exp < r.exp)
    || (s.rankExp == r.points - 1 && s.exp == r.exp)
    || (s.rank == MAX_RANK && s.rankExp == r.points && s.exp == 0)
  }

  // --- The closed form. ---

  function WithinRank(rank: nat, rest: nat, e: nat): Track
    requires e > 0
  {
    Track(rank, rest / e, rest % e)
  }

  function LocateFrom(t: Ladder, rank: nat, rest: nat): Track
    requires 1 <= rank <= MAX_RANK && rest < Spent(t, MAX_RANK + 1) - Spent(t, rank)
    decreases MAX_RANK - rank
  {
    if rest < Cost(t, rank) then WithinRank(rank, rest, RungAt(t, rank).exp)
    else
      LastRank(t, rank, rest);
      LocateFrom(t, rank + 1, rest - Cost(t, rank))
  }

  lemma LastRank(t: Ladder, rank: nat, rest: nat)
    requires 1 <= rank <= MAX_RANK && Cost(t, rank) <= rest < Spent(t, MAX_RANK + 1) - Spent(t, rank)
    ensures rank < MAX_RANK && Spent(t, rank + 1) == Spent(t, rank) + Cost(t, rank)
  {
  }

  /** The track that stands for `phi` experience under a rank limit: full at the cap, never beyond. */
  function Locate(t: Ladder, allowed: nat, phi: nat): Track
    requires 1 <= allowed <= MAX_RANK
  {
    if phi >= Cap(t, allowed) then
      var r := RungAt(t, allowed);
      if allowed == MAX_RANK then Track(MAX_RANK, r.points, 0) else Track(allowed, r.points - 1, r.exp)
    else
      SpentMonotone(t, allowed + 1, MAX_RANK + 1);
      LocateFrom(t, 1, phi)
  }

  lemma {:induction false} SpentMonotone(t: Ladder, a: nat, b: nat)
    requires 1 <= a <= b <= MAX_RANK + 1
    ensures Spent(t, a) <= Spent(t, b) && Earned(t, a) <= Earned(t, b)
    decreases b - a
  {
    if a < b {
      SpentMonotone(t, a, b - 1);
    }
  }

  lemma DivMod(k: nat, x: nat, e: nat)
    requires x < e
    ensures (Bars(k, e) + x) / e == k && (Bars(k, e) + x) % e == x
  {
    hide Bars;
    var a := Bars(k, e) + x;
    BarsOf(a, e);
    BarsUnique(a / e, a % e, k, x, e);
  }

  lemma WithinRankIs(rank: nat, k: nat, x: nat, e: nat)
    requires x < e
    ensures WithinRank(rank, Bars(k, e) + x, e) == Track(rank, k, x)
  {
    hide Bars;
    DivMod(k, x, e);
  }

  lemma BelowCost(k: nat, x: nat, r: Rung)
    requires k < r.points && x < r.exp
    ensures Bars(k, r.exp) + x < Bars(r.points, r.exp)
  {
    hide Bars;
    BarsStep(k, r.exp);
    BarsMonotone(k + 1, r.points, r.exp);
  }

  lemma {:induction false} LocateFromUnique(t: Ladder, from: nat, rank: nat, k: nat, x: nat)
    requires 1 <= from <= rank <= MAX_RANK && k < RungAt(t, rank).points && x < RungAt(t, rank).exp
    ensures Spent(t, from) <= Spent(t, rank)
    ensures var rest := Spent(t, rank) - Spent(t, from) + Bars(k, RungAt(t, rank).exp) + x;
            rest < Spent(t, MAX_RANK + 1) - Spent(t, from) && LocateFrom(t, from, rest) == Track(rank, k, x)
    decreases rank - from
  {
    hide Bars, WithinRank;
    var e := RungAt(t, rank).exp;
    BelowCost(k, x, RungAt(t, rank));
    SpentMonotone(t, from, rank);
    SpentMonotone(t, rank + 1, MAX_RANK + 1);
    if from == rank {
      WithinRankIs(rank, k, x, e);
    } else {
      SpentMonotone(t, from + 1, rank);
      LocateFromUnique(t, from + 1, rank, k, x);
    }
  }

  /** Ordinary progress is the only track standing for its experience. */
  lemma LocateUnique(t: Ladder, allowed: nat, s: Track)
    requires 1 <= s.rank <= allowed <= MAX_RANK
    requires s.rankExp < RungAt(t, s.rank).points && s.exp < RungAt(t, s.rank).exp
    ensures Locate(t, allowed, Phi(t, s)) == s && Phi(t, s) < Cap(t, allowed)
  {
    hide Bars;
    BelowCost(s.rankExp, s.exp, RungAt(t, s.rank));
    SpentMonotone(t, s.rank + 1, allowed + 1);
    LocateFromUnique(t, 1, s.rank, s.rankExp, s.exp);
  }

  lemma {:induction false} LocateFromPhi(t: Ladder, rank: nat, rest: nat)
    requires 1 <= rank <= MAX_RANK && rest < Spent(t, MAX_RANK + 1) - Spent(t, rank)
    ensures var s := LocateFrom(t, rank, rest);
            && rank <= s.rank <= MAX_RANK && s.rankExp < RungAt(t, s.rank).points && s.exp < RungAt(t, s.rank).exp
            && Phi(t, s) == Spent(t, rank) + rest
    decreases MAX_RANK - rank
  {
    hide Bars;
    var r := RungAt(t, rank);
    if rest < Cost(t, rank) {
      BarsOf(rest, r.exp);
      if rest / r.exp >= r.points {
        BarsMonotone(r.points, rest / r.exp, r.exp);
      }
    } else {
      LastRank(t, rank, rest);
      LocateFromPhi(t, rank + 1, rest - Cost(t, rank));
    }
  }

  /** The closed form means what it says: it stands for exactly `min(phi, cap)` and respects the limit. */
  lemma LocatePhi(t: Ladder, allowed: nat, phi: nat)
    requires 1 <= allowed <= MAX_RANK
    ensures var s := Locate(t, allowed, phi);
            && WellFormed(t, s) && s.rank <= allowed
            && (phi >= Cap(t, allowed) ==>
                s.rank == allowed && s.rankExp == RungAt(t, allowed).points - (if allowed < MAX_RANK then 1 else 0))
            && (phi < Cap(t, allowed) ==> s.rankExp < RungAt(t, s.rank).points && s.exp < RungAt(t, s.rank).exp)
            && Phi(t, s) == if phi < Cap(t, allowed) then phi else Cap(t, allowed)
  {
    hide Bars;
    var r := RungAt(t, allowed);
    BarsStep(r.points - 1, r.exp);
    BarsStep(0, r.exp);
    if phi < Cap(t, allowed) {
      SpentMonotone(t, allowed + 1, MAX_RANK + 1);
      LocateFromPhi(t, 1, phi);
      var s := Locate(t, allowed, phi);
      if s.rank > allowed {
        SpentMonotone(t, allowed + 1, s.rank);
      }
    }
  }

  /** No well-formed track under the limit stands for more than the cap. */
  lemma PhiBelowCap(t: Ladder, allowed: nat, s: Track)
    requires WellFormed(t, s) && s.rank <= allowed <= MAX_RANK
    ensures Phi(t, s) <= Cap(t, allowed)
  {
    hide Bars;
    var r := RungAt(t, s.rank);
    SpentMonotone(t, s.rank + 1, allowed + 1);
    if s.rankExp < r.points && s.exp < r.exp {
      BelowCost(s.rankExp, s.exp, r);
    } else {
      BarsStep(r.points - 1, r.exp);
      BarsStep(0, r.exp);
    }
  }

  // --- Stat bonuses. ---

  function AddBonus(b: Bonuses, rank: nat, s: Stats): Stats {
    if rank !in b then s
    else Stats((s.str + b[rank].str) % U32, (s.dex + b[rank].dex) % U32, (s.int_ + b[rank].int_) % U32)
  }

  /** The bonuses of every promotion from `low` up to `high`. */
  function Promote(b: Bonuses, low: nat, high: nat, s: Stats): Stats
    decreases high
  {
    if high <= low then s else AddBonus(b, high - 1, Promote(b, low, high - 1, s))
  }

  lemma {:induction false} PromoteInTwo(b: Bonuses, low: nat, mid: nat, high: nat, s: Stats)
    requires low <= mid <= high
    ensures Promote(b, mid, high, Promote(b, low, mid, s)) == Promote(b, low, high, s)
    decreases high
  {
    if mid < high {
      PromoteInTwo(b, low, mid, high - 1, s);
    }
  }

  function StrOf(x: Bonus): nat { x.str }
  function DexOf(x: Bonus): nat { x.dex }
  function IntOf(x: Bonus): nat { x.int_ }

  /** What the table holds for the ranks from `low` up to below `high`. */
  function Between(b: Bonuses, low: nat, high: nat, f: Bonus -> nat): nat
    decreases high
  {
    if high <= low then 0
    else Between(b, low, high - 1, f) + if high - 1 in b then f(b[high - 1]) else 0
  }

  /** Stats are 32-bit values. */
  predicate InWidth(s: Stats) { s.str < U32 && s.dex < U32 && s.int_ < U32 }

  /** The stats after leaving these ranks: each has grown by what the table holds for them. */
  predicate Raised(b: Bonuses, low: nat, high: nat, s: Stats, s': Stats) {
    && s'.str == (s.str + Between(b, low, high, StrOf)) % U32
    && s'.dex == (s.dex + Between(b, low, high, DexOf)) % U32
    && s'.int_ == (s.int_ + Between(b, low, high, IntOf)) % U32
  }

  lemma WrappedSum(a: nat, x: nat)
    ensures (a % U32 + x) % U32 == (a + x) % U32
  {
  }

  lemma {:induction false} PromoteRaises(b: Bonuses, low: nat, high: nat, s: Stats)
    requires InWidth(s)
    ensures Raised(b, low, high, s, Promote(b, low, high, s))
    decreases high
  {
    if low < high {
      PromoteRaises(b, low, high - 1, s);
      PromoteOne(b, low, high - 1, s);
      OneMoreRaised(b, low, high - 1, s, Promote(b, low, high - 1, s));
    }
  }

  lemma OneMoreRaised(b: Bonuses, low: nat, high: nat, s: Stats, s': Stats)
    requires low <= high && Raised(b, low, high, s, s')
    ensures Raised(b, low, high + 1, s, AddBonus(b, high, s'))
  {
    if high in b {
      WrappedSum(s.str + Between(b, low, high, StrOf), b[high].str);
      WrappedSum(s.dex + Between(b, low, high, DexOf), b[high].dex);
      WrappedSum(s.int_ + Between(b, low, high, IntOf), b[high].int_);
    }
  }

  // --- Granting experience. ---

  datatype Progress = Progress(track: Track, point: nat, stats: Stats)

  /** The experience a track has banked in whole points. */
  function Banked(t: Ladder, s: Track): nat
    requires 1 <= s.rank <= MAX_RANK
  {
    Spent(t, s.rank) + Bars(s.rankExp, RungAt(t, s.rank).exp)
  }

  /** A place on the ladder: the rank's points are not all there yet, or the last rank is finished. The bar may hold
      anything. */
  predicate Placed(t: Ladder, s: Track) {
    && 1 <= s.rank <= MAX_RANK
    && (s.rankExp < RungAt(t, s.rank).points || (s.rank == MAX_RANK && s.rankExp == RungAt(t, s.rank).points))
  }

  lemma BankedBelowCap(t: Ladder, allowed: nat, s: Track)
    requires Placed(t, s) && s.rank <= allowed <= MAX_RANK
    ensures Banked(t, s) <= Spent(t, s.rank + 1) <= Cap(t, allowed)
    ensures s.rankExp < RungAt(t, s.rank).points ==> Banked(t, s) + RungAt(t, s.rank).exp <= Spent(t, s.rank + 1)
  {
    hide Bars;
    var r := RungAt(t, s.rank);
    SpentMonotone(t, s.rank + 1, allowed + 1);
    BarsMonotone(s.rankExp, r.points, r.exp);
    if s.rankExp < r.points {
      BarsStep(s.rankExp, r.exp);
      BarsMonotone(s.rankExp + 1, r.points, r.exp);
    }
  }

  lemma PointsGrow(t: Ladder, allowed: nat, s: Track, total: nat)
    requires Placed(t, s) && s.rank <= allowed <= MAX_RANK
    ensures var s' := Locate(t, allowed, Banked(t, s) + total);
            && 1 <= s'.rank <= allowed && s.rank <= s'.rank && Points(t, s) <= Points(t, s') <= Earned(t, allowed + 1)
  {
    hide Bars, Locate, LocateFrom;
    var phi := Banked(t, s) + total;
    var s' := Locate(t, allowed, phi);
    LocatePhi(t, allowed, phi);
    BankedBelowCap(t, allowed, s);
    SpentMonotone(t, s'.rank + 1, allowed + 1);
    var e := RungAt(t, s.rank);
    if s'.rank < s.rank {
      SpentMonotone(t, s'.rank + 1, s.rank);
      BelowCost(s'.rankExp, s'.exp, RungAt(t, s'.rank));
    } else if s'.rank == s.rank {
      if s'.rankExp < s.rankExp {
        BarsStep(s'.rankExp, e.exp);
        BarsMonotone(s'.rankExp + 1, s.rankExp, e.exp);
      }
    } else {
      SpentMonotone(t, s.rank + 1, s'.rank);
    }
  }

  /** Whether progress runs into a rank limit below the last rank. */
  predicate Limited(t: Ladder, allowed: nat, phi: nat)
    requires 1 <= allowed <= MAX_RANK
  {
    allowed < MAX_RANK && phi >= Cap(t, allowed)
  }

  /** Point thresholds crossed on the way; at a limit that includes the one the rollback takes back. */
  function Crossed(t: Ladder, allowed: nat, s: Track, total: nat): nat
    requires Placed(t, s) && s.rank <= allowed <= MAX_RANK
  {
    PointsGrow(t, allowed, s, total);
    var phi := Banked(t, s) + total;
    Points(t, Locate(t, allowed, phi)) - Points(t, s) + if Limited(t, allowed, phi) then 1 else 0
  }

  /** The 16-bit point counter: it saturates on the way up, and the rollback takes one off. */
  function Counted(point: nat, crossed: nat, limited: bool): nat
    requires limited ==> crossed > 0
  {
    Min(U16 - 1, point + crossed) - if limited then 1 else 0
  }

  /** What is left when the bar stands at `total`: the track is a function of the experience alone, the
      points are those between the two places, the stats those of the ranks left behind. */
  function Granted(t: Ladder, b: Bonuses, allowed: nat, p: Progress, total: nat): Progress
    requires Placed(t, p.track) && p.track.rank <= allowed <= MAX_RANK
  {
    PointsGrow(t, allowed, p.track, total);
    var phi := Banked(t, p.track) + total;
    var s := Locate(t, allowed, phi);
    Progress(s, Counted(p.point, Crossed(t, allowed, p.track, total), Limited(t, allowed, phi)),
             Promote(b, p.track.rank, s.rank, p.stats))
  }

  datatype Report = Report(applied: nat, rankUp: bool, limitReached: bool)

  function Min(a: nat, b: nat): nat { if a < b then a else b }

  /** A rank of zero counts as the first. */
  function FirstRank(s: Track): Track {
    if s.rank == 0 then s.(rank := 1) else s
  }

  /** One pass of the loop takes a whole point off the bar; the points so far, saturating. */
  predicate Climbing(t: Ladder, b: Bonuses, allowed: nat, p: Progress, phi: nat, rank: nat, rankExp: nat,
                     totalExp: nat, point: nat, stats: Stats)
    requires 1 <= p.track.rank <= allowed <= MAX_RANK
  {
    && p.track.rank <= rank <= allowed && rankExp < RungAt(t, rank).points
    && Banked(t, Track(rank, rankExp, 0)) + totalExp == phi
    && Points(t, p.track) <= Points(t, Track(rank, rankExp, 0))
    && point == Min(U16 - 1, p.point + Points(t, Track(rank, rankExp, 0)) - Points(t, p.track))
    && stats == Promote(b, p.track.rank, rank, p.stats)
  }

  lemma ClimbPoint(t: Ladder, b: Bonuses, allowed: nat, p: Progress, phi: nat, rank: nat, k: nat, x: nat, pt: nat,
                   stats: Stats)
    requires 1 <= p.track.rank <= allowed <= MAX_RANK && Climbing(t, b, allowed, p, phi, rank, k, x, pt, stats)
    requires x >= RungAt(t, rank).exp && k + 1 < RungAt(t, rank).points
    ensures Climbing(t, b, allowed, p, phi, rank, k + 1, x - RungAt(t, rank).exp, Min(U16 - 1, pt + 1), stats)
  {
    hide Bars, Promote;
    BarsStep(k, RungAt(t, rank).exp);
  }

  lemma ClimbRank(t: Ladder, b: Bonuses, allowed: nat, p: Progress, phi: nat, rank: nat, k: nat, x: nat, pt: nat,
                  stats: Stats)
    requires 1 <= p.track.rank <= allowed <= MAX_RANK && Climbing(t, b, allowed, p, phi, rank, k, x, pt, stats)
    requires x >= RungAt(t, rank).exp && k + 1 == RungAt(t, rank).points && rank < allowed
    ensures Climbing(t, b, allowed, p, phi, rank + 1, 0, x - RungAt(t, rank).exp, Min(U16 - 1, pt + 1),
                     AddBonus(b, rank, stats))
  {
    hide Bars, Promote, AddBonus;
    BarsStep(k, RungAt(t, rank).exp);
    BarsStep(0, RungAt(t, rank + 1).exp);
    PromoteOne(b, p.track.rank, rank, p.stats);
  }

  /** Where the loop ends, the experience that found no place, and whether a rank limit stopped it. */
  datatype Climbed = Climbed(progress: Progress, left: nat, limited: bool)

  function FromPlace(t: Ladder, b: Bonuses, allowed: nat, p: Progress, total: nat): Climbed
    requires Placed(t, p.track) && p.track.rank <= allowed <= MAX_RANK
  {
    var phi := Banked(t, p.track) + total;
    Climbed(Granted(t, b, allowed, p, total), if phi >= Cap(t, allowed) then phi - Cap(t, allowed) else 0,
            Limited(t, allowed, phi))
  }

  lemma ClimbRest(t: Ladder, b: Bonuses, allowed: nat, p: Progress, total: nat, rank: nat, k: nat, x: nat, pt: nat,
                  stats: Stats)
    requires Placed(t, p.track) && p.track.rank <= allowed <= MAX_RANK
    requires Climbing(t, b, allowed, p, Banked(t, p.track) + total, rank, k, x, pt, stats) && x < RungAt(t, rank).exp
    ensures FromPlace(t, b, allowed, p, total) == Climbed(Progress(Track(rank, k, x), pt, stats), 0, false)
  {
    hide Bars, Locate, LocateFrom, Promote;
    LocateUnique(t, allowed, Track(rank, k, x));
  }

  lemma ClimbCap(t: Ladder, b: Bonuses, allowed: nat, p: Progress, total: nat, k: nat, x: nat, pt: nat, stats: Stats)
    requires Placed(t, p.track) && p.track.rank <= allowed <= MAX_RANK
    requires Climbing(t, b, allowed, p, Banked(t, p.track) + total, allowed, k, x, pt, stats)
    requires x >= RungAt(t, allowed).exp && k + 1 == RungAt(t, allowed).points
    ensures var up := Min(U16 - 1, pt + 1);
            FromPlace(t, b, allowed, p, total) ==
            Climbed(if allowed == MAX_RANK then Progress(Track(allowed, k + 1, 0), up, stats)
                    else Progress(Track(allowed, k, RungAt(t, allowed).exp), up - 1, stats),
                    x - RungAt(t, allowed).exp, allowed < MAX_RANK)
  {
    hide Bars, Locate, LocateFrom, Promote;
    BarsStep(k, RungAt(t, allowed).exp);
    AtCap(t, allowed, Banked(t, p.track) + total);
  }

  /** The start of the next rank, with the point and the bonus of the promotion. */
  function Promoted(b: Bonuses, p: Progress): Progress {
    Progress(Track(p.track.rank + 1, 0, 0), Min(U16 - 1, p.point + 1), AddBonus(b, p.track.rank, p.stats))
  }

  /** From any stored track. One whose rank has more points than it needs waits for a full bar, and is then stopped by
      the limit where it stands or promoted with whatever it has over. */
  function Reached(t: Ladder, b: Bonuses, allowed: nat, p: Progress, total: nat): Climbed
    requires 1 <= p.track.rank <= allowed <= MAX_RANK
    requires p.track.rank < MAX_RANK || p.track.rankExp < RungAt(t, p.track.rank).points
  {
    var r := RungAt(t, p.track.rank);
    if p.track.rankExp < r.points then FromPlace(t, b, allowed, p, total)
    else if total < r.exp then Climbed(p.(track := p.track.(exp := total)), 0, false)
    else if p.track.rank == allowed then
      Climbed(Progress(Track(allowed, Min(U16 - 1, p.track.rankExp + 1) - 1, r.exp), Min(U16 - 1, p.point + 1) - 1,
                       p.stats),
              total - r.exp, true)
    else FromPlace(t, b, allowed, Promoted(b, p), total - r.exp)
  }

  lemma ClimbStart(t: Ladder, b: Bonuses, allowed: nat, p: Progress, total: nat)
    requires Placed(t, p.track) && p.track.rank <= allowed <= MAX_RANK
      && p.track.rankExp < RungAt(t, p.track.rank).points
    requires p.point < U16
    ensures Climbing(t, b, allowed, p, Banked(t, p.track) + total, p.track.rank, p.track.rankExp, total, p.point,
                     p.stats)
  {
    PromoteNone(b, p.track.rank, p.stats);
  }

  /** The loop from a place on the ladder: promotion below the limit, a full bar at the limit, a stop at the last
      rank. */
  method ClimbFrom(t: Ladder, b: Bonuses, allowed: nat, p: Progress, total: nat)
    returns (q: Progress, left: nat, rankUp: bool, limitReached: bool)
    requires Placed(t, p.track) && p.track.rank <= allowed <= MAX_RANK && p.point < U16
    requires p.track.rankExp < RungAt(t, p.track.rank).points
    ensures Climbed(q, left, limitReached) == FromPlace(t, b, allowed, p, total)
    ensures rankUp == (q.track.rank > p.track.rank)
  {
    ClimbStart(t, b, allowed, p, total);
    hide Banked, FromPlace, Promote, Placed, Climbing, AddBonus;
    var rank: nat, rankExp: nat, point: nat, totalExp: nat := p.track.rank, p.track.rankExp, p.point, total;
    var stats := p.stats;
    ghost var phi := Banked(t, p.track) + total;
    rankUp, limitReached, left := false, false, 0;
    while true
      invariant Climbing(t, b, allowed, p, phi, rank, rankExp, totalExp, point, stats)
      invariant rankUp == (rank > p.track.rank) && !limitReached && left == 0
      invariant p.track.rank <= rank <= allowed && rankExp < RungAt(t, rank).points && point < U16
      decreases totalExp
    {
      var requiredExp, requiredPoints := RungAt(t, rank).exp, RungAt(t, rank).points;
      if totalExp < requiredExp {
        ClimbRest(t, b, allowed, p, total, rank, rankExp, totalExp, point, stats);
        break;
      }
      ghost var k, x, pt := rankExp, totalExp, point;
      totalExp := totalExp - requiredExp;
      if point < U16 - 1 {
        point := point + 1;
      }
      if rankExp < U16 - 1 {
        rankExp := rankExp + 1;
      }
      if rankExp < requiredPoints {
        ClimbPoint(t, b, allowed, p, phi, rank, k, x, pt, stats);
        continue;
      }
      if rank >= MAX_RANK {
        ClimbCap(t, b, allowed, p, total, k, x, pt, stats);
        left := totalExp;
        totalExp := 0;
        break;
      }
      if rank >= allowed {
        ClimbCap(t, b, allowed, p, total, k, x, pt, stats);
        left := totalExp;
        if point > 0 {
          point := point - 1;
        }
        if rankExp > 0 {
          rankExp := rankExp - 1;
        }
        totalExp := requiredExp;
        limitReached := true;
        break;
      }
      ClimbRank(t, b, allowed, p, phi, rank, k, x, pt, stats);
      stats := AddBonus(b, rank, stats);
      rank := rank + 1;
      rankExp := 0;
      rankUp := true;
    }
    totalExp := Min(U16 - 1, totalExp);
    q := Progress(Track(rank, rankExp, totalExp), point, stats);
  }

  /** The loop from any stored track: the first turn of one with too many points is the only one that differs. */
  method Climb(t: Ladder, b: Bonuses, allowed: nat, p: Progress, total: nat)
    returns (q: Progress, left: nat, rankUp: bool, limitReached: bool)
    requires 1 <= p.track.rank <= allowed <= MAX_RANK && p.point < U16 && p.track.rankExp < U16
    requires p.track.rank < MAX_RANK || p.track.rankExp < RungAt(t, p.track.rank).points
    ensures Climbed(q, left, limitReached) == Reached(t, b, allowed, p, total)
    ensures rankUp == (q.track.rank > p.track.rank)
  {
    hide FromPlace, AddBonus;
    var rank, requiredExp := p.track.rank, RungAt(t, p.track.rank).exp;
    if p.track.rankExp < RungAt(t, rank).points {
      q, left, rankUp, limitReached := ClimbFrom(t, b, allowed, p, total);
      return;
    }
    if total < requiredExp {
      return p.(track := p.track.(exp := total)), 0, false, false;
    }
    var point, rankExp := p.point, p.track.rankExp;
    if point < U16 - 1 {
      point := point + 1;
    }
    if rankExp < U16 - 1 {
      rankExp := rankExp + 1;
    }
    if rank >= allowed {
      return Progress(Track(rank, rankExp - 1, requiredExp), point - 1, p.stats), total - requiredExp, false, true;
    }
    var stats := AddBonus(b, rank, p.stats);
    assert Placed(t, Track(rank + 1, 0, 0));
    PlaceRises(t, b, allowed, Progress(Track(rank + 1, 0, 0), point, stats), total - requiredExp);
    q, left, rankUp, limitReached := ClimbFrom(t, b, allowed, Progress(Track(rank + 1, 0, 0), point, stats),
                                               total - requiredExp);
    rankUp := true;
  }

  lemma PlaceRises(t: Ladder, b: Bonuses, allowed: nat, p: Progress, total: nat)
    requires Placed(t, p.track) && p.track.rank <= allowed <= MAX_RANK
    ensures FromPlace(t, b, allowed, p, total).progress.track.rank >= p.track.rank
  {
    PointsGrow(t, allowed, p.track, total);
    hide Locate, Promote, Counted, Crossed;
  }

  /** 32-bit arithmetic. */
  function Wrap(n: int): nat { n % U32 }

  /** The last rank has all its points. */
  predicate Finished(t: Ladder, s: Track) {
    s.rank == MAX_RANK && s.rankExp >= RungAt(t, MAX_RANK).points
  }

  /** What one gain makes of a stored track, and what is reported of it. The bar and the gain are added in 32 bits. */
  function Handled(t: Ladder, b: Bonuses, allowed: nat, p0: Progress, gained: nat): (Progress, Report)
    requires 1 <= allowed <= MAX_RANK
  {
    var p := p0.(track := FirstRank(p0.track));
    if gained == 0 || p.track.rank > allowed || Finished(t, p.track) then (p0, Report(0, false, false))
    else
      var c := Reached(t, b, allowed, p, Wrap(p.track.exp + gained));
      (c.progress, Report(if c.limited then 0 else Min(U16 - 1, Wrap(gained - c.left)),
                          c.progress.track.rank > p.track.rank, c.limited))
  }

  /** A track with more points than its rank needs is promoted by a full bar as one a point short of it would be. */
  lemma OverfullPromoted(t: Ladder, b: Bonuses, allowed: nat, p: Progress, total: nat)
    requires 1 <= p.track.rank < allowed <= MAX_RANK && p.point < U16
    requires p.track.rankExp >= RungAt(t, p.track.rank).points && total >= RungAt(t, p.track.rank).exp
    ensures var short := p.(track := p.track.(rankExp := RungAt(t, p.track.rank).points - 1));
            Reached(t, b, allowed, p, total) == Reached(t, b, allowed, short, total)
  {
    hide Bars, Locate, LocateFrom, AddBonus;
    var rank, r := p.track.rank, RungAt(t, p.track.rank);
    var short := p.(track := p.track.(rankExp := r.points - 1));
    var next := Promoted(b, p);
    BarsStep(r.points - 1, r.exp);
    BarsStep(0, RungAt(t, rank + 1).exp);
    assert Banked(t, next.track) + (total - r.exp) == Banked(t, short.track) + total;
    var high := Granted(t, b, allowed, short, total).track.rank;
    PointsGrow(t, allowed, next.track, total - r.exp);
    PromoteOne(b, rank, rank, p.stats);
    PromoteNone(b, rank, p.stats);
    PromoteInTwo(b, rank, rank + 1, high, p.stats);
    hide Promote;
  }

  lemma ReachedStats(t: Ladder, b: Bonuses, allowed: nat, p: Progress, total: nat)
    requires 1 <= p.track.rank <= allowed <= MAX_RANK
    requires p.track.rank < MAX_RANK || p.track.rankExp < RungAt(t, p.track.rank).points
    ensures var q := Reached(t, b, allowed, p, total).progress;
            p.track.rank <= q.track.rank && q.stats == Promote(b, p.track.rank, q.track.rank, p.stats)
  {
    hide Counted, Crossed, Locate, AddBonus;
    var rank := p.track.rank;
    PromoteNone(b, rank, p.stats);
    PromoteOne(b, rank, rank, p.stats);
    if p.track.rankExp < RungAt(t, rank).points {
      PointsGrow(t, allowed, p.track, total);
    } else if rank < allowed && total >= RungAt(t, rank).exp {
      var left := total - RungAt(t, rank).exp;
      PointsGrow(t, allowed, Promoted(b, p).track, left);
      PromoteInTwo(b, rank, rank + 1, Granted(t, b, allowed, Promoted(b, p), left).track.rank, p.stats);
    }
    hide Promote;
  }

  /** Each stat has grown by what the table holds for the ranks left behind. */
  predicate StatsGrown(b: Bonuses, p: Progress, q: Progress) {
    InWidth(p.stats) ==> Raised(b, FirstRank(p.track).rank, q.track.rank, p.stats, q.stats)
  }

  /** What a gain does to the stats of any stored track. */
  lemma StatsRaised(t: Ladder, b: Bonuses, allowed: nat, p: Progress, gained: nat)
    requires 1 <= allowed <= MAX_RANK
    ensures StatsGrown(b, p, Handled(t, b, allowed, p, gained).0)
  {
    hide Reached, Promote, Raised;
    var first := FirstRank(p.track);
    var total := Wrap(first.exp + gained);
    if InWidth(p.stats) {
      if gained == 0 || first.rank > allowed || Finished(t, first) {
        NothingRaised(b, first.rank, p.track.rank, p.stats);
      } else {
        var q := Reached(t, b, allowed, p.(track := first), total).progress;
        ReachedStats(t, b, allowed, p.(track := first), total);
        PromoteRaises(b, first.rank, q.track.rank, p.stats);
      }
    }
  }

  lemma NothingRaised(b: Bonuses, low: nat, high: nat, s: Stats)
    requires high <= low && InWidth(s)
    ensures Raised(b, low, high, s, s)
  {
  }

  /** addSkillExperienceForType up to the save, for every stored track: the loop ends where the closed form says. */
  method AddSkillExperience(t: Ladder, b: Bonuses, allowed: nat, p0: Progress, gained: nat)
    returns (q: Progress, report: Report)
    requires 1 <= allowed <= MAX_RANK && gained < U32 && p0.point < U16 && p0.track.rankExp < U16
    ensures (q, report) == Handled(t, b, allowed, p0, gained)
    ensures StatsGrown(b, p0, q)
  {
    StatsRaised(t, b, allowed, p0, gained);
    hide *;
    FirstRankIs(p0.track);
    HandledIs(t, b, allowed, p0, gained);
    q, report := p0, Report(0, false, false);
    if gained == 0 {
      return;
    }
    var p := p0;
    if p.track.rank == 0 {
      p := p.(track := p.track.(rank := 1));
    }
    if p.track.rank > allowed {
      return;
    }
    var total := Wrap(p.track.exp + gained);
    if p.track.rank >= MAX_RANK && p.track.rankExp >= RungAt(t, p.track.rank).points {
      return;
    }
    var left, rankUp, limitReached;
    q, left, rankUp, limitReached := Climb(t, b, allowed, p, total);
    var accepted := gained;
    if limitReached {
      accepted := 0;
    } else {
      accepted := Wrap(gained - left);
    }
    report := Report(Min(U16 - 1, accepted), rankUp, limitReached);
  }

  lemma FirstRankIs(s: Track)
    ensures FirstRank(s) == if s.rank == 0 then s.(rank := 1) else s
  {
  }

  /** The handler, refusal by refusal. */
  lemma HandledIs(t: Ladder, b: Bonuses, allowed: nat, p0: Progress, gained: nat)
    requires 1 <= allowed <= MAX_RANK
    ensures var s := FirstRank(p0.track);
            && 1 <= s.rank
            && var full := s.rank <= allowed && s.rank >= MAX_RANK && s.rankExp >= RungAt(t, s.rank).points;
            && var refused := gained == 0 || s.rank > allowed || full;
            && (refused ==> Handled(t, b, allowed, p0, gained) == (p0, Report(0, false, false)))
            && (!refused ==>
                 var c := Reached(t, b, allowed, p0.(track := s), Wrap(s.exp + gained));
                 Handled(t, b, allowed, p0, gained) ==
                   (c.progress, Report(Min(U16 - 1, if c.limited then 0 else Wrap(gained - c.left)),
                                       c.progress.track.rank > s.rank, c.limited)))
  {
    hide Reached, Wrap, RungAt;
  }

  lemma WellPlaced(t: Ladder, s: Track)
    requires WellFormed(t, s)
    ensures Placed(t, s) && FirstRank(s) == s
  {
  }

  lemma AtCap(t: Ladder, allowed: nat, phi: nat)
    requires 1 <= allowed <= MAX_RANK && phi >= Cap(t, allowed)
    ensures Locate(t, allowed, phi) == if allowed == MAX_RANK then Track(MAX_RANK, RungAt(t, allowed).points, 0)
                                       else Track(allowed, RungAt(t, allowed).points - 1, RungAt(t, allowed).exp)
  {
  }

  lemma PromoteNone(b: Bonuses, rank: nat, s: Stats)
    ensures Promote(b, rank, rank, s) == s
  {
  }

  lemma PromoteOne(b: Bonuses, low: nat, rank: nat, s: Stats)
    requires low <= rank
    ensures Promote(b, low, rank + 1, s) == AddBonus(b, rank, Promote(b, low, rank, s))
  {
  }

  /** The finished last rank is where any grant leaves it. */
  lemma FinishedStays(t: Ladder, b: Bonuses, p: Progress, total: nat)
    requires WellFormed(t, p.track) && p.track.rank == MAX_RANK && p.track.rankExp == RungAt(t, MAX_RANK).points
    requires p.point < U16
    ensures Granted(t, b, MAX_RANK, p, total) == p && Phi(t, p.track) == Cap(t, MAX_RANK)
  {
    hide Bars, LocateFrom;
    assert Banked(t, p.track) == Cap(t, MAX_RANK);
  }

  /** The closed form in terms of experience: Phi grows by the gain and stops at the cap. */
  lemma GrantedPhi(t: Ladder, b: Bonuses, allowed: nat, p: Progress, gained: nat)
    requires WellFormed(t, p.track) && p.track.rank <= allowed <= MAX_RANK
    ensures var q := Granted(t, b, allowed, p, p.track.exp + gained);
            && WellFormed(t, q.track) && q.track.rank <= allowed
            && Phi(t, q.track) == Min(Phi(t, p.track) + gained, Cap(t, allowed))
  {
    hide Bars, Locate, LocateFrom;
    LocatePhi(t, allowed, Phi(t, p.track) + gained);
  }

  /** The point counter grows with the track exactly as long as it never saturates on the way. */
  lemma PointsExact(t: Ladder, b: Bonuses, allowed: nat, p: Progress, total: nat)
    requires Placed(t, p.track) && p.track.rank <= allowed <= MAX_RANK && p.point < U16
    ensures var q := Granted(t, b, allowed, p, total);
            && 1 <= q.track.rank <= MAX_RANK
            && (q.point - Points(t, q.track) == p.point - Points(t, p.track) <==>
                p.point + Crossed(t, allowed, p.track, total) < U16)
  {
    hide Bars, Locate, LocateFrom, Promote;
    LocatePhi(t, allowed, Banked(t, p.track) + total);
    PointsGrow(t, allowed, p.track, total);
  }

  /** Splitting a gain makes no difference to rank, rank experience, bar, points or stats, saturated or not. */
  lemma SplitGain(t: Ladder, b: Bonuses, allowed: nat, p: Progress, g1: nat, g2: nat)
    requires WellFormed(t, p.track) && p.track.rank <= allowed <= MAX_RANK && p.point < U16
    ensures var q := Granted(t, b, allowed, p, p.track.exp + g1);
            && WellFormed(t, q.track) && q.track.rank <= allowed
            && Granted(t, b, allowed, q, q.track.exp + g2) == Granted(t, b, allowed, p, p.track.exp + (g1 + g2))
  {
    hide *;
    WellPlaced(t, p.track);
    GrantedPhi(t, b, allowed, p, g1);
    var q := Granted(t, b, allowed, p, p.track.exp + g1);
    WellPlaced(t, q.track);
    GrantedIs(t, b, allowed, p, g1);
    var phi := Phi(t, p.track) + g1;
    LocateCapped(t, allowed, phi, g2);
    var r, whole := Granted(t, b, allowed, q, q.track.exp + g2), Granted(t, b, allowed, p, p.track.exp + (g1 + g2));
    var first, second := Limited(t, allowed, phi), Limited(t, allowed, phi + g2);
    assert r.track == whole.track && r.stats == whole.stats by {
      GrantedIs(t, b, allowed, p, g1 + g2);
      GrantedIs(t, b, allowed, q, g2);
      PromoteInTwo(b, p.track.rank, q.track.rank, r.track.rank, p.stats);
    }
    assert r.point == whole.point by {
      GrantedIs(t, b, allowed, p, g1 + g2);
      GrantedIs(t, b, allowed, q, g2);
      CountedInTwo(p.point, Points(t, p.track), Points(t, q.track), Points(t, r.track), first, second);
    }
  }

  /** The closed form, field by field, in terms of the experience before and after. */
  lemma GrantedIs(t: Ladder, b: Bonuses, allowed: nat, p: Progress, gained: nat)
    requires Placed(t, p.track) && p.track.rank <= allowed <= MAX_RANK && p.point < U16
    ensures 1 <= p.track.rank
    ensures var q := Granted(t, b, allowed, p, p.track.exp + gained);
            var phi := Phi(t, p.track) + gained;
            && q.track == Locate(t, allowed, phi) && p.track.rank <= q.track.rank <= allowed && q.point < U16
            && Points(t, p.track) <= Points(t, q.track)
            && var limited := Limited(t, allowed, phi);
            && q.point == Counted(p.point,
                                  Points(t, q.track) - Points(t, p.track) + (if limited then 1 else 0), limited)
            && q.stats == Promote(b, p.track.rank, q.track.rank, p.stats)
  {
    PointsGrow(t, allowed, p.track, p.track.exp + gained);
    hide Bars, Locate, Promote, Cap, Points, Spent;
  }

  /** Cutting off at the cap before adding more makes no difference; at the cap nothing moves. */
  lemma LocateCapped(t: Ladder, allowed: nat, phi: nat, more: nat)
    requires 1 <= allowed <= MAX_RANK
    ensures var cut := Min(phi, Cap(t, allowed));
            && Locate(t, allowed, cut + more) == Locate(t, allowed, phi + more)
            && (Limited(t, allowed, cut + more) <==> Limited(t, allowed, phi + more))
            && (Limited(t, allowed, phi) ==>
                Limited(t, allowed, phi + more) && Locate(t, allowed, phi + more) == Locate(t, allowed, phi))
  {
    hide LocateFrom, Cap;
  }

  lemma CountedInTwo(point: nat, a: nat, b: nat, c: nat, first: bool, second: bool)
    requires point < U16 && a <= b <= c && (first ==> second && b == c)
    ensures Counted(Counted(point, b - a + (if first then 1 else 0), first), c - b + (if second then 1 else 0), second)
         == Counted(point, c - a + (if second then 1 else 0), second)
  {
  }

  /** Once a grant has reached the cap, every further gain leaves the character as it is, counters and stats
      included. */
  lemma CappedIsFixed(t: Ladder, b: Bonuses, allowed: nat, p: Progress, g1: nat, g2: nat)
    requires WellFormed(t, p.track) && p.track.rank <= allowed <= MAX_RANK && p.point < U16
    requires Phi(t, p.track) + g1 >= Cap(t, allowed)
    ensures var q := Granted(t, b, allowed, p, p.track.exp + g1);
            && WellFormed(t, q.track) && q.track.rank <= allowed
            && Granted(t, b, allowed, q, q.track.exp + g2) == q
  {
    hide Bars, LocateFrom, Promote;
    SplitGain(t, b, allowed, p, g1, g2);
  }

  /** A character already standing at the full bar of a limit is a fixed point exactly when its point counter is
      not full: at a full counter the rollback takes back a point that was never counted. */
  lemma FullBarFixed(t: Ladder, b: Bonuses, p: Progress, gained: nat)
    requires WellFormed(t, p.track) && p.track.rank < MAX_RANK && p.track.exp == RungAt(t, p.track.rank).exp
    requires p.point < U16
    ensures Granted(t, b, p.track.rank, p, p.track.exp + gained) == p <==> p.point < U16 - 1
  {
    hide Bars, LocateFrom;
    BarsStep(p.track.rankExp, p.track.exp);
    assert Phi(t, p.track) == Cap(t, p.track.rank);
  }
}
