/** Derived scores: damage bonus and build from STR+SIZ, movement rate,
    hit points, magic points and luck. All pure; attribute values are looked
    up by their three-letter code, as the generator does. */
module DerivedScores {
  import opened Arithmetic

  /** The damage-bonus/build step table on STR+SIZ (`CalculateDBandBuild`).
      The build runs from -2 to 7 and fixes the damage bonus: the same
      number while it is not positive, 1D4 for build 1, and one more D6
      per build above that ((build - 1)D6). */
  function DamageBonusAndBuild(strPlusSiz: int): (r: (int, int))
    ensures -2 <= r.1 <= 7
    ensures r.1 <= 0 ==> r.0 == r.1
    ensures r.1 == 1 ==> r.0 == 14
    ensures r.1 >= 2 ==> r.0 == 10 * (r.1 - 1) + 6
  {
    if strPlusSiz < 64 then (-2, -2)
    else if strPlusSiz < 84 then (-1, -1)
    else if strPlusSiz < 124 then (0, 0)
    else if strPlusSiz < 164 then (14, 1)
    else if strPlusSiz < 204 then (16, 2)
    else if strPlusSiz < 284 then (26, 3)
    else if strPlusSiz < 364 then (36, 4)
    else if strPlusSiz < 444 then (46, 5)
    else if strPlusSiz < 524 then (56, 6)
    else (66, 7)
  }

  /** The lower bounds of the table's rows after the first. */
  const Thresholds: seq<int> := [64, 84, 124, 164, 204, 284, 364, 444, 524]

  /** The table's rows, in order. */
  const Rows: seq<(int, int)> :=
    [(-2, -2), (-1, -1), (0, 0), (14, 1), (16, 2), (26, 3), (36, 4), (46, 5), (56, 6), (66, 7)]

  /** How many of the (ascending) thresholds `s` has reached. */
  function Reached(thresholds: seq<int>, s: int): (n: nat)
    ensures n <= |thresholds|
  {
    if |thresholds| == 0 then 0
    else (if thresholds[0] <= s then 1 else 0) + Reached(thresholds[1..], s)
  }

  /** Reaching is monotone in the sum. */
  lemma {:induction false} ReachedMonotone(thresholds: seq<int>, a: int, b: int)
    requires a <= b
    ensures Reached(thresholds, a) <= Reached(thresholds, b)
  {
    if |thresholds| > 0 {
      ReachedMonotone(thresholds[1..], a, b);
    }
  }

  /** The step table is the row selected by the number of thresholds reached. */
  lemma DamageBonusAndBuildIsTableLookup(s: int)
    ensures DamageBonusAndBuild(s) == Rows[Reached(Thresholds, s)]
  {
    var t := Thresholds;
    assert Reached(t[9..], s) == 0;
    assert t[8..][1..] == t[9..];
    assert Reached(t[8..], s) == (if 524 <= s then 1 else 0);
    assert t[7..][1..] == t[8..];
    assert Reached(t[7..], s) == (if 444 <= s then 1 else 0) + Reached(t[8..], s);
    assert t[6..][1..] == t[7..];
    assert Reached(t[6..], s) == (if 364 <= s then 1 else 0) + Reached(t[7..], s);
    assert t[5..][1..] == t[6..];
    assert Reached(t[5..], s) == (if 284 <= s then 1 else 0) + Reached(t[6..], s);
    assert t[4..][1..] == t[5..];
    assert Reached(t[4..], s) == (if 204 <= s then 1 else 0) + Reached(t[5..], s);
    assert t[3..][1..] == t[4..];
    assert Reached(t[3..], s) == (if 164 <= s then 1 else 0) + Reached(t[4..], s);
    assert t[2..][1..] == t[3..];
    assert Reached(t[2..], s) == (if 124 <= s then 1 else 0) + Reached(t[3..], s);
    assert t[1..][1..] == t[2..];
    assert Reached(t[1..], s) == (if 84 <= s then 1 else 0) + Reached(t[2..], s);
    assert Reached(t, s) == (if 64 <= s then 1 else 0) + Reached(t[1..], s);
  }

  /** Damage bonus and build never decrease as STR+SIZ grows. */
  lemma DamageBonusAndBuildMonotone(a: int, b: int)
    requires a <= b
    ensures DamageBonusAndBuild(a).0 <= DamageBonusAndBuild(b).0
    ensures DamageBonusAndBuild(a).1 <= DamageBonusAndBuild(b).1
  {
    DamageBonusAndBuildIsTableLookup(a);
    DamageBonusAndBuildIsTableLookup(b);
    ReachedMonotone(Thresholds, a, b);
  }

  /** The table at both sides of every boundary. */
  lemma DamageBonusAndBuildBoundaries()
    ensures DamageBonusAndBuild(63) == (-2, -2) && DamageBonusAndBuild(64) == (-1, -1)
    ensures DamageBonusAndBuild(83) == (-1, -1) && DamageBonusAndBuild(84) == (0, 0)
    ensures DamageBonusAndBuild(123) == (0, 0) && DamageBonusAndBuild(124) == (14, 1)
    ensures DamageBonusAndBuild(163) == (14, 1) && DamageBonusAndBuild(164) == (16, 2)
    ensures DamageBonusAndBuild(203) == (16, 2) && DamageBonusAndBuild(204) == (26, 3)
    ensures DamageBonusAndBuild(283) == (26, 3) && DamageBonusAndBuild(284) == (36, 4)
    ensures DamageBonusAndBuild(363) == (36, 4) && DamageBonusAndBuild(364) == (46, 5)
    ensures DamageBonusAndBuild(443) == (46, 5) && DamageBonusAndBuild(444) == (56, 6)
    ensures DamageBonusAndBuild(523) == (56, 6) && DamageBonusAndBuild(524) == (66, 7)
  {
  }

  /** `CalculateDBandBuild` on the allocated attributes. */
  function CalculateDBandBuild(attributes: map<string, int>): (r: (int, int))
    requires "STR" in attributes && "SIZ" in attributes
    ensures r in Rows
    ensures -2 <= r.0 <= 66 && -2 <= r.1 <= 7
  {
    var s := attributes["STR"] + attributes["SIZ"];
    DamageBonusAndBuildIsTableLookup(s);
    DamageBonusAndBuild(s)
  }

  /** The movement rate from DEX, STR and SIZ (`CalculateMovement`). */
  function Movement(dex: int, str: int, siz: int): (m: int)
    ensures m == 7 || m == 8 || m == 9
    ensures m == 7 <==> dex < siz && str < siz
    ensures m == 9 <==> dex > siz && str > siz
    ensures m == 8 <==> !(dex < siz && str < siz) && !(dex > siz && str > siz)
  {
    if dex < siz && str < siz then 7
    else if dex > siz && str > siz then 9
    else 8
  }

  lemma MovementExamples()
    ensures Movement(8, 8, 10) == 7
    ensures Movement(12, 12, 10) == 9
    ensures Movement(10, 8, 10) == 8
  {
  }

  function CalculateMovement(attributes: map<string, int>): (m: int)
    requires "DEX" in attributes && "STR" in attributes && "SIZ" in attributes
    ensures m == 7 || m == 8 || m == 9
  {
    Movement(attributes["DEX"], attributes["STR"], attributes["SIZ"])
  }

  /** Hit points: (CON + SIZ) / 10, truncated toward zero. */
  function HitPoints(con: int, siz: int): (hp: int)
    ensures con + siz >= 0 ==> hp >= 0 && 10 * hp <= con + siz < 10 * hp + 10
    ensures con + siz < 0 ==> hp <= 0 && 10 * hp - 10 < con + siz <= 10 * hp
  {
    TruncDiv(con + siz, 10)
  }

  /** Magic points: POW / 5, truncated toward zero. */
  function MagicPoints(pow: int): (mp: int)
    ensures pow >= 0 ==> mp >= 0 && 5 * mp <= pow < 5 * mp + 5
    ensures pow < 0 ==> mp <= 0 && 5 * mp - 5 < pow <= 5 * mp
  {
    TruncDiv(pow, 5)
  }

  /** Luck: the 3d6 roll, supplied by the caller, times five. */
  function Luck(roll: int): (luck: int)
    ensures luck == 5 * roll
    ensures luck % 5 == 0
    ensures 3 <= roll <= 18 ==> 15 <= luck <= 90
  {
    roll * 5
  }

  lemma HitPointsTruncates()
    ensures HitPoints(13, 14) == 2
    ensures HitPoints(-13, -14) == -2
    ensures MagicPoints(54) == 10
  {
  }
}
