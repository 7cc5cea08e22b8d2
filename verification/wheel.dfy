/** The wheel as `renderWheel` draws it: `n` equal sectors, numbered clockwise from the top. */
module Wheel {

  /** Degrees each of `n` items gets. */
  function SectorAngle(n: nat): (a: real)
    requires n >= 1
    ensures 0.0 < a <= 360.0
    ensures a * (n as real) == 360.0
  {
    360.0 / (n as real)
  }

  /** Where sector `i` starts, clockwise from the top: within the circle for every item. */
  function SectorStart(i: nat, n: nat): (s: real)
    requires n >= 1
    ensures 0.0 <= s
    ensures i < n ==> s < 360.0
  {
    assert (i as real) * SectorAngle(n) < (n as real) * SectorAngle(n) <== i < n;
    (i as real) * SectorAngle(n)
  }

  /** Where sector `i` ends: one sector angle after it starts, and within the circle for
      every item. */
  function SectorEnd(i: nat, n: nat): (e: real)
    requires n >= 1
    ensures e - SectorStart(i, n) == SectorAngle(n)
    ensures i < n ==> e <= 360.0
  {
    assert ((i + 1) as real) * SectorAngle(n) <= (n as real) * SectorAngle(n) <== i < n;
    ((i + 1) as real) * SectorAngle(n)
  }

  /** Where the label of sector `i` is centred. */
  function SectorMid(i: nat, n: nat): (m: real)
    requires n >= 1
    ensures SectorStart(i, n) < m < SectorEnd(i, n)
  {
    (SectorStart(i, n) + SectorEnd(i, n)) / 2.0
  }

  /** The SVG large-arc flag of every sector's path: 1 exactly when the wheel has a single
      item, the only case where a sector exceeds half the circle. */
  function LargeArcFlag(n: nat): (flag: int)
    requires n >= 1
    ensures flag == 0 || flag == 1
    ensures flag == 1 <==> n == 1
  {
    assert SectorAngle(n) * 2.0 <= SectorAngle(n) * (n as real) <== n >= 2;
    if SectorAngle(n) > 180.0 then 1 else 0
  }

  /** The sectors tile the circle: the first starts at 0, each ends where the next starts,
      and the last ends at 360. */
  lemma SectorsTile(n: nat)
    requires n >= 1
    ensures SectorStart(0, n) == 0.0
    ensures forall i: nat :: i + 1 < n ==> SectorEnd(i, n) == SectorStart(i + 1, n)
    ensures SectorEnd(n - 1, n) == 360.0
  {
  }

  /** Distinct sectors do not overlap. */
  lemma SectorsDisjoint(i: nat, j: nat, n: nat, p: real)
    requires n >= 1 && i < j
    requires SectorStart(i, n) <= p < SectorEnd(i, n)
    ensures !(SectorStart(j, n) <= p < SectorEnd(j, n))
  {
    var a := SectorAngle(n);
    assert SectorEnd(i, n) == ((i + 1) as real) * a && SectorStart(j, n) == (j as real) * a;
    assert (i + 1) as real <= j as real;
    assert ((i + 1) as real) * a <= (j as real) * a;
    assert p < SectorEnd(i, n) <= SectorStart(j, n);
  }

  /** The longest label shown unshortened on a mobile screen when the wheel has `n` items:
      the floor of `8 - n/3`. */
  function MaxLabelLength(n: nat): (m: int)
    ensures m == (24 - n) / 3
  {
    (8.0 - (n as real) / 3.0).Floor
  }

  /** The text drawn in a sector: on mobile, a label longer than the limit is cut to
      `limit - 1` characters (none when that is negative, as `substring` clamps) followed by "..".
      A label is shortened exactly on mobile when it is over the limit; a shortened label keeps
      a prefix of the original, ends in "..", and is one character longer than the limit
      (two characters once the limit is zero or less). */
  function DisplayLabel(menu: string, n: nat, isMobile: bool): (r: string)
    ensures var limit := MaxLabelLength(n);
      if isMobile && |menu| > limit then
        |r| == (if limit < 1 then 2 else limit + 1) && r[..|r| - 2] <= menu && r[|r| - 2..] == ".."
      else r == menu
  {
    var limit := MaxLabelLength(n);
    if isMobile && |menu| > limit then
      menu[..if limit - 1 < 0 then 0 else limit - 1] + ".."
    else menu
  }

  /** With 22 or more items every mobile label, however short, becomes "..". */
  lemma DisplayLabelCrowded(menu: string, n: nat)
    requires n >= 22 && menu != []
    ensures DisplayLabel(menu, n, true) == ".."
  {
    assert MaxLabelLength(n) <= 0;
  }
}
