/** Which item the fixed pointer at the top of the wheel lands on once a spin has settled. */
module Resolver {
  import opened Wheel

  /** JavaScript's `x % 360` on numbers: the remainder of truncating division by 360, with
      the sign of `x`; it differs from `x` by whole turns. */
  function JsRem360(x: real): (r: real)
    ensures x >= 0.0 ==> 0.0 <= r < 360.0
    ensures x < 0.0 ==> -360.0 < r <= 0.0
    ensures IsWhole((x - r) / 360.0)
  {
    var q := x / 360.0;
    var t := if q >= 0.0 then q.Floor else -((-q).Floor);
    assert (x - (x - 360.0 * (t as real))) / 360.0 == t as real;
    x - 360.0 * (t as real)
  }

  /** `y` is a whole number. */
  predicate IsWhole(y: real) {
    (y.Floor as real) == y
  }

  /** Euclidean remainder modulo 360: the angle `x` names, in `[0, 360)`. */
  function Mod360(x: real): real {
    x - 360.0 * ((x / 360.0).Floor as real)
  }

  /** The angle of the wheel's own frame that sits under the pointer after turning clockwise
      by `rotation` degrees: `(360 - rotation % 360) % 360`. */
  function Pointer(rotation: real): (p: real)
    ensures 0.0 <= p < 360.0
  {
    JsRem360(360.0 - JsRem360(rotation))
  }

  /** Whatever the sign of the rotation, the pointer angle is minus the rotation, modulo 360. */
  lemma PointerIsMinusRotation(rotation: real)
    ensures Pointer(rotation) == Mod360(-rotation)
  {
    var r := JsRem360(rotation);
    var q := ((rotation - r) / 360.0).Floor;
    assert r == rotation - 360.0 * (q as real);
    var p := Pointer(rotation);
    var q2 := (((360.0 - r) - p) / 360.0).Floor;
    assert p == (360.0 - r) - 360.0 * (q2 as real);
    // p = -rotation + 360 * (1 + q - q2), and p lies in [0, 360)
    var k := 1 + q - q2;
    assert p == -rotation + 360.0 * (k as real);
    ModOfShift(-rotation, k, p);
  }

  /** A value in `[0, 360)` that differs from `x` by a whole number of turns is `Mod360(x)`. */
  lemma ModOfShift(x: real, k: int, p: real)
    requires 0.0 <= p < 360.0 && p == x + 360.0 * (k as real)
    ensures p == Mod360(x)
  {
    var f := (x / 360.0).Floor;
    assert (f as real) <= x / 360.0 < (f as real) + 1.0;
    assert p / 360.0 == x / 360.0 + (k as real);
    assert 0.0 <= p / 360.0 < 1.0;
    assert -(k as real) <= x / 360.0 < 1.0 - (k as real);
    assert f == -k;
  }

  /** Adding whole turns does not move `Mod360`. */
  lemma Mod360Periodic(x: real, k: int)
    ensures Mod360(x + 360.0 * (k as real)) == Mod360(x)
  {
    var f := (x / 360.0).Floor;
    assert (f as real) <= x / 360.0 < (f as real) + 1.0;
    var p := Mod360(x);
    assert 0.0 <= p < 360.0 by {
      assert 360.0 * (f as real) <= x < 360.0 * (f as real) + 360.0;
    }
    ModOfShift(x + 360.0 * (k as real), -f - k, p);
  }

  /** The winning index of `animate`'s completion branch: the pointer angle divided by the
      sector angle, rounded down. It is a valid index, and the pointer lies in its sector. */
  function SelectedIndex(rotation: real, n: nat): (i: nat)
    requires n >= 1
    ensures i < n
    ensures SectorStart(i, n) <= Pointer(rotation) < SectorEnd(i, n)
  {
    var p := Pointer(rotation);
    var a := SectorAngle(n);
    var f := (p / a).Floor;
    SelectedIndexBounds(p, a, n, f);
    f
  }

  lemma SelectedIndexBounds(p: real, a: real, n: nat, f: int)
    requires n >= 1 && 0.0 <= p < 360.0 && a > 0.0 && a * (n as real) == 360.0
    requires f == (p / a).Floor
    ensures 0 <= f < n
    ensures (f as real) * a <= p < ((f + 1) as real) * a
  {
    var q := p / a;
    assert q * a == p;
    assert (f as real) <= q < (f as real) + 1.0;
    assert (f as real) * a <= q * a < ((f as real) + 1.0) * a;
    assert q < n as real by {
      assert q * a < (n as real) * a;
    }
  }

  /** The pointer angle lies in exactly one sector: the selected one. */
  lemma SelectedIndexUnique(rotation: real, n: nat, j: nat)
    requires 1 <= n && j < n
    requires SectorStart(j, n) <= Pointer(rotation) < SectorEnd(j, n)
    ensures j == SelectedIndex(rotation, n)
  {
    var i := SelectedIndex(rotation, n);
    if i < j {
      SectorsDisjoint(i, j, n, Pointer(rotation));
    } else if j < i {
      SectorsDisjoint(j, i, n, Pointer(rotation));
    }
  }

  /** Whole extra turns of the wheel never change the result. */
  lemma SelectedIndexPeriodic(rotation: real, k: int, n: nat)
    requires n >= 1
    ensures SelectedIndex(rotation + 360.0 * (k as real), n) == SelectedIndex(rotation, n)
  {
    PointerIsMinusRotation(rotation);
    PointerIsMinusRotation(rotation + 360.0 * (k as real));
    assert -(rotation + 360.0 * (k as real)) == -rotation + 360.0 * ((-k) as real);
    Mod360Periodic(-rotation, -k);
  }

  /** Four items settled at 45 degrees: pointer at 315, the fourth item. */
  lemma FourItemsAt45()
    ensures Pointer(45.0) == 315.0 && SelectedIndex(45.0, 4) == 3
  {
    var p := Pointer(45.0);
    assert JsRem360(45.0) == 45.0 by { JsRemOfTurnAngle(45.0); }
    assert p == 315.0 by { JsRemOfTurnAngle(315.0); }
    SelectedIndexUnique(45.0, 4, 3);
  }

  /** Two items settled at 0 degrees: the first item. */
  lemma TwoItemsAt0()
    ensures Pointer(0.0) == 0.0 && SelectedIndex(0.0, 2) == 0
  {
    assert JsRem360(0.0) == 0.0;
    assert JsRem360(360.0) == 0.0;
    SelectedIndexUnique(0.0, 2, 0);
  }

  /** Two items settled at 180 degrees: the second item. */
  lemma TwoItemsAt180()
    ensures Pointer(180.0) == 180.0 && SelectedIndex(180.0, 2) == 1
  {
    assert JsRem360(180.0) == 180.0 by { JsRemOfTurnAngle(180.0); }
    assert Pointer(180.0) == 180.0 by { JsRemOfTurnAngle(180.0); }
    SelectedIndexUnique(180.0, 2, 1);
  }

  /** An angle already in `[0, 360)` is its own JavaScript remainder. */
  lemma JsRemOfTurnAngle(x: real)
    requires 0.0 <= x < 360.0
    ensures JsRem360(x) == x
  {
  }
}
