/**
 Angle arithmetic: normalisation, the two yaw conventions, and the shortest turn with a memory of
 its direction.
 */
module Angles {
  import opened Basics

  /** `M_PI`, digit for digit. */
  const PI: real := 3.141592653589793115997963468544185161590576171875
  const TWO_PI: real := 2.0 * PI

  predicate TurnsApart(a: real, b: real, n: int) {
    a - b == n as real * TWO_PI
  }

  ghost predicate Congruent(a: real, b: real) {
    exists n: int :: TurnsApart(a, b, n)
  }

  // ---------- normalisation ----------

  /** The angle in [0, 2 pi) that is congruent to `yaw`. */
  function Normal(yaw: real): real {
    yaw - (yaw / TWO_PI).Floor as real * TWO_PI
  }

  lemma NormalRange(yaw: real)
    ensures 0.0 <= Normal(yaw) < TWO_PI && Congruent(Normal(yaw), yaw)
  {
    var n := (yaw / TWO_PI).Floor;
    assert n as real <= yaw / TWO_PI < n as real + 1.0;
    assert TurnsApart(Normal(yaw), yaw, -n);
  }

  lemma NormalUnique(a: real, yaw: real)
    requires 0.0 <= a < TWO_PI && Congruent(a, yaw)
    ensures a == Normal(yaw)
  {
    NormalRange(yaw);
    var n: int :| TurnsApart(a, yaw, n);
    var f := (yaw / TWO_PI).Floor;
    assert Normal(yaw) == yaw - f as real * TWO_PI;
    var d := n + f;
    assert a - Normal(yaw) == d as real * TWO_PI;
    assert -1 < d < 1;
  }

  method NormYaw(yaw: real) returns (r: real)
    ensures r == Normal(yaw)
  {
    r := yaw;
    ghost var turns := 0;
    while r < 0.0
      invariant TurnsApart(r, yaw, turns)
      decreases -r
    {
      r := r + PI * 2.0;
      turns := turns + 1;
    }
    while r >= 2.0 * PI
      invariant r >= 0.0 && TurnsApart(r, yaw, turns)
      decreases r
    {
      r := r - PI * 2.0;
      turns := turns - 1;
    }
    NormalUnique(r, yaw);
  }

  // ---------- yaw conventions ----------

  function EnuToNed(yaw: real): real { Normal(PI * 0.5 - yaw) }

  function NedToEnu(yaw: real): real { Normal(PI * 0.5 - yaw) }

  /** Converting there and back only normalises. */
  lemma ThereAndBack(yaw: real)
    ensures NedToEnu(EnuToNed(yaw)) == Normal(yaw)
    ensures EnuToNed(NedToEnu(yaw)) == Normal(yaw)
  {
    var ned := PI * 0.5 - yaw;
    NormalRange(ned);
    NormalRange(PI * 0.5 - Normal(ned));
    var n: int :| TurnsApart(Normal(ned), ned, n);
    var m: int :| TurnsApart(Normal(PI * 0.5 - Normal(ned)), PI * 0.5 - Normal(ned), m);
    assert TurnsApart(Normal(PI * 0.5 - Normal(ned)), yaw, m - n);
    NormalUnique(Normal(PI * 0.5 - Normal(ned)), yaw);
  }

  method YawEnuToNed(yaw: real) returns (r: real)
    ensures r == EnuToNed(yaw)
  {
    var heading := PI * 0.5 - yaw;
    r := NormYaw(heading);
  }

  method YawNedToEnu(yaw: real) returns (r: real)
    ensures r == NedToEnu(yaw)
  {
    var heading := PI * 0.5 - yaw;
    r := NormYaw(heading);
  }

  // ---------- the shortest turn, with hysteresis ----------

  /** The integer nearest to `q`, ties to even. */
  function Nearest(q: real): (n: int)
    ensures -0.5 <= q - n as real <= 0.5
  {
    var f := q.Floor;
    var d := q - f as real;
    if d < 0.5 || (d == 0.5 && f % 2 == 0) then f else f + 1
  }

  /** `std::remainder(x, 2 pi)`. */
  function Remainder(x: real): real {
    x - Nearest(x / TWO_PI) as real * TWO_PI
  }

  lemma RemainderIsShortest(x: real)
    ensures -PI <= Remainder(x) <= PI && Congruent(Remainder(x), x)
  {
    var n := Nearest(x / TWO_PI);
    assert TurnsApart(Remainder(x), x, -n);
  }

  /** The two ways round are nearly the same. */
  predicate InDeadZone(current: real, target: real, deadband: real) {
    Abs(Remainder(target - current)) > PI - deadband
  }

  /** The turn to make: clockwise (negative) once more if that was the direction and both are nearly the same. */
  function Turn(wasCw: bool, current: real, target: real, deadband: real): real {
    var w := Remainder(target - current);
    if InDeadZone(current, target, deadband) && wasCw && w > 0.0 then w - TWO_PI else w
  }

  class AngleController {
    var wasTurningCw: bool

    constructor ()
      ensures !wasTurningCw
    {
      wasTurningCw := false;
    }

    method GetDistance(current: real, target: real, deadband: real) returns (d: real)
      modifies this
      ensures d == Turn(old(wasTurningCw), current, target, deadband)
      ensures wasTurningCw <==> d < 0.0
    {
      var diff := target - current;
      d := Remainder(diff);
      if Abs(d) > PI - deadband {
        if wasTurningCw && d > 0.0 {
          d := d - 2.0 * PI;
        }
      }
      wasTurningCw := d < 0.0;
    }
  }

  /** The turn leads to the target, and is never longer than half a turn and the dead band. */
  lemma TurnReachesTarget(wasCw: bool, current: real, target: real, deadband: real)
    ensures Congruent(Turn(wasCw, current, target, deadband), target - current)
    ensures var t := Turn(wasCw, current, target, deadband);
            -PI <= t <= PI || -PI - deadband < t < -PI
    ensures !InDeadZone(current, target, deadband) ==>
      Abs(Turn(wasCw, current, target, deadband)) <= PI - deadband
  {
    var x := target - current;
    RemainderIsShortest(x);
    var n: int :| TurnsApart(Remainder(x), x, n);
    assert TurnsApart(Remainder(x) - TWO_PI, x, n - 1);
  }

  datatype Aim = Aim(current: real, target: real)

  /** The direction flag after a run of calls. */
  function Direction(wasCw: bool, aims: seq<Aim>, deadband: real): bool
    decreases |aims|
  {
    if aims == [] then wasCw
    else Direction(Turn(wasCw, aims[0].current, aims[0].target, deadband) < 0.0, aims[1..], deadband)
  }

  ghost predicate StaysInDeadZone(aims: seq<Aim>, deadband: real) {
    forall i :: 0 <= i < |aims| ==> InDeadZone(aims[i].current, aims[i].target, deadband)
  }

  /** In the dead zone a clockwise turn is never given up: the direction changes at most once, to clockwise. */
  lemma {:induction false} ClockwiseIsKept(aims: seq<Aim>, deadband: real)
    requires deadband <= PI && StaysInDeadZone(aims, deadband)
    ensures Direction(true, aims, deadband)
  {
    if aims != [] {
      var a := aims[0];
      RemainderIsShortest(a.target - a.current);
      assert Turn(true, a.current, a.target, deadband) < 0.0;
      ClockwiseIsKept(aims[1..], deadband);
    }
  }

  /** The whole run: while it stays in the dead zone, an earlier clockwise flag forces every later one. */
  lemma DirectionChangesOnce(wasCw: bool, before: seq<Aim>, after: seq<Aim>, deadband: real)
    requires deadband <= PI && StaysInDeadZone(after, deadband)
    requires Direction(wasCw, before, deadband)
    ensures Direction(wasCw, before + after, deadband)
  {
    DirectionAppend(wasCw, before, after, deadband);
    ClockwiseIsKept(after, deadband);
  }

  lemma {:induction false} DirectionAppend(wasCw: bool, a: seq<Aim>, b: seq<Aim>, deadband: real)
    ensures Direction(wasCw, a + b, deadband) == Direction(Direction(wasCw, a, deadband), b, deadband)
    decreases |a|
  {
    if a == [] {
      assert a + b == b;
    } else {
      assert (a + b)[1..] == a[1..] + b;
      DirectionAppend(Turn(wasCw, a[0].current, a[0].target, deadband) < 0.0, a[1..], b, deadband);
    }
  }

  /** The memory works for exactly the dead bands of at most half a turn. */
  lemma HysteresisExactly(deadband: real)
    ensures deadband <= PI <==>
      forall aims :: StaysInDeadZone(aims, deadband) ==> Direction(true, aims, deadband)
  {
    if deadband <= PI {
      forall aims | StaysInDeadZone(aims, deadband) ensures Direction(true, aims, deadband) {
        ClockwiseIsKept(aims, deadband);
      }
    } else {
      var aims := [Aim(0.0, 0.0)];
      assert Nearest(0.0) == 0 && Remainder(0.0) == 0.0;
      assert StaysInDeadZone(aims, deadband);
      assert Direction(true, aims, deadband) == Direction(false, aims[1..], deadband);
    }
  }

  // ---------- what the conventions and the turn mean ----------

  /** A heading counts clockwise from north: north is 0, east a quarter turn, and the two yaws add up to one. */
  lemma HeadingCountsFromNorth(yaw: real)
    ensures 0.0 <= EnuToNed(yaw) < TWO_PI && Congruent(EnuToNed(yaw), PI / 2.0 - yaw)
    ensures EnuToNed(PI / 2.0) == 0.0 && EnuToNed(0.0) == PI / 2.0 && EnuToNed(PI) == 3.0 * PI / 2.0
    ensures 0.0 <= NedToEnu(yaw) < TWO_PI && Congruent(NedToEnu(yaw), PI / 2.0 - yaw)
    ensures NedToEnu(0.0) == PI / 2.0 && NedToEnu(PI / 2.0) == 0.0
  {
    NormalRange(PI * 0.5 - yaw);
    assert TurnsApart(0.0, 0.0, 0) && TurnsApart(PI / 2.0, PI / 2.0, 0) && TurnsApart(3.0 * PI / 2.0, -PI / 2.0, 1);
    NormalUnique(0.0, 0.0);
    NormalUnique(PI / 2.0, PI / 2.0);
    NormalUnique(3.0 * PI / 2.0, -PI / 2.0);
  }

  /**
   Of all turns that lead to the target the one that is made is the shortest, unless the last one was clockwise and both
   ways are nearly the same; then it is the shortest clockwise one.
   */
  lemma TurnIsShortest(wasCw: bool, current: real, target: real, deadband: real, d: real)
    requires Congruent(d, target - current)
    ensures !wasCw || Abs(Remainder(target - current)) <= PI - deadband ==> Abs(Turn(wasCw, current, target, deadband)) <= Abs(d)
    ensures wasCw && Abs(Remainder(target - current)) > PI - deadband && d < 0.0 ==> d <= Turn(wasCw, current, target, deadband)
    ensures wasCw && Abs(Remainder(target - current)) > PI - deadband ==> Turn(wasCw, current, target, deadband) <= 0.0
  {
    var x := target - current;
    RemainderIsShortest(x);
    var n: int :| TurnsApart(Remainder(x), x, n);
    var m: int :| TurnsApart(d, x, m);
    var k := m - n;
    assert d == Remainder(x) + k as real * TWO_PI;
    if k >= 1 { assert k as real * TWO_PI >= TWO_PI; }
    if k <= -1 { assert k as real * TWO_PI <= -TWO_PI; }
  }
}
