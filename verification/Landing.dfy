/**
 The descent of a precision landing: when the final blind drop begins and ends, how fast to sink for
 a given misalignment, and how far off the target it may be.
 */
module Landing {
  import opened Basics
  import opened Planar

  datatype Config = Config(landAlt: real, useDisarm: bool, blindAlt: real, blindXy: real,
                           funnelRadius: real, funnelRadiusK: real,
                           holdMin: real, holdMax: real, holdMinAlt: real,
                           touchdownVel: real, maxVelZ: real, platformHeight: real,
                           gammaZ: real, gamma: real, minGamma: real, decayStartZ: real)

  datatype Sample = Sample(z: real, xyError: real, yawErrorDeg: real, droneZ: real)

  datatype Command = Command(isBlindDrop: bool, descentVel: real, holdRadius: real,
                             targetZ: real, gammaZ: real, gammaXy: real)

  datatype Outcome = Land | Disarm | Fly(cmd: Command)

  /** The height at which the hold radius is at its maximum. */
  const HOLD_BASE: real := 10.0

  /** The hold radius divides by the distance to that height. */
  ghost predicate Divides(cfg: Config) {
    cfg.holdMinAlt != HOLD_BASE
  }

  // ---------- the parts ----------

  function HoldRadius(cfg: Config, z: real): real
    requires cfg.holdMinAlt != HOLD_BASE
  {
    if z <= cfg.holdMinAlt then cfg.holdMin
    else cfg.holdMin + (Min(z, HOLD_BASE) - cfg.holdMinAlt) / (HOLD_BASE - cfg.holdMinAlt) * (cfg.holdMax - cfg.holdMin)
  }

  /** Falls from 1 at `from` to 0 at `to`, and is 0 beyond. */
  function Ramp(e: real, from: real, to: real): real {
    if e > to then 0.0 else if e > from then 1.0 - (e - from) / (to - from) else 1.0
  }

  function AlignRadius(cfg: Config, z: real): real {
    Max(cfg.funnelRadius, z * cfg.funnelRadiusK)
  }

  /** What the planar error leaves of the descent. */
  function PlanarFactor(cfg: Config, z: real, xyError: real): real
    requires cfg.holdMinAlt != HOLD_BASE
  {
    Ramp(xyError, AlignRadius(cfg, z), HoldRadius(cfg, z))
  }

  function Factor(cfg: Config, s: Sample): real
    requires cfg.holdMinAlt != HOLD_BASE
  {
    Times(PlanarFactor(cfg, s.z, s.xyError), Ramp(s.yawErrorDeg, 15.0, 35.0))
  }

  function BaseVel(z: real): real {
    0.2 + Min(1.0, Abs(z / Max(10.0, 1.0))) * 0.8
  }

  function GammaXy(cfg: Config, z: real): real {
    if 0.0 < z <= cfg.decayStartZ then cfg.minGamma + (cfg.gamma - cfg.minGamma) * (z / cfg.decayStartZ)
    else if z <= 0.0 then cfg.minGamma else cfg.gamma
  }

  // ---------- the state machine ----------

  predicate Touches(cfg: Config, s: Sample) { s.z < cfg.landAlt }

  predicate TurnsOn(cfg: Config, s: Sample) {
    !Touches(cfg, s) && s.z < cfg.blindAlt && s.xyError < cfg.blindXy
  }

  predicate TurnsOff(cfg: Config, s: Sample) {
    !Touches(cfg, s) && s.z > Max(1.0, cfg.blindAlt + 0.5)
  }

  /** The flag after a step. */
  function Blind(cfg: Config, blind: bool, s: Sample): bool {
    if TurnsOn(cfg, s) then true else if TurnsOff(cfg, s) then false else blind
  }

  function DescentVel(cfg: Config, blind: bool, s: Sample): real
    requires cfg.holdMinAlt != HOLD_BASE
  {
    Min(cfg.maxVelZ,
        if blind then cfg.touchdownVel + 0.2
        else if Factor(cfg, s) > 0.05 then Times(BaseVel(s.z), Factor(cfg, s)) else 0.0)
  }

  class DescentController {
    var isBlindDrop: bool

    constructor ()
      ensures !isBlindDrop
    {
      isBlindDrop := false;
    }

    method CalculateSharedZDescent(cfg: Config, s: Sample) returns (out: Outcome)
      requires Divides(cfg)
      ensures out.Fly? <==> s.z >= cfg.landAlt
      ensures out == Disarm <==> s.z < cfg.landAlt && cfg.useDisarm
      ensures out.Fly? ==>
        && out.cmd.isBlindDrop == Blind(cfg, isBlindDrop, s)
        && out.cmd.descentVel == DescentVel(cfg, out.cmd.isBlindDrop, s)
        && out.cmd.holdRadius == HoldRadius(cfg, s.z)
        && out.cmd.targetZ == (if out.cmd.descentVel > 0.0 then cfg.platformHeight - 0.5 else s.droneZ)
        && out.cmd.gammaZ == (if out.cmd.isBlindDrop then 100.0 else cfg.gammaZ)
        && out.cmd.gammaXy == GammaXy(cfg, s.z)
    {
      var blind := isBlindDrop;
      if s.z < cfg.landAlt {
        return if cfg.useDisarm then Disarm else Land;
      }
      if s.z > Max(1.0, cfg.blindAlt + 0.5) {
        blind := false;
      }
      if s.z < cfg.blindAlt && (s.xyError < cfg.blindXy || blind) {
        blind := true;
      }
      var align := AlignRadius(cfg, s.z);
      var hold := HoldRadius(cfg, s.z);
      var vel;
      if blind {
        vel := cfg.touchdownVel + 0.2;
      } else {
        var xyFactor := 1.0;
        if s.xyError > hold {
          xyFactor := 0.0;
        } else if s.xyError > align {
          xyFactor := 1.0 - (s.xyError - align) / (hold - align);
        }
        var yawFactor := 1.0;
        if s.yawErrorDeg > 35.0 {
          yawFactor := 0.0;
        } else if s.yawErrorDeg > 15.0 {
          yawFactor := 1.0 - (s.yawErrorDeg - 15.0) / (35.0 - 15.0);
        }
        var factor := Times(xyFactor, yawFactor);
        if factor > 0.05 {
          vel := Times(BaseVel(s.z), factor);
        } else {
          vel := 0.0;
        }
      }
      vel := if cfg.maxVelZ < vel then cfg.maxVelZ else vel;
      out := Fly(Command(blind, vel, hold, if vel > 0.0 then cfg.platformHeight - 0.5 else s.droneZ,
                         if blind then 100.0 else cfg.gammaZ, GammaXy(cfg, s.z)));
    }

    /** On touch-down the robot lands or disarms and the flag stays as it is. */
    method ExecuteZStateMachine(cfg: Config, s: Sample) returns (out: Outcome)
      requires Divides(cfg)
      modifies this
      ensures isBlindDrop == Blind(cfg, old(isBlindDrop), s)
      ensures out.Fly? <==> s.z >= cfg.landAlt
      ensures out.Fly? ==> out.cmd.isBlindDrop == isBlindDrop && out.cmd.descentVel == DescentVel(cfg, isBlindDrop, s)
    {
      out := CalculateSharedZDescent(cfg, s);
      if out.Fly? {
        isBlindDrop := out.cmd.isBlindDrop;
      }
    }
  }

  // ---------- the flag over a run ----------

  function BlindAfter(cfg: Config, blind: bool, run: seq<Sample>): bool {
    if run == [] then blind else Blind(cfg, BlindAfter(cfg, blind, run[..|run| - 1]), run[|run| - 1])
  }

  /** It turned on at step `i` and did not turn off since. */
  ghost predicate OnSince(cfg: Config, run: seq<Sample>, i: int) {
    0 <= i < |run| && TurnsOn(cfg, run[i]) && NeverOff(cfg, run[i..])
  }

  ghost predicate NeverOff(cfg: Config, run: seq<Sample>) {
    forall i :: 0 <= i < |run| ==> !TurnsOff(cfg, run[i])
  }

  lemma OnAndOff(cfg: Config, s: Sample)
    ensures !(TurnsOn(cfg, s) && TurnsOff(cfg, s))
  {
  }

  /** The flag is on exactly if a low, well-aligned step turned it on and no high one turned it off since. */
  lemma {:induction false} FlagExactly(cfg: Config, blind: bool, run: seq<Sample>)
    ensures BlindAfter(cfg, blind, run) <==> (blind && NeverOff(cfg, run)) || exists i :: OnSince(cfg, run, i)
    decreases |run|
  {
    if run != [] {
      var n := |run| - 1;
      var before, s := run[..n], run[n];
      FlagExactly(cfg, blind, before);
      OnAndOff(cfg, s);
      assert NeverOff(cfg, run) <==> NeverOff(cfg, before) && !TurnsOff(cfg, s);
      forall i | 0 <= i < n ensures OnSince(cfg, run, i) <==> OnSince(cfg, before, i) && !TurnsOff(cfg, s) {
        assert run[i..] == before[i..] + [s];
        assert NeverOff(cfg, run[i..]) <==> NeverOff(cfg, before[i..]) && !TurnsOff(cfg, s) by {
          NeverOffAppend(cfg, before[i..], s);
        }
      }
      assert run[n..] == [s];
      assert OnSince(cfg, run, n) <==> TurnsOn(cfg, s);
      if BlindAfter(cfg, blind, run) && !TurnsOn(cfg, s) && exists i :: OnSince(cfg, before, i) {
        var i :| OnSince(cfg, before, i);
        assert OnSince(cfg, run, i);
      }
    }
  }

  lemma NeverOffAppend(cfg: Config, run: seq<Sample>, s: Sample)
    ensures NeverOff(cfg, run + [s]) <==> NeverOff(cfg, run) && !TurnsOff(cfg, s)
  {
    var more := run + [s];
    assert more[|run|] == s;
    assert forall i :: 0 <= i < |run| ==> more[i] == run[i];
  }

  // ---------- the descent ----------

  lemma RampRange(e: real, from: real, to: real)
    ensures 0.0 <= Ramp(e, from, to) <= 1.0
    ensures e > to ==> Ramp(e, from, to) == 0.0
    ensures e <= from && e <= to ==> Ramp(e, from, to) == 1.0
  {
    if from < e <= to { Ratio(e - from, to - from); }
  }

  lemma RampFalls(e: real, f: real, from: real, to: real)
    requires e <= f
    ensures Ramp(e, from, to) >= Ramp(f, from, to)
  {
    RampRange(e, from, to);
    RampRange(f, from, to);
    if from < e && f <= to {
      DividedOrder(e - from, f - from, to - from);
    }
  }

  lemma DividedOrder(a: real, b: real, d: real)
    requires a <= b && d > 0.0
    ensures a / d <= b / d
  {
  }

  lemma TimesOrder(a: real, b: real, c: real, d: real)
    requires 0.0 <= a <= b && 0.0 <= c <= d
    ensures Times(a, c) <= Times(b, d)
  {
    ProductOrder(a, b, c, d);
  }

  lemma BaseVelRange(z: real)
    ensures 0.2 <= BaseVel(z) <= 1.0
  {
  }

  /** The descent is never negative, never faster than 1 m/s or the limit, and only for an aligned robot. */
  lemma DescentRange(cfg: Config, s: Sample)
    requires Divides(cfg) && cfg.maxVelZ >= 0.0
    ensures 0.0 <= DescentVel(cfg, false, s) <= Min(1.0, cfg.maxVelZ)
    ensures DescentVel(cfg, false, s) > 0.0 ==> s.xyError <= HoldRadius(cfg, s.z) && s.yawErrorDeg <= 35.0
  {
  }

  /** A worse alignment never sinks faster. */
  lemma DescentFalls(cfg: Config, s: Sample, t: Sample)
    requires Divides(cfg)
    requires s.z == t.z && s.xyError <= t.xyError && s.yawErrorDeg <= t.yawErrorDeg
    ensures DescentVel(cfg, false, s) >= DescentVel(cfg, false, t)
  {
    var a, h := AlignRadius(cfg, s.z), HoldRadius(cfg, s.z);
    RampRange(t.xyError, a, h);
    RampRange(t.yawErrorDeg, 15.0, 35.0);
    RampFalls(s.xyError, t.xyError, a, h);
    RampFalls(s.yawErrorDeg, t.yawErrorDeg, 15.0, 35.0);
    TimesOrder(Ramp(t.xyError, a, h), Ramp(s.xyError, a, h), Ramp(t.yawErrorDeg, 15.0, 35.0), Ramp(s.yawErrorDeg, 15.0, 35.0));
    BaseVelRange(s.z);
    TimesOrder(BaseVel(s.z), BaseVel(s.z), Factor(cfg, t), Factor(cfg, s));
  }

  /** The hold radius stays between its ends and grows with the height. */
  lemma HoldRadiusGrows(cfg: Config, z: real, w: real)
    requires Divides(cfg) && cfg.holdMin <= cfg.holdMax && z <= w
    ensures cfg.holdMin <= HoldRadius(cfg, z) <= HoldRadius(cfg, w) <= cfg.holdMax
  {
    HoldRadiusRange(cfg, z);
    HoldRadiusRange(cfg, w);
    if z > cfg.holdMinAlt && cfg.holdMinAlt < HOLD_BASE {
      var d := HOLD_BASE - cfg.holdMinAlt;
      var a, b := Min(z, HOLD_BASE) - cfg.holdMinAlt, Min(w, HOLD_BASE) - cfg.holdMinAlt;
      DividedOrder(a, b, d);
      Ratio(a, d);
      ProductOrder(a / d, b / d, cfg.holdMax - cfg.holdMin, cfg.holdMax - cfg.holdMin);
    }
  }

  lemma HoldRadiusRange(cfg: Config, z: real)
    requires Divides(cfg) && cfg.holdMin <= cfg.holdMax
    ensures cfg.holdMin <= HoldRadius(cfg, z) <= cfg.holdMax
    ensures z > cfg.holdMinAlt > HOLD_BASE ==> HoldRadius(cfg, z) == cfg.holdMax
  {
    if z > cfg.holdMinAlt {
      var d := HOLD_BASE - cfg.holdMinAlt;
      var a := Min(z, HOLD_BASE) - cfg.holdMinAlt;
      if d > 0.0 {
        Ratio(a, d);
        ProductOrder(a / d, 1.0, cfg.holdMax - cfg.holdMin, cfg.holdMax - cfg.holdMin);
        ProductOrder(0.0, a / d, cfg.holdMax - cfg.holdMin, cfg.holdMax - cfg.holdMin);
      } else {
        assert a == d && a / d == 1.0;
      }
    }
  }

  // ---------- where the descent is gradual ----------

  /** At this height some planar error leaves part of the descent. */
  ghost predicate PartialFactor(cfg: Config, z: real)
    requires Divides(cfg)
  {
    exists e :: e >= 0.0 && 0.0 < PlanarFactor(cfg, z, e) < 1.0
  }

  /** The planar factor is all or nothing: 1 up to the hold radius, 0 beyond. */
  ghost predicate JumpsAtHold(cfg: Config, z: real)
    requires Divides(cfg)
  {
    forall e :: e >= 0.0 ==> PlanarFactor(cfg, z, e) == if e <= HoldRadius(cfg, z) then 1.0 else 0.0
  }

  /** At each height the planar factor either has a partial value or jumps at the hold radius, depending on the two radii. */
  lemma RampIsUsedExactly(cfg: Config, z: real)
    requires Divides(cfg) && cfg.funnelRadius >= 0.0
    ensures PartialFactor(cfg, z) <==> AlignRadius(cfg, z) < HoldRadius(cfg, z)
    ensures JumpsAtHold(cfg, z) <==> AlignRadius(cfg, z) >= HoldRadius(cfg, z)
  {
    var from, to := AlignRadius(cfg, z), HoldRadius(cfg, z);
    if from < to {
      var e := (from + to) / 2.0;
      HalfWay(from, to);
      assert e >= 0.0 && PlanarFactor(cfg, z, e) == 0.5;
    }
  }

  lemma HalfWay(from: real, to: real)
    requires from < to
    ensures Ramp((from + to) / 2.0, from, to) == 0.5
  {
    var d := to - from;
    assert (from + to) / 2.0 - from == d / 2.0;
    assert d / 2.0 / d == 0.5;
  }

  /** A sample at a height, with the given planar error and no yaw error. */
  function Aligned(z: real, xyError: real): Sample { Sample(z, xyError, 0.0, z) }

  function FullVel(cfg: Config, z: real): real { Min(cfg.maxVelZ, BaseVel(z)) }

  /** At this height some planar error makes the robot sink, but not at full speed. */
  ghost predicate GradualDescent(cfg: Config, z: real)
    requires Divides(cfg)
  {
    exists e :: e >= 0.0 && 0.0 < DescentVel(cfg, false, Aligned(z, e)) < FullVel(cfg, z)
  }

  lemma AlignedVel(cfg: Config, z: real, e: real)
    requires Divides(cfg)
    ensures var f := PlanarFactor(cfg, z, e);
            DescentVel(cfg, false, Aligned(z, e)) ==
              Min(cfg.maxVelZ, if f > 0.05 then Times(BaseVel(z), f) else 0.0)
  {
    assert Ramp(0.0, 15.0, 35.0) == 1.0;
    var f := PlanarFactor(cfg, z, e);
    assert Times(f, 1.0) == f;
  }

  /**
   The descent is gradual at a height exactly if the align radius is inside the hold radius there and the
   speed limit does not already cut off the least speed that the factor allows; else it is all or nothing.
   */
  lemma DescentIsGradualExactly(cfg: Config, z: real)
    requires Divides(cfg) && cfg.funnelRadius >= 0.0 && cfg.maxVelZ > 0.0
    ensures GradualDescent(cfg, z) <==>
      AlignRadius(cfg, z) < HoldRadius(cfg, z) && cfg.maxVelZ > 0.05 * BaseVel(z)
    ensures !GradualDescent(cfg, z) ==> forall e :: e >= 0.0 ==>
      DescentVel(cfg, false, Aligned(z, e)) == 0.0 || DescentVel(cfg, false, Aligned(z, e)) == FullVel(cfg, z)
  {
    var b, m := BaseVel(z), cfg.maxVelZ;
    BaseVelRange(z);
    RampIsUsedExactly(cfg, z);
    if AlignRadius(cfg, z) < HoldRadius(cfg, z) && m > 0.05 * b {
      var e, f := GradualError(cfg, z);
      AlignedVel(cfg, z, e);
      assert Times(b, 1.0 - f) == b - Times(b, f);
      assert 0.0 < DescentVel(cfg, false, Aligned(z, e)) < FullVel(cfg, z);
    }
    forall e | e >= 0.0
      ensures 0.0 <= DescentVel(cfg, false, Aligned(z, e)) <= FullVel(cfg, z)
      ensures !(AlignRadius(cfg, z) < HoldRadius(cfg, z) && m > 0.05 * b) ==>
        DescentVel(cfg, false, Aligned(z, e)) == 0.0 || DescentVel(cfg, false, Aligned(z, e)) == FullVel(cfg, z)
    {
      AlignedVel(cfg, z, e);
      AllOrNothing(cfg, z, e);
    }
  }

  lemma AllOrNothing(cfg: Config, z: real, e: real)
    requires Divides(cfg) && cfg.funnelRadius >= 0.0 && cfg.maxVelZ > 0.0 && e >= 0.0
    ensures var f := PlanarFactor(cfg, z, e);
            var vel := Min(cfg.maxVelZ, if f > 0.05 then Times(BaseVel(z), f) else 0.0);
            && 0.0 <= vel <= FullVel(cfg, z)
            && (!(AlignRadius(cfg, z) < HoldRadius(cfg, z) && cfg.maxVelZ > 0.05 * BaseVel(z)) ==>
                 vel == 0.0 || vel == FullVel(cfg, z))
  {
    var b, f := BaseVel(z), PlanarFactor(cfg, z, e);
    BaseVelRange(z);
    RampRange(e, AlignRadius(cfg, z), HoldRadius(cfg, z));
    assert Times(b, 1.0 - f) == b - Times(b, f);
    assert Times(b, f) - 0.05 * b == b * (f - 0.05);
    if f > 0.05 { assert Times(b, f - 0.05) == Times(b, f) - 0.05 * b; }
    if AlignRadius(cfg, z) >= HoldRadius(cfg, z) { assert f == 1.0 || f == 0.0; }
  }

  /** An error whose factor is above the threshold, and leaves the speed under its limit. */
  lemma GradualError(cfg: Config, z: real) returns (e: real, f: real)
    requires Divides(cfg) && cfg.funnelRadius >= 0.0
    requires AlignRadius(cfg, z) < HoldRadius(cfg, z) && cfg.maxVelZ > 0.05 * BaseVel(z)
    ensures e >= 0.0 && f == PlanarFactor(cfg, z, e) && 0.05 < f < 1.0 && Times(BaseVel(z), f) < cfg.maxVelZ
  {
    var from, to, b := AlignRadius(cfg, z), HoldRadius(cfg, z), BaseVel(z);
    BaseVelRange(z);
    var top := cfg.maxVelZ / b;
    assert top * b == cfg.maxVelZ;
    assert Times(top - 0.05, b) == cfg.maxVelZ - 0.05 * b;
    assert top > 0.05 by { Divide(b, top - 0.05, cfg.maxVelZ - 0.05 * b); }
    f := (0.05 + Min(1.0, top)) / 2.0;
    e := to - Times(f, to - from);
    assert Times(1.0 - f, to - from) == to - from - Times(f, to - from);
    Quotient(e - from, 1.0 - f, to - from);
    assert Times(b, top - f) == cfg.maxVelZ - Times(b, f);
  }

  lemma Quotient(x: real, k: real, d: real)
    requires d > 0.0 && x == Times(k, d)
    ensures x / d == k
  {
  }

  /** The radii of the default configuration. */
  predicate DefaultRadii(cfg: Config) {
    && cfg.funnelRadius == 0.15 && cfg.funnelRadiusK == 0.1
    && cfg.holdMin == 0.2 && cfg.holdMax == 1.8 && cfg.holdMinAlt == 0.5
  }

  /** With the default radii and speed limit the descent is gradual below 18 m, and jumps from there up. */
  lemma DefaultsJumpFromEighteen(cfg: Config, z: real)
    requires DefaultRadii(cfg) && cfg.maxVelZ == 1.0
    ensures GradualDescent(cfg, z) <==> z < 18.0
    ensures JumpsAtHold(cfg, z) <==> z >= 18.0
  {
    DefaultRadiiCross(cfg, z);
    RampIsUsedExactly(cfg, z);
    BaseVelRange(z);
    DescentIsGradualExactly(cfg, z);
  }

  lemma DefaultRadiiCross(cfg: Config, z: real)
    requires DefaultRadii(cfg)
    ensures AlignRadius(cfg, z) < HoldRadius(cfg, z) <==> z < 18.0
  {
    if 0.5 < z {
      assert HoldRadius(cfg, z) == 0.2 + (Min(z, 10.0) - 0.5) / 9.5 * 1.6;
    }
  }

  lemma GammaGrows(cfg: Config, z: real, w: real)
    requires cfg.minGamma <= cfg.gamma && z <= w
    ensures cfg.minGamma <= GammaXy(cfg, z) <= GammaXy(cfg, w) <= cfg.gamma
  {
    GammaRange(cfg, z);
    GammaRange(cfg, w);
    if 0.0 < z && w <= cfg.decayStartZ {
      DividedOrder(z, w, cfg.decayStartZ);
      Ratio(z, cfg.decayStartZ);
      ProductOrder(cfg.gamma - cfg.minGamma, cfg.gamma - cfg.minGamma, z / cfg.decayStartZ, w / cfg.decayStartZ);
    }
  }

  lemma GammaRange(cfg: Config, z: real)
    requires cfg.minGamma <= cfg.gamma
    ensures cfg.minGamma <= GammaXy(cfg, z) <= cfg.gamma
  {
    if 0.0 < z <= cfg.decayStartZ {
      Ratio(z, cfg.decayStartZ);
      PartOf(cfg.gamma - cfg.minGamma, z / cfg.decayStartZ);
    }
  }

  lemma PartOf(a: real, q: real)
    requires 0.0 <= a && 0.0 <= q <= 1.0
    ensures 0.0 <= a * q <= a
  {
    assert Times(a, q) >= 0.0 && Times(a, 1.0 - q) >= 0.0;
  }

  // ---------- what the descent means ----------

  /** One step of the flag: on low and aligned, off high, and otherwise as it was; touch-down leaves it alone. */
  lemma FlagStepExactly(cfg: Config, blind: bool, s: Sample)
    ensures s.z < cfg.landAlt ==> Blind(cfg, blind, s) == blind
    ensures s.z >= cfg.landAlt && s.z < cfg.blindAlt && s.xyError < cfg.blindXy ==> Blind(cfg, blind, s)
    ensures s.z >= cfg.landAlt && s.z > 1.0 && s.z > cfg.blindAlt + 0.5 ==> !Blind(cfg, blind, s)
    ensures !(s.z < cfg.blindAlt && s.xyError < cfg.blindXy) && !(s.z > 1.0 && s.z > cfg.blindAlt + 0.5) ==>
      Blind(cfg, blind, s) == blind
  {
  }

  /** The descent speed of an aligned robot: a fifth on the ground, one at 10 m and above, and linear in between. */
  lemma BaseVelExactly(z: real, w: real)
    ensures 0.0 <= z <= 10.0 ==> BaseVel(z) == 0.2 + 0.08 * z
    ensures z >= 10.0 ==> BaseVel(z) == 1.0
    ensures 0.0 <= z <= w ==> BaseVel(z) <= BaseVel(w)
    ensures 0.0 <= z < w <= 10.0 ==> BaseVel(z) < BaseVel(w)
  {
  }

  /** The hold radius: the least up to the minimum altitude, the largest from 10 m on, and linear in between. */
  lemma HoldRadiusExactly(cfg: Config, z: real)
    requires Divides(cfg)
    ensures z <= cfg.holdMinAlt ==> HoldRadius(cfg, z) == cfg.holdMin
    ensures z >= HOLD_BASE > cfg.holdMinAlt ==> HoldRadius(cfg, z) == cfg.holdMax
    ensures cfg.holdMinAlt < z <= HOLD_BASE ==>
      Times(HoldRadius(cfg, z) - cfg.holdMin, 10.0 - cfg.holdMinAlt) == Times(z - cfg.holdMinAlt, cfg.holdMax - cfg.holdMin)
  {
  }

  /** The planar stiffness: the least on the ground, the largest above the height of decay, and linear in between. */
  lemma GammaExactly(cfg: Config, z: real)
    ensures z <= 0.0 ==> GammaXy(cfg, z) == cfg.minGamma
    ensures z > 0.0 && z > cfg.decayStartZ ==> GammaXy(cfg, z) == cfg.gamma
    ensures 0.0 < z <= cfg.decayStartZ ==>
      Times(GammaXy(cfg, z) - cfg.minGamma, cfg.decayStartZ) == Times(cfg.gamma - cfg.minGamma, z)
  {
  }

  /** `f` is all up to `from`, none beyond `to`, and falls linearly in between. */
  predicate Falls(f: real, e: real, from: real, to: real) {
    if e > to then f == 0.0 else if e <= from then f == 1.0 else Times(f, to - from) == to - e
  }

  lemma FallsIsRamp(f: real, e: real, from: real, to: real)
    requires Falls(f, e, from, to)
    ensures f == Ramp(e, from, to)
  {
    if from < e <= to {
      var q := (e - from) / (to - from);
      assert q * (to - from) == e - from;
      assert (f - (1.0 - q)) * (to - from) == 0.0;
    }
  }

  lemma FactorExactly(cfg: Config, s: Sample, f: real, g: real)
    requires Divides(cfg) && Falls(f, s.xyError, AlignRadius(cfg, s.z), HoldRadius(cfg, s.z)) && Falls(g, s.yawErrorDeg, 15.0, 35.0)
    ensures Factor(cfg, s) == Times(f, g)
  {
    FallsIsRamp(f, s.xyError, AlignRadius(cfg, s.z), HoldRadius(cfg, s.z));
    FallsIsRamp(g, s.yawErrorDeg, 15.0, 35.0);
  }

  /**
   The descent speed outside the blind drop: with `f` for the planar error, between the larger of the funnel radius and
   its share of the height, and the hold radius, and `g` for the yaw error, between 15 and 35 degrees, it is their product
   times the speed for the height, or nothing if the product is not above a twentieth; under the speed limit.
   */
  lemma DescentExactly(cfg: Config, s: Sample, f: real, g: real)
    requires Divides(cfg) && Falls(f, s.xyError, Max(cfg.funnelRadius, s.z * cfg.funnelRadiusK), HoldRadius(cfg, s.z))
    requires Falls(g, s.yawErrorDeg, 15.0, 35.0)
    ensures DescentVel(cfg, false, s) == Min(cfg.maxVelZ, if Times(f, g) > 0.05 then Times(BaseVel(s.z), Times(f, g)) else 0.0)
    ensures DescentVel(cfg, true, s) == Min(cfg.maxVelZ, cfg.touchdownVel + 0.2)
  {
    FactorExactly(cfg, s, f, g);
  }
}
