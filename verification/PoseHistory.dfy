/**
 The pose history: short, time-ordered windows of samples, and the value at a time in between.
 How two samples are mixed (`lerp`, `slerp`) is a parameter of the lookups.
 */
module PoseHistory {
  import opened Basics
  import opened Planar

  datatype Sample<T> = Sample(stamp: real, value: T)

  datatype Quat = Quat(w: real, x: real, y: real, z: real)

  const MAX_HISTORY := 2.0
  const MAX_TOLERANCE := 0.15
  const MIN_GAP := 0.000001

  ghost predicate Increasing<T>(buf: seq<Sample<T>>) {
    forall i, j :: 0 <= i < j < |buf| ==> buf[i].stamp < buf[j].stamp
  }

  /** At most two samples, or no more than the history length between first and last. */
  ghost predicate Short<T>(buf: seq<Sample<T>>) {
    |buf| <= 2 || buf[|buf| - 1].stamp - buf[0].stamp <= MAX_HISTORY
  }

  ghost predicate Window<T>(buf: seq<Sample<T>>) {
    Increasing(buf) && Short(buf)
  }

  // ---------- what a push leaves ----------

  /** Samples that do not move time forward are ignored; others push old ones out. */
  ghost predicate Pushed<T>(was: seq<Sample<T>>, x: Sample<T>, now: seq<Sample<T>>) {
    if was != [] && x.stamp <= was[|was| - 1].stamp then now == was
    else exists k :: KeepsFrom(was + [x], k, now)
  }

  /** `now` is `all` without its first `k`, and `k` is no more than the bounds call for. */
  ghost predicate KeepsFrom<T>(all: seq<Sample<T>>, k: nat, now: seq<Sample<T>>) {
    && k <= |all| && now == all[k..] && Short(now)
    && forall j: nat :: j < k ==> !Short(all[j..])
  }

  lemma PushedUnique<T>(was: seq<Sample<T>>, x: Sample<T>, a: seq<Sample<T>>, b: seq<Sample<T>>)
    requires Pushed(was, x, a) && Pushed(was, x, b)
    ensures a == b
  {
    if !(was != [] && x.stamp <= was[|was| - 1].stamp) {
      var k :| KeepsFrom(was + [x], k, a);
      var l :| KeepsFrom(was + [x], l, b);
      assert k == l;
    }
  }

  lemma AppendedIncreases<T>(was: seq<Sample<T>>, x: Sample<T>, k: nat)
    requires Increasing(was) && (was == [] || was[|was| - 1].stamp < x.stamp) && k <= |was|
    ensures Increasing((was + [x])[k..])
  {
    var all := was + [x];
    assert forall i :: 0 <= i < |was| ==> all[i] == was[i];
    assert Increasing(all);
  }

  /** None of the first `k` suffixes of `all` is short. */
  ghost predicate Long<T>(all: seq<Sample<T>>, k: nat)
    requires k <= |all|
  {
    forall j: nat :: j < k ==> !Short(all[j..])
  }

  method PushSample<T>(was: seq<Sample<T>>, t: real, v: T) returns (now: seq<Sample<T>>)
    requires Window(was)
    ensures Window(now) && Pushed(was, Sample(t, v), now)
    ensures now != [] && t <= now[|now| - 1].stamp
  {
    if was != [] && t <= was[|was| - 1].stamp {
      return was;
    }
    ghost var all := was + [Sample(t, v)];
    ghost var k := 0;
    now := was + [Sample(t, v)];
    while |now| > 2 && t - now[0].stamp > 2.0
      invariant k <= |all| - 1 && now == all[k..] && now[|now| - 1].stamp == t
      invariant Long(all, k)
    {
      assert !Short(all[k..]);
      now := now[1..];
      k := k + 1;
    }
    AppendedIncreases(was, Sample(t, v), k);
    assert KeepsFrom(all, k, now);
  }

  // ---------- reference lookup ----------

  /** Linear scan: the first sample, from the second on, that is not before `t`. */
  function Scan<T>(buf: seq<Sample<T>>, t: real, i: nat): (k: nat)
    requires 0 < i <= |buf|
    ensures i <= k <= |buf|
    decreases |buf| - i
  {
    if i == |buf| || t <= buf[i].stamp then i else Scan(buf, t, i + 1)
  }

  datatype Found<T> = Found(value: T, off: real)

  /** The mix of samples `k - 1` and `k` at time `t`, or the earlier one when they are as good as simultaneous. */
  function MixAt<T>(buf: seq<Sample<T>>, k: nat, t: real, mix: (T, real, T) -> T, gap: real): T
    requires 0 < k < |buf|
  {
    var a, b := buf[k - 1], buf[k];
    if b.stamp - a.stamp < gap || b.stamp == a.stamp then a.value
    else mix(a.value, (t - a.stamp) / (b.stamp - a.stamp), b.value)
  }

  /** The value at `t`, if it is covered, and how far `t` is from the nearest sample. */
  function Naive<T>(buf: seq<Sample<T>>, t: real, mix: (T, real, T) -> T, gap: real): Option<Found<T>> {
    if buf == [] then None
    else
      var first, last := buf[0], buf[|buf| - 1];
      if t <= first.stamp then
        if first.stamp - t > MAX_TOLERANCE then None else Some(Found(first.value, first.stamp - t))
      else if t >= last.stamp then
        if t - last.stamp > MAX_TOLERANCE then None else Some(Found(last.value, t - last.stamp))
      else
        var k := Scan(buf, t, 1);
        if k == |buf| then None
        else Some(Found(MixAt(buf, k, t, mix, gap), Min(buf[k].stamp - t, t - buf[k - 1].stamp)))
  }

  /** `std::lower_bound` by halving: the first sample that is not before `t`. */
  method LowerBound<T>(buf: seq<Sample<T>>, t: real) returns (k: nat)
    requires Increasing(buf)
    ensures k <= |buf|
    ensures forall i :: 0 <= i < k ==> buf[i].stamp < t
    ensures forall i :: k <= i < |buf| ==> t <= buf[i].stamp
  {
    var count := |buf|;
    k := 0;
    while count > 0
      invariant 0 <= k && 0 <= count && k + count <= |buf|
      invariant forall i :: 0 <= i < k ==> buf[i].stamp < t
      invariant forall i :: k + count <= i < |buf| ==> t <= buf[i].stamp
    {
      var half := count / 2;
      if buf[k + half].stamp < t {
        k, count := k + half + 1, count - half - 1;
      } else {
        count := half;
      }
    }
  }

  lemma {:induction false} ScanIsFirst<T>(buf: seq<Sample<T>>, t: real, i: nat, k: nat)
    requires 0 < i <= k <= |buf|
    requires forall j :: i <= j < k ==> buf[j].stamp < t
    requires k < |buf| ==> t <= buf[k].stamp
    ensures Scan(buf, t, i) == k
    decreases k - i
  {
    if i < k {
      ScanIsFirst(buf, t, i + 1, k);
    }
  }

  /** The lookup of the code, which finds its place by binary search, agrees with the scan. */
  method Lookup<T>(buf: seq<Sample<T>>, t: real, mix: (T, real, T) -> T, gap: real) returns (r: Option<Found<T>>)
    requires Increasing(buf)
    ensures r == Naive(buf, t, mix, gap)
  {
    if buf == [] {
      return None;
    }
    var first, last := buf[0], buf[|buf| - 1];
    if t <= first.stamp {
      if first.stamp - t > 0.15 {
        return None;
      }
      return Some(Found(first.value, first.stamp - t));
    }
    if t >= last.stamp {
      if t - last.stamp > 0.15 {
        return None;
      }
      return Some(Found(last.value, t - last.stamp));
    }
    var k := LowerBound(buf, t);
    // neither end of the buffer can come out of the search here
    assert 0 < k < |buf|;
    ScanIsFirst(buf, t, 1, k);
    var a, b := buf[k - 1], buf[k];
    var dt := b.stamp - a.stamp;
    var v := a.value;
    if dt >= gap {
      v := mix(a.value, (t - a.stamp) / dt, b.value);
    }
    return Some(Found(v, Min(b.stamp - t, t - a.stamp)));
  }

  // ---------- what a lookup means ----------

  ghost predicate NearestIs<T>(buf: seq<Sample<T>>, t: real, d: real) {
    && (forall i :: 0 <= i < |buf| ==> d <= Abs(buf[i].stamp - t))
    && (exists i :: 0 <= i < |buf| && d == Abs(buf[i].stamp - t))
  }

  /** A lookup succeeds exactly for times inside the window or close enough to one of its ends. */
  lemma CoveredExactly<T>(buf: seq<Sample<T>>, t: real, mix: (T, real, T) -> T, gap: real)
    requires Increasing(buf)
    ensures Naive(buf, t, mix, gap).Some? <==>
      buf != [] && buf[0].stamp - MAX_TOLERANCE <= t <= buf[|buf| - 1].stamp + MAX_TOLERANCE
  {
    if buf != [] && buf[0].stamp < t < buf[|buf| - 1].stamp {
      var k := FirstNotBefore(buf, t);
      ScanIsFirst(buf, t, 1, k);
    }
  }

  lemma FirstNotBefore<T>(buf: seq<Sample<T>>, t: real) returns (k: nat)
    requires Increasing(buf) && buf != [] && buf[0].stamp < t < buf[|buf| - 1].stamp
    ensures 0 < k < |buf| && buf[k - 1].stamp < t <= buf[k].stamp
    ensures forall j :: 0 <= j < k ==> buf[j].stamp < t
  {
    k := 1;
    while buf[k].stamp < t
      invariant 0 < k < |buf| && buf[k - 1].stamp < t
      invariant forall j :: 0 <= j < k ==> buf[j].stamp < t
      decreases |buf| - k
    {
      assert k + 1 < |buf|;
      k := k + 1;
    }
  }

  /** The reported distance is that to the nearest sample. */
  lemma OffIsNearest<T>(buf: seq<Sample<T>>, t: real, mix: (T, real, T) -> T, gap: real)
    requires Increasing(buf) && Naive(buf, t, mix, gap).Some?
    ensures NearestIs(buf, t, Naive(buf, t, mix, gap).value.off)
  {
    var n, off := |buf|, Naive(buf, t, mix, gap).value.off;
    if t <= buf[0].stamp {
      assert off == Abs(buf[0].stamp - t);
    } else if t >= buf[n - 1].stamp {
      assert off == Abs(buf[n - 1].stamp - t);
    } else {
      var k := FirstNotBefore(buf, t);
      ScanIsFirst(buf, t, 1, k);
      assert off == Abs(buf[k].stamp - t) || off == Abs(buf[k - 1].stamp - t);
      assert forall i :: 0 <= i < n ==> if i < k then buf[i].stamp <= buf[k - 1].stamp else buf[k].stamp <= buf[i].stamp;
    }
  }

  /** At the time of a sample, the lookup returns that sample, if mixing all the way returns the later one. */
  lemma ExactAtSamples<T>(buf: seq<Sample<T>>, i: nat, mix: (T, real, T) -> T, gap: real)
    requires Increasing(buf) && i < |buf|
    requires i > 0 ==> buf[i].stamp - buf[i - 1].stamp >= gap
    requires forall a, b :: mix(a, 1.0, b) == b
    ensures Naive(buf, buf[i].stamp, mix, gap) == Some(Found(buf[i].value, 0.0))
  {
    var t := buf[i].stamp;
    if 0 < i < |buf| - 1 {
      ScanIsFirst(buf, t, 1, i);
      assert (t - buf[i - 1].stamp) / (buf[i].stamp - buf[i - 1].stamp) == 1.0;
    }
  }

  /** `v` lies between `a` and `b`, whichever is larger. */
  predicate Amid(v: real, a: real, b: real) {
    if a <= b then a <= v <= b else b <= v <= a
  }

  function LerpScalar(a: real, k: real, b: real): real {
    a + Times(k, b - a)
  }

  lemma PartOfStep(a: real, k: real, d: real)
    requires 0.0 <= k <= 1.0
    ensures d >= 0.0 ==> a <= a + Times(k, d) <= a + d
    ensures d <= 0.0 ==> a + d <= a + Times(k, d) <= a
  {
    assert Times(k, d) + Times(1.0 - k, d) == d;
    assert Times(k, -d) == -Times(k, d) && Times(1.0 - k, -d) == -Times(1.0 - k, d);
  }

  lemma LerpStaysBetween(a: real, k: real, b: real)
    requires 0.0 <= k <= 1.0
    ensures Amid(LerpScalar(a, k, b), a, b)
  {
    PartOfStep(a, k, b - a);
  }

  function LerpVec(a: Vec3, k: real, b: Vec3): Vec3 {
    Vec3(a.x + k * (b.x - a.x), a.y + k * (b.y - a.y), a.z + k * (b.z - a.z))
  }

  /** An interpolated scalar stays between the two samples around its time. */
  lemma ScalarStaysBetween(buf: seq<Sample<real>>, t: real) returns (k: nat)
    requires Increasing(buf) && buf != [] && buf[0].stamp < t < buf[|buf| - 1].stamp
    ensures 0 < k < |buf| && buf[k - 1].stamp < t <= buf[k].stamp
    ensures Naive(buf, t, LerpScalar, 0.0).Some?
    ensures var v := Naive(buf, t, LerpScalar, 0.0).value.value;
            Amid(v, buf[k - 1].value, buf[k].value)
  {
    k := FirstNotBefore(buf, t);
    ScanIsFirst(buf, t, 1, k);
    var a, b := buf[k - 1], buf[k];
    var alpha := (t - a.stamp) / (b.stamp - a.stamp);
    Ratio(t - a.stamp, b.stamp - a.stamp);
    LerpStaysBetween(a.value, alpha, b.value);
    assert MixAt(buf, k, t, LerpScalar, 0.0) == LerpScalar(a.value, alpha, b.value);
  }

  // ---------- the history itself ----------

  datatype Pose = Pose(pos: Vec3, orientation: Quat, minDiff: real)

  class History {
    const slerp: (Quat, real, Quat) -> Quat

    var posBuffer: seq<Sample<Vec3>>
    var quatBuffer: seq<Sample<Quat>>
    var rollBuffer: seq<Sample<real>>
    var pitchBuffer: seq<Sample<real>>
    var yawBuffer: seq<Sample<real>>

    ghost predicate Valid() reads this {
      Window(posBuffer) && Window(quatBuffer) && Window(rollBuffer) && Window(pitchBuffer) && Window(yawBuffer)
    }

    constructor (slerp: (Quat, real, Quat) -> Quat)
      ensures Valid() && posBuffer == [] && quatBuffer == []
      ensures rollBuffer == [] && pitchBuffer == [] && yawBuffer == []
    {
      this.slerp := slerp;
      posBuffer, quatBuffer, rollBuffer, pitchBuffer, yawBuffer := [], [], [], [], [];
    }

    method PushPos(t: real, p: Vec3)
      requires Window(posBuffer)
      modifies this`posBuffer
      ensures Window(posBuffer) && Pushed(old(posBuffer), Sample(t, p), posBuffer)
    {
      posBuffer := PushSample(posBuffer, t, p);
    }

    method PushQuat(t: real, q: Quat)
      requires Window(quatBuffer)
      modifies this`quatBuffer
      ensures Window(quatBuffer) && Pushed(old(quatBuffer), Sample(t, q), quatBuffer)
    {
      quatBuffer := PushSample(quatBuffer, t, q);
    }

    method PushRoll(t: real, v: real)
      requires Window(rollBuffer)
      modifies this`rollBuffer
      ensures Window(rollBuffer) && Pushed(old(rollBuffer), Sample(t, v), rollBuffer)
    {
      rollBuffer := PushSample(rollBuffer, t, v);
    }

    method PushPitch(t: real, v: real)
      requires Window(pitchBuffer)
      modifies this`pitchBuffer
      ensures Window(pitchBuffer) && Pushed(old(pitchBuffer), Sample(t, v), pitchBuffer)
    {
      pitchBuffer := PushSample(pitchBuffer, t, v);
    }

    method PushYaw(t: real, v: real)
      requires Window(yawBuffer)
      modifies this`yawBuffer
      ensures Window(yawBuffer) && Pushed(old(yawBuffer), Sample(t, v), yawBuffer)
    {
      yawBuffer := PushSample(yawBuffer, t, v);
    }

    method GetGimbalAt(t: real) returns (roll: Option<Found<real>>, pitch: Option<Found<real>>, yaw: Option<Found<real>>)
      requires Valid()
      ensures roll == Naive(rollBuffer, t, LerpScalar, 0.0)
      ensures pitch == Naive(pitchBuffer, t, LerpScalar, 0.0)
      ensures yaw == Naive(yawBuffer, t, LerpScalar, 0.0)
    {
      roll := Lookup(rollBuffer, t, LerpScalar, 0.0);
      pitch := Lookup(pitchBuffer, t, LerpScalar, 0.0);
      yaw := Lookup(yawBuffer, t, LerpScalar, 0.0);
    }

    /** Position and orientation at `t`; the reported distance is the larger of the two nearest-sample distances. */
    method GetPoseAt(t: real) returns (r: Option<Pose>)
      requires Valid()
      ensures r.Some? <==> Naive(posBuffer, t, LerpVec, MIN_GAP).Some? && Naive(quatBuffer, t, slerp, MIN_GAP).Some?
      ensures r.Some? ==>
        && r.value.pos == Naive(posBuffer, t, LerpVec, MIN_GAP).value.value
        && r.value.orientation == Naive(quatBuffer, t, slerp, MIN_GAP).value.value
        && exists dp, dq :: NearestIs(posBuffer, t, dp) && NearestIs(quatBuffer, t, dq) && r.value.minDiff == Max(dp, dq)
    {
      if posBuffer == [] || quatBuffer == [] {
        return None;
      }
      var p := Lookup(posBuffer, t, LerpVec, 0.000001);
      if p == None {
        return None;
      }
      var q := Lookup(quatBuffer, t, slerp, 0.000001);
      if q == None {
        return None;
      }
      OffIsNearest(posBuffer, t, LerpVec, MIN_GAP);
      OffIsNearest(quatBuffer, t, slerp, MIN_GAP);
      return Some(Pose(p.value.value, q.value.value, Max(p.value.off, q.value.off)));
    }
  }

  // ---------- what a lookup means ----------

  /** `v` divides the way from `a` to `b` as `t` divides the time from `s` to `e`. */
  predicate Divides(v: real, a: real, b: real, t: real, s: real, e: real) {
    (v - a) * (e - s) == (b - a) * (t - s)
  }

  lemma LerpDivides(a: real, b: real, t: real, s: real, e: real, k: real)
    requires e > s && k == (t - s) / (e - s)
    ensures Divides(a + k * (b - a), a, b, t, s, e)
  {
    assert k * (e - s) == t - s;
    assert k * (b - a) * (e - s) == (b - a) * (k * (e - s));
  }

  predicate VecDivides(v: Vec3, a: Sample<Vec3>, b: Sample<Vec3>, t: real) {
    && Divides(v.x, a.value.x, b.value.x, t, a.stamp, b.stamp)
    && Divides(v.y, a.value.y, b.value.y, t, a.stamp, b.stamp)
    && Divides(v.z, a.value.z, b.value.z, t, a.stamp, b.stamp)
  }

  lemma LerpVecDivides(a: Sample<Vec3>, b: Sample<Vec3>, t: real)
    requires b.stamp > a.stamp
    ensures VecDivides(LerpVec(a.value, (t - a.stamp) / (b.stamp - a.stamp), b.value), a, b, t)
  {
    var k := (t - a.stamp) / (b.stamp - a.stamp);
    LerpDivides(a.value.x, b.value.x, t, a.stamp, b.stamp, k);
    LerpDivides(a.value.y, b.value.y, t, a.stamp, b.stamp, k);
    LerpDivides(a.value.z, b.value.z, t, a.stamp, b.stamp, k);
  }

  lemma InsideIsMixed<T>(buf: seq<Sample<T>>, t: real, mix: (T, real, T) -> T, gap: real) returns (k: nat)
    requires Increasing(buf) && buf != [] && buf[0].stamp < t < buf[|buf| - 1].stamp
    ensures 0 < k < |buf| && buf[k - 1].stamp < t <= buf[k].stamp && Naive(buf, t, mix, gap).Some?
    ensures Naive(buf, t, mix, gap).value.value == MixAt(buf, k, t, mix, gap)
  {
    k := FirstNotBefore(buf, t);
    ScanIsFirst(buf, t, 1, k);
  }

  /** Between two samples every coordinate is linear in time: the displacement is to the whole as the elapsed time to the gap. */
  lemma PositionIsLinear(buf: seq<Sample<Vec3>>, t: real) returns (k: nat)
    requires Increasing(buf) && buf != [] && buf[0].stamp < t < buf[|buf| - 1].stamp
    ensures 0 < k < |buf| && buf[k - 1].stamp < t <= buf[k].stamp && Naive(buf, t, LerpVec, MIN_GAP).Some?
    ensures var v := Naive(buf, t, LerpVec, MIN_GAP).value.value;
            if buf[k].stamp - buf[k - 1].stamp < MIN_GAP then v == buf[k - 1].value else VecDivides(v, buf[k - 1], buf[k], t)
  {
    k := InsideIsMixed(buf, t, LerpVec, MIN_GAP);
    LerpVecDivides(buf[k - 1], buf[k], t);
  }

  lemma AngleIsLinear(buf: seq<Sample<real>>, t: real) returns (k: nat)
    requires Increasing(buf) && buf != [] && buf[0].stamp < t < buf[|buf| - 1].stamp
    ensures 0 < k < |buf| && buf[k - 1].stamp < t <= buf[k].stamp && Naive(buf, t, LerpScalar, 0.0).Some?
    ensures Divides(Naive(buf, t, LerpScalar, 0.0).value.value, buf[k - 1].value, buf[k].value, t, buf[k - 1].stamp, buf[k].stamp)
  {
    k := FirstNotBefore(buf, t);
    ScanIsFirst(buf, t, 1, k);
    var a, b := buf[k - 1], buf[k];
    LerpDivides(a.value, b.value, t, a.stamp, b.stamp, (t - a.stamp) / (b.stamp - a.stamp));
  }

  /** Up to the tolerance before the first sample it counts as that one, and after the last as the last. */
  lemma OutsideIsTheEnd<T>(buf: seq<Sample<T>>, t: real, mix: (T, real, T) -> T, gap: real)
    requires Increasing(buf) && buf != []
    ensures var first, last := buf[0], buf[|buf| - 1];
            && (first.stamp - 0.15 <= t <= first.stamp ==> Naive(buf, t, mix, gap) == Some(Found(first.value, first.stamp - t)))
            && (first.stamp < t && last.stamp <= t <= last.stamp + 0.15 ==> Naive(buf, t, mix, gap) == Some(Found(last.value, t - last.stamp)))
  {
  }
}
