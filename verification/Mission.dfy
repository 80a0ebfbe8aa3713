/**
 A way-point mission: which points are dwell points, which stretch of the route goes to the tracker,
 and how the route is flown to its end through any number of interruptions.
 */
module Mission {
  import opened Basics
  import opened Planar

  datatype FinishAction = Hover | Land | Return

  /** An accepted command; the action list of a point is run when its leg begins. */
  datatype SetWaypoint = SetWaypoint(waypoint: seq<Vec3>, dwellIndices: seq<int>, skipLifting: bool,
                                     action: FinishAction, returnEnu: Option<Vec3>,
                                     nodeEvents: Option<seq<seq<string>>>)

  datatype Route = Route(points: seq<Vec3>, dwell: seq<bool>, nodeEvents: Option<seq<seq<string>>>)

  /** There is a point to fly to, and the last one is a dwell point. */
  ghost predicate Ready(r: Route) {
    |r.points| > 0 && |r.dwell| == |r.points| && r.dwell[|r.points| - 1]
  }

  // ---------- dwell points ----------

  function Flat(a: Vec3, b: Vec3): Vec2 {
    Vec2(b.x - a.x, b.y - a.y)
  }

  /** Both legs are longer than 0.1 m, and they differ in direction by more than 60 degrees. */
  predicate SharpTurn(points: seq<Vec3>, i: int) {
    && 1 <= i < |points| - 1
    && var u, v := Flat(points[i - 1], points[i]), Flat(points[i], points[i + 1]);
       u.Sq() > 0.01 && v.Sq() > 0.01 && WiderThanSixty(u, v)
  }

  /** `cos(angle) < 1/2`, without a root. */
  predicate WiderThanSixty(u: Vec2, v: Vec2) {
    u.Dot(v) <= 0.0 || 4.0 * Square(u.Dot(v)) < u.Sq() * v.Sq()
  }

  /**
   What the test means: for a second leg in the direction of the first one turned by an angle with cosine `c`,
   it holds exactly for `c` below one half, whatever the lengths.
   */
  lemma WiderThanSixtyIsAngle(u: Vec2, v: Vec2, c: real, s: real, k: real)
    requires c * c + s * s == 1.0 && k > 0.0 && u != ZERO
    requires v == Vec2(u.x * c - u.y * s, u.x * s + u.y * c).Times(k)
    ensures WiderThanSixty(u, v) <==> c < 0.5
  {
    var n := u.Sq();
    SqOfNonZero(u);
    DotOfTurned(u, v, c, s, k);
    var w := Vec2(u.x * c - u.y * s, u.x * s + u.y * c);
    TurnedSq(u.x, u.y, c, s);
    assert w.Sq() == n;
    TimesSq(w, k);
    CosineTest(k, c, n);
  }

  lemma SqOfNonZero(u: Vec2)
    requires u != ZERO
    ensures u.Sq() > 0.0
  {
    assert Square(u.x) == u.x * u.x && Square(u.y) == u.y * u.y;
  }

  lemma DotOfTurned(u: Vec2, v: Vec2, c: real, s: real, k: real)
    requires v == Vec2(u.x * c - u.y * s, u.x * s + u.y * c).Times(k)
    ensures u.Dot(v) == Times(Times(k, c), u.Sq())
  {
    TurnedProducts(u.x, u.y, c, s, k);
    assert v.x == (u.x * c - u.y * s) * k && v.y == (u.x * s + u.y * c) * k;
  }

  lemma TurnedProducts(x: real, y: real, c: real, s: real, k: real)
    ensures x * ((x * c - y * s) * k) + y * ((x * s + y * c) * k) == Times(Times(k, c), x * x + y * y)
  {
    assert x * ((x * c - y * s) * k) == k * c * (x * x) - k * s * (x * y);
    assert y * ((x * s + y * c) * k) == k * s * (x * y) + k * c * (y * y);
  }

  lemma TurnedSq(x: real, y: real, c: real, s: real)
    requires c * c + s * s == 1.0
    ensures (x * c - y * s) * (x * c - y * s) + (x * s + y * c) * (x * s + y * c) == x * x + y * y
  {
    assert (x * c - y * s) * (x * c - y * s) + (x * s + y * c) * (x * s + y * c) == (x * x + y * y) * (c * c + s * s);
  }

  lemma CosineTest(k: real, c: real, n: real)
    requires k > 0.0 && n > 0.0
    ensures var d := Times(Times(k, c), n); (d <= 0.0 || 4.0 * Square(d) < n * (k * k * n)) <==> c < 0.5
  {
    var d, b := Times(Times(k, c), n), Times(k, n);
    assert b > 0.0 && d == c * b;
    assert n * (k * k * n) == b * b;
    HalfOf(c, b, d);
    if d > 0.0 {
      SquareOrders(2.0 * d, b, 4.0 * Square(d));
    } else {
      assert c > 0.0 ==> Times(c, b) > 0.0;
    }
  }

  lemma LongLeg(v: Vec2, n: real)
    requires IsNorm(v, n)
    ensures n > 0.1 <==> v.Sq() > 0.01
  {
    if n > 0.1 { StrictSquareOrder(0.1, n); } else { SquareOrder(n, 0.1); }
  }

  lemma HalfProduct(d: real, m: real, k: real)
    requires m > 0.0 && k * m == d
    ensures k < 0.5 <==> d <= 0.0 || 4.0 * Square(d) < m * m
  {
    HalfOf(k, m, d);
    if d > 0.0 {
      SquareOrders(2.0 * d, m, 4.0 * Square(d));
    }
  }

  lemma SquareOrders(e: real, m: real, s: real)
    requires e > 0.0 && m > 0.0 && s == e * e
    ensures e < m <==> s < m * m
  {
    if e < m {
      StrictSquareOrder(e, m);
    } else {
      SquareOrder(m, e);
    }
  }

  lemma HalfOf(k: real, m: real, d: real)
    requires m > 0.0 && k * m == d
    ensures k < 0.5 <==> 2.0 * d < m
  {
    if k < 0.5 {
      assert Times(0.5 - k, m) == 0.5 * m - d;
    } else {
      assert Times(k - 0.5, m) == d - 0.5 * m;
    }
  }

  lemma CosineOfTurn(u: Vec2, p: real, v: Vec2, q: real)
    requires IsNorm(u, p) && IsNorm(v, q) && p > 0.0 && q > 0.0
    ensures p * q > 0.0 && (u.Dot(v) / (p * q) < 0.5 <==> WiderThanSixty(u, v))
  {
    HalfProduct(u.Dot(v), p * q, u.Dot(v) / (p * q));
    assert (p * q) * (p * q) == (p * p) * (q * q);
  }

  // ---------- the stretch that goes to the tracker ----------

  /** The first dwell point at or after `i`. */
  function FirstDwell(r: Route, i: nat): (d: nat)
    requires |r.dwell| == |r.points| && i < |r.points| && r.dwell[|r.points| - 1]
    ensures i <= d < |r.points| && r.dwell[d]
    decreases |r.points| - i
  {
    if r.dwell[i] then i else FirstDwell(r, i + 1)
  }

  lemma {:induction false} NoDwellBefore(r: Route, i: nat, k: nat)
    requires Ready(r) && i <= k < |r.points| && k < FirstDwell(r, i)
    ensures !r.dwell[k]
    decreases |r.points| - i
  {
    if i < k { NoDwellBefore(r, i + 1, k); }
  }

  function Slice(r: Route, i: int): seq<Vec3>
    requires |r.dwell| == |r.points| && |r.points| > 0 && r.dwell[|r.points| - 1]
  {
    if 0 <= i < |r.points| then r.points[i..FirstDwell(r, i) + 1] else []
  }

  lemma FirstDwellUnique(r: Route, i: nat, d: nat)
    requires Ready(r) && i <= d < |r.points| && r.dwell[d] && forall k :: i <= k < d ==> !r.dwell[k]
    ensures FirstDwell(r, i) == d
  {
    if d < FirstDwell(r, i) { NoDwellBefore(r, i, d); }
  }

  /** After a point that is flown through, the next path is the rest of the one before. */
  lemma NextPathIsTail(r: Route, i: nat)
    requires Ready(r) && i < |r.points| && !r.dwell[i]
    ensures i + 1 < |r.points| && Slice(r, i + 1) == Slice(r, i)[1..]
  {
  }

  /** The stretches from dwell point to dwell point. */
  function Stretches(r: Route, i: nat): seq<seq<Vec3>>
    requires |r.dwell| == |r.points| && |r.points| > 0 && r.dwell[|r.points| - 1]
    decreases |r.points| - i
  {
    if i >= |r.points| then [] else [Slice(r, i)] + Stretches(r, FirstDwell(r, i) + 1)
  }

  function Concatenated(paths: seq<seq<Vec3>>): seq<Vec3> {
    if paths == [] then [] else paths[0] + Concatenated(paths[1..])
  }

  lemma OneMorePath(path: seq<Vec3>, paths: seq<seq<Vec3>>)
    ensures Concatenated([path] + paths) == path + Concatenated(paths)
  {
    assert ([path] + paths)[1..] == paths;
  }

  lemma Cut(points: seq<Vec3>, i: nat, d: nat)
    requires i <= d <= |points|
    ensures points[i..] == points[i..d] + points[d..]
  {
  }

  lemma JoinRoute(points: seq<Vec3>, i: nat, d: nat, first: seq<Vec3>, rest: seq<seq<Vec3>>)
    requires i <= d < |points| && first == points[i..d + 1] && Concatenated(rest) == points[d + 1..]
    ensures Concatenated([first] + rest) == points[i..]
  {
    OneMorePath(first, rest);
    Cut(points, i, d + 1);
  }

  lemma {:induction false} StretchesAreTheRoute(r: Route, i: nat)
    requires Ready(r) && i <= |r.points|
    ensures Concatenated(Stretches(r, i)) == r.points[i..]
    decreases |r.points| - i
  {
    if i < |r.points| {
      var d := FirstDwell(r, i);
      StretchesAreTheRoute(r, d + 1);
      JoinRoute(r.points, i, d, Slice(r, i), Stretches(r, d + 1));
    }
  }

  // ---------- the mission as a machine ----------

  /** `Away` is a follow or a single-point move on top of the live mission; `Broken` an exception. */
  datatype Phase = Lifting | Executing | Away | Finished | Broken

  datatype Progress = Progress(arrived: int, total: int)

  /** The logs: where legs began, what the tracker was sent, what was dispatched. */
  datatype State = State(idx: int, phase: Phase, visits: seq<int>, paths: seq<seq<Vec3>>,
                         progress: seq<Progress>, done: nat)

  datatype Tolerance = Tolerance(dwell: real, pass: real)

  datatype Action =
    | Tick(odomOk: bool, distance: real)
    | Lifted
    | Interrupt
    | Resume

  const START: State := State(0, Lifting, [], [], [], 0)

  /** The tolerance depends on the point that is flown to. */
  predicate Arrives(r: Route, tol: Tolerance, idx: int, odomOk: bool, distance: real) {
    odomOk && distance < (if 0 <= idx < |r.dwell| && r.dwell[idx] then tol.dwell else tol.pass)
  }

  predicate HasNode(r: Route, idx: int) {
    r.nodeEvents.None? || 0 <= idx < |r.nodeEvents.value|
  }

  function EnterLifting(r: Route, s: State): State {
    s.(phase := if 0 <= s.idx < |r.points| then Lifting else Broken)
  }

  function EnterExecute(r: Route, s: State): State
    requires |r.dwell| == |r.points| && |r.points| > 0 && r.dwell[|r.points| - 1]
  {
    if 0 <= s.idx < |r.points| then
      s.(phase := if HasNode(r, s.idx) then Executing else Broken,
         visits := s.visits + [s.idx], paths := s.paths + [Slice(r, s.idx)])
    else s.(phase := Broken)
  }

  function Arrive(r: Route, s: State): State
    requires |r.dwell| == |r.points| && |r.points| > 0 && r.dwell[|r.points| - 1]
  {
    var t := Counting(r, s);
    if t.idx >= |r.points| then t.(done := t.done + 1, phase := Finished)
    else if 0 <= t.idx - 1 && r.dwell[t.idx - 1] then EnterLifting(r, t)
    else EnterExecute(r, t)
  }

  /** An action that is not possible changes nothing. */
  function Step(r: Route, tol: Tolerance, s: State, a: Action): State
    requires |r.dwell| == |r.points| && |r.points| > 0 && r.dwell[|r.points| - 1]
  {
    match a
    case Tick(odomOk, distance) =>
      if s.phase == Executing && Arrives(r, tol, s.idx, odomOk, distance) then Arrive(r, s) else s
    case Lifted => if s.phase == Lifting then EnterExecute(r, s) else s
    case Interrupt => if s.phase == Lifting || s.phase == Executing then s.(phase := Away) else s
    case Resume => if s.phase == Away then EnterLifting(r, s) else s
  }

  function Run(r: Route, tol: Tolerance, s: State, run: seq<Action>): State
    requires |r.dwell| == |r.points| && |r.points| > 0 && r.dwell[|r.points| - 1]
    decreases |run|
  {
    if run == [] then s else Run(r, tol, Step(r, tol, s, run[0]), run[1..])
  }

  // ---------- what every run keeps ----------

  ghost predicate Flying(p: Phase) {
    p == Lifting || p == Executing || p == Away
  }

  /** Exactly 1, 2, ..., k, each with the number of points. */
  ghost predicate Counted(progress: seq<Progress>, k: int, n: int) {
    |progress| == k && forall j :: 0 <= j < k ==> progress[j] == Progress(j + 1, n)
  }

  /** The legs begin in order: each at the point of the one before, or at the next. */
  ghost predicate InOrder(visits: seq<int>) {
    && (visits != [] ==> visits[0] == 0)
    && forall k :: 0 < k < |visits| ==> Follows(visits, k)
  }

  predicate Follows(visits: seq<int>, k: nat)
    requires 0 < k < |visits|
  {
    visits[k] == visits[k - 1] || visits[k] == visits[k - 1] + 1
  }

  ghost predicate Sent(r: Route, visits: seq<int>, paths: seq<seq<Vec3>>)
    requires |r.dwell| == |r.points| && |r.points| > 0 && r.dwell[|r.points| - 1]
  {
    |paths| == |visits| && forall k :: 0 <= k < |visits| ==> SentAt(r, visits[k], paths[k])
  }

  ghost predicate SentAt(r: Route, i: int, path: seq<Vec3>)
    requires |r.dwell| == |r.points| && |r.points| > 0 && r.dwell[|r.points| - 1]
  {
    0 <= i < |r.points| && path == Slice(r, i)
  }

  ghost predicate Frontier(s: State) {
    if s.visits == [] then s.idx == 0 && (s.phase == Lifting || s.phase == Away)
    else
      var last := s.visits[|s.visits| - 1];
      (last == s.idx || last == s.idx - 1) && (s.phase == Executing || s.phase == Broken ==> last == s.idx)
  }

  ghost predicate Sound(r: Route, s: State)
    requires |r.dwell| == |r.points| && |r.points| > 0 && r.dwell[|r.points| - 1]
  {
    && 0 <= s.idx <= |r.points|
    && (s.phase == Finished <==> s.idx == |r.points|)
    && s.done == (if s.phase == Finished then 1 else 0)
    && Counted(s.progress, s.idx, |r.points|)
    && InOrder(s.visits) && Sent(r, s.visits, s.paths) && Frontier(s)
    && (s.phase == Executing ==> HasNode(r, s.idx))
    && (s.phase == Broken ==> !HasNode(r, s.idx))
  }

  lemma OrderGrows(visits: seq<int>, i: int)
    requires InOrder(visits)
    requires if visits == [] then i == 0 else visits[|visits| - 1] == i || visits[|visits| - 1] == i - 1
    ensures InOrder(visits + [i])
  {
    var t := visits + [i];
    assert forall k :: 0 <= k < |visits| ==> t[k] == visits[k];
    assert forall k :: 0 < k < |visits| ==> (Follows(t, k) <==> Follows(visits, k));
    assert |visits| > 0 ==> Follows(t, |visits|);
  }

  lemma SentGrows(r: Route, visits: seq<int>, paths: seq<seq<Vec3>>, i: int, path: seq<Vec3>)
    requires Ready(r) && Sent(r, visits, paths) && SentAt(r, i, path)
    ensures Sent(r, visits + [i], paths + [path])
  {
    var v, p := visits + [i], paths + [path];
    assert forall k :: 0 <= k < |visits| ==> v[k] == visits[k] && p[k] == paths[k];
  }

  lemma ExecuteKeeps(r: Route, s: State)
    requires Ready(r) && 0 <= s.idx < |r.points|
    requires InOrder(s.visits) && Sent(r, s.visits, s.paths)
    requires if s.visits == [] then s.idx == 0 else s.visits[|s.visits| - 1] == s.idx || s.visits[|s.visits| - 1] == s.idx - 1
    ensures var t := EnterExecute(r, s); InOrder(t.visits) && Sent(r, t.visits, t.paths) && Frontier(t)
  {
    OrderGrows(s.visits, s.idx);
    SentGrows(r, s.visits, s.paths, s.idx, Slice(r, s.idx));
  }

  lemma CountOne(progress: seq<Progress>, k: int, n: int)
    requires Counted(progress, k, n)
    ensures Counted(progress + [Progress(k + 1, n)], k + 1, n)
  {
  }

  /** The state between the count and the next leg. */
  function Counting(r: Route, s: State): State {
    s.(idx := s.idx + 1, progress := s.progress + [Progress(s.idx + 1, |r.points|)])
  }

  lemma CountingKeeps(r: Route, s: State)
    requires Ready(r) && Sound(r, s) && s.phase == Executing
    ensures var t := Counting(r, s);
            Counted(t.progress, t.idx, |r.points|) && t.visits != [] && t.visits[|t.visits| - 1] == t.idx - 1
  {
    CountOne(s.progress, s.idx, |r.points|);
  }

  lemma LegKeeps(r: Route, t: State)
    requires Ready(r) && 0 < t.idx < |r.points| && t.done == 0 && Counted(t.progress, t.idx, |r.points|)
    requires InOrder(t.visits) && Sent(r, t.visits, t.paths)
    requires t.visits != [] && t.visits[|t.visits| - 1] == t.idx - 1
    ensures Sound(r, EnterExecute(r, t))
  {
    ExecuteKeeps(r, t);
  }

  lemma NoLegKeeps(r: Route, t: State)
    requires Ready(r) && 0 < t.idx <= |r.points| && t.done == 0 && Counted(t.progress, t.idx, |r.points|)
    requires InOrder(t.visits) && Sent(r, t.visits, t.paths)
    requires t.visits != [] && t.visits[|t.visits| - 1] == t.idx - 1
    ensures t.idx < |r.points| ==> Sound(r, EnterLifting(r, t))
    ensures t.idx == |r.points| ==> Sound(r, t.(done := t.done + 1, phase := Finished))
  {
  }

  lemma ArriveKeeps(r: Route, s: State)
    requires Ready(r) && Sound(r, s) && s.phase == Executing
    ensures Sound(r, Arrive(r, s))
  {
    CountingKeeps(r, s);
    var t := Counting(r, s);
    NoLegKeeps(r, t);
    if t.idx < |r.points| {
      LegKeeps(r, t);
    }
    assert Arrive(r, s) == if t.idx >= |r.points| then t.(done := t.done + 1, phase := Finished)
      else if r.dwell[t.idx - 1] then EnterLifting(r, t) else EnterExecute(r, t);
  }

  lemma PhaseKeeps(r: Route, s: State, phase: Phase)
    requires Ready(r) && Sound(r, s) && Flying(s.phase) && (phase == Lifting || phase == Away)
    ensures Sound(r, s.(phase := phase))
  {
  }

  lemma LiftedKeeps(r: Route, s: State)
    requires Ready(r) && Sound(r, s) && s.phase == Lifting
    ensures Sound(r, EnterExecute(r, s))
  {
    ExecuteKeeps(r, s);
  }

  lemma StepKeeps(r: Route, tol: Tolerance, s: State, a: Action)
    requires Ready(r) && Sound(r, s)
    ensures Sound(r, Step(r, tol, s, a))
  {
    match a
    case Tick(odomOk, distance) =>
      if s.phase == Executing && Arrives(r, tol, s.idx, odomOk, distance) { ArriveKeeps(r, s); }
    case Lifted => if s.phase == Lifting { LiftedKeeps(r, s); }
    case Interrupt => if s.phase == Lifting || s.phase == Executing { PhaseKeeps(r, s, Away); }
    case Resume => if s.phase == Away { PhaseKeeps(r, s, Lifting); }
  }

  lemma {:induction false} RunKeeps(r: Route, tol: Tolerance, s: State, run: seq<Action>)
    requires Ready(r) && Sound(r, s)
    ensures Sound(r, Run(r, tol, s, run))
    decreases |run|
  {
    if run != [] {
      StepKeeps(r, tol, s, run[0]);
      RunKeeps(r, tol, Step(r, tol, s, run[0]), run[1..]);
    }
  }

  /**
   Whatever happens: the index is in bounds while the mission lives; exactly the points 1 to k are
   reported, in order; the end is dispatched once, and only when k is all of them; and the tracker
   only ever gets the route from the current point to the next dwell point.
   */
  lemma EveryRunSound(r: Route, tol: Tolerance, run: seq<Action>)
    requires Ready(r)
    ensures var s := Run(r, tol, START, run);
            && (Flying(s.phase) ==> 0 <= s.idx < |r.points|)
            && Counted(s.progress, s.idx, |r.points|)
            && s.done <= 1 && (s.done == 1 <==> s.idx == |r.points|)
            && InOrder(s.visits) && Sent(r, s.visits, s.paths)
  {
    RunKeeps(r, tol, START, run);
  }

  /** The index moves only on an arrival, and by one: the points that are left are a measure. */
  lemma IndexMovesOnArrival(r: Route, tol: Tolerance, s: State, a: Action)
    requires Ready(r) && Sound(r, s)
    ensures s.phase == Executing ==> 0 <= s.idx < |r.dwell|
    ensures Step(r, tol, s, a).idx == s.idx +
      (if s.phase == Executing && a.Tick? && a.odomOk &&
          ((r.dwell[s.idx] && a.distance < tol.dwell) || (!r.dwell[s.idx] && a.distance < tol.pass)) then 1 else 0)
    ensures |r.points| - Step(r, tol, s, a).idx >= 0
  {
  }

  /** What an arrival leads to: the end after the last point, a lifting after any other dwell point, else the next leg. */
  lemma ArrivalLeadsOn(r: Route, tol: Tolerance, s: State, a: Action)
    requires Ready(r) && Sound(r, s) && s.phase == Executing && Step(r, tol, s, a).idx == s.idx + 1
    ensures var t := Step(r, tol, s, a);
            && t.progress == s.progress + [Progress(s.idx + 1, |r.points|)]
            && (s.idx + 1 == |r.points| ==> t.phase == Finished && t.done == s.done + 1 && t.paths == s.paths)
            && (s.idx + 1 < |r.points| && r.dwell[s.idx] ==> t.phase == Lifting && t.done == s.done && t.paths == s.paths)
            && (s.idx + 1 < |r.points| && !r.dwell[s.idx] ==>
                 (t.phase == Executing || t.phase == Broken) && t.done == s.done && t.paths == s.paths + [Slice(r, s.idx + 1)])
  {
  }

  /** Step `k` of the run reports point `j`, from near enough: nearer to a dwell point than to one that is flown through. */
  ghost predicate ReportedAt(r: Route, tol: Tolerance, run: seq<Action>, k: int, j: int)
    requires |r.dwell| == |r.points| && |r.points| > 0 && r.dwell[|r.points| - 1]
  {
    && 0 <= k < |run| && 0 <= j < |r.points| && run[k].Tick? && run[k].odomOk
    && (if r.dwell[j] then run[k].distance < tol.dwell else run[k].distance < tol.pass)
    && Run(r, tol, START, run[..k]).idx == j && Run(r, tol, START, run[..k + 1]).idx == j + 1
  }

  lemma LastStep(r: Route, tol: Tolerance, run: seq<Action>)
    requires Ready(r) && run != []
    ensures var n := |run| - 1; Run(r, tol, START, run) == Step(r, tol, Run(r, tol, START, run[..n]), run[n])
  {
    var n := |run| - 1;
    var s := Run(r, tol, START, run[..n]);
    RunAppend(r, tol, START, run[..n], [run[n]]);
    assert run == run[..n] + [run[n]];
    assert Run(r, tol, s, [run[n]]) == Run(r, tol, Step(r, tol, s, run[n]), []);
  }

  /** Over every run, every point that has been reported was reported on a tick with odometry and within its own tolerance. */
  lemma {:induction false} ReportedFromNear(r: Route, tol: Tolerance, run: seq<Action>, j: int)
    requires Ready(r) && 0 <= j < Run(r, tol, START, run).idx
    ensures exists k :: ReportedAt(r, tol, run, k, j)
    decreases |run|
  {
    assert run != [];
    var n := |run| - 1;
    if j < Run(r, tol, START, run[..n]).idx {
      ReportedFromNear(r, tol, run[..n], j);
      var k :| ReportedAt(r, tol, run[..n], k, j);
      assert run[..n][..k] == run[..k] && run[..n][..k + 1] == run[..k + 1];
      assert ReportedAt(r, tol, run, k, j);
    } else {
      ReportedLast(r, tol, run, j);
    }
  }

  lemma ReportedLast(r: Route, tol: Tolerance, run: seq<Action>, j: int)
    requires Ready(r) && run != [] && Run(r, tol, START, run[..|run| - 1]).idx <= j < Run(r, tol, START, run).idx
    ensures ReportedAt(r, tol, run, |run| - 1, j)
  {
    var n := |run| - 1;
    var s := Run(r, tol, START, run[..n]);
    LastStep(r, tol, run);
    RunKeeps(r, tol, START, run[..n]);
    StepReports(r, tol, s, run[n], j);
    assert run[..n + 1] == run;
  }

  lemma StepReports(r: Route, tol: Tolerance, s: State, a: Action, j: int)
    requires Ready(r) && Sound(r, s) && s.idx <= j < Step(r, tol, s, a).idx
    ensures 0 <= j < |r.points| && a.Tick? && a.odomOk && s.idx == j && Step(r, tol, s, a).idx == j + 1
    ensures if r.dwell[j] then a.distance < tol.dwell else a.distance < tol.pass
  {
    IndexMovesOnArrival(r, tol, s, a);
  }

  lemma {:induction false} LegsCoverPrefix(visits: seq<int>, i: int)
    requires InOrder(visits) && visits != [] && 0 <= i <= visits[|visits| - 1]
    ensures i in visits
    decreases |visits|
  {
    var n := |visits| - 1;
    if i != visits[n] && n > 0 {
      assert Follows(visits, n);
      assert forall k :: 0 < k < n ==> (Follows(visits[..n], k) <==> Follows(visits, k));
      LegsCoverPrefix(visits[..n], i);
    }
  }

  /** A finished mission has begun a leg to every point. */
  lemma FinishedVisitsAll(r: Route, tol: Tolerance, run: seq<Action>, i: nat)
    requires Ready(r) && Run(r, tol, START, run).phase == Finished && i < |r.points|
    ensures i in Run(r, tol, START, run).visits
  {
    RunKeeps(r, tol, START, run);
    LegsCoverPrefix(Run(r, tol, START, run).visits, i);
  }

  // ---------- interruptions ----------

  ghost predicate StaysAway(run: seq<Action>) {
    forall i :: 0 <= i < |run| ==> run[i] != Resume
  }

  lemma {:induction false} AwayKeeps(r: Route, tol: Tolerance, s: State, run: seq<Action>)
    requires Ready(r) && s.phase == Away && StaysAway(run)
    ensures Run(r, tol, s, run) == s
    decreases |run|
  {
    if run != [] {
      assert run[0] != Resume;
      AwayKeeps(r, tol, s, run[1..]);
    }
  }

  lemma {:induction false} RunAppend(r: Route, tol: Tolerance, s: State, a: seq<Action>, b: seq<Action>)
    requires Ready(r)
    ensures Run(r, tol, s, a + b) == Run(r, tol, Run(r, tol, s, a), b)
    decreases |a|
  {
    if a == [] {
      assert a + b == b;
    } else {
      assert (a + b)[1..] == a[1..] + b;
      RunAppend(r, tol, Step(r, tol, s, a[0]), a[1..], b);
    }
  }

  /** However long the interruption, it changes nothing but the phase; what follows is another lifting and the leg again. */
  lemma InterruptionKeepsProgress(r: Route, tol: Tolerance, s: State, away: seq<Action>)
    requires Ready(r) && Sound(r, s) && (s.phase == Lifting || s.phase == Executing) && StaysAway(away)
    ensures Run(r, tol, s, [Interrupt] + away + [Resume]) == s.(phase := Lifting)
  {
    var out := s.(phase := Away);
    assert [Interrupt] + away + [Resume] == [Interrupt] + (away + [Resume]);
    assert ([Interrupt] + (away + [Resume]))[1..] == away + [Resume];
    RunAppend(r, tol, out, away, [Resume]);
    AwayKeeps(r, tol, out, away);
    assert Run(r, tol, out, [Resume]) == Run(r, tol, Step(r, tol, out, Resume), []);
  }

  function CountOf(visits: seq<int>, i: int): nat {
    if visits == [] then 0 else CountOf(visits[..|visits| - 1], i) + if visits[|visits| - 1] == i then 1 else 0
  }

  /** How often the action list of point `i` has been dispatched: once for each leg to it that did not break. */
  function Dispatches(s: State, i: int): int {
    CountOf(s.visits, i) - if s.phase == Broken && s.idx == i then 1 else 0
  }

  /** How often a run interrupts the leg to point `i`; interruptions while lifting do not count. */
  function CutShort(r: Route, tol: Tolerance, s: State, run: seq<Action>, i: int): nat
    requires |r.dwell| == |r.points| && |r.points| > 0 && r.dwell[|r.points| - 1]
    decreases |run|
  {
    if run == [] then 0
    else (if run[0] == Interrupt && s.phase == Executing && s.idx == i then 1 else 0)
         + CutShort(r, tol, Step(r, tol, s, run[0]), run[1..], i)
  }

  /** 1 for a point that has been reached or is being flown to. */
  function Served(s: State, i: int): int {
    if i < s.idx || (i == s.idx && s.phase == Executing) then 1 else 0
  }

  lemma CountOneMore(visits: seq<int>, j: int, i: int)
    ensures CountOf(visits + [j], i) == CountOf(visits, i) + if j == i then 1 else 0
  {
    assert (visits + [j])[..|visits|] == visits;
  }

  lemma ExecuteDispatches(r: Route, s: State, i: int)
    requires Ready(r) && 0 <= s.idx < |r.points| && (s.phase == Lifting || s.phase == Executing)
    ensures var t := EnterExecute(r, s);
            t.idx == s.idx && t.phase != Away && t.phase != Lifting &&
            Dispatches(t, i) == CountOf(s.visits, i) + if t.phase == Executing && s.idx == i then 1 else 0
  {
    CountOneMore(s.visits, s.idx, i);
  }

  lemma SameDispatches(s: State, t: State, i: int)
    requires s.phase == Executing && t.visits == s.visits && t.idx == s.idx + 1 && (t.phase == Lifting || t.phase == Finished)
    ensures Dispatches(t, i) - Served(t, i) == Dispatches(s, i) - Served(s, i)
  {
  }

  lemma NextLegDispatches(r: Route, s: State, t: State, i: int)
    requires Ready(r) && s.phase == Executing && t == Counting(r, s) && 0 <= t.idx < |r.points|
    ensures var n := EnterExecute(r, t); Dispatches(n, i) - Served(n, i) == Dispatches(s, i) - Served(s, i)
  {
    ExecuteDispatches(r, t, i);
  }

  lemma ArriveDispatches(r: Route, s: State, i: int)
    requires Ready(r) && Sound(r, s) && s.phase == Executing && i >= 0
    ensures var t := Arrive(r, s); Dispatches(t, i) - Served(t, i) == Dispatches(s, i) - Served(s, i)
  {
    var t := Counting(r, s);
    if t.idx < |r.points| && !r.dwell[t.idx - 1] {
      NextLegDispatches(r, s, t, i);
      assert Arrive(r, s) == EnterExecute(r, t);
    } else {
      SameDispatches(s, Arrive(r, s), i);
    }
  }

  lemma StepDispatches(r: Route, tol: Tolerance, s: State, a: Action, i: int)
    requires Ready(r) && Sound(r, s) && i >= 0
    ensures var t := Step(r, tol, s, a);
            Dispatches(t, i) - Served(t, i) ==
              Dispatches(s, i) - Served(s, i) + if a == Interrupt && s.phase == Executing && s.idx == i then 1 else 0
  {
    match a
    case Tick(odomOk, distance) =>
      if s.phase == Executing && Arrives(r, tol, s.idx, odomOk, distance) { ArriveDispatches(r, s, i); }
    case Lifted => if s.phase == Lifting { ExecuteDispatches(r, s, i); }
    case Interrupt =>
    case Resume =>
  }

  lemma {:induction false} RunDispatches(r: Route, tol: Tolerance, s: State, run: seq<Action>, i: int)
    requires Ready(r) && Sound(r, s) && i >= 0
    ensures var t := Run(r, tol, s, run);
            Dispatches(t, i) - Served(t, i) == Dispatches(s, i) - Served(s, i) + CutShort(r, tol, s, run, i)
    decreases |run|
  {
    if run != [] {
      StepDispatches(r, tol, s, run[0], i);
      StepKeeps(r, tol, s, run[0]);
      RunDispatches(r, tol, Step(r, tol, s, run[0]), run[1..], i);
    }
  }

  /** A point's actions are dispatched once, and once more for each time its leg was interrupted. */
  lemma DispatchesExactly(r: Route, tol: Tolerance, run: seq<Action>, i: int)
    requires Ready(r) && i >= 0
    ensures var s := Run(r, tol, START, run); Dispatches(s, i) == Served(s, i) + CutShort(r, tol, START, run, i)
  {
    RunDispatches(r, tol, START, run, i);
  }

  // ---------- what an uninterrupted mission has sent ----------

  ghost predicate Uninterrupted(run: seq<Action>) {
    forall i :: 0 <= i < |run| ==> run[i] != Interrupt
  }

  /** Legs to the points one after the other, up to the present one. */
  ghost predicate OneLegEach(s: State) {
    && s.phase != Away
    && |s.visits| == s.idx + (if s.phase == Executing || s.phase == Broken then 1 else 0)
    && forall k :: 0 <= k < |s.visits| ==> s.visits[k] == k
  }

  lemma ExecuteKeepsLegs(r: Route, s: State)
    requires Ready(r) && 0 <= s.idx < |r.points| && |s.visits| == s.idx
    requires forall k :: 0 <= k < |s.visits| ==> s.visits[k] == k
    ensures OneLegEach(EnterExecute(r, s))
  {
  }

  lemma UninterruptedStep(r: Route, tol: Tolerance, s: State, a: Action)
    requires Ready(r) && Sound(r, s) && OneLegEach(s) && a != Interrupt
    ensures OneLegEach(Step(r, tol, s, a))
  {
    match a
    case Tick(odomOk, distance) =>
      if s.phase == Executing && s.idx + 1 < |r.points| { ExecuteKeepsLegs(r, Counting(r, s)); }
    case Lifted => if s.phase == Lifting { ExecuteKeepsLegs(r, s); }
    case Resume =>
  }

  lemma {:induction false} UninterruptedLegs(r: Route, tol: Tolerance, s: State, run: seq<Action>)
    requires Ready(r) && Sound(r, s) && OneLegEach(s) && Uninterrupted(run)
    ensures OneLegEach(Run(r, tol, s, run))
    decreases |run|
  {
    if run != [] {
      assert run[0] != Interrupt;
      assert forall i :: 0 <= i < |run| - 1 ==> run[1..][i] == run[i + 1];
      UninterruptedStep(r, tol, s, run[0]);
      StepKeeps(r, tol, s, run[0]);
      UninterruptedLegs(r, tol, Step(r, tol, s, run[0]), run[1..]);
    }
  }

  /** The first leg, and the legs after a dwell point. */
  predicate StartsStretch(r: Route, i: int) {
    i == 0 || (0 < i <= |r.dwell| && r.dwell[i - 1])
  }

  /** The paths that were sent when a stretch began. */
  function FromDwell(r: Route, visits: seq<int>, paths: seq<seq<Vec3>>): seq<seq<Vec3>>
    requires |visits| == |paths|
  {
    if visits == [] then []
    else (if StartsStretch(r, visits[0]) then [paths[0]] else []) + FromDwell(r, visits[1..], paths[1..])
  }

  /** One leg to each point from `i` on. */
  ghost predicate LegsFrom(r: Route, visits: seq<int>, paths: seq<seq<Vec3>>, i: nat)
    requires |r.dwell| == |r.points| && |r.points| > 0 && r.dwell[|r.points| - 1]
  {
    && i <= |r.points| && |visits| == |paths| == |r.points| - i
    && forall k :: 0 <= k < |visits| ==> LegAt(r, visits[k], paths[k], i + k)
  }

  ghost predicate LegAt(r: Route, visit: int, path: seq<Vec3>, j: nat)
    requires |r.dwell| == |r.points| && |r.points| > 0 && r.dwell[|r.points| - 1]
  {
    visit == j && path == Slice(r, j)
  }

  lemma LegsTail(r: Route, visits: seq<int>, paths: seq<seq<Vec3>>, i: nat)
    requires Ready(r) && i < |r.points| && LegsFrom(r, visits, paths, i)
    ensures visits != [] && LegsFrom(r, visits[1..], paths[1..], i + 1)
  {
    forall k | 0 <= k < |visits| - 1 ensures LegAt(r, visits[1..][k], paths[1..][k], i + 1 + k) {
      assert LegAt(r, visits[k + 1], paths[k + 1], i + (k + 1));
    }
  }

  /** The stretches that begin at `i` or after it. */
  function StretchesFrom(r: Route, i: nat): seq<seq<Vec3>>
    requires |r.dwell| == |r.points| && |r.points| > 0 && r.dwell[|r.points| - 1] && i <= |r.points|
  {
    if i == |r.points| || StartsStretch(r, i) then Stretches(r, i) else Stretches(r, FirstDwell(r, i) + 1)
  }

  lemma StretchesFromNext(r: Route, i: nat)
    requires Ready(r) && i < |r.points|
    ensures StretchesFrom(r, i + 1) == Stretches(r, FirstDwell(r, i) + 1)
  {
  }

  lemma StretchesFromHere(r: Route, i: nat)
    requires Ready(r) && i < |r.points|
    ensures StartsStretch(r, i) ==> StretchesFrom(r, i) == [Slice(r, i)] + Stretches(r, FirstDwell(r, i) + 1)
    ensures !StartsStretch(r, i) ==> StretchesFrom(r, i) == Stretches(r, FirstDwell(r, i) + 1)
  {
  }

  lemma {:induction false} LegsAreStretches(r: Route, visits: seq<int>, paths: seq<seq<Vec3>>, i: nat)
    requires Ready(r) && LegsFrom(r, visits, paths, i)
    ensures FromDwell(r, visits, paths) == StretchesFrom(r, i)
    decreases |r.points| - i
  {
    if i < |r.points| {
      LegsTail(r, visits, paths, i);
      assert LegAt(r, visits[0], paths[0], i + 0);
      LegsAreStretches(r, visits[1..], paths[1..], i + 1);
      StretchesFromNext(r, i);
      StretchesFromHere(r, i);
    }
  }

  /** The paths that an uninterrupted, finished mission sent from dwell point to dwell point are the route. */
  lemma SentPathsAreTheRoute(r: Route, tol: Tolerance, run: seq<Action>)
    requires Ready(r) && Uninterrupted(run) && Run(r, tol, START, run).phase == Finished
    ensures var s := Run(r, tol, START, run);
            |s.visits| == |s.paths| && Concatenated(FromDwell(r, s.visits, s.paths)) == r.points
  {
    var s := Run(r, tol, START, run);
    RunKeeps(r, tol, START, run);
    UninterruptedLegs(r, tol, START, run);
    forall k | 0 <= k < |s.visits| ensures LegAt(r, s.visits[k], s.paths[k], 0 + k) {
      assert SentAt(r, s.visits[k], s.paths[k]);
    }
    LegsAreStretches(r, s.visits, s.paths, 0);
    StretchesAreTheRoute(r, 0);
    assert r.points[0..] == r.points;
  }

  // ---------- when a mission can be finished ----------

  /** Lift, arrive, lift, arrive: the flight without interruptions. */
  function Straight(k: nat): seq<Action> {
    if k == 0 then [Lifted] else Straight(k - 1) + [Tick(true, 0.0), Lifted]
  }

  lemma {:induction false} StraightReaches(r: Route, tol: Tolerance, k: nat)
    requires Ready(r) && tol.dwell > 0.0 && tol.pass > 0.0
    requires k <= |r.points| && forall i :: 0 <= i < k ==> HasNode(r, i)
    ensures var s := Run(r, tol, START, Straight(k));
            s.idx == k && s.phase == (if k == |r.points| then Finished else if HasNode(r, k) then Executing else Broken)
  {
    if k == 0 {
      assert Run(r, tol, START, [Lifted]) == Run(r, tol, Step(r, tol, START, Lifted), []);
    } else {
      StraightReaches(r, tol, k - 1);
      var s := Run(r, tol, START, Straight(k - 1));
      RunAppend(r, tol, START, Straight(k - 1), [Tick(true, 0.0), Lifted]);
      var t := Step(r, tol, s, Tick(true, 0.0));
      var u := Step(r, tol, t, Lifted);
      assert Run(r, tol, t, [Lifted]) == Run(r, tol, u, []) == u;
      assert [Tick(true, 0.0), Lifted][1..] == [Lifted];
      assert Run(r, tol, s, [Tick(true, 0.0), Lifted]) == Run(r, tol, t, [Lifted]);
      assert HasNode(r, k - 1);
    }
  }

  ghost predicate Completes(r: Route, tol: Tolerance)
    requires |r.dwell| == |r.points| && |r.points| > 0 && r.dwell[|r.points| - 1]
  {
    exists run :: Run(r, tol, START, run).phase == Finished
  }

  ghost predicate Breaks(r: Route, tol: Tolerance)
    requires |r.dwell| == |r.points| && |r.points| > 0 && r.dwell[|r.points| - 1]
  {
    exists run :: Run(r, tol, START, run).phase == Broken
  }

  ghost predicate EnoughNodes(r: Route) {
    r.nodeEvents.None? || |r.nodeEvents.value| >= |r.points|
  }

  /** An action list that is shorter than the route, return point included, breaks it; nothing else does. */
  lemma BreaksExactly(r: Route, tol: Tolerance)
    requires Ready(r) && tol.dwell > 0.0 && tol.pass > 0.0
    ensures Completes(r, tol) <==> EnoughNodes(r)
    ensures Breaks(r, tol) <==> !EnoughNodes(r)
  {
    if EnoughNodes(r) {
      StraightReaches(r, tol, |r.points|);
      forall run ensures Run(r, tol, START, run).phase != Broken {
        RunKeeps(r, tol, START, run);
      }
    } else {
      StraightReaches(r, tol, |r.nodeEvents.value|);
      forall run ensures Run(r, tol, START, run).phase != Finished {
        RunKeeps(r, tol, START, run);
        FinishNeedsNodes(r, tol, run);
      }
    }
  }

  /** Every point that a leg began to, except where the mission broke, had an action list. */
  ghost predicate NodesBehind(r: Route, s: State) {
    (forall i :: 0 <= i < s.idx ==> HasNode(r, i)) && (s.phase == Executing ==> HasNode(r, s.idx))
  }

  lemma FinishNeedsNodes(r: Route, tol: Tolerance, run: seq<Action>)
    requires Ready(r)
    ensures NodesBehind(r, Run(r, tol, START, run))
  {
    NodesKeep(r, tol, START, run);
  }

  lemma {:induction false} NodesKeep(r: Route, tol: Tolerance, s: State, run: seq<Action>)
    requires Ready(r) && NodesBehind(r, s)
    ensures NodesBehind(r, Run(r, tol, s, run))
    decreases |run|
  {
    if run != [] {
      NodesKeep(r, tol, Step(r, tol, s, run[0]), run[1..]);
    }
  }

  // ---------- the state object ----------

  /** The start of the first mission with points is the mission home until it is cleared. */
  function Recorded(home: Option<Vec3>, points: seq<Vec3>, pos: Vec3): Option<Vec3> {
    if points != [] && home.None? then Some(pos) else home
  }

  datatype Entered = Flies | StepsToLand | StepsToHover | Throws

  class WaypointState {
    const event: SetWaypoint
    var wpList: seq<Vec3>
    var dwell: seq<bool>
    var wpIdx: int
    var phase: Phase
    ghost var visits: seq<int>
    var sent: seq<seq<Vec3>>
    var progress: seq<Progress>
    var done: nat

    constructor (e: SetWaypoint)
      ensures event == e && wpList == e.waypoint && View() == START
    {
      event := e;
      wpList := e.waypoint;
      dwell := [];
      wpIdx := 0;
      phase := Lifting;
      visits, sent, progress, done := [], [], [], 0;
    }

    ghost function View(): State
      reads this
    {
      State(wpIdx, phase, visits, sent, progress, done)
    }

    ghost function TheRoute(): Route
      reads this
    {
      Route(wpList, dwell, event.nodeEvents)
    }

    method OnEnter(m: MathLib, pos: Vec3, home: Option<Vec3>) returns (outcome: Entered, home': Option<Vec3>)
      requires Lawful(m) && wpList == event.waypoint
      modifies this`wpList, this`dwell
      ensures outcome ==
        if event.action == Return then (if event.returnEnu.None? then Throws else Flies)
        else if event.waypoint != [] then Flies
        else if event.action == Land then StepsToLand else StepsToHover
      ensures home' == if event.waypoint != [] && home.None? then Some(pos) else home
      ensures home' == Recorded(home, event.waypoint, pos)
      ensures outcome == Flies ==>
        && wpList == event.waypoint + (if event.action == Return then [event.returnEnu.value] else [])
        && Ready(TheRoute())
        && forall i :: 0 <= i < |wpList| ==>
             (dwell[i] <==> !event.skipLifting || (i in event.dwellIndices && i < |event.waypoint|)
                            || SharpTurn(wpList, i) || i == |wpList| - 1)
    {
      home' := home;
      dwell := seq(|wpList|, _ => !event.skipLifting);
      if event.skipLifting {
        MarkRequested();
      }
      if wpList != [] && home.None? {
        home' := Some(pos);
      }
      if event.action == Return {
        if event.returnEnu.None? {
          return Throws, home';
        }
        wpList := wpList + [event.returnEnu.value];
        dwell := dwell + [true];
      }
      if |wpList| == 0 {
        return if event.action == Land then StepsToLand else StepsToHover, home';
      }
      MarkTurns(m);
      dwell := dwell[|dwell| - 1 := true];
      outcome := Flies;
    }

    /** The dwell points that the command names, as far as they exist. */
    method MarkRequested()
      requires |dwell| == |wpList| && forall i :: 0 <= i < |dwell| ==> !dwell[i]
      modifies this`dwell
      ensures |dwell| == |wpList|
      ensures forall i :: 0 <= i < |dwell| ==> (dwell[i] <==> i in event.dwellIndices)
    {
      for k := 0 to |event.dwellIndices|
        invariant |dwell| == |wpList|
        invariant forall i :: 0 <= i < |dwell| ==> (dwell[i] <==> i in event.dwellIndices[..k])
      {
        var idx := event.dwellIndices[k];
        if 0 <= idx < |dwell| {
          dwell := dwell[idx := true];
        }
      }
      assert event.dwellIndices[..|event.dwellIndices|] == event.dwellIndices;
    }

    method MarkTurns(m: MathLib)
      requires Lawful(m) && |dwell| == |wpList|
      modifies this`dwell
      ensures |dwell| == |wpList|
      ensures forall i :: 0 <= i < |dwell| ==> (dwell[i] <==> old(dwell)[i] || SharpTurn(wpList, i))
    {
      var i := 1;
      while i + 1 < |wpList|
        invariant 1 <= i && |dwell| == |wpList| == |old(dwell)|
        invariant forall j :: 0 <= j < |dwell| ==> (dwell[j] <==> old(dwell)[j] || (j < i && SharpTurn(wpList, j)))
        decreases |wpList| - i
      {
        var turns := TurnsSharply(m, Flat(wpList[i - 1], wpList[i]), Flat(wpList[i], wpList[i + 1]));
        if turns {
          dwell := dwell[i := true];
        }
        i := i + 1;
      }
    }

    /** The source compares `acos` of the clamped cosine with 60 degrees; `acos` falls from there. */
    method TurnsSharply(m: MathLib, u: Vec2, v: Vec2) returns (sharp: bool)
      requires Lawful(m)
      ensures sharp <==> u.Sq() > 0.01 && v.Sq() > 0.01 && WiderThanSixty(u, v)
    {
      var p, q := m.Norm(u), m.Norm(v);
      assert HypotLaw(m, u) && HypotLaw(m, v);
      LongLeg(u, p);
      LongLeg(v, q);
      if p > 0.1 && q > 0.1 {
        CosineOfTurn(u, p, v, q);
        var cosTheta := Clamp(u.Dot(v) / (p * q), -1.0, 1.0);
        sharp := cosTheta < 0.5;
      } else {
        sharp := false;
      }
    }

    method EnterLiftingState()
      requires Ready(TheRoute())
      modifies this`phase
      ensures View() == EnterLifting(TheRoute(), old(View()))
    {
      phase := if 0 <= wpIdx < |wpList| then Lifting else Broken;
    }

    /** The points from the current one to the first dwell point. */
    method PathToDwell() returns (path: seq<Vec3>)
      requires Ready(TheRoute()) && 0 <= wpIdx < |wpList|
      ensures path == Slice(TheRoute(), wpIdx)
    {
      ghost var r := TheRoute();
      path := [];
      var j := wpIdx;
      while j < |wpList|
        invariant wpIdx <= j <= FirstDwell(r, wpIdx) && path == wpList[wpIdx..j]
        decreases |wpList| - j
      {
        if j < FirstDwell(r, wpIdx) { NoDwellBefore(r, wpIdx, j); }
        path := path + [wpList[j]];
        assert path == wpList[wpIdx..j + 1];
        if dwell[j] {
          break;
        }
        j := j + 1;
      }
    }

    method EnterExecuteState()
      requires Ready(TheRoute())
      modifies this`phase, this`visits, this`sent
      ensures View() == EnterExecute(TheRoute(), old(View()))
    {
      if wpIdx < 0 || wpIdx >= |wpList| {
        phase := Broken;
        return;
      }
      var path := PathToDwell();
      sent := sent + [path];
      visits := visits + [wpIdx];
      if event.nodeEvents.Some? && wpIdx >= |event.nodeEvents.value| {
        phase := Broken;
      } else {
        phase := Executing;
      }
    }

    method OnArrive()
      requires Ready(TheRoute()) && 0 <= wpIdx
      modifies this`wpIdx, this`phase, this`visits, this`sent, this`progress, this`done
      ensures View() == Arrive(TheRoute(), old(View()))
    {
      wpIdx := wpIdx + 1;
      progress := progress + [Progress(wpIdx, |wpList|)];
      if wpIdx >= |wpList| {
        done := done + 1;
        phase := Finished;
        return;
      }
      if dwell[wpIdx - 1] {
        EnterLiftingState();
      } else {
        EnterExecuteState();
      }
    }

    method CheckArrive(tol: Tolerance, odomOk: bool, distance: real) returns (there: bool)
      requires Ready(TheRoute()) && 0 <= wpIdx
      ensures there <==> Arrives(TheRoute(), tol, wpIdx, odomOk, distance)
      ensures wpIdx < |wpList| && dwell[wpIdx] ==> (there <==> odomOk && distance < tol.dwell)
      ensures wpIdx < |wpList| && !dwell[wpIdx] ==> (there <==> odomOk && distance < tol.pass)
    {
      if !odomOk {
        return false;
      }
      if wpIdx < |dwell| && dwell[wpIdx] {
        return distance < tol.dwell;
      } else {
        return distance < tol.pass;
      }
    }

    /** One thing that happens to the mission: a tick, the end of lifting, or an interruption and its end. */
    method Handle(tol: Tolerance, a: Action)
      requires Ready(TheRoute()) && 0 <= wpIdx
      modifies this`wpIdx, this`phase, this`visits, this`sent, this`progress, this`done
      ensures View() == Step(TheRoute(), tol, old(View()), a)
      ensures TheRoute() == old(TheRoute()) && wpIdx >= old(wpIdx)
    {
      match a
      case Tick(odomOk, distance) =>
        if phase == Executing {
          var there := CheckArrive(tol, odomOk, distance);
          if there { OnArrive(); }
        }
      case Lifted => if phase == Lifting { EnterExecuteState(); }
      case Interrupt => if phase == Lifting || phase == Executing { phase := Away; }
      case Resume => if phase == Away { EnterLiftingState(); }
    }
  }
}
