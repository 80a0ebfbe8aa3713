/**
 Accepting a way-point command: what is refused, what is dropped, how points come into the local
 frame, where RETURN goes, and what is planned.
 */
module MissionIntake {
  import opened Basics
  import opened Planar
  import opened Mission

  datatype Place = Init | Ground | Air

  datatype Refusal = NotReady | NothingToDo | BadPoint | BadHome | NoHome

  datatype Fallback = ThenHover | ThenLand

  datatype Plan = LandNow | Fly(takeoff: Option<real>, fallback: Fallback)

  datatype Reply = Rejected(why: Refusal) | Accepted(plan: Plan)

  /** East and north offset of a longitude and latitude from the robot's; None where the projection throws. */
  type Projection = (Vec3, Vec3) -> Option<Vec2>

  /** What the robot knows; `lla.z` is the height above the autopilot's home. */
  datatype Context = Context(place: Place, pos: Vec3, lla: Vec3, missionHome: Option<Vec3>,
                             takeoffEnu: Option<Vec3>, fcuHomeGps: Option<Vec3>) {
    /** The fixed offset between the local origin and the autopilot's home. */
    function Offset(): real { pos.z - lla.z }
  }

  function GpsToEnu(proj: Projection, c: Context, p: Vec3): Option<Vec3> {
    var o := proj(c.lla, p);
    if o.None? then None else Some(Vec3(o.value.x + c.pos.x, o.value.y + c.pos.y, p.z - c.lla.z + c.pos.z))
  }

  // ---------- what is promised ----------

  /** The first of two or more points only gives the take-off height. */
  function Kept(points: seq<Vec3>): seq<Vec3> {
    if |points| >= 2 then points[1..] else points
  }

  /** `q` is where the requested point `p` is in the local frame: at the requested height above home. */
  ghost predicate Placed(proj: Projection, c: Context, local: bool, p: Vec3, q: Vec3) {
    && q.z - c.Offset() == p.z
    && if local then q.x == p.x && q.y == p.y
       else proj(c.lla, p).Some? && q.x == c.pos.x + proj(c.lla, p).value.x && q.y == c.pos.y + proj(c.lla, p).value.y
  }

  ghost predicate AllPlaced(proj: Projection, c: Context, local: bool, ps: seq<Vec3>, qs: seq<Vec3>) {
    |qs| == |ps| && forall i :: 0 <= i < |ps| ==> Placed(proj, c, local, ps[i], qs[i])
  }

  /** The projection works on all of the points. */
  ghost predicate Projects(proj: Projection, c: Context, ps: seq<Vec3>) {
    forall i :: 0 <= i < |ps| ==> proj(c.lla, ps[i]).Some?
  }

  /** Where RETURN goes: the start of the mission, else the last take-off, else the autopilot's home. */
  function Home(proj: Projection, c: Context): Option<Vec3> {
    if c.missionHome.Some? then c.missionHome
    else if c.takeoffEnu.Some? then c.takeoffEnu
    else if c.fcuHomeGps.Some? then GpsToEnu(proj, c, c.fcuHomeGps.value)
    else None
  }

  /** Exactly these commands are refused. */
  ghost predicate Refused(proj: Projection, c: Context, local: bool, points: seq<Vec3>, action: FinishAction) {
    || c.place == Init
    || (points == [] && c.place == Ground)
    || (!local && !Projects(proj, c, Kept(points)))
    || (action == Return && Home(proj, c).None?)
  }

  function PlanFor(c: Context, points: seq<Vec3>, action: FinishAction): Plan {
    if c.place != Ground && points == [] && action == Land then LandNow
    else Fly(if c.place == Ground then Some(if points == [] then 0.0 else points[0].z) else None,
             if action == Hover then ThenHover else ThenLand)
  }

  class WaypointEvent {
    var waypoint: seq<Vec3>
    var local: bool
    var returnEnu: Option<Vec3>
    const action: FinishAction

    constructor (waypoint: seq<Vec3>, local: bool, action: FinishAction)
      ensures this.waypoint == waypoint && this.local == local && this.action == action && returnEnu == None
    {
      this.waypoint := waypoint;
      this.local := local;
      this.action := action;
      returnEnu := None;
    }

    /** All points, one by one, in place; false when the projection throws, which leaves the rest as it was. */
    method ProjectPoints(proj: Projection, c: Context) returns (ok: bool)
      modifies this`waypoint, this`local
      ensures ok <==> Projects(proj, c, old(waypoint))
      ensures ok ==> local && AllPlaced(proj, c, false, old(waypoint), waypoint)
    {
      for i := 0 to |waypoint|
        invariant |waypoint| == |old(waypoint)|
        invariant forall k :: 0 <= k < i ==> Placed(proj, c, false, old(waypoint)[k], waypoint[k])
        invariant forall k :: i <= k < |waypoint| ==> waypoint[k] == old(waypoint)[k]
      {
        var q := GpsToEnu(proj, c, waypoint[i]);
        if q.None? {
          return false;
        }
        waypoint := waypoint[i := q.value];
      }
      local := true;
      ok := true;
    }

    method RaisePoints(c: Context)
      modifies this`waypoint
      ensures forall proj :: AllPlaced(proj, c, true, old(waypoint), waypoint)
    {
      var delta := c.pos.z - c.lla.z;
      for i := 0 to |waypoint|
        invariant |waypoint| == |old(waypoint)|
        invariant forall k :: 0 <= k < i ==>
          waypoint[k] == Vec3(old(waypoint)[k].x, old(waypoint)[k].y, old(waypoint)[k].z + delta)
        invariant forall k :: i <= k < |waypoint| ==> waypoint[k] == old(waypoint)[k]
      {
        var p := waypoint[i];
        waypoint := waypoint[i := Vec3(p.x, p.y, p.z + delta)];
      }
    }

    /** The return point; its height is that of the last point, or the current one. */
    method ResolveReturn(proj: Projection, c: Context, takeoffAlt: real) returns (why: Option<Refusal>)
      modifies this`returnEnu
      ensures why.None? <==> Home(proj, c).Some?
      ensures why.None? ==>
        returnEnu == Some(Vec3(Home(proj, c).value.x, Home(proj, c).value.y,
                               if waypoint != [] then waypoint[|waypoint| - 1].z
                               else if c.place == Ground then takeoffAlt + c.Offset() else c.pos.z))
    {
      var z := if waypoint == [] then (if c.place == Ground then takeoffAlt + c.pos.z - c.lla.z else c.pos.z)
               else waypoint[|waypoint| - 1].z;
      var home;
      if c.missionHome.Some? {
        home := c.missionHome.value;
      } else if c.takeoffEnu.Some? {
        home := c.takeoffEnu.value;
      } else if c.fcuHomeGps.Some? {
        var g := GpsToEnu(proj, c, c.fcuHomeGps.value);
        if g.None? {
          return Some(BadHome);
        }
        home := g.value;
      } else {
        return Some(NoHome);
      }
      returnEnu := Some(Vec3(home.x, home.y, z));
      why := None;
    }

    method OnSetWaypoint(proj: Projection, c: Context) returns (reply: Reply)
      modifies this
      ensures reply.Rejected? <==> Refused(proj, c, old(local), old(waypoint), action)
      ensures reply.Accepted? ==>
        && reply.plan == PlanFor(c, old(waypoint), action)
        && (reply.plan.LandNow? <==> c.place == Air && old(waypoint) == [] && action == Land)
        && (reply.plan.Fly? && c.place == Ground ==> old(waypoint) != [] && reply.plan.takeoff == Some(old(waypoint)[0].z))
        && (reply.plan.Fly? && c.place == Air ==> reply.plan.takeoff == None)
        && (reply.plan.Fly? ==> (reply.plan.fallback == ThenHover <==> action == Hover))
        && (|old(waypoint)| >= 2 ==> AllPlaced(proj, c, old(local), old(waypoint)[1..], waypoint))
        && (|old(waypoint)| == 1 ==> AllPlaced(proj, c, old(local), old(waypoint), waypoint))
        && AllPlaced(proj, c, old(local), Kept(old(waypoint)), waypoint)
        && (waypoint != [] ==> local)
        && (action == Return ==>
             returnEnu == Some(Vec3(Home(proj, c).value.x, Home(proj, c).value.y,
                                    if waypoint != [] then waypoint[|waypoint| - 1].z else c.pos.z)))
    {
      if c.place == Init {
        return Rejected(NotReady);
      }
      var empty := waypoint == [];
      if empty && c.place == Ground {
        return Rejected(NothingToDo);
      }
      var takeoffAlt := 0.0;
      if !empty {
        takeoffAlt := waypoint[0].z;
        if |waypoint| >= 2 {
          waypoint := waypoint[1..];
        }
      }
      if !local && waypoint != [] {
        var ok := ProjectPoints(proj, c);
        if !ok {
          return Rejected(BadPoint);
        }
      } else if local && waypoint != [] {
        RaisePoints(c);
      }
      if action == Return {
        var why := ResolveReturn(proj, c, takeoffAlt);
        if why.Some? {
          return Rejected(why.value);
        }
      }
      if c.place == Ground {
        return Accepted(Fly(Some(takeoffAlt), if action == Hover then ThenHover else ThenLand));
      } else if empty && action == Land {
        return Accepted(LandNow);
      } else {
        return Accepted(Fly(None, if action == Hover then ThenHover else ThenLand));
      }
    }
  }

  // ---------- the mission home over a run ----------

  /** Entering the states that touch the homes; everything else leaves them alone. */
  datatype Entry = EnterGround | Restart | TakeOff(pos: Vec3, alt: real) | BeginMission(points: seq<Vec3>, pos: Vec3) | Airborne

  datatype Homes = Homes(place: Place, mission: Option<Vec3>, takeoff: Option<Vec3>)

  function Enter(h: Homes, e: Entry): Homes {
    match e
    case EnterGround => h.(place := Ground, mission := None)
    case Restart => h.(place := Init, mission := None)
    case TakeOff(pos, alt) => h.(place := Air, takeoff := Some(Vec3(pos.x, pos.y, alt)))
    case BeginMission(points, pos) => h.(place := Air, mission := Recorded(h.mission, points, pos))
    case Airborne => h.(place := Air)
  }

  function EnterAll(h: Homes, run: seq<Entry>): Homes {
    if run == [] then h else Enter(EnterAll(h, run[..|run| - 1]), run[|run| - 1])
  }

  predicate Clears(e: Entry) { e.EnterGround? || e.Restart? }

  /** The start of the first mission with points in a run without clears. */
  function FirstStart(run: seq<Entry>): Option<Vec3> {
    if run == [] then None
    else if run[0].BeginMission? && run[0].points != [] then Some(run[0].pos)
    else FirstStart(run[1..])
  }

  lemma {:induction false} FirstStartAppend(run: seq<Entry>, e: Entry)
    ensures FirstStart(run + [e]) ==
      if FirstStart(run).Some? then FirstStart(run)
      else if e.BeginMission? && e.points != [] then Some(e.pos) else None
  {
    if run != [] {
      assert (run + [e])[1..] == run[1..] + [e];
      FirstStartAppend(run[1..], e);
    } else {
      assert (run + [e])[1..] == [];
    }
  }

  /** After a clear, whatever happens up to the next one: the mission home is where the first mission began. */
  lemma {:induction false} HomeIsFirstStart(h: Homes, clear: Entry, run: seq<Entry>)
    requires Clears(clear) && forall i :: 0 <= i < |run| ==> !Clears(run[i])
    ensures EnterAll(h, [clear] + run).mission == FirstStart(run)
    decreases |run|
  {
    if run == [] {
      assert EnterAll(h, [clear] + run) == Enter(EnterAll(h, []), clear);
    } else {
      var before, e := run[..|run| - 1], run[|run| - 1];
      assert ([clear] + run)[..|run|] == [clear] + before;
      HomeIsFirstStart(h, clear, before);
      FirstStartAppend(before, e);
      assert run == before + [e];
    }
  }

  /** A robot on the ground has no mission home. */
  lemma GroundHasNoHome(h: Homes, run: seq<Entry>)
    requires h.place == Ground ==> h.mission.None?
    ensures EnterAll(h, run).place == Ground ==> EnterAll(h, run).mission.None?
  {
  }

  ghost predicate Knows(c: Context, h: Homes) {
    c.place == h.place && c.missionHome == h.mission && c.takeoffEnu == h.takeoff
  }

  /** Between two clears every RETURN after the first mission goes to where that mission began. */
  lemma ReturnGoesToFirstStart(proj: Projection, c: Context, h: Homes, clear: Entry, run: seq<Entry>)
    requires Clears(clear) && (forall i :: 0 <= i < |run| ==> !Clears(run[i])) && FirstStart(run).Some?
    requires Knows(c, EnterAll(h, [clear] + run))
    ensures Home(proj, c) == FirstStart(run)
  {
    HomeIsFirstStart(h, clear, run);
  }

  ghost predicate LastTakeOff(run: seq<Entry>, i: nat) {
    i < |run| && run[i].TakeOff? && forall j :: i < j < |run| ==> !run[j].TakeOff?
  }

  /** No landing and no restart forgets the last take-off. */
  lemma {:induction false} TakeOffIsKept(h: Homes, run: seq<Entry>, i: nat)
    requires LastTakeOff(run, i)
    ensures EnterAll(h, run).takeoff == Some(Vec3(run[i].pos.x, run[i].pos.y, run[i].alt))
    decreases |run|
  {
    var before := run[..|run| - 1];
    if i < |before| {
      assert before[i] == run[i] && forall j :: i < j < |before| ==> before[j] == run[j];
      TakeOffIsKept(h, before, i);
    }
  }

  predicate SamePlace(a: Vec3, b: Vec3) { a.x == b.x && a.y == b.y }

  /**
   A RETURN accepted on the ground goes to the last take-off of all, however long ago and far away: it goes
   to where the robot stands exactly if the robot stands where it last took off.
   */
  lemma GroundReturnIsStale(proj: Projection, c: Context, h: Homes, run: seq<Entry>, i: nat)
    requires h.place == Ground ==> h.mission.None?
    requires Knows(c, EnterAll(h, run)) && c.place == Ground && LastTakeOff(run, i)
    ensures Home(proj, c) == Some(Vec3(run[i].pos.x, run[i].pos.y, run[i].alt))
    ensures SamePlace(Home(proj, c).value, c.pos) <==> SamePlace(run[i].pos, c.pos)
  {
    GroundHasNoHome(h, run);
    TakeOffIsKept(h, run, i);
  }

  /** From `p` to `q`, and a second mission with RETURN from there: the robot flies back to `p`. */
  lemma SecondFlightReturnsToFirst(proj: Projection, p: Vec3, q: Vec3, alt: real, lla: Vec3, fcu: Option<Vec3>)
    requires !SamePlace(p, q)
    ensures var h := EnterAll(Homes(Ground, None, None), [TakeOff(p, alt), BeginMission([q], p), EnterGround]);
            var c := Context(h.place, q, lla, h.mission, h.takeoff, fcu);
            && c.place == Ground && !Refused(proj, c, true, [q], Return)
            && Home(proj, c) == Some(Vec3(p.x, p.y, alt)) && !SamePlace(Home(proj, c).value, c.pos)
  {
    var h0 := Homes(Ground, None, None);
    var run := [TakeOff(p, alt), BeginMission([q], p), EnterGround];
    assert run[..2] == [TakeOff(p, alt), BeginMission([q], p)] && run[..2][..1] == [TakeOff(p, alt)] && run[..2][..1][..0] == [];
    assert EnterAll(h0, run[..2][..1]) == Enter(h0, TakeOff(p, alt));
    assert EnterAll(h0, run[..2]) == Enter(Enter(h0, TakeOff(p, alt)), BeginMission([q], p));
    var c := Context(Ground, q, lla, None, Some(Vec3(p.x, p.y, alt)), fcu);
    GroundReturnIsStale(proj, c, h0, run, 0);
  }

  // ---------- from the command to the flight ----------

  /** How many points the mission of a command has. */
  function RouteLength(points: seq<Vec3>, action: FinishAction): nat {
    |Kept(points)| + if action == Return then 1 else 0
  }

  /**
   A command is accepted, and its mission entered at `pos`: whether the mission can break is decided by the
   command alone, by its number of points, its finish action and the length of its action list.
   */
  method AcceptAndEnter(e: WaypointEvent, proj: Projection, c: Context, m: MathLib, pos: Vec3, home: Option<Vec3>,
                        dwellIndices: seq<int>, skipLifting: bool, nodeEvents: Option<seq<seq<string>>>)
      returns (reply: Reply, mission: WaypointState?)
    requires Lawful(m)
    modifies e
    ensures reply.Rejected? <==> Refused(proj, c, old(e.local), old(e.waypoint), e.action)
    ensures mission != null <==> reply.Accepted? && reply.plan.Fly? && RouteLength(old(e.waypoint), e.action) > 0
    ensures mission != null ==>
      && fresh(mission) && mission.View() == START && Ready(mission.TheRoute())
      && |mission.wpList| == RouteLength(old(e.waypoint), e.action)
      && forall tol: Tolerance :: tol.dwell > 0.0 && tol.pass > 0.0 ==>
           (Breaks(mission.TheRoute(), tol) <==>
              nodeEvents.Some? && |nodeEvents.value| < RouteLength(old(e.waypoint), e.action))
  {
    mission := null;
    reply := e.OnSetWaypoint(proj, c);
    if reply.Rejected? || reply.plan.LandNow? {
      return;
    }
    var w := new WaypointState(SetWaypoint(e.waypoint, dwellIndices, skipLifting, e.action, e.returnEnu, nodeEvents));
    var outcome, _ := w.OnEnter(m, pos, home);
    if outcome != Flies {
      return;
    }
    mission := w;
    forall tol: Tolerance | tol.dwell > 0.0 && tol.pass > 0.0
      ensures Breaks(w.TheRoute(), tol) <==> nodeEvents.Some? && |nodeEvents.value| < |w.wpList|
    {
      BreaksExactly(w.TheRoute(), tol);
    }
  }

  /** Without a mission and without a take-off the home is the autopilot's, projected; without that there is none. */
  lemma HomeOfLastResort(proj: Projection, c: Context)
    requires c.missionHome.None? && c.takeoffEnu.None?
    ensures c.fcuHomeGps.None? ==> Home(proj, c).None?
    ensures c.fcuHomeGps.Some? ==> (Home(proj, c).Some? <==> proj(c.lla, c.fcuHomeGps.value).Some?)
    ensures c.fcuHomeGps.Some? && Home(proj, c).Some? ==> Placed(proj, c, false, c.fcuHomeGps.value, Home(proj, c).value)
  {
  }
}
