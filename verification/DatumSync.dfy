/**
 Joining two sensor streams by time. Position samples and satellite fixes arrive in any order;
 a fix is paired with the position interpolated at its time, once the position stream has
 reached past it.
 */
module DatumSync {
  import opened Basics
  import opened Planar

  datatype StampedENU = StampedENU(time: real, position: Vec3)

  datatype StampedGPS = StampedGPS(time: real, lonLatAlt: Vec3)

  datatype SyncedPair = SyncedPair(time: real, enu: Vec3, gps: Vec3)

  const ENU_MAX := 200
  const GPS_MAX := 50
  const MIN_GAP := 0.000001

  // ---------- what a fix is paired with ----------

  function Lerp(a: Vec3, b: Vec3, k: real): Vec3 {
    Vec3(a.x + k * (b.x - a.x), a.y + k * (b.y - a.y), a.z + k * (b.z - a.z))
  }

  predicate Brackets(enu: seq<StampedENU>, i: nat, t: real)
    requires i + 1 < |enu|
  {
    enu[i].time <= t <= enu[i + 1].time
  }

  /** The first pair of adjacent samples at or after `i` around `t`. */
  function FirstBracket(enu: seq<StampedENU>, t: real, i: nat): (r: Option<nat>)
    requires i < |enu|
    ensures r.Some? ==> i <= r.value && r.value + 1 < |enu| && Brackets(enu, r.value, t)
    ensures r.Some? ==> forall j: nat :: i <= j < r.value ==> !Brackets(enu, j, t)
    ensures r.None? ==> forall j: nat :: i <= j && j + 1 < |enu| ==> !Brackets(enu, j, t)
    decreases |enu| - i
  {
    if i + 1 == |enu| then None
    else if Brackets(enu, i, t) then Some(i)
    else FirstBracket(enu, t, i + 1)
  }

  /** Interpolation between samples `i` and `i + 1`, refused over too long a gap. */
  function Between(enu: seq<StampedENU>, i: nat, t: real, maxDiff: real): Option<Vec3>
    requires i + 1 < |enu|
  {
    var gap := enu[i + 1].time - enu[i].time;
    if gap > maxDiff then None
    else if gap < MIN_GAP then Some(enu[i].position)
    else Some(Lerp(enu[i].position, enu[i + 1].position, (t - enu[i].time) / gap))
  }

  datatype Verdict = Wait | Discard | Pair(enu: Vec3)

  /** What the positions seen so far say about a fix at time `t`. */
  function Judge(enu: seq<StampedENU>, t: real, maxDiff: real): Verdict {
    if |enu| < 2 then Wait
    else if t < enu[0].time then Discard
    else if t > enu[|enu| - 1].time then Wait
    else
      match FirstBracket(enu, t, 0)
      case None => Discard
      case Some(i) =>
        match Between(enu, i, t, maxDiff)
        case None => Discard
        case Some(p) => Pair(p)
  }

  // ---------- reference: what two whole streams amount to ----------

  /** Fixes are settled in order; this many are. */
  function Settled(enu: seq<StampedENU>, gps: seq<StampedGPS>, maxDiff: real): (n: nat)
    ensures n <= |gps|
  {
    if gps == [] || Judge(enu, gps[0].time, maxDiff).Wait? then 0
    else 1 + Settled(enu, gps[1..], maxDiff)
  }

  /** The pairs that come out of settling every fix in `gps`. */
  function Pairs(enu: seq<StampedENU>, gps: seq<StampedGPS>, maxDiff: real): seq<SyncedPair> {
    if gps == [] then []
    else
      var rest := Pairs(enu, gps[1..], maxDiff);
      match Judge(enu, gps[0].time, maxDiff)
      case Pair(p) => [SyncedPair(gps[0].time, p, gps[0].lonLatAlt)] + rest
      case _ => rest
  }

  /** The newest `n` elements. */
  function Newest<T>(s: seq<T>, n: nat): seq<T> {
    if |s| <= n then s else s[|s| - n..]
  }

  datatype Sync = Sync(enu: seq<StampedENU>, gps: seq<StampedGPS>, window: seq<SyncedPair>)

  /** The state that two streams, taken as a whole, call for. */
  function Whole(enu: seq<StampedENU>, gps: seq<StampedGPS>, maxDiff: real, size: nat): Sync {
    var n := Settled(enu, gps, maxDiff);
    Sync(enu, gps[n..], Newest(Pairs(enu, gps[..n], maxDiff), size))
  }

  /** Settle what can be settled. */
  function Drain(s: Sync, maxDiff: real, size: nat): Sync {
    var n := Settled(s.enu, s.gps, maxDiff);
    Sync(s.enu, s.gps[n..], Newest(s.window + Pairs(s.enu, s.gps[..n], maxDiff), size))
  }

  /** The window after the oldest fix has been given its verdict. */
  function Record(window: seq<SyncedPair>, g: StampedGPS, v: Verdict, size: nat): seq<SyncedPair> {
    if v.Pair? then Push(window, SyncedPair(g.time, v.enu, g.lonLatAlt), size) else window
  }

  datatype Arrival = Enu(e: StampedENU) | Gps(g: StampedGPS)

  function Push<T>(q: seq<T>, x: T, max: nat): seq<T> {
    Newest(q + [x], max)
  }

  function Arrive(s: Sync, a: Arrival, maxDiff: real, size: nat): Sync {
    match a
    case Enu(e) => Drain(s.(enu := Push(s.enu, e, ENU_MAX)), maxDiff, size)
    case Gps(g) => Drain(s.(gps := Push(s.gps, g, GPS_MAX)), maxDiff, size)
  }

  // ---------- the buffers ----------

  class DatumSynchronizer {
    const maxTimeDiff: real
    const windowSize: nat

    var enuBuffer: seq<StampedENU>
    var gpsBuffer: seq<StampedGPS>
    var syncedWindow: seq<SyncedPair>

    ghost function View(): Sync reads this {
      Sync(enuBuffer, gpsBuffer, syncedWindow)
    }

    /** The window is never longer than asked for. */
    ghost predicate Valid() reads this {
      |enuBuffer| <= ENU_MAX && |gpsBuffer| <= GPS_MAX && |syncedWindow| <= windowSize
    }

    constructor (maxTimeDiff: real, windowSize: nat)
      ensures Valid() && View() == Sync([], [], [])
      ensures this.maxTimeDiff == maxTimeDiff && this.windowSize == windowSize
    {
      this.maxTimeDiff, this.windowSize := maxTimeDiff, windowSize;
      enuBuffer, gpsBuffer, syncedWindow := [], [], [];
    }

    method PushENU(enu: Vec3, time: real)
      requires Valid()
      modifies this
      ensures Valid() && View() == Arrive(old(View()), Enu(StampedENU(time, enu)), maxTimeDiff, windowSize)
    {
      enuBuffer := enuBuffer + [StampedENU(time, enu)];
      if |enuBuffer| > 200 {
        enuBuffer := enuBuffer[1..];
      }
      TrySync();
    }

    method PushGPS(gps: Vec3, time: real)
      requires Valid()
      modifies this
      ensures Valid() && View() == Arrive(old(View()), Gps(StampedGPS(time, gps)), maxTimeDiff, windowSize)
    {
      gpsBuffer := gpsBuffer + [StampedGPS(time, gps)];
      if |gpsBuffer| > 50 {
        gpsBuffer := gpsBuffer[1..];
      }
      TrySync();
    }

    method TrySync()
      requires Valid()
      modifies this`gpsBuffer, this`syncedWindow
      ensures Valid() && View() == Drain(old(View()), maxTimeDiff, windowSize)
    {
      assert Drain(View(), maxTimeDiff, windowSize) == Drain(old(View()), maxTimeDiff, windowSize);
      while gpsBuffer != []
        invariant Valid() && enuBuffer == old(enuBuffer)
        invariant Drain(View(), maxTimeDiff, windowSize) == Drain(old(View()), maxTimeDiff, windowSize)
        decreases |gpsBuffer|
      {
        var t := gpsBuffer[0].time;
        if |enuBuffer| < 2 {
          break;
        }
        if t < enuBuffer[0].time {
          DrainHead(View(), maxTimeDiff, windowSize);
          gpsBuffer := gpsBuffer[1..];
          continue;
        }
        if t > enuBuffer[|enuBuffer| - 1].time {
          break;
        }
        var synced := InterpolateENU(t);
        DrainHead(View(), maxTimeDiff, windowSize);
        if synced.Some? {
          AddPair(SyncedPair(t, synced.value, gpsBuffer[0].lonLatAlt));
        }
        gpsBuffer := gpsBuffer[1..];
      }
      DrainDone(View(), maxTimeDiff, windowSize);
    }

    method AddPair(p: SyncedPair)
      requires |syncedWindow| <= windowSize
      modifies this`syncedWindow
      ensures syncedWindow == Push(old(syncedWindow), p, windowSize) && |syncedWindow| <= windowSize
    {
      syncedWindow := syncedWindow + [p];
      if |syncedWindow| > windowSize {
        syncedWindow := syncedWindow[1..];
      }
    }

    method InterpolateENU(t: real) returns (r: Option<Vec3>)
      requires |enuBuffer| >= 1
      ensures r == match FirstBracket(enuBuffer, t, 0)
                   case None => None
                   case Some(i) => Between(enuBuffer, i, t, maxTimeDiff)
    {
      for i := 0 to |enuBuffer| - 1
        invariant FirstBracket(enuBuffer, t, 0) == FirstBracket(enuBuffer, t, i)
      {
        var a, b := enuBuffer[i], enuBuffer[i + 1];
        if a.time <= t <= b.time {
          if b.time - a.time > maxTimeDiff {
            return None;
          }
          var dt := b.time - a.time;
          if dt < 0.000001 {
            return Some(a.position);
          }
          var ratio := (t - a.time) / dt;
          return Some(Lerp(a.position, b.position, ratio));
        }
      }
      return None;
    }
  }

  /** Settling the oldest fix first changes nothing. */
  lemma DrainHead(s: Sync, maxDiff: real, size: nat)
    requires s.gps != [] && |s.window| <= size
    requires !Judge(s.enu, s.gps[0].time, maxDiff).Wait?
    ensures Drain(s, maxDiff, size) ==
      Drain(Sync(s.enu, s.gps[1..], Record(s.window, s.gps[0], Judge(s.enu, s.gps[0].time, maxDiff), size)), maxDiff, size)
  {
    var n := Settled(s.enu, s.gps[1..], maxDiff);
    var g := s.gps[0];
    assert s.gps[..n + 1][1..] == s.gps[1..][..n];
    var rest := Pairs(s.enu, s.gps[1..][..n], maxDiff);
    if Judge(s.enu, g.time, maxDiff).Pair? {
      var x := SyncedPair(g.time, Judge(s.enu, g.time, maxDiff).enu, g.lonLatAlt);
      assert s.window + ([x] + rest) == s.window + [x] + rest;
      NewestTwice(s.window + [x], rest, size);
    }
  }

  lemma NewestTwice<T>(a: seq<T>, b: seq<T>, n: nat)
    ensures Newest(Newest(a, n) + b, n) == Newest(a + b, n)
  {
  }

  lemma DrainDone(s: Sync, maxDiff: real, size: nat)
    requires |s.window| <= size && (s.gps == [] || Judge(s.enu, s.gps[0].time, maxDiff).Wait?)
    ensures Drain(s, maxDiff, size) == s
  {
    assert s.gps[..0] == [] && s.gps[0..] == s.gps;
    assert s.window + [] == s.window;
  }

  // ---------- arrival order does not matter ----------

  ghost predicate Ordered(enu: seq<StampedENU>) {
    forall i, j :: 0 <= i <= j < |enu| ==> enu[i].time <= enu[j].time
  }

  /** A verdict, once given, survives later positions. */
  lemma VerdictStands(enu: seq<StampedENU>, e: StampedENU, t: real, maxDiff: real)
    requires Ordered(enu + [e]) && !Judge(enu, t, maxDiff).Wait?
    ensures Judge(enu + [e], t, maxDiff) == Judge(enu, t, maxDiff)
  {
    var more := enu + [e];
    assert more[|more| - 1].time >= enu[|enu| - 1].time by {
      assert more[|enu| - 1] == enu[|enu| - 1];
    }
    if t >= enu[0].time {
      BracketExists(enu, t, 0);
      BracketStands(enu, e, t, 0);
    }
  }

  lemma {:induction false} BracketStands(enu: seq<StampedENU>, e: StampedENU, t: real, i: nat)
    requires i < |enu| && FirstBracket(enu, t, i).Some?
    ensures FirstBracket(enu + [e], t, i) == FirstBracket(enu, t, i)
    decreases |enu| - i
  {
    if !Brackets(enu, i, t) {
      BracketStands(enu, e, t, i + 1);
    }
  }

  lemma {:induction false} BracketExists(enu: seq<StampedENU>, t: real, i: nat)
    requires i + 1 < |enu| && enu[i].time <= t <= enu[|enu| - 1].time
    ensures FirstBracket(enu, t, i).Some?
    decreases |enu| - i
  {
    if !Brackets(enu, i, t) {
      BracketExists(enu, t, i + 1);
    }
  }

  /** With one more position, what was settled stays settled, with the same pairs. */
  lemma {:induction false} SettledStands(enu: seq<StampedENU>, e: StampedENU, gps: seq<StampedGPS>, maxDiff: real)
    requires Ordered(enu + [e])
    ensures var n := Settled(enu, gps, maxDiff);
            && Settled(enu + [e], gps, maxDiff) == n + Settled(enu + [e], gps[n..], maxDiff)
            && Pairs(enu + [e], gps[..n], maxDiff) == Pairs(enu, gps[..n], maxDiff)
  {
    var n := Settled(enu, gps, maxDiff);
    if n == 0 {
      assert gps[0..] == gps && gps[..0] == [];
    } else {
      VerdictStands(enu, e, gps[0].time, maxDiff);
      SettledStands(enu, e, gps[1..], maxDiff);
      assert gps[1..][n - 1..] == gps[n..];
      assert gps[..n][1..] == gps[1..][..n - 1];
    }
  }

  lemma {:induction false} PairsAppend(enu: seq<StampedENU>, a: seq<StampedGPS>, b: seq<StampedGPS>, maxDiff: real)
    ensures Pairs(enu, a + b, maxDiff) == Pairs(enu, a, maxDiff) + Pairs(enu, b, maxDiff)
  {
    if a == [] {
      assert a + b == b;
    } else {
      PairsAppend(enu, a[1..], b, maxDiff);
      assert (a + b)[1..] == a[1..] + b;
    }
  }

  lemma {:induction false} SettledAppend(enu: seq<StampedENU>, gps: seq<StampedGPS>, g: StampedGPS, maxDiff: real)
    ensures var n := Settled(enu, gps, maxDiff);
            && Settled(enu, gps + [g], maxDiff) == n + Settled(enu, gps[n..] + [g], maxDiff)
  {
    var n := Settled(enu, gps, maxDiff);
    if n == 0 {
      assert gps[0..] == gps;
    } else {
      SettledAppend(enu, gps[1..], g, maxDiff);
      assert (gps + [g])[1..] == gps[1..] + [g];
      assert gps[1..][n - 1..] == gps[n..];
    }
  }

  lemma TakeDrop<T>(s: seq<T>, n: nat, k: nat)
    requires n + k <= |s|
    ensures s[n..][k..] == s[n + k..] && s[..n + k] == s[..n] + s[n..][..k]
  {
  }

  /** Draining in two rounds, the second with more fixes settled, is draining once. */
  lemma DrainAgain(enu: seq<StampedENU>, gps: seq<StampedGPS>, n: nat, old': seq<SyncedPair>, maxDiff: real, size: nat)
    requires n <= |gps| && Pairs(enu, gps[..n], maxDiff) == old'
    requires Settled(enu, gps, maxDiff) == n + Settled(enu, gps[n..], maxDiff)
    ensures Drain(Sync(enu, gps[n..], Newest(old', size)), maxDiff, size) == Whole(enu, gps, maxDiff, size)
  {
    var k := Settled(enu, gps[n..], maxDiff);
    TakeDrop(gps, n, k);
    var new' := Pairs(enu, gps[n..][..k], maxDiff);
    PairsAppend(enu, gps[..n], gps[n..][..k], maxDiff);
    assert Pairs(enu, gps[..n + k], maxDiff) == old' + new';
    NewestTwice(old', new', size);
  }

  /** One position more, and then settling, is what the longer stream calls for. */
  lemma MorePositions(enu: seq<StampedENU>, gps: seq<StampedGPS>, e: StampedENU, maxDiff: real, size: nat)
    requires Ordered(enu + [e])
    ensures var s := Whole(enu, gps, maxDiff, size);
            Drain(Sync(enu + [e], s.gps, s.window), maxDiff, size) == Whole(enu + [e], gps, maxDiff, size)
  {
    var n := Settled(enu, gps, maxDiff);
    SettledStands(enu, e, gps, maxDiff);
    DrainAgain(enu + [e], gps, n, Pairs(enu, gps[..n], maxDiff), maxDiff, size);
  }

  /** And so for one fix more. */
  lemma MoreFixes(enu: seq<StampedENU>, gps: seq<StampedGPS>, g: StampedGPS, maxDiff: real, size: nat)
    ensures var s := Whole(enu, gps, maxDiff, size);
            Drain(Sync(enu, s.gps + [g], s.window), maxDiff, size) == Whole(enu, gps + [g], maxDiff, size)
  {
    var n := Settled(enu, gps, maxDiff);
    SettledAppend(enu, gps, g, maxDiff);
    var more := gps + [g];
    assert more[n..] == gps[n..] + [g] && more[..n] == gps[..n];
    DrainAgain(enu, more, n, Pairs(enu, gps[..n], maxDiff), maxDiff, size);
  }

  // ---------- what a bounded buffer still knows ----------

  /** The positions that the buffer has given up all lie before the fixes. */
  ghost predicate Timely(enu: seq<StampedENU>, gps: seq<StampedGPS>) {
    |enu| > ENU_MAX ==> forall i :: 0 <= i < |gps| ==> enu[|enu| - ENU_MAX].time < gps[i].time
  }

  lemma {:induction false} BracketInTail(enu: seq<StampedENU>, k: nat, t: real, i: nat)
    requires k + i < |enu|
    ensures var r := FirstBracket(enu[k..], t, i);
            FirstBracket(enu, t, k + i) == if r.None? then None else Some(k + r.value)
    decreases |enu| - k - i
  {
    if k + i + 1 < |enu| && !Brackets(enu, k + i, t) {
      BracketInTail(enu, k, t, i + 1);
    }
  }

  lemma {:induction false} BracketNotBefore(enu: seq<StampedENU>, k: nat, t: real, i: nat)
    requires Ordered(enu) && i <= k < |enu| && enu[k].time < t
    ensures FirstBracket(enu, t, i) == FirstBracket(enu, t, k)
    decreases k - i
  {
    if i < k {
      assert enu[i + 1].time <= enu[k].time;
      BracketNotBefore(enu, k, t, i + 1);
    }
  }

  lemma JudgeFromTail(enu: seq<StampedENU>, t: real, maxDiff: real)
    requires Ordered(enu) && (|enu| > ENU_MAX ==> enu[|enu| - ENU_MAX].time < t)
    ensures Judge(Newest(enu, ENU_MAX), t, maxDiff) == Judge(enu, t, maxDiff)
  {
    if |enu| > ENU_MAX {
      var k := |enu| - ENU_MAX;
      assert enu[0].time <= enu[k].time;
      BracketNotBefore(enu, k, t, 0);
      BracketInTail(enu, k, t, 0);
    }
  }

  lemma {:induction false} SettledFromTail(enu: seq<StampedENU>, gps: seq<StampedGPS>, maxDiff: real)
    requires Ordered(enu) && Timely(enu, gps)
    ensures Settled(Newest(enu, ENU_MAX), gps, maxDiff) == Settled(enu, gps, maxDiff)
    ensures Pairs(Newest(enu, ENU_MAX), gps, maxDiff) == Pairs(enu, gps, maxDiff)
  {
    if gps != [] {
      JudgeFromTail(enu, gps[0].time, maxDiff);
      SettledFromTail(enu, gps[1..], maxDiff);
    }
  }

  /** The buffer settles timely fixes as the whole stream would. */
  lemma DrainFromTail(enu: seq<StampedENU>, gps: seq<StampedGPS>, window: seq<SyncedPair>, maxDiff: real, size: nat)
    requires Ordered(enu) && Timely(enu, gps)
    ensures Drain(Sync(Newest(enu, ENU_MAX), gps, window), maxDiff, size) ==
      Drain(Sync(enu, gps, window), maxDiff, size).(enu := Newest(enu, ENU_MAX))
  {
    var n := Settled(enu, gps, maxDiff);
    SettledFromTail(enu, gps, maxDiff);
    SettledFromTail(enu, gps[..n], maxDiff);
  }

  function EnuOf(run: seq<Arrival>): seq<StampedENU> {
    if run == [] then []
    else EnuOf(run[..|run| - 1]) + (if run[|run| - 1].Enu? then [run[|run| - 1].e] else [])
  }

  function GpsOf(run: seq<Arrival>): seq<StampedGPS> {
    if run == [] then []
    else GpsOf(run[..|run| - 1]) + (if run[|run| - 1].Gps? then [run[|run| - 1].g] else [])
  }

  function After(run: seq<Arrival>, maxDiff: real, size: nat): Sync {
    if run == [] then Sync([], [], [])
    else Arrive(After(run[..|run| - 1], maxDiff, size), run[|run| - 1], maxDiff, size)
  }

  /** No fix had to be given up, and no position that a fix still needed. */
  ghost predicate Prompt(run: seq<Arrival>, maxDiff: real, size: nat) {
    run == [] ||
    var init, a := run[..|run| - 1], run[|run| - 1];
    var gps := After(init, maxDiff, size).gps + (if a.Gps? then [a.g] else []);
    Prompt(init, maxDiff, size) && |gps| <= GPS_MAX && Timely(EnuOf(run), gps)
  }

  lemma OrderedPrefix(enu: seq<StampedENU>, e: StampedENU)
    requires Ordered(enu + [e])
    ensures Ordered(enu)
  {
    assert forall i :: 0 <= i < |enu| ==> enu[i] == (enu + [e])[i];
  }

  /** What two whole streams call for, with the positions that a buffer keeps. */
  function Kept(enu: seq<StampedENU>, gps: seq<StampedGPS>, maxDiff: real, size: nat): Sync {
    Whole(enu, gps, maxDiff, size).(enu := Newest(enu, ENU_MAX))
  }

  lemma NewestPush<T>(s: seq<T>, x: T, n: nat)
    ensures Push(Newest(s, n), x, n) == Newest(s + [x], n)
  {
  }

  lemma ArriveEnu(enu: seq<StampedENU>, gps: seq<StampedGPS>, e: StampedENU, maxDiff: real, size: nat)
    requires Ordered(enu + [e]) && Timely(enu + [e], Whole(enu, gps, maxDiff, size).gps)
    ensures Arrive(Kept(enu, gps, maxDiff, size), Enu(e), maxDiff, size) == Kept(enu + [e], gps, maxDiff, size)
  {
    var s := Whole(enu, gps, maxDiff, size);
    NewestPush(enu, e, ENU_MAX);
    DrainFromTail(enu + [e], s.gps, s.window, maxDiff, size);
    MorePositions(enu, gps, e, maxDiff, size);
  }

  lemma ArriveGps(enu: seq<StampedENU>, gps: seq<StampedGPS>, g: StampedGPS, maxDiff: real, size: nat)
    requires Ordered(enu) && |Whole(enu, gps, maxDiff, size).gps| < GPS_MAX
    requires Timely(enu, Whole(enu, gps, maxDiff, size).gps + [g])
    ensures Arrive(Kept(enu, gps, maxDiff, size), Gps(g), maxDiff, size) == Kept(enu, gps + [g], maxDiff, size)
  {
    var s := Whole(enu, gps, maxDiff, size);
    assert Push(s.gps, g, GPS_MAX) == s.gps + [g];
    DrainFromTail(enu, s.gps + [g], s.window, maxDiff, size);
    MoreFixes(enu, gps, g, maxDiff, size);
  }

  /** After any run, however long, the buffers are those that the two streams, taken as a whole, call for. */
  lemma {:induction false} RunIsWhole(run: seq<Arrival>, maxDiff: real, size: nat)
    requires Ordered(EnuOf(run)) && Prompt(run, maxDiff, size)
    ensures After(run, maxDiff, size) == Kept(EnuOf(run), GpsOf(run), maxDiff, size)
  {
    if run != [] {
      var init, a := run[..|run| - 1], run[|run| - 1];
      if a.Enu? {
        OrderedPrefix(EnuOf(init), a.e);
      } else {
        assert EnuOf(run) == EnuOf(init) + [] == EnuOf(init);
      }
      assert a.Enu? ==> GpsOf(run) == GpsOf(init) + [] == GpsOf(init);
      RunIsWhole(init, maxDiff, size);
      var pending := After(init, maxDiff, size).gps;
      if a.Enu? {
        assert pending + [] == pending;
        ArriveEnu(EnuOf(init), GpsOf(init), a.e, maxDiff, size);
      } else {
        ArriveGps(EnuOf(init), GpsOf(init), a.g, maxDiff, size);
      }
    }
  }

  /** Two interleavings of the same two streams end in the same state. */
  lemma ArrivalOrderDoesNotMatter(run: seq<Arrival>, run': seq<Arrival>, maxDiff: real, size: nat)
    requires EnuOf(run) == EnuOf(run') && GpsOf(run) == GpsOf(run') && Ordered(EnuOf(run))
    requires Prompt(run, maxDiff, size) && Prompt(run', maxDiff, size)
    ensures After(run, maxDiff, size) == After(run', maxDiff, size)
  {
    RunIsWhole(run, maxDiff, size);
    RunIsWhole(run', maxDiff, size);
  }

  /** In particular when neither buffer ever has to give up an element. */
  ghost predicate Roomy(run: seq<Arrival>, maxDiff: real, size: nat) {
    run == [] ||
    var init, a := run[..|run| - 1], run[|run| - 1];
    var s := After(init, maxDiff, size);
    Roomy(init, maxDiff, size) && (if a.Enu? then |s.enu| < ENU_MAX else |s.gps| < GPS_MAX)
  }

  lemma {:induction false} RoomyIsPrompt(run: seq<Arrival>, maxDiff: real, size: nat)
    requires Roomy(run, maxDiff, size)
    ensures Prompt(run, maxDiff, size) && |EnuOf(run)| <= ENU_MAX && |After(run, maxDiff, size).gps| <= GPS_MAX
    ensures After(run, maxDiff, size).enu == EnuOf(run)
  {
    if run != [] {
      RoomyIsPrompt(run[..|run| - 1], maxDiff, size);
    }
  }

  // ---------- what a pair is ----------

  /** `p` is a fix of the stream, at the point a fraction `k` between two adjacent positions around it. */
  ghost predicate Interpolated(enu: seq<StampedENU>, gps: seq<StampedGPS>, maxDiff: real, p: SyncedPair, i: nat, k: real) {
    && i + 1 < |enu| && Brackets(enu, i, p.time)
    && enu[i + 1].time - enu[i].time <= maxDiff
    && 0.0 <= k <= 1.0 && p.enu == Lerp(enu[i].position, enu[i + 1].position, k)
    && StampedGPS(p.time, p.gps) in gps
  }

  ghost predicate Sound(enu: seq<StampedENU>, gps: seq<StampedGPS>, maxDiff: real, p: SyncedPair) {
    exists i, k :: Interpolated(enu, gps, maxDiff, p, i, k)
  }

  lemma Fraction(a: real, t: real, b: real)
    requires a <= t <= b && a < b
    ensures 0.0 <= (t - a) / (b - a) <= 1.0
  {
    Ratio(t - a, b - a);
  }

  lemma PairIsSound(enu: seq<StampedENU>, gps: seq<StampedGPS>, maxDiff: real, g: StampedGPS)
    requires g in gps && Judge(enu, g.time, maxDiff).Pair?
    ensures Sound(enu, gps, maxDiff, SyncedPair(g.time, Judge(enu, g.time, maxDiff).enu, g.lonLatAlt))
  {
    var p := SyncedPair(g.time, Judge(enu, g.time, maxDiff).enu, g.lonLatAlt);
    var i := FirstBracket(enu, g.time, 0).value;
    var a, b := enu[i], enu[i + 1];
    if b.time - a.time < MIN_GAP {
      assert Lerp(a.position, b.position, 0.0) == a.position;
      assert Interpolated(enu, gps, maxDiff, p, i, 0.0);
    } else {
      Fraction(a.time, g.time, b.time);
      assert Interpolated(enu, gps, maxDiff, p, i, (g.time - a.time) / (b.time - a.time));
    }
  }

  lemma {:induction false} PairsAreSound(enu: seq<StampedENU>, gps: seq<StampedGPS>, all: seq<StampedGPS>, maxDiff: real)
    requires forall g :: g in gps ==> g in all
    ensures forall p :: p in Pairs(enu, gps, maxDiff) ==> Sound(enu, all, maxDiff, p)
  {
    if gps != [] {
      assert gps[0] in gps;
      PairsAreSound(enu, gps[1..], all, maxDiff);
      if Judge(enu, gps[0].time, maxDiff).Pair? {
        PairIsSound(enu, all, maxDiff, gps[0]);
      }
    }
  }

  /** Every pair in the window interpolates adjacent positions around a fix, close enough together. */
  lemma WindowIsSound(run: seq<Arrival>, maxDiff: real, size: nat)
    requires Ordered(EnuOf(run)) && Prompt(run, maxDiff, size)
    ensures forall p :: p in After(run, maxDiff, size).window ==> Sound(EnuOf(run), GpsOf(run), maxDiff, p)
  {
    RunIsWhole(run, maxDiff, size);
    var gps := GpsOf(run);
    var n := Settled(EnuOf(run), gps, maxDiff);
    PairsAreSound(EnuOf(run), gps[..n], gps, maxDiff);
  }

  // ---------- what a verdict means ----------

  /** A fix waits until the positions reach past it, and is given up if they begin after it. */
  lemma WaitsExactly(enu: seq<StampedENU>, t: real, maxDiff: real)
    ensures Judge(enu, t, maxDiff).Wait? <==> |enu| < 2 || (enu[0].time <= t && t > enu[|enu| - 1].time)
    ensures |enu| >= 2 && t < enu[0].time ==> Judge(enu, t, maxDiff).Discard?
  {
  }

  predicate Splits(v: real, a: real, b: real, t: real, s: real, e: real) {
    (v - a) * (e - s) == (b - a) * (t - s)
  }

  lemma LerpSplits(a: real, b: real, t: real, s: real, e: real, k: real)
    requires e > s && k == (t - s) / (e - s)
    ensures Splits(a + k * (b - a), a, b, t, s, e)
  {
    assert k * (e - s) == t - s;
    assert k * (b - a) * (e - s) == (b - a) * (k * (e - s));
  }

  predicate VecSplits(v: Vec3, a: StampedENU, b: StampedENU, t: real) {
    && Splits(v.x, a.position.x, b.position.x, t, a.time, b.time)
    && Splits(v.y, a.position.y, b.position.y, t, a.time, b.time)
    && Splits(v.z, a.position.z, b.position.z, t, a.time, b.time)
  }

  lemma LerpVecSplits(a: StampedENU, b: StampedENU, t: real)
    requires b.time > a.time
    ensures VecSplits(Lerp(a.position, b.position, (t - a.time) / (b.time - a.time)), a, b, t)
  {
    var k := (t - a.time) / (b.time - a.time);
    LerpSplits(a.position.x, b.position.x, t, a.time, b.time, k);
    LerpSplits(a.position.y, b.position.y, t, a.time, b.time, k);
    LerpSplits(a.position.z, b.position.z, t, a.time, b.time, k);
  }

  /** Between two positions an interpolated one is linear in time on each coordinate; too close together, it is the first. */
  lemma BetweenIsLinear(enu: seq<StampedENU>, i: nat, t: real, maxDiff: real)
    requires i + 1 < |enu|
    ensures Between(enu, i, t, maxDiff).Some? <==> enu[i + 1].time - enu[i].time <= maxDiff
    ensures Between(enu, i, t, maxDiff).Some? ==>
      if enu[i + 1].time - enu[i].time < MIN_GAP then Between(enu, i, t, maxDiff).value == enu[i].position
      else VecSplits(Between(enu, i, t, maxDiff).value, enu[i], enu[i + 1], t)
  {
    if enu[i + 1].time - enu[i].time >= MIN_GAP {
      LerpVecSplits(enu[i], enu[i + 1], t);
    }
  }

  /**
   With ordered positions around it, a fix is paired exactly if the first two around it are close enough in time; the
   position is linear between them, on each coordinate.
   */
  lemma PairsLinearly(enu: seq<StampedENU>, t: real, maxDiff: real) returns (i: nat)
    requires Ordered(enu) && |enu| >= 2 && enu[0].time <= t <= enu[|enu| - 1].time
    ensures i + 1 < |enu| && enu[i].time <= t <= enu[i + 1].time && (i > 0 ==> enu[i].time < t)
    ensures Judge(enu, t, maxDiff).Pair? <==> enu[i + 1].time - enu[i].time <= maxDiff
    ensures Judge(enu, t, maxDiff).Pair? ==>
      var v := Judge(enu, t, maxDiff).enu;
      if enu[i + 1].time - enu[i].time < MIN_GAP then v == enu[i].position else VecSplits(v, enu[i], enu[i + 1], t)
  {
    BracketExists(enu, t, 0);
    i := FirstBracket(enu, t, 0).value;
    if i > 0 {
      assert !Brackets(enu, i - 1, t);
      EarlierStarts(enu, t, i);
    }
    BetweenIsLinear(enu, i, t, maxDiff);
  }

  lemma EarlierStarts(enu: seq<StampedENU>, t: real, i: nat)
    requires Ordered(enu) && 0 < i < |enu| && enu[i].time <= t
    ensures enu[i - 1].time <= t
  {
    assert enu[i - 1].time <= enu[i].time;
  }

  /** What is kept is the end of the sequence. */
  lemma NewestIsTheEnd<T>(s: seq<T>, n: nat)
    ensures |Newest(s, n)| == if |s| <= n then |s| else n
    ensures s[..|s| - |Newest(s, n)|] + Newest(s, n) == s
  {
  }
}
