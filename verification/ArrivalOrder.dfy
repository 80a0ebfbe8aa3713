/**
 Where the order of arrival matters after all: exactly when one position and one fix can change places.
 */
module ArrivalOrder {
  import opened Basics
  import opened Planar
  import opened DatumSync

  function FixFirst(s: Sync, e: StampedENU, f: StampedGPS, maxDiff: real, size: nat): Sync {
    Arrive(Arrive(s, Gps(f), maxDiff, size), Enu(e), maxDiff, size)
  }

  function PositionFirst(s: Sync, e: StampedENU, f: StampedGPS, maxDiff: real, size: nat): Sync {
    Arrive(Arrive(s, Enu(e), maxDiff, size), Gps(f), maxDiff, size)
  }

  /** Whatever is in the window, both orders end in the same state. */
  ghost predicate OrderIsFree(enu: seq<StampedENU>, gps: seq<StampedGPS>, e: StampedENU, f: StampedGPS, maxDiff: real, size: nat) {
    forall window: seq<SyncedPair> :: SameEnd(Sync(enu, gps, window), e, f, maxDiff, size)
  }

  ghost predicate SameEnd(s: Sync, e: StampedENU, f: StampedGPS, maxDiff: real, size: nat) {
    |s.window| <= size ==> FixFirst(s, e, f, maxDiff, size) == PositionFirst(s, e, f, maxDiff, size)
  }

  lemma DrainNothing(enu: seq<StampedENU>, window: seq<SyncedPair>, maxDiff: real, size: nat)
    requires |window| <= size
    ensures Drain(Sync(enu, [], window), maxDiff, size) == Sync(enu, [], window)
  {
    DrainDone(Sync(enu, [], window), maxDiff, size);
  }

  lemma DrainOne(enu: seq<StampedENU>, f: StampedGPS, window: seq<SyncedPair>, maxDiff: real, size: nat)
    requires |window| <= size
    ensures Drain(Sync(enu, [f], window), maxDiff, size) ==
      if Judge(enu, f.time, maxDiff).Wait? then Sync(enu, [f], window)
      else Sync(enu, [], Record(window, f, Judge(enu, f.time, maxDiff), size))
  {
    var s := Sync(enu, [f], window);
    if Judge(enu, f.time, maxDiff).Wait? {
      DrainDone(s, maxDiff, size);
    } else {
      DrainHead(s, maxDiff, size);
      assert [f][1..] == [];
      DrainNothing(enu, Record(window, f, Judge(enu, f.time, maxDiff), size), maxDiff, size);
    }
  }

  /** The end when the positions `enu` are the ones that judge the fix. */
  function Judged(enu: seq<StampedENU>, window: seq<SyncedPair>, f: StampedGPS, v: Verdict, size: nat): Sync {
    if v.Wait? then Sync(enu, [f], window) else Sync(enu, [], Record(window, f, v, size))
  }

  lemma FixAlone(enu: seq<StampedENU>, window: seq<SyncedPair>, f: StampedGPS, maxDiff: real, size: nat)
    requires |window| <= size
    ensures Arrive(Sync(enu, [], window), Gps(f), maxDiff, size) == Judged(enu, window, f, Judge(enu, f.time, maxDiff), size)
  {
    assert Push([], f, GPS_MAX) == [f];
    DrainOne(enu, f, window, maxDiff, size);
  }

  lemma PositionAlone(enu: seq<StampedENU>, window: seq<SyncedPair>, e: StampedENU, maxDiff: real, size: nat)
    requires |window| <= size
    ensures Arrive(Sync(enu, [], window), Enu(e), maxDiff, size) == Sync(Push(enu, e, ENU_MAX), [], window)
  {
    DrainNothing(Push(enu, e, ENU_MAX), window, maxDiff, size);
  }

  lemma PositionAfterFix(enu: seq<StampedENU>, window: seq<SyncedPair>, e: StampedENU, f: StampedGPS, v: Verdict, maxDiff: real, size: nat)
    requires |window| <= size
    ensures var more := Push(enu, e, ENU_MAX);
            Arrive(Judged(enu, window, f, v, size), Enu(e), maxDiff, size) ==
              Judged(more, window, f, if v.Wait? then Judge(more, f.time, maxDiff) else v, size)
  {
    if v.Wait? {
      DrainOne(Push(enu, e, ENU_MAX), f, window, maxDiff, size);
    } else {
      PositionAlone(enu, Record(window, f, v, size), e, maxDiff, size);
    }
  }

  lemma EndWithFixFirst(enu: seq<StampedENU>, window: seq<SyncedPair>, e: StampedENU, f: StampedGPS, more: seq<StampedENU>, v: Verdict, maxDiff: real, size: nat)
    requires |window| <= size && more == Push(enu, e, ENU_MAX)
    requires v == if Judge(enu, f.time, maxDiff).Wait? then Judge(more, f.time, maxDiff) else Judge(enu, f.time, maxDiff)
    ensures FixFirst(Sync(enu, [], window), e, f, maxDiff, size) == Judged(more, window, f, v, size)
  {
    FixAlone(enu, window, f, maxDiff, size);
    PositionAfterFix(enu, window, e, f, Judge(enu, f.time, maxDiff), maxDiff, size);
  }

  lemma EndWithPositionFirst(enu: seq<StampedENU>, window: seq<SyncedPair>, e: StampedENU, f: StampedGPS, more: seq<StampedENU>, maxDiff: real, size: nat)
    requires |window| <= size && Arrive(Sync(enu, [], window), Enu(e), maxDiff, size) == Sync(more, [], window)
    ensures PositionFirst(Sync(enu, [], window), e, f, maxDiff, size) == Judged(more, window, f, Judge(more, f.time, maxDiff), size)
  {
    FixAlone(more, window, f, maxDiff, size);
  }

  /** For an empty queue the ends are those of the verdicts before and after the position. */
  lemma EndsOfOne(enu: seq<StampedENU>, window: seq<SyncedPair>, e: StampedENU, f: StampedGPS, more: seq<StampedENU>, v: Verdict, maxDiff: real, size: nat)
    requires |window| <= size && more == Push(enu, e, ENU_MAX)
    requires v == if Judge(enu, f.time, maxDiff).Wait? then Judge(more, f.time, maxDiff) else Judge(enu, f.time, maxDiff)
    ensures FixFirst(Sync(enu, [], window), e, f, maxDiff, size) == Judged(more, window, f, v, size)
    ensures PositionFirst(Sync(enu, [], window), e, f, maxDiff, size) == Judged(more, window, f, Judge(more, f.time, maxDiff), size)
  {
    EndWithFixFirst(enu, window, e, f, more, v, maxDiff, size);
    PositionAlone(enu, window, e, maxDiff, size);
    EndWithPositionFirst(enu, window, e, f, more, maxDiff, size);
  }

  lemma FirstRecord(f: StampedGPS, v: Verdict, size: nat)
    ensures Record([], f, v, size) == if size > 0 && v.Pair? then [SyncedPair(f.time, v.enu, f.lonLatAlt)] else []
  {
  }

  /** With an empty queue, only the verdicts before and after the position matter. */
  lemma FreeByVerdicts(enu: seq<StampedENU>, e: StampedENU, f: StampedGPS, maxDiff: real, size: nat)
    ensures var before, after := Judge(enu, f.time, maxDiff), Judge(Push(enu, e, ENU_MAX), f.time, maxDiff);
            OrderIsFree(enu, [], e, f, maxDiff, size) <==> before.Wait? || before == after || (size == 0 && !after.Wait?)
  {
    var more := Push(enu, e, ENU_MAX);
    var before, after := Judge(enu, f.time, maxDiff), Judge(more, f.time, maxDiff);
    if before.Wait? || before == after || (size == 0 && !after.Wait?) {
      forall window: seq<SyncedPair> ensures SameEnd(Sync(enu, [], window), e, f, maxDiff, size) {
        if |window| <= size { EndsOfOne(enu, window, e, f, more, if before.Wait? then after else before, maxDiff, size); }
      }
    } else {
      EndsOfOne(enu, [], e, f, more, before, maxDiff, size);
      FirstRecord(f, before, size);
      FirstRecord(f, after, size);
      assert !SameEnd(Sync(enu, [], []), e, f, maxDiff, size);
    }
  }

  /** The positions so far surround the fix. */
  predicate Surrounded(enu: seq<StampedENU>, t: real) {
    |enu| >= 2 && enu[0].time <= t <= enu[|enu| - 1].time
  }

  lemma VerdictWithNext(enu: seq<StampedENU>, e: StampedENU, t: real, maxDiff: real)
    requires Ordered(enu)
    ensures Surrounded(enu, t) ==> !Judge(enu, t, maxDiff).Wait?
    ensures Surrounded(enu, t) ==> Judge(enu + [e], t, maxDiff) == if e.time < t then Wait else Judge(enu, t, maxDiff)
    ensures !Surrounded(enu, t) ==> Judge(enu, t, maxDiff).Wait? || Judge(enu + [e], t, maxDiff) == Judge(enu, t, maxDiff)
  {
    if Surrounded(enu, t) {
      BracketExists(enu, t, 0);
      BracketStands(enu, e, t, 0);
    }
  }

  /**
   With room in both buffers the order of a position and a fix is free unless the position goes back in
   time behind a fix that is already surrounded; then the fix is settled in one order and waits in the other.
   */
  lemma BackwardPositionsDepend(enu: seq<StampedENU>, e: StampedENU, f: StampedGPS, maxDiff: real, size: nat)
    requires Ordered(enu) && |enu| < ENU_MAX
    ensures OrderIsFree(enu, [], e, f, maxDiff, size) <==> !(Surrounded(enu, f.time) && e.time < f.time)
  {
    assert Push(enu, e, ENU_MAX) == enu + [e];
    VerdictWithNext(enu, e, f.time, maxDiff);
    FreeByVerdicts(enu, e, f, maxDiff, size);
  }

  /** What the oldest position in a full buffer decides about a fix. */
  predicate HangsOnOldest(enu: seq<StampedENU>, t: real, maxDiff: real)
    requires |enu| >= 3
  {
    var gap, next := enu[1].time - enu[0].time, enu[2].time - enu[1].time;
    && enu[0].time <= t <= enu[1].time
    && if t < enu[1].time then gap <= maxDiff
       else (gap <= maxDiff) != (next <= maxDiff) ||
            (gap <= maxDiff && gap < MIN_GAP && enu[0].position != enu[1].position)
  }

  lemma VerdictWithoutOldest(enu: seq<StampedENU>, e: StampedENU, t: real, maxDiff: real)
    requires Ordered(enu + [e]) && |enu| >= 3 && !Judge(enu, t, maxDiff).Wait?
    ensures !Judge(enu[1..] + [e], t, maxDiff).Wait?
    ensures Judge(enu[1..] + [e], t, maxDiff) == Judge(enu, t, maxDiff) <==> !HangsOnOldest(enu, t, maxDiff)
  {
    var tail := enu[1..];
    OrderedPrefix(enu, e);
    assert (enu + [e])[|enu|] == e && (enu + [e])[|enu| - 1] == enu[|enu| - 1];
    if enu[0].time <= t {
      BracketExists(enu, t, 0);
      BracketInTail(enu, 1, t, 0);
      if enu[1].time <= t {
        BracketExists(tail, t, 0);
        BracketStands(tail, e, t, 0);
        if t == enu[1].time {
          AtSecond(enu, maxDiff);
          assert FirstBracket(tail + [e], t, 0) == Some(0);
        }
      }
    }
  }

  /** At exactly the time of the second position, both of its gaps give that position or nothing. */
  lemma AtSecond(enu: seq<StampedENU>, maxDiff: real)
    requires Ordered(enu) && |enu| >= 3
    ensures var t := enu[1].time;
            var gap, next := t - enu[0].time, enu[2].time - t;
            && Between(enu, 0, t, maxDiff) ==
                 (if gap > maxDiff then None else Some(if gap < MIN_GAP then enu[0].position else enu[1].position))
            && Between(enu, 1, t, maxDiff) == (if next > maxDiff then None else Some(enu[1].position))
  {
    var a, b, c := enu[0], enu[1], enu[2];
    var gap := b.time - a.time;
    if gap >= MIN_GAP {
      assert (b.time - a.time) / gap == 1.0;
      assert Lerp(a.position, b.position, 1.0) == b.position;
    }
    if c.time - b.time >= MIN_GAP {
      assert (b.time - b.time) / (c.time - b.time) == 0.0;
      assert Lerp(b.position, c.position, 0.0) == b.position;
    }
  }

  /** With a full buffer of ordered positions, the order is free exactly if the verdict does not hang on the oldest. */
  lemma FullBufferDepends(enu: seq<StampedENU>, e: StampedENU, f: StampedGPS, maxDiff: real, size: nat)
    requires Ordered(enu + [e]) && |enu| == ENU_MAX
    ensures OrderIsFree(enu, [], e, f, maxDiff, size) <==> size == 0 || !HangsOnOldest(enu, f.time, maxDiff)
  {
    assert Push(enu, e, ENU_MAX) == enu[1..] + [e];
    OrderedPrefix(enu, e);
    FreeByVerdicts(enu, e, f, maxDiff, size);
    if Judge(enu, f.time, maxDiff).Wait? {
      assert enu[1].time <= enu[|enu| - 1].time;
    } else {
      VerdictWithoutOldest(enu, e, f.time, maxDiff);
    }
  }

  // ---------- the same behind a queue ----------

  /** Settling in two rounds, the second with more fixes settled, is settling once. */
  lemma DrainSplit(enu: seq<StampedENU>, gps: seq<StampedGPS>, n: nat, window: seq<SyncedPair>, maxDiff: real, size: nat)
    requires n <= |gps| && Settled(enu, gps, maxDiff) == n + Settled(enu, gps[n..], maxDiff)
    ensures Drain(Sync(enu, gps[n..], Newest(window + Pairs(enu, gps[..n], maxDiff), size)), maxDiff, size) ==
      Drain(Sync(enu, gps, window), maxDiff, size)
  {
    var k := Settled(enu, gps[n..], maxDiff);
    TakeDrop(gps, n, k);
    PairsAppend(enu, gps[..n], gps[n..][..k], maxDiff);
    WindowTwice(window, Pairs(enu, gps[..n], maxDiff), Pairs(enu, gps[n..][..k], maxDiff), size);
  }

  lemma WindowTwice(window: seq<SyncedPair>, a: seq<SyncedPair>, b: seq<SyncedPair>, size: nat)
    ensures Newest(Newest(window + a, size) + b, size) == Newest(window + (a + b), size)
  {
    NewestTwice(window + a, b, size);
    assert window + a + b == window + (a + b);
  }

  /** Settling, one fix more, settling again. */
  lemma DrainTwice(enu: seq<StampedENU>, gps: seq<StampedGPS>, g: StampedGPS, window: seq<SyncedPair>, maxDiff: real, size: nat)
    ensures var s := Drain(Sync(enu, gps, window), maxDiff, size);
            Drain(s.(gps := s.gps + [g]), maxDiff, size) == Drain(Sync(enu, gps + [g], window), maxDiff, size)
  {
    var n, more := Settled(enu, gps, maxDiff), gps + [g];
    SettledAppend(enu, gps, g, maxDiff);
    assert more[n..] == gps[n..] + [g] && more[..n] == gps[..n];
    DrainSplit(enu, more, n, window, maxDiff, size);
  }

  /** Settling, one position more, settling again. */
  lemma DrainWithNext(enu: seq<StampedENU>, e: StampedENU, gps: seq<StampedGPS>, window: seq<SyncedPair>, maxDiff: real, size: nat)
    requires Ordered(enu + [e])
    ensures Drain(Drain(Sync(enu, gps, window), maxDiff, size).(enu := enu + [e]), maxDiff, size) ==
      Drain(Sync(enu + [e], gps, window), maxDiff, size)
  {
    SettledStands(enu, e, gps, maxDiff);
    DrainSplit(enu + [e], gps, Settled(enu, gps, maxDiff), window, maxDiff, size);
  }

  /** Behind a fix that waits, as long as the queue has room, the order is free, whatever the position. */
  lemma FreeBehindQueue(enu: seq<StampedENU>, gps: seq<StampedGPS>, e: StampedENU, f: StampedGPS, maxDiff: real, size: nat)
    requires 0 < |gps| < GPS_MAX && Judge(enu, gps[0].time, maxDiff).Wait?
    ensures OrderIsFree(enu, gps, e, f, maxDiff, size)
  {
    forall window: seq<SyncedPair> ensures SameEnd(Sync(enu, gps, window), e, f, maxDiff, size) {
      if |window| <= size {
        var more := Push(enu, e, ENU_MAX);
        var s := Drain(Sync(more, gps, window), maxDiff, size);
        assert Push(gps, f, GPS_MAX) == gps + [f] && Push(s.gps, f, GPS_MAX) == s.gps + [f];
        assert Settled(enu, gps + [f], maxDiff) == 0;
        DrainDone(Sync(enu, gps + [f], window), maxDiff, size);
        DrainTwice(more, gps, f, window, maxDiff, size);
      }
    }
  }

  /** The pairs that a queue gives as far as it settles. */
  function Yield(enu: seq<StampedENU>, gps: seq<StampedGPS>, maxDiff: real): seq<SyncedPair> {
    Pairs(enu, gps[..Settled(enu, gps, maxDiff)], maxDiff)
  }

  /** The two ends for a full queue: the head is given up, or settled first if the position settles it. */
  lemma EndsOfFullQueue(enu: seq<StampedENU>, gps: seq<StampedGPS>, window: seq<SyncedPair>, e: StampedENU, f: StampedGPS, maxDiff: real, size: nat)
    requires |window| <= size && |gps| == GPS_MAX && Ordered(enu + [e]) && |enu| < ENU_MAX
    ensures var s, more, rest := Sync(enu, gps, window), enu + [e], gps[1..] + [f];
            var v := Judge(more, gps[0].time, maxDiff);
            && FixFirst(s, e, f, maxDiff, size) == Drain(Sync(more, rest, window), maxDiff, size)
            && PositionFirst(s, e, f, maxDiff, size) == Drain(Sync(more, rest, Record(window, gps[0], v, size)), maxDiff, size)
  {
    var more, rest := enu + [e], gps[1..] + [f];
    assert Push(enu, e, ENU_MAX) == more && Push(gps, f, GPS_MAX) == rest;
    var t := Drain(Sync(enu, rest, window), maxDiff, size);
    DrainWithNext(enu, e, rest, window, maxDiff, size);
    assert Push(t.enu, e, ENU_MAX) == more;
    var s := Drain(Sync(more, gps, window), maxDiff, size);
    if Judge(more, gps[0].time, maxDiff).Wait? {
      DrainDone(Sync(more, gps, window), maxDiff, size);
    } else {
      assert |s.gps| < |gps|;
      assert Push(s.gps, f, GPS_MAX) == s.gps + [f];
      DrainTwice(more, gps, f, window, maxDiff, size);
      assert (gps + [f])[1..] == rest && (gps + [f])[0] == gps[0];
      DrainHead(Sync(more, gps + [f], window), maxDiff, size);
    }
  }

  lemma WindowForgets(window: seq<SyncedPair>, x: SyncedPair, later: seq<SyncedPair>, size: nat)
    ensures |later| >= size ==> Newest(Push(window, x, size) + later, size) == Newest(window + later, size)
    ensures |later| < size ==> Newest(Push([], x, size) + later, size) != Newest([] + later, size)
  {
    if |later| < size {
      assert |Newest(Push([], x, size) + later, size)| == |later| + 1;
      assert |Newest([] + later, size)| == |later|;
    }
  }

  /**
   With a full queue the order is free exactly if the position does not pair the oldest fix, or pairs so many
   more that the window forgets it: in the other order that fix is given up.
   */
  lemma FullQueueDepends(enu: seq<StampedENU>, gps: seq<StampedGPS>, e: StampedENU, f: StampedGPS, maxDiff: real, size: nat)
    requires |gps| == GPS_MAX && Ordered(enu + [e]) && |enu| < ENU_MAX
    ensures OrderIsFree(enu, gps, e, f, maxDiff, size) <==>
      !Judge(enu + [e], gps[0].time, maxDiff).Pair? || |Yield(enu + [e], gps[1..] + [f], maxDiff)| >= size
  {
    var v := Judge(enu + [e], gps[0].time, maxDiff);
    var later := Yield(enu + [e], gps[1..] + [f], maxDiff);
    if !v.Pair? || |later| >= size {
      forall window: seq<SyncedPair> ensures SameEnd(Sync(enu, gps, window), e, f, maxDiff, size) {
        if |window| <= size {
          EndsOfFullQueue(enu, gps, window, e, f, maxDiff, size);
          if v.Pair? { WindowForgets(window, SyncedPair(gps[0].time, v.enu, gps[0].lonLatAlt), later, size); }
        }
      }
    } else {
      EndsOfFullQueue(enu, gps, [], e, f, maxDiff, size);
      WindowForgets([], SyncedPair(gps[0].time, v.enu, gps[0].lonLatAlt), later, size);
      assert !SameEnd(Sync(enu, gps, []), e, f, maxDiff, size);
    }
  }

  // ---------- one instance of each ----------

  /** A position at time 1 after one at time 2, and a fix between them. */
  lemma BackwardInstance(p: Vec3, g: Vec3)
    ensures !OrderIsFree([StampedENU(0.0, p), StampedENU(2.0, p)], [], StampedENU(1.0, p), StampedGPS(1.5, g), 2.0, 1)
  {
    BackwardPositionsDepend([StampedENU(0.0, p), StampedENU(2.0, p)], StampedENU(1.0, p), StampedGPS(1.5, g), 2.0, 1);
  }

  /** A position each second, and a fix half a second after the oldest that the buffer keeps. */
  lemma FullBufferInstance(p: Vec3, g: Vec3)
    ensures !OrderIsFree(seq(ENU_MAX, i => StampedENU(i as real, p)), [], StampedENU(200.0, p), StampedGPS(0.5, g), 1.0, 1)
  {
    var enu := seq(ENU_MAX, i => StampedENU(i as real, p));
    assert HangsOnOldest(enu, 0.5, 1.0);
    FullBufferDepends(enu, StampedENU(200.0, p), StampedGPS(0.5, g), 1.0, 1);
  }

  /** One position, and a full queue of fixes of which the next position settles the first only. */
  lemma FullQueueInstance(p: Vec3, g: Vec3)
    ensures !OrderIsFree([StampedENU(0.0, p)], seq(GPS_MAX, i => StampedGPS(if i == 0 then 0.5 else 2.0, g)),
                         StampedENU(1.0, p), StampedGPS(2.0, g), 1.0, 1)
  {
    var enu, e, f := [StampedENU(0.0, p)], StampedENU(1.0, p), StampedGPS(2.0, g);
    var gps := seq(GPS_MAX, i => StampedGPS(if i == 0 then 0.5 else 2.0, g));
    assert Judge(enu + [e], 0.5, 1.0).Pair?;
    var rest := gps[1..] + [f];
    assert rest[0].time == 2.0 && Settled(enu + [e], rest, 1.0) == 0;
    FullQueueDepends(enu, gps, e, f, 1.0, 1);
  }
}
