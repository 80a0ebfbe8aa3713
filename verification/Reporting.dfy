/**
 A variable that many threads write and one reporter sends out: the flag-and-data handshake, the
 reporter's memory of what it sent, and its rate limit.
 */
module Reporting {
  import opened Basics

  /** Whether a value differs enough from the one last reported. */
  type Checker<!V> = (V, V) -> bool

  datatype Setup<!V> = Setup(comparable: bool, checker: Option<Checker<V>>, hz: real)

  // ---------- the rate limiter ----------

  predicate Accepts(hz: real, last: real, now: real) {
    hz > 0.0 && now - last >= 1.0 / hz
  }

  class RateLimiter {
    var lastTime: real
    const hz: real
    const interval: real

    constructor (hz: real)
      ensures this.hz == hz && lastTime == 0.0
      ensures hz > 0.0 ==> interval == 1.0 / hz
    {
      this.hz := hz;
      interval := if hz > 0.0 then 1.0 / hz else 0.0;
      lastTime := 0.0;
    }

    method CheckAndUpdate(now: real) returns (ok: bool)
      requires hz > 0.0 ==> interval == 1.0 / hz
      modifies this
      ensures ok == Accepts(hz, old(lastTime), now)
      ensures ok <==> hz > 0.0 && now - old(lastTime) >= 1.0 / hz
      ensures lastTime == if ok then now else old(lastTime)
    {
      if hz <= 0.0 {
        return false;
      }
      if now - lastTime >= interval {
        lastTime := now;
        return true;
      }
      return false;
    }
  }

  /** The accepted ones of the times at which the limiter is asked. */
  function Accepted(hz: real, last: real, times: seq<real>): seq<real>
    decreases |times|
  {
    if times == [] then []
    else if Accepts(hz, last, times[0]) then [times[0]] + Accepted(hz, times[0], times[1..])
    else Accepted(hz, last, times[1..])
  }

  /** How many of the times lie in a window. */
  function CountIn(times: seq<real>, from: real, to: real): nat {
    if times == [] then 0 else (if from <= times[0] <= to then 1 else 0) + CountIn(times[1..], from, to)
  }

  /** Each accepted time is an interval after the one before, even if the clock runs backwards in between. */
  lemma {:induction false} AcceptedApart(hz: real, last: real, times: seq<real>, i: nat, j: nat)
    requires hz > 0.0 && i < j < |Accepted(hz, last, times)|
    ensures var a := Accepted(hz, last, times);
            a[0] >= last + 1.0 / hz && a[j] >= a[i] + 1.0 / hz
    decreases |times|
  {
    if Accepts(hz, last, times[0]) {
      var rest := Accepted(hz, times[0], times[1..]);
      AfterLast(hz, times[0], times[1..], j - 1);
      if i > 0 {
        AcceptedApart(hz, times[0], times[1..], i - 1, j - 1);
      }
    } else {
      AcceptedApart(hz, last, times[1..], i, j);
    }
  }

  lemma {:induction false} AfterLast(hz: real, last: real, times: seq<real>, i: nat)
    requires hz > 0.0 && i < |Accepted(hz, last, times)|
    ensures Accepted(hz, last, times)[i] >= last + 1.0 / hz
    decreases |times|
  {
    if Accepts(hz, last, times[0]) {
      if i > 0 { AfterLast(hz, times[0], times[1..], i - 1); }
    } else {
      AfterLast(hz, last, times[1..], i);
    }
  }

  lemma NotNegative(d: real, hz: real)
    requires d >= 0.0 && hz > 0.0
    ensures d * hz >= 0.0
  {
  }

  lemma Spread(hz: real, a: real, b: real, c: real)
    ensures (c - a) * hz == (c - b) * hz + (b - a) * hz
  {
  }

  /** From one accepted time to the next there is room for one. */
  lemma OneInterval(hz: real, last: real, now: real, to: real)
    requires Accepts(hz, last, now)
    ensures (to - last) * hz >= (to - now) * hz + 1.0
  {
    assert 1.0 / hz * hz == 1.0;
    NotNegative(now - last - 1.0 / hz, hz);
    assert (now - last - 1.0 / hz) * hz == (now - last) * hz - 1.0 / hz * hz;
    Spread(hz, last, now, to);
  }

  /** From an accepted time on, a window that reaches `d` further holds at most `d * hz` more. */
  lemma {:induction false} FewAfter(hz: real, last: real, times: seq<real>, from: real, to: real)
    requires hz > 0.0 && last <= to
    ensures CountIn(Accepted(hz, last, times), from, to) as real <= (to - last) * hz
    decreases |times|
  {
    NotNegative(to - last, hz);
    if times == [] {
    } else if Accepts(hz, last, times[0]) {
      var now, rest := times[0], Accepted(hz, times[0], times[1..]);
      assert Accepted(hz, last, times)[1..] == rest;
      if now <= to {
        FewAfter(hz, now, times[1..], from, to);
        OneInterval(hz, last, now, to);
      } else {
        NoneAfter(hz, now, times[1..], from, to);
      }
    } else {
      FewAfter(hz, last, times[1..], from, to);
    }
  }

  lemma {:induction false} NoneAfter(hz: real, last: real, times: seq<real>, from: real, to: real)
    requires hz > 0.0 && last > to
    ensures CountIn(Accepted(hz, last, times), from, to) == 0
    decreases |times|
  {
    if times == [] {
    } else if Accepts(hz, last, times[0]) {
      assert Accepted(hz, last, times)[1..] == Accepted(hz, times[0], times[1..]);
      NoneAfter(hz, times[0], times[1..], from, to);
    } else {
      NoneAfter(hz, last, times[1..], from, to);
    }
  }

  /** Any window of length T holds at most T * hz + 1 accepted times. */
  lemma {:induction false} WindowBound(hz: real, last: real, times: seq<real>, from: real, to: real)
    requires hz > 0.0 && from <= to
    ensures CountIn(Accepted(hz, last, times), from, to) as real <= (to - from) * hz + 1.0
    decreases |times|
  {
    NotNegative(to - from, hz);
    if times == [] {
    } else if Accepts(hz, last, times[0]) {
      var now, rest := times[0], Accepted(hz, times[0], times[1..]);
      assert Accepted(hz, last, times)[1..] == rest;
      if now < from {
        WindowBound(hz, now, times[1..], from, to);
      } else if now <= to {
        FewAfter(hz, now, times[1..], from, to);
        NotNegative(now - from, hz);
        Spread(hz, from, now, to);
      } else {
        NoneAfter(hz, now, times[1..], from, to);
      }
    } else {
      WindowBound(hz, last, times[1..], from, to);
    }
  }

  // ---------- the shared state ----------

  /** Where the reporter stands: it has seen the flag, or it has taken it and will read the data. */
  datatype ReporterAt = Free | Taking | Reading

  /** `pending` marks the writers that changed the data and have not yet raised the flag. */
  datatype State<V> = State(data: V, dirty: bool, pending: seq<bool>, at: ReporterAt, last: real,
                            consumed: Option<V>, reported: Option<V>, stream: seq<V>)

  function Initial<V>(v: V, writers: nat): State<V> {
    State(v, true, seq(writers, _ => false), Free, 0.0, None, None, [])
  }

  datatype Action<V> =
    | Store(i: nat, v: V)
    | Write(i: nat, v: V)
    | Raise(i: nat)
    | Mark
    | Poll(now: real)
    | Take
    | Read
    | Snapshot

  /** The value is sent unless the checker finds it too close to the last one. */
  predicate Sends<V(!new)>(x: Setup<V>, reported: Option<V>, v: V) {
    x.checker.None? || reported.None? || x.checker.value(v, reported.value)
  }

  /** One access to the shared state; an action that is not possible changes nothing. */
  function Step<V(==, !new)>(x: Setup<V>, s: State<V>, a: Action<V>): State<V> {
    match a
    case Store(i, v) =>
      if i >= |s.pending| || s.pending[i] || (x.comparable && s.data == v) then s
      else s.(data := v, pending := s.pending[i := true])
    case Write(i, v) =>
      if i >= |s.pending| || s.pending[i] then s else s.(data := v, pending := s.pending[i := true])
    case Raise(i) =>
      if i >= |s.pending| || !s.pending[i] then s else s.(dirty := true, pending := s.pending[i := false])
    case Mark => s.(dirty := true)
    case Poll(now) =>
      if s.at == Free && s.dirty && Accepts(x.hz, s.last, now) then s.(at := Taking, last := now) else s
    case Take =>
      if s.at != Taking then s else s.(dirty := false, at := if s.dirty then Reading else Free)
    case Read =>
      if s.at != Reading then s
      else if Sends(x, s.reported, s.data) then
        s.(at := Free, consumed := Some(s.data), reported := Some(s.data), stream := s.stream + [s.data])
      else s.(at := Free, consumed := Some(s.data))
    case Snapshot => if s.at == Free then s.(reported := Some(s.data)) else s
  }

  function Run<V(==, !new)>(x: Setup<V>, s: State<V>, run: seq<Action<V>>): State<V>
    decreases |run|
  {
    if run == [] then s else Run(x, Step(x, s, run[0]), run[1..])
  }

  /** Nothing is under way and the flag is down. */
  ghost predicate Quiet<V>(s: State<V>) {
    !s.dirty && s.at != Reading && forall i :: 0 <= i < |s.pending| ==> !s.pending[i]
  }

  // ---------- no update is lost ----------

  /** The value is the one last sent, or too close to it to be sent. */
  predicate Close<V(==, !new)>(x: Setup<V>, v: V, sent: V) {
    v == sent || (x.checker.Some? && !x.checker.value(v, sent))
  }

  /** Either the change is still announced, or it was consumed; and what was consumed is near what is remembered. */
  ghost predicate Inv<V(!new)>(x: Setup<V>, s: State<V>) {
    && (Quiet(s) ==> s.consumed == Some(s.data))
    && (Quiet(s) ==> s.reported.Some? && Close(x, s.data, s.reported.value))
  }

  lemma StepKeeps<V(!new)>(x: Setup<V>, s: State<V>, a: Action<V>)
    requires Inv(x, s)
    ensures Inv(x, Step(x, s, a))
  {
    var t := Step(x, s, a);
    match a
    case Store(i, v) => if t != s { assert t.pending[i]; }
    case Write(i, v) => if t != s { assert t.pending[i]; }
    case Raise(i) =>
    case Mark =>
    case Poll(now) =>
    case Take =>
    case Read =>
    case Snapshot =>
  }

  /** From any quiet or announced start, whatever the interleaving, and with snapshots at any time. */
  lemma {:induction false} NoLostUpdate<V(!new)>(x: Setup<V>, s: State<V>, run: seq<Action<V>>)
    requires Inv(x, s)
    ensures Inv(x, Run(x, s, run))
    decreases |run|
  {
    if run != [] {
      StepKeeps(x, s, run[0]);
      NoLostUpdate(x, Step(x, s, run[0]), run[1..]);
    }
  }

  /** When everything is quiet the reporter has consumed the current value, and remembers it or a close one. */
  lemma QuietIsCurrent<V(!new)>(x: Setup<V>, v: V, writers: nat, run: seq<Action<V>>)
    ensures var s := Run(x, Initial(v, writers), run);
            Quiet(s) ==> s.consumed == Some(s.data) && s.reported.Some? && Close(x, s.data, s.reported.value)
  {
    NoLostUpdate(x, Initial(v, writers), run);
  }

  /** A poll that is due, left alone, takes the flag down and consumes the data; it is sent unless the checker keeps it back. */
  lemma DueReportConsumes<V(!new)>(x: Setup<V>, s: State<V>, now: real)
    requires s.at == Free && s.dirty && x.hz > 0.0 && now - s.last >= 1.0 / x.hz
    ensures var t := Run(x, s, [Poll(now), Take, Read]);
            && t.at == Free && !t.dirty && t.last == now && t.data == s.data && t.consumed == Some(s.data)
            && (x.checker.None? || s.reported.None? || x.checker.value(s.data, s.reported.value) ==>
                 t.stream == s.stream + [s.data] && t.reported == Some(s.data))
            && (x.checker.Some? && s.reported.Some? && !x.checker.value(s.data, s.reported.value) ==>
                 t.stream == s.stream && t.reported == s.reported)
  {
    Three(x, s, Poll(now), Take, Read);
  }

  /** A poll that is not due, or finds nothing new, does nothing at all. */
  lemma IdlePollIsNothing<V(!new)>(x: Setup<V>, s: State<V>, now: real)
    requires s.at == Free && (!s.dirty || x.hz <= 0.0 || now - s.last < 1.0 / x.hz)
    ensures Run(x, s, [Poll(now), Take, Read]) == s
  {
    Three(x, s, Poll(now), Take, Read);
  }

  // ---------- what the receivers of the stream know ----------

  /** The last value in the stream is the current one or close to it. */
  predicate Told<V(==, !new)>(x: Setup<V>, s: State<V>) {
    s.stream != [] && Close(x, s.data, s.stream[|s.stream| - 1])
  }

  ghost predicate NoSnapshot<V>(run: seq<Action<V>>) {
    forall i :: 0 <= i < |run| ==> run[i] != Snapshot
  }

  /** The checker keeps nothing back. */
  ghost predicate KeepsNothing<V(!new)>(x: Setup<V>) {
    x.checker.Some? ==> forall v: V, w: V :: Passes(x.checker.value, v, w)
  }

  predicate Passes<V>(checker: Checker<V>, v: V, w: V) {
    checker(v, w)
  }

  ghost predicate StreamIsMemory<V(!new)>(s: State<V>) {
    s.reported == if s.stream == [] then None else Some(s.stream[|s.stream| - 1])
  }

  lemma {:induction false} MemoryFollowsStream<V(!new)>(x: Setup<V>, s: State<V>, run: seq<Action<V>>)
    requires StreamIsMemory(s) && NoSnapshot(run)
    ensures StreamIsMemory(Run(x, s, run))
    decreases |run|
  {
    if run != [] {
      assert run[0] != Snapshot;
      assert NoSnapshot(run[1..]);
      MemoryFollowsStream(x, Step(x, s, run[0]), run[1..]);
    }
  }

  ghost predicate StreamIsConsumed<V(!new)>(s: State<V>) {
    s.consumed == if s.stream == [] then None else Some(s.stream[|s.stream| - 1])
  }

  lemma {:induction false} StreamFollowsData<V(!new)>(x: Setup<V>, s: State<V>, run: seq<Action<V>>)
    requires StreamIsConsumed(s) && KeepsNothing(x)
    ensures StreamIsConsumed(Run(x, s, run))
    decreases |run|
  {
    if run != [] {
      assert s.reported.Some? && x.checker.Some? ==> Passes(x.checker.value, s.data, s.reported.value);
      StreamFollowsData(x, Step(x, s, run[0]), run[1..]);
    }
  }

  /** Without snapshots the stream tells the current value, whatever the checker keeps back. */
  lemma StreamTellsWithoutSnapshots<V(!new)>(x: Setup<V>, v: V, writers: nat, run: seq<Action<V>>)
    requires NoSnapshot(run)
    ensures var s := Run(x, Initial(v, writers), run); Quiet(s) ==> Told(x, s)
  {
    NoLostUpdate(x, Initial(v, writers), run);
    MemoryFollowsStream(x, Initial(v, writers), run);
  }

  /** With a snapshot, a value that the checker keeps back is never told: the stream stays empty. */
  lemma SnapshotHidesUpdate<V(!new)>(x: Setup<V>, v: V, w: V)
    requires x.hz > 0.0 && x.checker.Some? && !x.checker.value(v, w)
    ensures var s := Run(x, Initial(w, 1), [Snapshot, Write(0, v), Raise(0), Poll(1.0 / x.hz), Take, Read]);
            Quiet(s) && s.data == v && s.stream == []
  {
    var s0 := Initial(w, 1);
    var s1 := Step(x, s0, Snapshot);
    var s2 := Step(x, s1, Write(0, v));
    var s3 := Step(x, s2, Raise(0));
    var s4 := Step(x, s3, Poll(1.0 / x.hz));
    var s5 := Step(x, s4, Take);
    var s6 := Step(x, s5, Read);
    assert s6 == State(v, false, [false], Free, 1.0 / x.hz, Some(v), Some(w), []);
    assert Run(x, s6, []) == s6;
    assert Run(x, s5, [Read]) == s6;
    assert Run(x, s4, [Take, Read]) == Run(x, s5, [Read]);
    assert Run(x, s3, [Poll(1.0 / x.hz), Take, Read]) == Run(x, s4, [Take, Read]);
    assert Run(x, s2, [Raise(0), Poll(1.0 / x.hz), Take, Read]) == Run(x, s3, [Poll(1.0 / x.hz), Take, Read]);
    assert Run(x, s1, [Write(0, v), Raise(0), Poll(1.0 / x.hz), Take, Read])
      == Run(x, s2, [Raise(0), Poll(1.0 / x.hz), Take, Read]);
    assert Run(x, s0, [Snapshot, Write(0, v), Raise(0), Poll(1.0 / x.hz), Take, Read])
      == Run(x, s1, [Write(0, v), Raise(0), Poll(1.0 / x.hz), Take, Read]);
  }

  ghost predicate AlwaysTold<V(!new)>(x: Setup<V>) {
    forall v: V, writers: nat, run: seq<Action<V>> ::
      Quiet(Run(x, Initial(v, writers), run)) ==> Told(x, Run(x, Initial(v, writers), run))
  }

  /** With snapshots the stream tells every value exactly if the checker keeps nothing back. */
  lemma StreamTellsExactly<V(!new)>(x: Setup<V>)
    requires x.hz > 0.0
    ensures AlwaysTold(x) <==> KeepsNothing(x)
  {
    if KeepsNothing(x) {
      forall v: V, writers: nat, run: seq<Action<V>> | Quiet(Run(x, Initial(v, writers), run))
        ensures Told(x, Run(x, Initial(v, writers), run))
      {
        NoLostUpdate(x, Initial(v, writers), run);
        StreamFollowsData(x, Initial(v, writers), run);
      }
    } else {
      var v: V, w: V :| !Passes(x.checker.value, v, w);
      SnapshotHidesUpdate(x, v, w);
    }
  }

  // ---------- the methods, run without interruption ----------

  class DirtyVar<V(==, !new)> {
    var data: V
    var dirty: bool

    constructor (initial: V)
      ensures data == initial && dirty
    {
      data := initial;
      dirty := true;
    }

    method Store(v: V, comparable: bool)
      modifies this
      ensures data == v
      ensures dirty == (old(dirty) || !comparable || old(data) != v)
    {
      if comparable && data == v {
        return;
      }
      data := v;
      dirty := true;
    }

    method ConsumeIfDirty() returns (out: Option<V>)
      modifies this
      ensures out == (if old(dirty) then Some(data) else None)
      ensures !dirty && data == old(data)
    {
      if !dirty {
        return None;
      }
      dirty := false;
      return Some(data);
    }

    method MarkDirty()
      modifies this
      ensures dirty && data == old(data)
    {
      dirty := true;
    }
  }

  class ReportableBinding<V(==, !new)> {
    const target: DirtyVar<V>
    const rate: RateLimiter
    const setup: Setup<V>
    var lastReported: Option<V>

    ghost predicate Valid()
      reads this
    {
      rate.hz == setup.hz && (rate.hz > 0.0 ==> rate.interval == 1.0 / rate.hz)
    }

    /** What the binding and its variable are in the protocol, with nobody else at work. */
    ghost function Abstract(): State<V>
      reads this, target, rate
    {
      State(target.data, target.dirty, [], Free, rate.lastTime, None, lastReported, [])
    }

    constructor (target: DirtyVar<V>, setup: Setup<V>)
      ensures Valid() && this.target == target && this.setup == setup && fresh(rate)
      ensures lastReported.None? && rate.lastTime == 0.0
    {
      this.target := target;
      this.setup := setup;
      rate := new RateLimiter(setup.hz);
      lastReported := None;
    }

    method TryReport(now: real) returns (sent: Option<V>)
      requires Valid()
      modifies this, target, rate
      ensures Valid()
      ensures var s := Run(setup, old(Abstract()), [Poll(now), Take, Read]);
              Abstract() == s.(consumed := None, stream := []) &&
              s.stream == (if sent.Some? then [sent.value] else [])
    {
      ghost var s0 := Abstract();
      ghost var s1 := Step(setup, s0, Poll(now));
      ghost var s2 := Step(setup, s1, Take);
      assert Run(setup, s0, [Poll(now), Take, Read]) == Step(setup, s2, Read) by {
        Three(setup, s0, Poll(now), Take, Read);
      }
      if !target.dirty {
        return None;
      }
      var ok := rate.CheckAndUpdate(now);
      if !ok {
        return None;
      }
      var val := target.ConsumeIfDirty();
      if val.Some? {
        if setup.checker.Some? && lastReported.Some? {
          if !setup.checker.value(val.value, lastReported.value) {
            return None;
          }
        }
        lastReported := val;
        return val;
      }
      return None;
    }

    method AppendFullState() returns (out: V)
      requires Valid()
      modifies this
      ensures Valid() && out == target.data
      ensures Abstract() == Step(setup, old(Abstract()), Snapshot)
    {
      out := target.data;
      lastReported := Some(out);
    }
  }

  lemma Three<V(!new)>(x: Setup<V>, s: State<V>, a: Action<V>, b: Action<V>, c: Action<V>)
    ensures Run(x, s, [a, b, c]) == Step(x, Step(x, Step(x, s, a), b), c)
  {
    assert [a, b, c][1..] == [b, c] && [b, c][1..] == [c] && [c][1..] == [];
    var s1 := Step(x, s, a);
    var s2 := Step(x, s1, b);
    var s3 := Step(x, s2, c);
    assert Run(x, s2, [c]) == Run(x, s3, []) == s3;
    assert Run(x, s1, [b, c]) == Run(x, s2, [c]);
    assert Run(x, s, [a, b, c]) == Run(x, s1, [b, c]);
  }
}
