/**
 Pace control for discovery (internal/usecase/discovery_rate_limit.go): how fast a
 plugin may publish, and how fast the host may tell the frontend to redraw.
 Instants are counted in nanoseconds and handed in. Both controls keep
 their keys apart, so runs are told for one key: its lane.
 */
module Pace {
  import opened Basics

  const SECOND: int := 1_000_000_000
  const MAX_PUBLISH_PER_SECOND: nat := 20
  const COALESCE_INTERVAL: int := 100_000_000

  datatype Key = Key(connection: string, item: string)

  // ----- the publish limiter -----------------------------------------------------------

  datatype Window = Window(start: int, count: nat)

  predicate Opens(w: Option<Window>, at: int) {
    w.None? || at - w.value.start >= SECOND
  }

  function Counted(w: Option<Window>, at: int): Window {
    if Opens(w, at) then Window(at, 1) else Window(w.value.start, w.value.count + 1)
  }

  predicate Admits(w: Option<Window>, at: int) {
    Opens(w, at) || w.value.count < MAX_PUBLISH_PER_SECOND
  }

  class PublishLimiter {
    var windows: map<Key, Window>

    function Lane(key: Key): Option<Window>
      reads this
    {
      if key in windows then Some(windows[key]) else None
    }

    constructor ()
      ensures forall key :: Lane(key) == None
    {
      windows := map[];
    }

    method Allow(key: Key, at: int) returns (admitted: bool)
      modifies this
      ensures admitted == Admits(old(Lane(key)), at)
      ensures Lane(key) == Some(Counted(old(Lane(key)), at))
      ensures forall other :: other != key ==> Lane(other) == old(Lane(other))
    {
      if key !in windows || at - windows[key].start >= SECOND {
        windows := windows[key := Window(at, 1)];
        return true;
      }
      windows := windows[key := Window(windows[key].start, windows[key].count + 1)];
      return windows[key].count <= MAX_PUBLISH_PER_SECOND;
    }
  }

  /** The lane after publishes arrived at the given instants. */
  function After(calls: seq<int>): Option<Window> {
    if calls == [] then None
    else Some(Counted(After(calls[..|calls| - 1]), calls[|calls| - 1]))
  }

  predicate Monotone(times: seq<int>) {
    forall i, j :: 0 <= i < j < |times| ==> times[i] <= times[j]
  }

  /** How many of the calls were admitted at an instant from `from` up to, not including, `to`. */
  function Admitted(calls: seq<int>, from: int, to: int): nat {
    if calls == [] then 0
    else
      var n := |calls| - 1;
      Admitted(calls[..n], from, to)
      + if from <= calls[n] < to && Admits(After(calls[..n]), calls[n]) then 1 else 0
  }

  function Capped(n: nat): nat { if n <= MAX_PUBLISH_PER_SECOND then n else MAX_PUBLISH_PER_SECOND }

  lemma {:induction false} AdmittedSplits(calls: seq<int>, from: int, mid: int, to: int)
    requires from <= mid <= to
    ensures Admitted(calls, from, to) == Admitted(calls, from, mid) + Admitted(calls, mid, to)
    decreases |calls|
  {
    if calls != [] {
      AdmittedSplits(calls[..|calls| - 1], from, mid, to);
    }
  }

  /**
   What the window's counter says about the past: nothing was admitted a second
   or more past its start, the counter bounds what was admitted since, the call
   that opened it is one of those, and in the second before it fewer than the cap.
   */
  lemma {:induction false} WindowTellsThePast(calls: seq<int>, from: int, to: int)
    requires calls != [] && Monotone(calls)
    ensures var w := After(calls).value;
            var n := Admitted(calls, from, to);
            && w.count >= 1 && w.start <= calls[|calls| - 1]
            && (from >= w.start + SECOND ==> n == 0)
            && (from >= w.start ==> n <= Capped(w.count))
            && (from > w.start ==> n <= Capped(w.count) - 1)
            && (from > w.start - SECOND && to <= w.start ==> n <= MAX_PUBLISH_PER_SECOND - 1)
    decreases |calls|
  {
    var n := |calls| - 1;
    if n > 0 {
      WindowTellsThePast(calls[..n], from, to);
    } else {
      assert Admitted(calls[..n], from, to) == 0;
    }
  }

  /**
   The promise of the limiter, exactly: no half-open second, wherever it starts,
   sees more than 2 * 20 - 1 admitted publishes of one key.
   */
  lemma {:induction false} AnySecondAdmitsFewerThanTwice(calls: seq<int>, from: int)
    requires Monotone(calls)
    ensures Admitted(calls, from, from + SECOND) <= 2 * MAX_PUBLISH_PER_SECOND - 1
    decreases |calls|
  {
    if calls != [] {
      var n := |calls| - 1;
      AnySecondAdmitsFewerThanTwice(calls[..n], from);
      var start := After(calls).value.start;
      WindowTellsThePast(calls, from, from + SECOND);
      if from < start < from + SECOND {
        AdmittedSplits(calls, from, start, from + SECOND);
        WindowTellsThePast(calls, from, start);
        WindowTellsThePast(calls, start, from + SECOND);
      }
    }
  }

  /** How many calls came after the given instant, admitted or not. */
  function Arrived(calls: seq<int>, after: int): nat {
    if calls == [] then 0
    else Arrived(calls[..|calls| - 1], after) + if calls[|calls| - 1] > after then 1 else 0
  }

  lemma {:induction false} WindowCountsArrivals(calls: seq<int>, after: int)
    requires calls != [] && Monotone(calls) && after < After(calls).value.start
    ensures After(calls).value.start <= calls[|calls| - 1] && After(calls).value.count <= Arrived(calls, after)
    decreases |calls|
  {
    var n := |calls| - 1;
    if n > 0 && !Opens(After(calls[..n]), calls[n]) {
      WindowCountsArrivals(calls[..n], after);
    }
  }

  /** The other half: a publish is refused only where twenty calls came in the second before it. */
  lemma SparseIsAdmitted(calls: seq<int>, at: int)
    requires Monotone(calls) && Arrived(calls, at - SECOND) < MAX_PUBLISH_PER_SECOND
    ensures Admits(After(calls), at)
  {
    if !Opens(After(calls), at) {
      WindowCountsArrivals(calls, at - SECOND);
    }
  }

  function Burst(at: int, n: nat): seq<int> { seq(n, _ => at) }

  lemma {:induction false} BurstIsAdmitted(calls: seq<int>, at: int, n: nat, from: int, to: int)
    requires After(calls).Some? && !Opens(After(calls), at) && from <= at < to
    requires After(calls).value.count + n <= MAX_PUBLISH_PER_SECOND
    ensures After(calls + Burst(at, n)) == Some(Window(After(calls).value.start, After(calls).value.count + n))
    ensures Admitted(calls + Burst(at, n), from, to) == Admitted(calls, from, to) + n
    decreases n
  {
    if n == 0 {
      assert calls + Burst(at, n) == calls;
    } else {
      BurstIsAdmitted(calls, at, n - 1, from, to);
      var all := calls + Burst(at, n);
      assert all[..|all| - 1] == calls + Burst(at, n - 1);
    }
  }

  /** The bound is reached: 19 at the very end of one window and 20 at the start of the next. */
  lemma TheBoundIsReached()
    ensures var calls := [0] + Burst(SECOND - 1, 19) + [SECOND] + Burst(SECOND, 19);
            && Monotone(calls)
            && Admitted(calls, SECOND - 1, 2 * SECOND - 1) == 2 * MAX_PUBLISH_PER_SECOND - 1
  {
    var one := [0];
    assert After(one) == Some(Window(0, 1)) by { assert one[..0] == []; }
    assert Admitted(one, SECOND - 1, 2 * SECOND - 1) == 0 by { assert one[..0] == []; }
    BurstIsAdmitted(one, SECOND - 1, 19, SECOND - 1, 2 * SECOND - 1);
    var two := one + Burst(SECOND - 1, 19);
    var three := two + [SECOND];
    assert three[..|three| - 1] == two;
    BurstIsAdmitted(three, SECOND, 19, SECOND - 1, 2 * SECOND - 1);
  }

  // ----- the emit coalescer ---------------------------------------------------------------

  /** One node's lane: its window, whether a trailing emit is booked, the timers, and the emits made. */
  datatype Lane = Lane(last: Option<int>, pending: bool, timers: seq<int>, emits: seq<int>)

  const QUIET := Lane(None, false, [], [])

  datatype Op = Submit(at: int) | Fire(timer: nat, at: int)

  /** A timer is there to fire and never fires early. */
  predicate Enabled(l: Lane, op: Op) {
    op.Fire? ==> op.timer < |l.timers| && l.timers[op.timer] <= op.at
  }

  /** One step; a timer that cannot fire does nothing. */
  function Step(l: Lane, op: Op): Lane {
    match op
    case Submit(at) =>
      if l.last.Some? && at - l.last.value < COALESCE_INTERVAL then
        if l.pending then l
        else l.(pending := true, timers := l.timers + [at + (COALESCE_INTERVAL - (at - l.last.value))])
      else l.(last := Some(at), emits := l.emits + [at])
    case Fire(k, at) =>
      if !Enabled(l, op) then l else Lane(Some(at), false, l.timers[..k] + l.timers[k + 1..], l.emits + [at])
  }

  class EmitCoalescer {
    var last: map<Key, int>
    var pending: set<Key>
    /** The effects outside: timers booked and not fired, and the emits made, per key. */
    ghost var timers: map<Key, seq<int>>
    ghost var emits: map<Key, seq<int>>

    ghost function LaneOf(key: Key): Lane
      reads this
    {
      Lane(if key in last then Some(last[key]) else None, key in pending,
           if key in timers then timers[key] else [], if key in emits then emits[key] else [])
    }

    constructor ()
      ensures forall key :: LaneOf(key) == QUIET
    {
      last, pending, timers, emits := map[], {}, map[], map[];
    }

    method DoSubmit(key: Key, at: int)
      modifies this
      ensures LaneOf(key) == Step(old(LaneOf(key)), Submit(at))
      ensures forall other :: other != key ==> LaneOf(other) == old(LaneOf(other))
    {
      if key in last && at - last[key] < COALESCE_INTERVAL {
        if key in pending {
          return;
        }
        pending := pending + {key};
        var delay := COALESCE_INTERVAL - (at - last[key]);
        timers := timers[key := LaneOf(key).timers + [at + delay]];
        return;
      }
      last := last[key := at];
      Notify(key, at);
    }

    method Flush(key: Key, at: int, ghost timer: nat)
      requires Enabled(LaneOf(key), Fire(timer, at))
      modifies this
      ensures LaneOf(key) == Step(old(LaneOf(key)), Fire(timer, at))
      ensures forall other :: other != key ==> LaneOf(other) == old(LaneOf(other))
    {
      ghost var booked := LaneOf(key).timers;
      timers := timers[key := booked[..timer] + booked[timer + 1..]];
      pending := pending - {key};
      last := last[key := at];
      Notify(key, at);
    }

    method Notify(key: Key, at: int)
      modifies this`emits
      ensures emits == old(emits)[key := old(LaneOf(key)).emits + [at]]
    {
      emits := emits[key := LaneOf(key).emits + [at]];
    }
  }

  function Run(ops: seq<Op>): Lane {
    if ops == [] then QUIET else Step(Run(ops[..|ops| - 1]), ops[|ops| - 1])
  }

  /** The clock never goes back. */
  predicate Timed(ops: seq<Op>) {
    forall i, j :: 0 <= i < j < |ops| ==> ops[i].at <= ops[j].at
  }

  function Latest(l: Lane): int
    requires l.emits != []
  {
    l.emits[|l.emits| - 1]
  }

  /** Emits two apart are an interval apart. */
  predicate Spaced(emits: seq<int>) {
    && Monotone(emits)
    && forall i :: 0 <= i < |emits| - 2 ==> emits[i + 2] - emits[i] >= COALESCE_INTERVAL
  }

  predicate Inv(l: Lane) {
    && (l.last.None? <==> l.emits == [])
    && (l.last.Some? ==> l.last.value == Latest(l))
    && |l.timers| == (if l.pending then 1 else 0)
    && (l.pending ==> l.emits != [] && l.timers[0] <= Latest(l) + COALESCE_INTERVAL)
    && Spaced(l.emits)
    && (l.pending && |l.emits| >= 2 ==>
          l.timers[0] >= l.emits[|l.emits| - 2] + COALESCE_INTERVAL
          || Latest(l) >= l.emits[|l.emits| - 2] + COALESCE_INTERVAL)
  }

  predicate Past(l: Lane, at: int) { l.emits != [] ==> Latest(l) <= at }

  lemma SubmitKeepsInv(l: Lane, at: int)
    requires Inv(l) && Past(l, at)
    ensures Inv(Step(l, Submit(at))) && Past(Step(l, Submit(at)), at)
  {
  }

  lemma FireKeepsInv(l: Lane, k: nat, at: int)
    requires Inv(l) && Past(l, at)
    ensures Inv(Step(l, Fire(k, at))) && Past(Step(l, Fire(k, at)), at)
  {
  }

  /** Every lane of every run: one timer at most, booked exactly while an emit is pending, and spaced emits. */
  lemma {:induction false} EveryRunKeepsInv(ops: seq<Op>, now: int)
    requires Timed(ops) && (ops != [] ==> ops[|ops| - 1].at <= now)
    ensures Inv(Run(ops)) && Past(Run(ops), now)
    decreases |ops|
  {
    if ops != [] {
      var n := |ops| - 1;
      EveryRunKeepsInv(ops[..n], ops[n].at);
      match ops[n]
      case Submit(at) => SubmitKeepsInv(Run(ops[..n]), at);
      case Fire(k, at) => FireKeepsInv(Run(ops[..n]), k, at);
    }
  }

  /** Any half-open stretch of one coalescing interval sees at most two emits of a node. */
  lemma AtMostTwoEmitsPerInterval(ops: seq<Op>, i: nat, j: nat, k: nat, from: int)
    requires Timed(ops) && i < j < k < |Run(ops).emits|
    ensures !(from <= Run(ops).emits[i] && Run(ops).emits[k] < from + COALESCE_INTERVAL)
  {
    EveryRunKeepsInv(ops, if ops == [] then 0 else ops[|ops| - 1].at);
    var emits := Run(ops).emits;
    assert emits[i + 2] - emits[i] >= COALESCE_INTERVAL;
  }

  /** Two is reached: a late timer fires right after a submit that emitted by itself. */
  lemma LateTimerFollowsADirectEmit()
    ensures var ops := [Submit(0), Submit(1), Submit(COALESCE_INTERVAL), Fire(0, COALESCE_INTERVAL)];
            && Timed(ops)
            && Run(ops).emits == [0, COALESCE_INTERVAL, COALESCE_INTERVAL]
  {
    var ops := [Submit(0), Submit(1), Submit(COALESCE_INTERVAL), Fire(0, COALESCE_INTERVAL)];
    var a, b, c := ops[..1], ops[..2], ops[..3];
    assert a[..0] == [] && b[..1] == a && c[..2] == b && ops[..3] == c;
    assert Run(a) == Lane(Some(0), false, [], [0]);
    assert Run(b) == Lane(Some(0), true, [COALESCE_INTERVAL], [0]);
    assert Run(c) == Lane(Some(COALESCE_INTERVAL), true, [COALESCE_INTERVAL], [0, COALESCE_INTERVAL]);
  }

  /** A submit made at an instant, when so many emits had been made, was answered or has its emit booked. */
  predicate Answered(l: Lane, at: int, made: nat) {
    || (|l.emits| > made && Latest(l) >= at)
    || (l.pending && |l.timers| == 1 && l.timers[0] <= at + COALESCE_INTERVAL)
  }

  lemma SubmitIsAnswered(l: Lane, at: int)
    requires Inv(l) && Past(l, at)
    ensures Answered(Step(l, Submit(at)), at, |l.emits|) && |l.emits| <= |Step(l, Submit(at)).emits|
  {
  }

  lemma AnswerLasts(l: Lane, op: Op, at: int, made: nat)
    requires Inv(l) && Past(l, op.at) && at <= op.at && made <= |l.emits|
    requires Answered(l, at, made)
    ensures Answered(Step(l, op), at, made) && made <= |Step(l, op).emits|
  {
    assert |l.timers| <= 1;
  }

  /**
   No change is lost: after any submit of any run, either an emit has been made
   at or after that step, or one is booked, due within one interval of the submit.
   */
  lemma {:induction false} EverySubmitIsEmitted(ops: seq<Op>, i: nat, made: nat)
    requires Timed(ops) && i < |ops| && ops[i].Submit? && made == |Run(ops[..i]).emits|
    ensures made <= |Run(ops).emits| && Answered(Run(ops), ops[i].at, made)
    decreases |ops|
  {
    var n := |ops| - 1;
    var before, op := ops[..n], ops[n];
    var l := Run(before);
    assert Run(ops) == Step(l, op);
    EveryRunKeepsInv(before, op.at);
    if i == n {
      SubmitIsAnswered(l, op.at);
    } else {
      assert before[..i] == ops[..i];
      EverySubmitIsEmitted(before, i, made);
      AnswerLasts(l, op, ops[i].at, made);
    }
  }
}
