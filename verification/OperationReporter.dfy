/**
 The reporter that turns operation facts into progress events: progress is
 throttled, a terminal event never is, and the first terminal state latches
 (internal/usecase/operation_reporter.go). The emit callback is modelled by the
 list of events handed to it; the clock is a parameter.
 */
module OperationReporter {

  const EMIT_INTERVAL: int := 100_000_000
  const EMIT_EVERY: int := 64

  datatype Progress = Progress(done: int, total: int, state: string)

  predicate Terminal(state: string) {
    state == "completed" || state == "failed" || state == "cancelled"
  }

  datatype State = State(
    closed: bool, scanned: int, lastDone: int, lastTotal: int, lastEmit: int, events: seq<Progress>)

  const FRESH := State(false, 0, 0, 0, 0, [])

  datatype Op =
    | Report(done: int, total: int, state: string, now: int)
    | Scanned(now: int)
    | Finish(state: string, now: int)

  /** count % EMIT_EVERY == 0 reads the same under truncating and Euclidean remainder. */
  predicate Ready(count: int, now: int, last: int) {
    count % EMIT_EVERY == 0 || now - last >= EMIT_INTERVAL
  }

  function Emit(s: State, done: int, total: int, state: string, now: int): State {
    if s.closed then s
    else
      var s1 := s.(lastDone := done, lastTotal := total);
      if Terminal(state) then s1.(closed := true, events := s.events + [Progress(done, total, state)])
      else if Ready(done, now, s.lastEmit)
      then s1.(lastEmit := now, events := s.events + [Progress(done, total, state)])
      else s1
  }

  function Step(s: State, op: Op): State {
    match op
    case Report(done, total, state, now) => Emit(s, done, total, state, now)
    case Scanned(now) => Emit(s.(scanned := s.scanned + 1), s.scanned + 1, 0, "active", now)
    case Finish(state, now) => Emit(s, s.lastDone, s.lastTotal, state, now)
  }

  function Run(ops: seq<Op>): State {
    if ops == [] then FRESH else Step(Run(ops[..|ops| - 1]), ops[|ops| - 1])
  }

  /** At most one terminal event, it is the last one, and the latch says whether it is there. */
  ghost predicate OneTerminal(s: State) {
    && (forall i :: 0 <= i < |s.events| - 1 ==> !Terminal(s.events[i].state))
    && (s.closed <==> s.events != [] && Terminal(s.events[|s.events| - 1].state))
  }

  lemma {:induction false} RunsHaveOneTerminal(ops: seq<Op>)
    ensures OneTerminal(Run(ops))
    decreases |ops|
  {
    if ops != [] {
      RunsHaveOneTerminal(ops[..|ops| - 1]);
    }
  }

  /** The figures of the last call that still counted. */
  function Figures(ops: seq<Op>): (int, int) {
    if ops == [] then (0, 0)
    else
      var before, op := Run(ops[..|ops| - 1]), ops[|ops| - 1];
      if before.closed then Figures(ops[..|ops| - 1])
      else match op
        case Report(done, total, _, _) => (done, total)
        case Scanned(_) => (before.scanned + 1, 0)
        case Finish(_, _) => Figures(ops[..|ops| - 1])
  }

  lemma {:induction false} FiguresAreKept(ops: seq<Op>)
    ensures (Run(ops).lastDone, Run(ops).lastTotal) == Figures(ops)
    decreases |ops|
  {
    if ops != [] {
      FiguresAreKept(ops[..|ops| - 1]);
    }
  }

  /**
   The lifecycle contract: whatever was reported before and whatever follows, a
   run in which Finish is called with a terminal state ends with exactly one
   terminal event; if none was out yet it carries the last reported figures,
   even where the throttle had swallowed them.
   */
  lemma {:induction false} FinishCloses(before: seq<Op>, state: string, now: int, after: seq<Op>)
    requires Terminal(state)
    ensures var s := Run(before + [Finish(state, now)] + after);
            && OneTerminal(s) && s.closed
            && s.events == Run(before + [Finish(state, now)]).events
            && (!Run(before).closed ==>
                  s.events == Run(before).events + [Progress(Figures(before).0, Figures(before).1, state)])
    decreases |after|
  {
    var ops := before + [Finish(state, now)];
    assert ops[..|ops| - 1] == before;
    RunsHaveOneTerminal(ops + after);
    if after == [] {
      assert ops + after == ops;
      FiguresAreKept(before);
    } else {
      var n := |after| - 1;
      assert (ops + after)[..|ops| + n] == ops + after[..n];
      FinishCloses(before, state, now, after[..n]);
    }
  }

  // ----- when an event goes out, and with what ---------------------------------------------------

  /** The figures and the state a call reports. */
  function Says(ops: seq<Op>, op: Op): Progress {
    match op
    case Report(done, total, state, _) => Progress(done, total, state)
    case Scanned(_) => Progress(Scans(ops) + 1, 0, "active")
    case Finish(state, _) => Progress(Figures(ops).0, Figures(ops).1, state)
  }

  /** The files counted so far. */
  function Scans(ops: seq<Op>): nat {
    if ops == [] then 0 else Scans(ops[..|ops| - 1]) + if ops[|ops| - 1].Scanned? then 1 else 0
  }

  lemma {:induction false} ScansAreCounted(ops: seq<Op>)
    ensures Run(ops).scanned == Scans(ops)
    decreases |ops|
  {
    if ops != [] {
      ScansAreCounted(ops[..|ops| - 1]);
    }
  }

  predicate Ends(op: Op) { (op.Report? || op.Finish?) && Terminal(op.state) }

  /** Some call so far carried a terminal state. */
  predicate Over(ops: seq<Op>) {
    exists i :: 0 <= i < |ops| && Ends(ops[i])
  }

  lemma {:induction false} ClosedMeansOver(ops: seq<Op>)
    ensures Run(ops).closed <==> Over(ops)
    decreases |ops|
  {
    if ops != [] {
      var n := |ops| - 1;
      ClosedMeansOver(ops[..n]);
      assert ops == ops[..n] + [ops[n]];
      assert Over(ops) <==> Over(ops[..n]) || Ends(ops[n]);
      assert !Terminal("active");
    }
  }

  /** Call i handed an event on. */
  predicate SendsAt(ops: seq<Op>, i: nat) {
    i < |ops| && |Run(ops[..i + 1]).events| > |Run(ops[..i]).events|
  }

  predicate NothingSent(ops: seq<Op>) {
    forall j :: 0 <= j < |ops| ==> !SendsAt(ops, j)
  }

  /** Call i is the last that handed an event on. */
  predicate LastSender(ops: seq<Op>, i: nat) {
    SendsAt(ops, i) && forall j :: i < j < |ops| ==> !SendsAt(ops, j)
  }

  /** at is the time of the last event, or the zero instant before the first. */
  ghost predicate LastSentAt(ops: seq<Op>, at: int) {
    (at == 0 && NothingSent(ops)) || exists i: nat :: LastSender(ops, i) && at == ops[i].now
  }

  lemma SendsBefore(ops: seq<Op>, n: nat, i: nat)
    requires i < n <= |ops|
    ensures SendsAt(ops[..n], i) <==> SendsAt(ops, i)
  {
    assert ops[..n][..i] == ops[..i] && ops[..n][..i + 1] == ops[..i + 1];
  }

  lemma LastSenderStays(ops: seq<Op>, i: nat)
    requires ops != [] && !SendsAt(ops, |ops| - 1) && LastSender(ops[..|ops| - 1], i)
    ensures LastSender(ops, i)
  {
    var n := |ops| - 1;
    SendsBefore(ops, n, i);
    forall j | i < j < |ops| ensures !SendsAt(ops, j) {
      if j < n {
        SendsBefore(ops, n, j);
      }
    }
  }

  lemma StillNothingSent(ops: seq<Op>)
    requires ops != [] && !SendsAt(ops, |ops| - 1) && NothingSent(ops[..|ops| - 1])
    ensures NothingSent(ops)
  {
    var n := |ops| - 1;
    forall j | 0 <= j < |ops| ensures !SendsAt(ops, j) {
      if j < n {
        SendsBefore(ops, n, j);
      }
    }
  }

  lemma LastSentStep(ops: seq<Op>, at: int)
    requires ops != [] && LastSentAt(ops[..|ops| - 1], at)
    ensures LastSentAt(ops, if SendsAt(ops, |ops| - 1) then ops[|ops| - 1].now else at)
  {
    var n := |ops| - 1;
    if SendsAt(ops, n) {
      assert LastSender(ops, n);
    } else if NothingSent(ops[..n]) {
      StillNothingSent(ops);
    } else {
      var i: nat :| LastSender(ops[..n], i) && at == ops[..n][i].now;
      LastSenderStays(ops, i);
    }
  }

  lemma EmitStep(s: State, op: Op)
    requires !Step(s, op).closed
    ensures !s.closed && Step(s, op).lastEmit == if |Step(s, op).events| > |s.events| then op.now else s.lastEmit
  {
  }

  /** While nothing terminal is out, the throttle remembers the time of the last event. */
  lemma {:induction false} LastEmitIsLastSent(ops: seq<Op>)
    ensures Run(ops).closed || LastSentAt(ops, Run(ops).lastEmit)
    decreases |ops|
  {
    if ops != [] {
      var n := |ops| - 1;
      LastEmitIsLastSent(ops[..n]);
      if !Run(ops).closed {
        LastSentStep(ops, Run(ops[..n]).lastEmit);
        EmitStep(Run(ops[..n]), ops[n]);
        assert ops[..n + 1] == ops;
      }
    }
  }

  /**
   When an event goes out and with what: never after a terminal one; a terminal
   one always; any other exactly at every sixty-fourth count, or once the
   interval since the last event is over. It carries what the call says.
   */
  lemma SendsExactly(ops: seq<Op>, op: Op, last: int)
    requires LastSentAt(ops, last)
    ensures var says := Says(ops, op);
            var goes := !Over(ops) && (Terminal(says.state) || says.done % 64 == 0 || op.now - last >= 100_000_000);
            Run(ops + [op]).events == Run(ops).events + if goes then [says] else []
  {
    ScansAreCounted(ops);
    FiguresAreKept(ops);
    ClosedMeansOver(ops);
    LastEmitIsLastSent(ops);
    if !Over(ops) {
      OneLastSent(ops, last, Run(ops).lastEmit);
    }
    assert (ops + [op])[..|ops|] == ops;
  }

  lemma OneLastSent(ops: seq<Op>, a: int, b: int)
    requires LastSentAt(ops, a) && LastSentAt(ops, b)
    ensures a == b
  {
    if !NothingSent(ops) {
      var i: nat :| LastSender(ops, i) && a == ops[i].now;
      var k: nat :| LastSender(ops, k) && b == ops[k].now;
      assert i == k;
    }
  }

  class Reporter {
    var scanned: int
    var lastDone: int
    var lastTotal: int
    var done: bool
    var lastEmit: int
    var events: seq<Progress>

    ghost function View(): State
      reads this
    {
      State(done, scanned, lastDone, lastTotal, lastEmit, events)
    }

    constructor ()
      ensures View() == FRESH
    {
      scanned, lastDone, lastTotal, done, lastEmit, events := 0, 0, 0, false, 0, [];
    }

    method DoReport(done: int, total: int, state: string, now: int)
      modifies this
      ensures View() == Step(old(View()), Report(done, total, state, now))
    {
      ReportLocked(done, total, state, now);
    }

    method DoScanned(now: int)
      modifies this
      ensures View() == Step(old(View()), Scanned(now))
    {
      scanned := scanned + 1;
      ReportLocked(scanned, 0, "active", now);
    }

    method DoFinish(state: string, now: int)
      modifies this
      ensures View() == Step(old(View()), Finish(state, now))
    {
      ReportLocked(lastDone, lastTotal, state, now);
    }

    method ReportLocked(done: int, total: int, state: string, now: int)
      modifies this
      ensures View() == Emit(old(View()), done, total, state, now)
    {
      if this.done {
        return;
      }
      lastDone, lastTotal := done, total;
      if Terminal(state) {
        this.done := true;
      } else {
        var ready := ThrottleReady(done, now);
        if !ready {
          return;
        }
      }
      events := events + [Progress(done, total, state)];
    }

    method ThrottleReady(count: int, now: int) returns (ready: bool)
      modifies this`lastEmit
      ensures ready == Ready(count, now, old(lastEmit))
      ensures lastEmit == if ready then now else old(lastEmit)
    {
      if count % EMIT_EVERY == 0 || now - lastEmit >= EMIT_INTERVAL {
        lastEmit := now;
        return true;
      }
      return false;
    }
  }
}
