/**
 Who leads a connection, told by the sessions' own coming and going: the ready
 session that has been ready longest, and the protocol last reported since
 somebody was always ready (internal/usecase/discovery_leader.go, SessionReady,
 SessionClosed and Leading).
 */
module LeaderLine {
  import opened Basics
  import opened Leader

  function ReadyAt(events: seq<Event>, x: Session): nat -> bool {
    (i: nat) => i < |events| && events[i].SessionReady? && events[i].session == x
  }

  function ClosedAt(events: seq<Event>, x: Session): nat -> bool {
    (i: nat) => i < |events| && events[i].SessionClosed? && events[i].session == x
  }

  /** x reported ready at step i and has not closed since. */
  ghost predicate StandsSince(events: seq<Event>, n: nat, x: Session, i: nat) {
    SinceStep(ReadyAt(events, x), ClosedAt(events, x), n, i)
  }

  ghost predicate NobodyReady(events: seq<Event>, n: nat) {
    forall x, i: nat :: !StandsSince(events, n, x, i)
  }

  /** x has been ready since step i, and nobody else since before. */
  ghost predicate ReadyLongest(events: seq<Event>, n: nat, x: Session, i: nat) {
    StandsSince(events, n, x, i) && forall y, j: nat :: y != x && j <= i ==> !StandsSince(events, n, y, j)
  }

  function ReadyOf(line: Option<Line>): seq<Session> {
    if line.None? then [] else line.value.ready
  }

  lemma StandsStep(events: seq<Event>, n: nat, x: Session, i: nat)
    requires n < |events|
    ensures StandsSince(events, n + 1, x, i) <==>
              || (i == n && events[n].SessionReady? && events[n].session == x)
              || (StandsSince(events, n, x, i) && !(events[n].SessionClosed? && events[n].session == x))
  {
    var readies, closes := ReadyAt(events, x), ClosedAt(events, x);
    if i < n && StandsSince(events, n + 1, x, i) {
      assert forall j :: i < j < n ==> !closes(j);
      assert !closes(n);
    }
  }

  /** x stands in line since step i, and no report of it before counts. */
  ghost predicate Place(events: seq<Event>, n: nat, x: Session, i: nat) {
    StandsSince(events, n, x, i) && forall j: nat :: j < i ==> !StandsSince(events, n, x, j)
  }

  predicate Rising(at: seq<nat>) {
    forall j, k :: 0 <= j < k < |at| ==> at[j] < at[k]
  }

  /** The line is everybody ready, in the order of at, the steps they became so. */
  ghost predicate Ages(events: seq<Event>, n: nat, ready: seq<Session>, at: seq<nat>) {
    && |at| == |ready| && Rising(at)
    && (forall k :: 0 <= k < |at| ==> at[k] < n && Place(events, n, ready[k], at[k]))
    && (forall y, j: nat :: StandsSince(events, n, y, j) ==> y in ready)
  }

  lemma PlaceStep(events: seq<Event>, n: nat, x: Session, i: nat)
    requires n < |events| && i < n && Place(events, n, x, i) && !(events[n].SessionClosed? && events[n].session == x)
    ensures Place(events, n + 1, x, i)
  {
    var m := n + 1;
    StandsStep(events, n, x, i);
    forall j: nat | j < i
      ensures !StandsSince(events, m, x, j)
    {
      StandsStep(events, n, x, j);
    }
  }

  lemma OthersAge(events: seq<Event>, n: nat, ready: seq<Session>, at: seq<nat>)
    requires n < |events| && Ages(events, n, ready, at)
    requires events[n].SessionReady? || events[n].SessionClosed? ==> (events[n].session in ready <==> events[n].SessionReady?)
    ensures Ages(events, n + 1, ready, at)
  {
    var m := n + 1;
    forall k | 0 <= k < |at|
      ensures Place(events, m, ready[k], at[k])
    {
      PlaceStep(events, n, ready[k], at[k]);
    }
    forall y, j: nat | StandsSince(events, m, y, j)
      ensures y in ready
    {
      StandsStep(events, n, y, j);
    }
  }

  lemma JoinAges(events: seq<Event>, n: nat, ready: seq<Session>, at: seq<nat>, x: Session)
    requires n < |events| && Ages(events, n, ready, at) && events[n].SessionReady? && events[n].session == x && x !in ready
    ensures Ages(events, n + 1, ready + [x], at + [n])
  {
    var m, ready', at' := n + 1, ready + [x], at + [n];
    forall k | 0 <= k < |at'|
      ensures Place(events, n + 1, ready'[k], at'[k])
    {
      if k < |at| {
        PlaceStep(events, n, ready[k], at[k]);
      } else {
        forall j: nat ensures StandsSince(events, m, x, j) <==> j == n { StandsStep(events, n, x, j); }
      }
    }
    forall y, j: nat | StandsSince(events, m, y, j)
      ensures y in ready'
    {
      StandsStep(events, n, y, j);
    }
  }

  lemma CloseAges(events: seq<Event>, n: nat, ready: seq<Session>, at: seq<nat>, c: nat)
    requires n < |events| && Ages(events, n, ready, at) && NoDup(ready) && c < |ready|
    requires events[n].SessionClosed? && events[n].session == ready[c]
    ensures Ages(events, n + 1, ready[..c] + ready[c + 1..], at[..c] + at[c + 1..])
  {
    var m, ready', at' := n + 1, ready[..c] + ready[c + 1..], at[..c] + at[c + 1..];
    forall k | 0 <= k < |at'|
      ensures at'[k] < n + 1 && Place(events, n + 1, ready'[k], at'[k])
    {
      var before := if k < c then k else k + 1;
      assert ready'[k] == ready[before] && at'[k] == at[before];
      PlaceStep(events, n, ready[before], at[before]);
    }
    forall y, j: nat | StandsSince(events, m, y, j)
      ensures y in ready'
    {
      StandsStep(events, n, y, j);
      var k :| 0 <= k < |ready| && ready[k] == y;
      assert ready'[if k < c then k else k - 1] == y;
    }
  }

  lemma LineAges(s: State, e: Event, events: seq<Event>, n: nat, at: seq<nat>) returns (at': seq<nat>)
    requires LineIsProper(s) && Enabled(s, e) && n < |events| && e == events[n] && Ages(events, n, ReadyOf(s.line), at)
    ensures Ages(events, n + 1, ReadyOf(Next(s, e).line), at')
  {
    var ready := ReadyOf(s.line);
    at' := at;
    if e.SessionReady? && e.session !in ready {
      JoinAges(events, n, ready, at, e.session);
      at' := at + [n];
    } else if e.SessionClosed? && e.session in ready {
      var c: nat :| c < |ready| && ready[c] == e.session;
      WithoutCuts(ready, e.session, c);
      CloseAges(events, n, ready, at, c);
      at' := at[..c] + at[c + 1..];
    } else {
      if e.SessionClosed? {
        WithoutAbsent(ready, e.session);
      }
      OthersAge(events, n, ready, at);
    }
  }

  lemma {:induction false} EveryLineAges(states: seq<State>, events: seq<Event>, n: nat) returns (at: seq<nat>)
    requires IsRun(states, events) && n < |states|
    ensures Ages(events, n, ReadyOf(states[n].line), at)
    decreases n
  {
    if n == 0 {
      at := [];
    } else {
      at := EveryLineAges(states, events, n - 1);
      EveryRunKeepsInv(states, events, n - 1);
      at := LineAges(states[n - 1], events[n - 1], events, n - 1, at);
    }
  }

  lemma FrontIsOldest(events: seq<Event>, n: nat, ready: seq<Session>, at: seq<nat>)
    requires Ages(events, n, ready, at) && ready != []
    ensures ReadyLongest(events, n, ready[0], at[0])
  {
    forall y, j: nat | y != ready[0] && StandsSince(events, n, y, j)
      ensures j > at[0]
    {
      var k :| 0 <= k < |ready| && ready[k] == y;
      assert Place(events, n, ready[k], at[k]);
    }
  }

  /** In every run the leading session is the one that has been ready longest. */
  lemma LongestReadyLeads(states: seq<State>, events: seq<Event>, n: nat, x: Session)
    requires IsRun(states, events) && n < |states|
    ensures Leading(states[n].line) == Some(x) <==> exists i: nat :: ReadyLongest(events, n, x, i)
    ensures Leading(states[n].line) == None <==> NobodyReady(events, n)
  {
    var at := EveryLineAges(states, events, n);
    var ready := ReadyOf(states[n].line);
    if ready != [] {
      FrontIsOldest(events, n, ready, at);
      if exists i: nat :: ReadyLongest(events, n, x, i) {
        var i: nat :| ReadyLongest(events, n, x, i);
        OneOldest(events, n, x, i, ready[0], at[0]);
      }
    }
  }

  lemma OneOldest(events: seq<Event>, n: nat, x: Session, i: nat, y: Session, j: nat)
    requires ReadyLongest(events, n, x, i) && ReadyLongest(events, n, y, j)
    ensures x == y
  {
  }

  // ----- the protocol ---------------------------------------------------------------------------

  function ReportsAt(events: seq<Event>, q: Protocol): nat -> bool {
    (i: nat) => i < |events| && events[i].SessionReady? && events[i].protocol == Some(q)
  }

  /** Another report, or the last ready session closes and the line is dropped. */
  ghost function UnreportsAt(events: seq<Event>): nat -> bool {
    (i: nat) => i < |events| &&
      ((events[i].SessionReady? && events[i].protocol.Some?)
       || (events[i].SessionClosed? && NobodyReady(events, i + 1)))
  }

  lemma EmptyLine(states: seq<State>, events: seq<Event>, n: nat)
    requires IsRun(states, events) && n < |states|
    ensures states[n].line == None <==> NobodyReady(events, n)
  {
    EveryRunKeepsInv(states, events, n);
    var at := EveryLineAges(states, events, n);
    if states[n].line.Some? {
      assert Place(events, n, states[n].line.value.ready[0], at[0]);
    }
  }

  /** The line's protocol is the one last reported since somebody was always ready. */
  lemma {:induction false} ProtocolIsLastReported(states: seq<State>, events: seq<Event>, n: nat, q: Protocol)
    requires IsRun(states, events) && n < |states|
    ensures ProtocolOf(states[n].line) == Some(q) <==> Since(ReportsAt(events, q), UnreportsAt(events), n)
    decreases n
  {
    if n > 0 {
      ProtocolIsLastReported(states, events, n - 1, q);
      SinceGrows(ReportsAt(events, q), UnreportsAt(events), n - 1);
      EmptyLine(states, events, n);
    }
  }
}
