/**
 Which session carries a connection's discovery traffic, and which plugins may
 speak over it (internal/usecase/discovery_leader.go). The table of ready
 sessions is a class with its two maps. The background reconciliation of one
 connection's authorisations is a state machine: its goroutines take their
 steps in any order, interleaved with sessions coming and going, and only the
 binding gate keeps two of them from running at once.
 */
module Leader {
  import opened Basics

  type Session(==, !new)
  type Connection(==, !new)
  type Plugin(==, !new)
  type Protocol(==, !new)

  // ----- ready sessions ------------------------------------------------------------------

  /** The ready sessions of one connection in order of arrival, and the protocol last reported. */
  datatype Line = Line(protocol: Option<Protocol>, ready: seq<Session>)

  function Reported(line: Option<Line>, protocol: Option<Protocol>): Line {
    var known := if line.Some? then line.value else Line(None, []);
    if protocol.Some? then known.(protocol := protocol) else known
  }

  /** A session becomes ready: it joins at the back, once. */
  function Joined(line: Option<Line>, s: Session, protocol: Option<Protocol>): Line {
    var l := Reported(line, protocol);
    if s in l.ready then l else l.(ready := l.ready + [s])
  }

  /** A session leaves; a line with nobody in it is dropped. */
  function Left(line: Option<Line>, s: Session): Option<Line> {
    if line.None? then None
    else
      var rest := Without(line.value.ready, s);
      if s in line.value.ready && rest == [] then None else Some(line.value.(ready := rest))
  }

  function Leading(line: Option<Line>): Option<Session> {
    if line.None? || line.value.ready == [] then None else Some(line.value.ready[0])
  }

  predicate InLine(conns: map<Connection, Line>, s: Session, c: Connection) {
    c in conns && s in conns[c].ready
  }

  ghost predicate Agree(conns: map<Connection, Line>, index: map<Session, Connection>) {
    forall s, c {:trigger InLine(conns, s, c)} :: InLine(conns, s, c) <==> s in index && index[s] == c
  }

  lemma JoinedLine(before: map<Connection, Line>, after: map<Connection, Line>, s: Session, c: Connection)
    requires c in after && after.Keys == before.Keys + {c} && (forall c' :: c' in before && c' != c ==> after[c'] == before[c'])
    requires after[c].ready == (if c in before then before[c].ready else []) + [s]
    ensures forall s', c' :: InLine(after, s', c') <==> InLine(before, s', c') || (s' == s && c' == c)
  {
  }

  lemma AgreementAfterJoin(
    before: map<Connection, Line>, index: map<Session, Connection>, after: map<Connection, Line>, s: Session, c: Connection)
    requires Agree(before, index) ==> !InLine(before, s, c)
    requires forall s', c' :: InLine(after, s', c') <==> InLine(before, s', c') || (s' == s && c' == c)
    ensures Agree(before, index) ==> (Agree(after, index[s := c]) <==> (s in index ==> index[s] == c))
  {
    if Agree(before, index) {
      if s in index && index[s] != c {
        assert InLine(before, s, index[s]);
        assert InLine(after, s, index[s]);
      } else {
        assert forall s', c' :: InLine(after, s', c') <==> s' in index[s := c] && index[s := c][s'] == c';
      }
    }
  }

  /** conns and sessionConn of the program. */
  class Table {
    var conns: map<Connection, Line>
    var sessionConn: map<Session, Connection>

    /** Every line holds somebody, and nobody twice. */
    ghost predicate Proper()
      reads this
    {
      forall c :: c in conns ==> conns[c].ready != [] && NoDup(conns[c].ready)
    }

    /** The ready lists and the reverse index say the same: each session once, in the line of its connection. */
    ghost predicate Agrees()
      reads this
    {
      Agree(conns, sessionConn)
    }

    ghost function At(c: Connection): Option<Line>
      reads this
    {
      if c in conns then Some(conns[c]) else None
    }

    constructor ()
      ensures Proper() && Agrees() && conns == map[] && sessionConn == map[]
    {
      conns, sessionConn := map[], map[];
    }

    /**
     reconcile says whether the session now leads, so that authorisations must
     follow it. The lines and the index go on agreeing exactly when the session
     was not on file under another connection.
     */
    method SessionReady(s: Session, c: Connection, protocol: Option<Protocol>) returns (reconcile: bool)
      requires Proper()
      modifies this
      ensures Proper()
      ensures At(c) == Some(Joined(old(At(c)), s, protocol))
      ensures forall c' :: c' != c ==> At(c') == old(At(c'))
      ensures sessionConn == if InLine(old(conns), s, c) then old(sessionConn) else old(sessionConn)[s := c]
      ensures reconcile <==> Leading(At(c)) != Leading(old(At(c)))
      ensures old(Agrees()) ==> (Agrees() <==> (s in old(sessionConn) ==> old(sessionConn)[s] == c))
    {
      var line := if c in conns then conns[c] else Line(None, []);
      if protocol.Some? {
        line := line.(protocol := protocol);
      }
      var i := IndexOf(line.ready, s);
      ghost var before, index := conns, sessionConn;
      if i >= 0 {
        conns := conns[c := line];
        assert InLine(before, s, c);
        assert forall s', c' :: InLine(conns, s', c') <==> InLine(before, s', c');
        return false;
      }
      assert !InLine(before, s, c);
      line := line.(ready := line.ready + [s]);
      conns := conns[c := line];
      sessionConn := sessionConn[s := c];
      JoinedLine(before, conns, s, c);
      AgreementAfterJoin(before, index, conns, s, c);
      return line.ready[0] == s;
    }

    /** reconcile as above; abandoned says that nobody is left and the connection's tree goes too. */
    method SessionClosed(s: Session, c: Connection) returns (reconcile: bool, abandoned: bool)
      requires Proper()
      modifies this
      ensures Proper()
      ensures At(c) == Left(old(At(c)), s)
      ensures forall c' :: c' != c ==> At(c') == old(At(c'))
      ensures sessionConn == if InLine(old(conns), s, c) then old(sessionConn) - {s} else old(sessionConn)
      ensures reconcile <==> Leading(At(c)) != Leading(old(At(c)))
      ensures abandoned <==> old(At(c)).Some? && At(c) == None
      ensures old(Agrees()) ==> Agrees()
    {
      if c !in conns {
        assert !InLine(conns, s, c);
        return false, false;
      }
      var ready := conns[c].ready;
      var i := IndexOf(ready, s);
      if i < 0 {
        WithoutAbsent(ready, s);
        assert !InLine(conns, s, c);
        return false, false;
      }
      WithoutCuts(ready, s, i);
      WithoutMembers(ready, s);
      var rest := ready[..i] + ready[i + 1..];
      ghost var before, index := conns, sessionConn;
      assert InLine(before, s, c);
      sessionConn := sessionConn - {s};
      abandoned := |rest| == 0;
      conns := if abandoned then conns - {c} else conns[c := conns[c].(ready := rest)];
      reconcile := abandoned || i == 0;
      assert forall s', c' :: InLine(conns, s', c') <==> InLine(before, s', c') && !(s' == s && c' == c);
      if !abandoned && i > 0 {
        assert rest[0] == ready[0];
      } else if !abandoned {
        assert rest[0] == ready[1] != ready[0];
      }
    }

    method IndexOf(sessions: seq<Session>, s: Session) returns (i: int)
      ensures i < 0 <==> s !in sessions
      ensures i >= 0 ==> i < |sessions| && sessions[i] == s && s !in sessions[..i]
    {
      for k := 0 to |sessions|
        invariant s !in sessions[..k]
      {
        if sessions[k] == s {
          return k;
        }
      }
      assert sessions[..|sessions|] == sessions;
      return -1;
    }
  }

  /** Such an input: the same session reported under two connections leaves lines and index disagreeing. */
  method ReportUnderTwo(s: Session, one: Connection, two: Connection) returns (table: Table)
    requires one != two
    ensures table.Proper() && !table.Agrees()
    ensures InLine(table.conns, s, one) && InLine(table.conns, s, two) && table.sessionConn == map[s := two]
  {
    assert Joined(None, s, None).ready == [s];
    table := new Table();
    var leads := table.SessionReady(s, one, None);
    assert table.At(one) == Some(Line(None, [s]));
    leads := table.SessionReady(s, two, None);
    assert table.At(one) == Some(Line(None, [s])) && table.At(two) == Some(Line(None, [s]));
  }

  // ----- reconciling one connection's authorisations ----------------------------------------

  datatype Binding = Binding(plugin: Plugin, session: Session)

  /** What the leader recorded, and what the session authoriser really holds. */
  datatype Books = Books(bound: seq<Binding>, account: multiset<Binding>, missed: set<Plugin>, decided: seq<Binding>)

  /** What remains to be done by the reconciliation inside the gate. */
  datatype Work =
    | Reading
    | Releasing(todo: seq<Binding>, kept: seq<Binding>)
    | Granting(left: seq<Binding>, held: seq<Binding>, failed: set<Plugin>)
    | Starting(next: Binding, rest: seq<Binding>, sofar: seq<Binding>, lost: set<Plugin>)
    | Done

  /** lead, protocol and want are what the reconciliation read, in two calls, when it decided. */
  datatype Phase =
    | AtGate
    | Asked(lead: Option<Session>, protocol: Option<Protocol>)
    | Working(lead: Option<Session>, want: seq<Binding>, work: Work)

  /**
   waiting counts the goroutines that have not taken the gate yet; desk is the
   one that has; roster is the discovery plugins of each protocol.
   */
  datatype State = State(
    line: Option<Line>, books: Books, waiting: nat, desk: Option<Phase>, roster: map<Protocol, seq<Plugin>>)

  predicate Initial(s: State) {
    && s.line == None && s.books == Books([], multiset{}, {}, []) && s.waiting == 0 && s.desk == None
  }

  function ProtocolOf(line: Option<Line>): Option<Protocol> {
    if line.None? then None else line.value.protocol
  }

  /** One authorisation per discovery plugin of a protocol, all naming the leading session. */
  function DesiredFor(
    lead: Option<Session>, protocol: Option<Protocol>, roster: map<Protocol, seq<Plugin>>): (want: seq<Binding>)
    ensures forall i :: 0 <= i < |want| ==> lead == Some(want[i].session)
  {
    if lead.Some? && protocol.Some? && protocol.value in roster
    then var plugins := roster[protocol.value];
         seq(|plugins|, i requires 0 <= i < |plugins| => Binding(plugins[i], lead.value))
    else []
  }

  /** What the connection should hold now. */
  function Desired(line: Option<Line>, roster: map<Protocol, seq<Plugin>>): seq<Binding> {
    DesiredFor(Leading(line), ProtocolOf(line), roster)
  }

  datatype Event =
    | SessionReady(session: Session, protocol: Option<Protocol>)
    | SessionClosed(session: Session)
    | Reroster(roster: map<Protocol, seq<Plugin>>)
    | TakeGate
    | Ask                    // reads the leading session and the protocol
    | Decide                 // reads the plugins of the protocol
    | Advance(ok: bool)      // one release, one grant or one start; ok is the answer of the call it makes
    | LeaveGate

  predicate Enabled(s: State, e: Event) {
    match e
    case SessionReady(_, _) => true
    case SessionClosed(_) => true
    case Reroster(_) => true
    case TakeGate => s.waiting > 0 && s.desk == None
    case Ask => s.desk == Some(AtGate)
    case Decide => s.desk.Some? && s.desk.value.Asked?
    case Advance(_) => s.desk.Some? && s.desk.value.Working? && !s.desk.value.work.Done?
    case LeaveGate => s.desk.Some? && s.desk.value.Working? && s.desk.value.work.Done?
  }

  /** The line changes; a reconciliation starts exactly when the leading session did. */
  function Moved(s: State, line: Option<Line>): State {
    s.(line := line,
       waiting := s.waiting + (if Leading(line) != Leading(s.line) then 1 else 0))
  }

  /** The reconciliation itself: release first, then authorise and start, then record. */
  function Advanced(want: seq<Binding>, w: Work, b: Books, ok: bool): (Work, Books)
    requires !w.Done?
  {
    match w
    case Reading => (Releasing(b.bound, []), b)
    case Releasing(todo, kept) =>
      if todo == [] then (Granting(want, kept, {}), b)
      else if todo[0] in want then (Releasing(todo[1..], kept + [todo[0]]), b)
      else (Releasing(todo[1..], kept), b.(account := b.account - multiset{todo[0]}))
    case Granting(left, held, failed) =>
      if left == [] then (Done, b.(bound := held, missed := failed, decided := want))
      else if left[0] in held then (Granting(left[1..], held, failed), b)
      else if !ok then (Granting(left[1..], held, failed + {left[0].plugin}), b)
      else (Starting(left[0], left[1..], held, failed), b.(account := b.account + multiset{left[0]}))
    case Starting(next, rest, sofar, lost) =>
      if ok then (Granting(rest, sofar + [next], lost), b)
      else (Granting(rest, sofar, lost + {next.plugin}), b.(account := b.account - multiset{next}))
  }

  function Next(s: State, e: Event): State
    requires Enabled(s, e)
  {
    match e
    case SessionReady(x, protocol) => Moved(s, Some(Joined(s.line, x, protocol)))
    case SessionClosed(x) => Moved(s, Left(s.line, x))
    case Reroster(roster) => s.(roster := roster)
    case TakeGate => s.(waiting := s.waiting - 1, desk := Some(AtGate))
    case Ask => s.(desk := Some(Asked(Leading(s.line), ProtocolOf(s.line))))
    case Decide =>
      var p := s.desk.value;
      s.(desk := Some(Working(p.lead, DesiredFor(p.lead, p.protocol, s.roster), Reading)))
    case Advance(ok) =>
      var p := s.desk.value;
      var (w, b) := Advanced(p.want, p.work, s.books, ok);
      s.(desk := Some(Working(p.lead, p.want, w)), books := b)
    case LeaveGate => s.(desk := None)
  }

  // ----- what a reconciliation keeps while it works ----------------------------------------------

  predicate AllName(bs: seq<Binding>, lead: Option<Session>) {
    forall i :: 0 <= i < |bs| ==> lead == Some(bs[i].session)
  }

  /** Grants minus releases, told by how far the work has come. */
  predicate Conserved(w: Work, b: Books) {
    match w
    case Reading => b.account == multiset(b.bound)
    case Releasing(todo, kept) => b.account == multiset(todo) + multiset(kept)
    case Granting(_, held, _) => b.account == multiset(held)
    case Starting(next, _, sofar, _) => b.account == multiset(sofar) + multiset{next}
    case Done => b.account == multiset(b.bound)
  }

  ghost predicate Within(bs: seq<Binding>, want: seq<Binding>) {
    forall b :: b in bs ==> b in want
  }

  /** Every wanted binding is held, still to come, or failed. */
  ghost predicate Accounted(want: seq<Binding>, held: seq<Binding>, left: seq<Binding>, failed: set<Plugin>) {
    forall b :: b in want ==> b in held || b in left || b.plugin in failed
  }

  /** Only wanted authorisations are kept or granted, and none that is wanted is forgotten. */
  ghost predicate OnTrack(want: seq<Binding>, w: Work, b: Books) {
    match w
    case Reading => true
    case Releasing(_, kept) => Within(kept, want)
    case Granting(left, held, failed) => Within(held, want) && Within(left, want) && Accounted(want, held, left, failed)
    case Starting(next, rest, sofar, lost) =>
      Within(sofar, want) && Within([next] + rest, want) && Accounted(want, sofar, [next] + rest, lost)
    case Done => b.decided == want && Within(b.bound, want) && Accounted(want, b.bound, [], b.missed)
  }

  lemma ConservedAdvances(want: seq<Binding>, w: Work, b: Books, ok: bool)
    requires !w.Done? && Conserved(w, b)
    ensures var (w', b') := Advanced(want, w, b, ok); Conserved(w', b')
  {
    match w
    case Reading =>
    case Releasing(todo, kept) =>
      if todo != [] {
        MoveOne(todo, kept);
      }
    case Granting(left, held, failed) =>
    case Starting(next, rest, sofar, lost) =>
      AddOne(sofar, next);
  }

  lemma MoveOne<T>(todo: seq<T>, kept: seq<T>)
    requires todo != []
    ensures multiset(todo[1..]) + multiset(kept + [todo[0]]) == multiset(todo) + multiset(kept)
    ensures multiset(todo[1..]) + multiset(kept) == multiset(todo) + multiset(kept) - multiset{todo[0]}
  {
    assert todo == [todo[0]] + todo[1..];
  }

  lemma AddOne<T>(s: seq<T>, x: T)
    ensures multiset(s + [x]) == multiset(s) + multiset{x}
    ensures multiset(s) + multiset{x} - multiset{x} == multiset(s)
  {
  }

  lemma OnTrackAdvances(want: seq<Binding>, w: Work, b: Books, ok: bool)
    requires !w.Done? && OnTrack(want, w, b)
    ensures var (w', b') := Advanced(want, w, b, ok); OnTrack(want, w', b')
  {
    match w
    case Reading =>
    case Releasing(todo, kept) =>
    case Granting(left, held, failed) =>
      if left != [] {
        assert left == [left[0]] + left[1..];
      }
    case Starting(next, rest, sofar, lost) =>
      assert forall b :: b in [next] + rest <==> b == next || b in rest;
  }

  // ----- the invariant ------------------------------------------------------------------------

  ghost predicate BooksMatch(s: State) {
    && (s.desk == None || !s.desk.value.Working? ==>
          && s.books.account == multiset(s.books.bound)
          && Within(s.books.bound, s.books.decided)
          && Accounted(s.books.decided, s.books.bound, [], s.books.missed))
    && (s.desk.Some? && s.desk.value.Working? ==>
          Conserved(s.desk.value.work, s.books) && OnTrack(s.desk.value.want, s.desk.value.work, s.books)
          && AllName(s.desk.value.want, s.desk.value.lead))
  }

  /** A decision made for an older leader has another reconciliation waiting behind it. */
  predicate StaleIsFollowed(s: State) {
    && (s.desk.Some? && !s.desk.value.AtGate? && s.desk.value.lead != Leading(s.line) ==> s.waiting > 0)
    && (s.desk == None && s.waiting == 0 ==> AllName(s.books.decided, Leading(s.line)))
  }

  predicate LineIsProper(s: State) {
    s.line.Some? ==> s.line.value.ready != [] && NoDup(s.line.value.ready)
  }

  ghost predicate Inv(s: State) {
    LineIsProper(s) && BooksMatch(s) && StaleIsFollowed(s)
  }

  lemma LineStep(s: State, e: Event)
    requires LineIsProper(s) && Enabled(s, e)
    ensures LineIsProper(Next(s, e))
  {
    if e.SessionClosed? && s.line.Some? {
      WithoutMembers(s.line.value.ready, e.session);
      if e.session !in s.line.value.ready {
        WithoutAbsent(s.line.value.ready, e.session);
      }
    }
  }

  lemma BooksStep(s: State, e: Event)
    requires BooksMatch(s) && Enabled(s, e)
    ensures BooksMatch(Next(s, e))
  {
    if e.Advance? {
      var p := s.desk.value;
      ConservedAdvances(p.want, p.work, s.books, e.ok);
      OnTrackAdvances(p.want, p.work, s.books, e.ok);
    }
  }

  lemma StaleStep(s: State, e: Event)
    requires Inv(s) && Enabled(s, e)
    ensures StaleIsFollowed(Next(s, e))
  {
  }

  lemma StepKeepsInv(s: State, e: Event)
    requires Inv(s) && Enabled(s, e)
    ensures Inv(Next(s, e))
  {
    LineStep(s, e);
    BooksStep(s, e);
    StaleStep(s, e);
  }

  // ----- whole runs --------------------------------------------------------------------------

  ghost predicate IsRun(states: seq<State>, events: seq<Event>) {
    && |states| == |events| + 1 && Initial(states[0])
    && forall i :: 0 <= i < |events| ==> Enabled(states[i], events[i]) && states[i + 1] == Next(states[i], events[i])
  }

  lemma {:induction false} EveryRunKeepsInv(states: seq<State>, events: seq<Event>, n: nat)
    requires IsRun(states, events) && n < |states|
    ensures Inv(states[n])
    decreases n
  {
    if n > 0 {
      EveryRunKeepsInv(states, events, n - 1);
      StepKeepsInv(states[n - 1], events[n - 1]);
    }
  }

  /** Whenever the gate is free, what was granted and not released is exactly what is on record. */
  lemma GrantsAreConserved(states: seq<State>, events: seq<Event>, n: nat)
    requires IsRun(states, events) && n < |states| && states[n].desk == None
    ensures states[n].books.account == multiset(states[n].books.bound)
  {
    EveryRunKeepsInv(states, events, n);
  }

  /**
   In every run, once no reconciliation is under way, every authorisation that
   exists names the connection's current leading session; with no session left
   there is none.
   */
  lemma QuietGrantsNameTheLeader(states: seq<State>, events: seq<Event>, n: nat, b: Binding)
    requires IsRun(states, events) && n < |states| && states[n].desk == None && states[n].waiting == 0
    requires b in states[n].books.account
    ensures Leading(states[n].line) == Some(b.session)
  {
    EveryRunKeepsInv(states, events, n);
    assert b in states[n].books.bound;
    assert b in states[n].books.decided;
  }

  // ----- are the grants the wanted ones -------------------------------------------------------

  predicate Quiet(s: State) { s.desk == None && s.waiting == 0 }

  /** What was last decided is what is wanted now. */
  predicate Current(s: State) {
    if s.desk.Some? && s.desk.value.Working? then s.desk.value.want == Desired(s.line, s.roster)
    else s.books.decided == Desired(s.line, s.roster)
  }

  /** A ready session that does not come to lead brings another protocol, and nobody is told. */
  predicate Renames(s: State, e: Event) {
    e.SessionReady? && var line := Some(Joined(s.line, e.session, e.protocol));
    Leading(line) == Leading(s.line) && ProtocolOf(line) != ProtocolOf(s.line)
  }

  /** The plugins of the connection's protocol change, and nobody is told. */
  predicate Restaffs(s: State, e: Event) {
    e.Reroster? && Desired(s.line, e.roster) != Desired(s.line, s.roster)
  }

  /** Either of these, where it changes what is wanted. */
  predicate Silent(s: State, e: Event) {
    Restaffs(s, e) || (Renames(s, e) && Desired(Some(Joined(s.line, e.session, e.protocol)), s.roster) != Desired(s.line, s.roster))
  }

  lemma LeavingKeepsWishes(line: Option<Line>, x: Session)
    requires line.Some? ==> line.value.ready != [] && NoDup(line.value.ready)
    requires Leading(Left(line, x)) == Leading(line)
    ensures ProtocolOf(Left(line, x)) == ProtocolOf(line)
  {
    if line.Some? {
      WithoutMembers(line.value.ready, x);
      if x !in line.value.ready {
        WithoutAbsent(line.value.ready, x);
      }
    }
  }

  function RenamesAt(states: seq<State>, events: seq<Event>): nat -> bool {
    (i: nat) => i < |events| && i < |states| && Renames(states[i], events[i])
  }

  function AsksAt(events: seq<Event>): nat -> bool {
    (i: nat) => i < |events| && events[i].Ask?
  }

  function RestaffsAt(states: seq<State>, events: seq<Event>): nat -> bool {
    (i: nat) => i < |events| && i < |states| && Restaffs(states[i], events[i])
  }

  function DecidesAt(events: seq<Event>): nat -> bool {
    (i: nat) => i < |events| && events[i].Decide?
  }

  /** The protocol changed silently after a reconciliation last read it. */
  ghost predicate RenamedSince(states: seq<State>, events: seq<Event>, n: nat) {
    Since(RenamesAt(states, events), AsksAt(events), n)
  }

  /** The plugins changed silently after a reconciliation last read them. */
  ghost predicate RestaffedSince(states: seq<State>, events: seq<Event>, n: nat) {
    Since(RestaffsAt(states, events), DecidesAt(events), n)
  }

  /** The decision is what is wanted now, or a reconciliation has yet to make one. */
  predicate Settling(s: State) { Current(s) || s.waiting > 0 || (s.desk.Some? && !s.desk.value.Working?) }

  /** What a reconciliation has read of the line is still so, or another one waits. */
  predicate ReadIsCurrent(s: State) {
    s.desk.Some? && s.desk.value.Asked? ==>
      s.waiting > 0 || (s.desk.value.lead == Leading(s.line) && s.desk.value.protocol == ProtocolOf(s.line))
  }

  lemma ReadStep(s: State, e: Event)
    requires Inv(s) && Enabled(s, e)
    ensures ReadIsCurrent(s) && !Renames(s, e) ==> ReadIsCurrent(Next(s, e))
    ensures e.Ask? ==> ReadIsCurrent(Next(s, e))
  {
    if e.SessionClosed? && Leading(Left(s.line, e.session)) == Leading(s.line) {
      LeavingKeepsWishes(s.line, e.session);
    }
  }

  lemma SettlingStep(s: State, e: Event)
    requires Inv(s) && Enabled(s, e)
    ensures Settling(s) && !Renames(s, e) && !Restaffs(s, e) && !e.Decide? ==> Settling(Next(s, e))
    ensures e.Ask? ==> Settling(Next(s, e))
    ensures e.Decide? && ReadIsCurrent(s) ==> Settling(Next(s, e))
  {
    if e.SessionClosed? && Leading(Left(s.line, e.session)) == Leading(s.line) {
      LeavingKeepsWishes(s.line, e.session);
    }
  }

  /** Whatever is outdated was changed silently after it was last read. */
  lemma {:induction false} OutdatedMeansSilent(states: seq<State>, events: seq<Event>, n: nat)
    requires IsRun(states, events) && n < |states|
    ensures ReadIsCurrent(states[n]) || RenamedSince(states, events, n)
    ensures Settling(states[n]) || RenamedSince(states, events, n) || RestaffedSince(states, events, n)
    decreases n
  {
    if n == 0 {
      assert Desired(None, states[0].roster) == [];
    } else {
      OutdatedMeansSilent(states, events, n - 1);
      EveryRunKeepsInv(states, events, n - 1);
      SinceGrows(RenamesAt(states, events), AsksAt(events), n - 1);
      SinceGrows(RestaffsAt(states, events), DecidesAt(events), n - 1);
      ReadStep(states[n - 1], events[n - 1]);
      SettlingStep(states[n - 1], events[n - 1]);
    }
  }

  /** The session leads, the protocol is known and has plugins, and the plugin is one of them. */
  predicate Entitled(line: Option<Line>, roster: map<Protocol, seq<Plugin>>, b: Binding) {
    && Leading(line) == Some(b.session)
    && ProtocolOf(line).Some? && ProtocolOf(line).value in roster
    && b.plugin in roster[ProtocolOf(line).value]
  }

  /** What is wanted is one authorisation for each plugin of the protocol, with the leading session. */
  lemma DesiredMeansEntitled(line: Option<Line>, roster: map<Protocol, seq<Plugin>>, b: Binding)
    ensures b in Desired(line, roster) <==> Entitled(line, roster, b)
  {
    if Entitled(line, roster, b) {
      var plugins := roster[ProtocolOf(line).value];
      var i :| 0 <= i < |plugins| && plugins[i] == b.plugin;
      assert Desired(line, roster)[i] == b;
    }
  }

  /** The plugin whose authorisation or start is refused. */
  predicate Fails(s: State, e: Event, p: Plugin) {
    && e == Advance(false) && s.desk.Some? && s.desk.value.Working?
    && match s.desk.value.work
       case Granting(left, held, _) => left != [] && left[0] !in held && left[0].plugin == p
       case Starting(next, _, _, _) => next.plugin == p
       case _ => false
  }

  function FailsAt(states: seq<State>, events: seq<Event>, p: Plugin): nat -> bool {
    (i: nat) => i < |events| && i < |states| && Fails(states[i], events[i], p)
  }

  /** A call for the plugin was refused after the plugins were last read. */
  ghost predicate FailedSince(states: seq<State>, events: seq<Event>, n: nat, p: Plugin) {
    Since(FailsAt(states, events, p), DecidesAt(events), n)
  }

  /** What the reconciliation at work, or else the last one, could not authorise. */
  function Lost(s: State): set<Plugin> {
    if s.desk.Some? && s.desk.value.Working? then
      match s.desk.value.work
      case Reading => {}
      case Releasing(_, _) => {}
      case Granting(_, _, failed) => failed
      case Starting(_, _, _, lost) => lost
      case Done => s.books.missed
    else s.books.missed
  }

  lemma LostStep(s: State, e: Event, p: Plugin)
    requires Enabled(s, e)
    ensures p in Lost(Next(s, e)) <==> Fails(s, e, p) || (p in Lost(s) && !e.Decide?)
  {
  }

  lemma {:induction false} LostMeansFailed(states: seq<State>, events: seq<Event>, n: nat, p: Plugin)
    requires IsRun(states, events) && n < |states|
    ensures p in Lost(states[n]) <==> FailedSince(states, events, n, p)
    decreases n
  {
    if n > 0 {
      LostMeansFailed(states, events, n - 1, p);
      SinceGrows(FailsAt(states, events, p), DecidesAt(events), n - 1);
      LostStep(states[n - 1], events[n - 1], p);
    }
  }

  /**
   No authorisation is taken from a plugin that should keep it: a step releases
   one only if it is not wanted, or if that very plugin failed to start; and a
   step grants one only if it is wanted.
   */
  lemma OnlyUnwantedIsReleased(states: seq<State>, events: seq<Event>, n: nat, b: Binding)
    requires IsRun(states, events) && n < |events|
    ensures states[n + 1].books.account[b] < states[n].books.account[b] ==>
              events[n].Advance? && (b !in states[n].desk.value.want || Fails(states[n], events[n], b.plugin))
    ensures states[n + 1].books.account[b] > states[n].books.account[b] ==>
              events[n].Advance? && b in states[n].desk.value.want
  {
    EveryRunKeepsInv(states, events, n);
    if events[n].Advance? {
      var p := states[n].desk.value;
      AdvancedMoves(p.want, p.work, states[n].books, events[n].ok, b);
    }
  }

  /** What one step of the work does to one authorisation. */
  lemma AdvancedMoves(want: seq<Binding>, w: Work, b: Books, ok: bool, x: Binding)
    requires !w.Done? && OnTrack(want, w, b)
    ensures var b' := Advanced(want, w, b, ok).1;
            && (b'.account[x] < b.account[x] ==> x !in want || (!ok && w.Starting? && w.next == x))
            && (b'.account[x] > b.account[x] ==> x in want)
  {
  }

  /**
   Completeness. Once quiet, unless protocol or plugins changed silently after a
   reconciliation last read them, every plugin of the line's protocol is
   authorised for the leading session, unless its authorisation or start was
   refused since, and nothing else is authorised.
   */
  lemma QuietGrantsAreWanted(states: seq<State>, events: seq<Event>, n: nat, b: Binding)
    requires IsRun(states, events) && n < |states| && Quiet(states[n])
    requires !RenamedSince(states, events, n) && !RestaffedSince(states, events, n)
    ensures b in states[n].books.account ==> Entitled(states[n].line, states[n].roster, b)
    ensures Entitled(states[n].line, states[n].roster, b) ==>
              b in states[n].books.account || FailedSince(states, events, n, b.plugin)
  {
    OutdatedMeansSilent(states, events, n);
    EveryRunKeepsInv(states, events, n);
    DesiredMeansEntitled(states[n].line, states[n].roster, b);
    LostMeansFailed(states, events, n, b.plugin);
    assert b in states[n].books.account <==> b in states[n].books.bound;
  }

  /**
   And exactly such a change does it: from a quiet state whose decision is
   current, an event leads to a quiet state whose decision is not if and only if
   it is silent; the grants then stay as they were.
   */
  lemma SilentIsMissed(states: seq<State>, events: seq<Event>, n: nat, e: Event)
    requires IsRun(states, events) && n < |states| && Quiet(states[n]) && Current(states[n]) && Enabled(states[n], e)
    ensures var s' := Next(states[n], e); Quiet(s') && !Current(s') <==> Silent(states[n], e)
    ensures Silent(states[n], e) ==> Next(states[n], e).books == states[n].books
  {
    var s := states[n];
    EveryRunKeepsInv(states, events, n);
    if e.SessionClosed? && Leading(Left(s.line, e.session)) == Leading(s.line) {
      LeavingKeepsWishes(s.line, e.session);
    }
  }

  // ----- a run that misses something ------------------------------------------------------------

  ghost predicate Reachable(s: State) {
    exists states, events :: IsRun(states, events) && states[|events|] == s
  }

  lemma ReachesInitial(s: State)
    requires Initial(s)
    ensures Reachable(s)
  {
    assert IsRun([s], []) && [s][0] == s;
  }

  lemma ReachesNext(s: State, e: Event, s': State)
    requires Reachable(s) && Enabled(s, e) && s' == Next(s, e)
    ensures Reachable(s')
  {
    var states, events :| IsRun(states, events) && states[|events|] == s;
    var longer, more := states + [s'], events + [e];
    assert IsRun(longer, more) && longer[|more|] == s';
  }

  const NO_BOOKS := Books([], multiset{}, {}, [])

  /** One session of unknown protocol is ready, and so many reconciliations wait or work. */
  function Lone(first: Session, roster: map<Protocol, seq<Plugin>>, waiting: nat, desk: Option<Phase>): State {
    State(Some(Line(None, [first])), NO_BOOKS, waiting, desk, roster)
  }

  lemma LoneDecides(first: Session, roster: map<Protocol, seq<Plugin>>)
    ensures Reachable(Lone(first, roster, 0, Some(Working(Some(first), [], Reading))))
  {
    var start := State(None, NO_BOOKS, 0, None, roster);
    ReachesInitial(start);
    assert Joined(None, first, None).ready == [first];
    ReachesNext(start, SessionReady(first, None), Lone(first, roster, 1, None));
    ReachesNext(Lone(first, roster, 1, None), TakeGate, Lone(first, roster, 0, Some(AtGate)));
    ReachesNext(Lone(first, roster, 0, Some(AtGate)), Ask, Lone(first, roster, 0, Some(Asked(Some(first), None))));
    ReachesNext(Lone(first, roster, 0, Some(Asked(Some(first), None))), Decide,
                Lone(first, roster, 0, Some(Working(Some(first), [], Reading))));
  }

  lemma LoneFinishes(first: Session, roster: map<Protocol, seq<Plugin>>)
    ensures Reachable(Lone(first, roster, 0, None))
  {
    LoneDecides(first, roster);
    var works := (w: Work) => Lone(first, roster, 0, Some(Working(Some(first), [], w)));
    ReachesNext(works(Reading), Advance(true), works(Releasing([], [])));
    ReachesNext(works(Releasing([], [])), Advance(true), works(Granting([], [], {})));
    ReachesNext(works(Granting([], [], {})), Advance(true), works(Done));
    ReachesNext(works(Done), LeaveGate, Lone(first, roster, 0, None));
  }

  /**
   Such a run: a session of unknown protocol is ready and settled, then a second
   one brings the protocol but does not lead. All stays quiet and nothing is
   authorised although something should be.
   */
  lemma LateProtocolIsMissed(first: Session, second: Session, protocol: Protocol, plugin: Plugin)
    requires first != second
    ensures var roster := map[protocol := [plugin]];
            var s := State(Some(Line(Some(protocol), [first, second])), NO_BOOKS, 0, None, roster);
            && Reachable(s) && Quiet(s)
            && s.books.account == multiset{}
            && Desired(s.line, s.roster) == [Binding(plugin, first)]
  {
    var roster := map[protocol := [plugin]];
    var s := State(Some(Line(Some(protocol), [first, second])), NO_BOOKS, 0, None, roster);
    LoneFinishes(first, roster);
    assert [first] + [second] == [first, second];
    ReachesNext(Lone(first, roster, 0, None), SessionReady(second, Some(protocol)), s);
  }
}
