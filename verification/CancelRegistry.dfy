/**
 The one registry of abort actions, and the marks it keeps so that an operation
 closed between two phases is not revived by the next one
 (internal/usecase/cancel_registry.go). The marks are a bounded first-in
 first-out set: a set for lookup and an order list for eviction.
 */
module CancelRegistry {
  import opened Basics

  const TERMINATED_CAP: nat := 64

  /** An abort callback, known by a token; Go allows a nil one. */
  datatype Action = NoAction | Run(token: nat)

  function Marks(order: seq<string>): set<string> {
    set i | 0 <= i < |order| :: order[i]
  }

  /** order with id at the back, the front dropped when there are too many. */
  function Push(order: seq<string>, id: string): seq<string> {
    if id in order then order
    else if |order| >= TERMINATED_CAP then (order + [id])[|order| + 1 - TERMINATED_CAP..]
    else order + [id]
  }

  // ----- the registry as a value -----------------------------------------------------

  datatype State = State(actions: map<string, Action>, order: seq<string>, ran: seq<nat>) {
    predicate Valid() { NoDup(order) && |order| <= TERMINATED_CAP }
  }

  const EMPTY := State(map[], [], [])

  datatype Op =
    | Store(id: string, action: Action)      // Register and Replace
    | TakeOver(id: string, action: Action)
    | Unregister(id: string)
    | Cancel(id: string)

  /** The state after one operation, and what the operation answered. */
  function Step(s: State, op: Op): (State, bool) {
    match op
    case Store(id, action) => (s.(actions := s.actions[id := action]), true)
    case TakeOver(id, action) =>
      if id in s.order
      then (s.(actions := s.actions - {id}, order := Without(s.order, id)), false)
      else (s.(actions := s.actions[id := action]), true)
    case Unregister(id) =>
      (s.(actions := s.actions - {id}, order := Without(s.order, id)), true)
    case Cancel(id) =>
      if id in s.actions
      then (State(s.actions - {id}, Push(s.order, id),
                  if s.actions[id].Run? then s.ran + [s.actions[id].token] else s.ran), true)
      else (s.(order := Without(s.order, id)), false)
  }

  function Runs(s: State, ops: seq<Op>): State
    decreases |ops|
  {
    if ops == [] then s else Runs(Step(s, ops[0]).0, ops[1..])
  }

  // ----- the marks stay a bounded set --------------------------------------------------

  lemma WithoutKeeps(order: seq<string>, id: string)
    requires NoDup(order)
    ensures NoDup(Without(order, id)) && Marks(Without(order, id)) == Marks(order) - {id}
  {
    WithoutMembers(order, id);
    InMarks(order);
    InMarks(Without(order, id));
  }

  lemma InMarks(order: seq<string>)
    ensures forall x :: x in Marks(order) <==> x in order
  {
  }

  lemma MarksCons(x: string, s: seq<string>)
    ensures Marks([x] + s) == {x} + Marks(s)
  {
    assert forall i :: 0 <= i < |s| ==> ([x] + s)[i + 1] == s[i];
    assert x == ([x] + s)[0];
  }

  lemma PushKeeps(order: seq<string>, id: string)
    requires NoDup(order) && |order| <= TERMINATED_CAP
    ensures NoDup(Push(order, id)) && |Push(order, id)| <= TERMINATED_CAP && id in Push(order, id)
  {
    if id !in order {
      var pushed := Push(order, id);
      assert pushed[|pushed| - 1] == id;
    }
  }

  lemma StepKeepsValid(s: State, op: Op)
    requires s.Valid()
    ensures Step(s, op).0.Valid()
  {
    WithoutKeeps(s.order, op.id);
    PushKeeps(s.order, op.id);
  }

  lemma {:induction false} RunsKeepValid(s: State, ops: seq<Op>)
    requires s.Valid()
    ensures Runs(s, ops).Valid()
    decreases |ops|
  {
    if ops != [] {
      StepKeepsValid(s, ops[0]);
      RunsKeepValid(Step(s, ops[0]).0, ops[1..]);
    }
  }

  // ----- how long a mark lasts ----------------------------------------------------------

  /** How many marks were made after the one at the given place and are still held. */
  function Behind(order: seq<string>, id: string): nat {
    if order == [] then 0
    else if order[0] == id then |order| - 1
    else Behind(order[1..], id)
  }

  /** The operations of a run that made a fresh mark. */
  function FreshMarks(s: State, ops: seq<Op>): nat
    decreases |ops|
  {
    if ops == [] then 0
    else
      var op := ops[0];
      (if MarksFresh(s, op) then 1 else 0)
      + FreshMarks(Step(s, op).0, ops[1..])
  }

  predicate Speaks(op: Op, id: string) { !op.Store? && op.id == id }

  lemma {:induction false} BehindWithout(order: seq<string>, id: string, other: string)
    requires id in order && other != id
    ensures id in Without(order, other)
    ensures Behind(Without(order, other), id) <= Behind(order, id)
    decreases |order|
  {
    if order[0] != id {
      BehindWithout(order[1..], id, other);
    }
  }

  lemma {:induction false} BehindIs(order: seq<string>, k: nat)
    requires NoDup(order) && k < |order|
    ensures Behind(order, order[k]) == |order| - 1 - k
    decreases k
  {
    if k > 0 {
      assert order[k] == order[1..][k - 1] && order[0] != order[k];
      BehindIs(order[1..], k - 1);
    }
  }

  lemma BehindPush(order: seq<string>, id: string, other: string)
    requires NoDup(order) && |order| <= TERMINATED_CAP && id in order && other != id && other !in order
    requires Behind(order, id) + 1 < TERMINATED_CAP
    ensures id in Push(order, other)
    ensures Behind(Push(order, other), id) == Behind(order, id) + 1
  {
    var k :| 0 <= k < |order| && order[k] == id;
    BehindIs(order, k);
    var pushed := Push(order, other);
    var k' := if |order| >= TERMINATED_CAP then k - 1 else k;
    PushKeeps(order, other);
    assert pushed[k'] == id;
    BehindIs(pushed, k');
  }

  predicate MarksFresh(s: State, op: Op) { op.Cancel? && op.id in s.actions && op.id !in s.order }

  /** Only unregistering, taking over a marked id and cancelling an unknown one forget marks. */
  predicate ForgetsNothing(s: State, op: Op) {
    op.Store? || (op.TakeOver? && op.id !in s.order) || (op.Cancel? && op.id in s.actions)
  }

  /** A mark nobody speaks for is lost exactly when a fresh one arrives behind 63 that are still held. */
  lemma MarkStep(s: State, op: Op, id: string)
    requires s.Valid() && id in s.order && !Speaks(op, id)
    ensures id in Step(s, op).0.order <==> !(MarksFresh(s, op) && Behind(s.order, id) + 1 == TERMINATED_CAP)
    ensures !MarksFresh(s, op) ==> Behind(Step(s, op).0.order, id) <= Behind(s.order, id)
    ensures !MarksFresh(s, op) && ForgetsNothing(s, op) ==> Step(s, op).0.order == s.order
    ensures MarksFresh(s, op) && id in Step(s, op).0.order ==> Behind(Step(s, op).0.order, id) == Behind(s.order, id) + 1
  {
    BehindFits(s.order, id);
    if op.id != id {
      BehindWithout(s.order, id, op.id);
      if MarksFresh(s, op) {
        if Behind(s.order, id) + 1 < TERMINATED_CAP {
          BehindPush(s.order, id, op.id);
        } else {
          FrontIsEvicted(s.order, id, op.id);
        }
      }
    }
  }

  lemma BehindFits(order: seq<string>, id: string)
    requires NoDup(order) && id in order
    ensures Behind(order, id) < |order|
  {
    var k :| 0 <= k < |order| && order[k] == id;
    BehindIs(order, k);
  }

  lemma FrontIsEvicted(order: seq<string>, id: string, other: string)
    requires NoDup(order) && |order| <= TERMINATED_CAP && id in order && other != id && other !in order
    requires Behind(order, id) + 1 == TERMINATED_CAP
    ensures id !in Push(order, other)
  {
    var k :| 0 <= k < |order| && order[k] == id;
    BehindIs(order, k);
  }

  /** What is not marked stays so while nobody cancels it. */
  lemma {:induction false} AbsentStays(s: State, ops: seq<Op>, id: string)
    requires id !in s.order && forall i :: 0 <= i < |ops| ==> !Speaks(ops[i], id)
    ensures id !in Runs(s, ops).order
    decreases |ops|
  {
    if ops != [] {
      AbsentStays(Step(s, ops[0]).0, ops[1..], id);
    }
  }

  /** The run forgets no mark. */
  predicate Forgetless(s: State, ops: seq<Op>)
    decreases |ops|
  {
    ops == [] || (ForgetsNothing(s, ops[0]) && Forgetless(Step(s, ops[0]).0, ops[1..]))
  }

  /**
   A mark outlives everything but an owner speaking for its id and the cap: while
   nobody unregisters, takes over or cancels id, it stays as long as the marks
   behind it and the fresh marks of the run together number fewer than 64. In a
   run that forgets no mark it stays exactly that long.
   */
  lemma {:induction false} MarkLasts(s: State, ops: seq<Op>, id: string)
    requires s.Valid() && id in s.order
    requires forall i :: 0 <= i < |ops| ==> !Speaks(ops[i], id)
    ensures Behind(s.order, id) + FreshMarks(s, ops) < TERMINATED_CAP ==> id in Runs(s, ops).order
    ensures Forgetless(s, ops) && id in Runs(s, ops).order ==> Behind(s.order, id) + FreshMarks(s, ops) < TERMINATED_CAP
    decreases |ops|
  {
    if ops == [] {
      BehindFits(s.order, id);
    } else {
      var s' := Step(s, ops[0]).0;
      StepKeepsValid(s, ops[0]);
      MarkStep(s, ops[0], id);
      if id in s'.order {
        MarkLasts(s', ops[1..], id);
      } else {
        AbsentStays(s', ops[1..], id);
      }
    }
  }

  /**
   The hand-over promise: once a cancel closed an id, the next phase is refused
   unless an owner spoke for the id or the marks behind its own reach the cap;
   in a run that forgets no mark, exactly then. The mark of an id that was not
   marked before is the newest; one that was keeps its place.
   */
  lemma ClosedIdIsNotRevived(s: State, id: string, ops: seq<Op>, action: Action)
    requires s.Valid() && id in s.actions
    requires forall i :: 0 <= i < |ops| ==> !Speaks(ops[i], id)
    ensures var closed := Step(s, Cancel(id));
            var behind := if id in s.order then Behind(s.order, id) else 0;
            var next := Step(Runs(closed.0, ops), TakeOver(id, action));
            && closed.1
            && (behind + FreshMarks(closed.0, ops) < TERMINATED_CAP ==> !next.1 && id !in next.0.actions)
            && (Forgetless(closed.0, ops) ==> (next.1 <==> behind + FreshMarks(closed.0, ops) >= TERMINATED_CAP))
  {
    var closed := Step(s, Cancel(id)).0;
    StepKeepsValid(s, Cancel(id));
    PushKeeps(s.order, id);
    if id !in s.order {
      assert closed.order[|closed.order| - 1] == id;
      BehindIs(closed.order, |closed.order| - 1);
    }
    MarkLasts(closed, ops, id);
  }

  /**
   Who speaks for an id settles its mark. A next phase is refused exactly when
   the id is marked, and by then the mark is used up: asked again, it is taken.
   Unregistering clears the mark; a cancel leaves one exactly when it found
   something to cancel; storing an action touches none.
   */
  lemma SpeakingSettlesTheMark(s: State, op: Op)
    requires s.Valid()
    ensures var (s', ok) := Step(s, op);
            && (op.TakeOver? ==> (ok <==> op.id !in s.order) && op.id !in s'.order
                                 && (ok <==> op.id in s'.actions) && Step(s', op).1)
            && (op.Unregister? ==> op.id !in s'.order && op.id !in s'.actions)
            && (op.Cancel? ==> (ok <==> op.id in s.actions) && (op.id in s'.order <==> ok) && op.id !in s'.actions)
            && (op.Store? ==> s'.order == s.order && op.id in s'.actions)
  {
    WithoutMembers(s.order, op.id);
    PushKeeps(s.order, op.id);
  }

  // ----- a mark that goes early ---------------------------------------------------------------

  function Name(i: nat): string { seq(i + 1, _ => 't') }

  /** Operations 0 to n - 1 each register without an action and are cancelled. */
  function Fill(n: nat): seq<Op> {
    if n == 0 then [] else Fill(n - 1) + [Store(Name(n - 1), NoAction), Cancel(Name(n - 1))]
  }

  lemma {:induction false} RunsJoin(s: State, a: seq<Op>, b: seq<Op>)
    ensures Runs(s, a + b) == Runs(Runs(s, a), b)
    decreases |a|
  {
    if a == [] {
      assert a + b == b;
    } else {
      assert (a + b)[1..] == a[1..] + b;
      RunsJoin(Step(s, a[0]).0, a[1..], b);
    }
  }

  lemma RunsTwo(s: State, a: Op, b: Op)
    ensures Runs(s, [a, b]) == Step(Step(s, a).0, b).0
  {
    var t := Step(s, a).0;
    assert [a, b][1..] == [b];
    assert Runs(s, [a, b]) == Runs(t, [b]);
    assert Runs(t, [b]) == Runs(Step(t, b).0, []);
  }

  function Names(from: nat, n: nat): seq<string> { seq(n, (i: nat) => Name(from + i)) }

  lemma NotNamed(from: nat, n: nat, k: nat)
    requires k < from || from + n <= k
    ensures Name(k) !in Names(from, n)
  {
    var names := Names(from, n);
    forall i | 0 <= i < n ensures names[i] != Name(k) {
      assert names[i] == Name(from + i);
      assert |names[i]| == from + i + 1;
    }
  }

  lemma RegisterAndCancel(s: State, id: string)
    requires s.actions == map[]
    ensures Runs(s, [Store(id, NoAction), Cancel(id)]) == State(map[], Push(s.order, id), s.ran)
  {
    RunsTwo(s, Store(id, NoAction), Cancel(id));
    assert s.actions[id := NoAction] - {id} == map[];
  }

  lemma {:induction false} Filled(n: nat)
    requires n <= TERMINATED_CAP
    ensures Runs(EMPTY, Fill(n)) == State(map[], Names(0, n), [])
    decreases n
  {
    if n > 0 {
      Filled(n - 1);
      RunsJoin(EMPTY, Fill(n - 1), [Store(Name(n - 1), NoAction), Cancel(Name(n - 1))]);
      RegisterAndCancel(State(map[], Names(0, n - 1), []), Name(n - 1));
      NotNamed(0, n - 1, n - 1);
      assert Names(0, n - 1) + [Name(n - 1)] == Names(0, n);
    }
  }

  /** The 64 operations once more: the first is registered and cancelled again, then a new one. */
  function EarlyEviction(): seq<Op> {
    Fill(TERMINATED_CAP) + [Store(Name(0), NoAction), Cancel(Name(0))] + [Store(Name(64), NoAction), Cancel(Name(64))]
  }

  lemma AgainKeepsPlace(s: State)
    requires s == State(map[], Names(0, TERMINATED_CAP), [])
    ensures Runs(s, [Store(Name(0), NoAction), Cancel(Name(0))]) == s
    ensures Runs(s, [Store(Name(64), NoAction), Cancel(Name(64))]) == State(map[], Names(1, TERMINATED_CAP), [])
  {
    assert s.order[0] == Name(0);
    RegisterAndCancel(s, Name(0));
    NotNamed(0, TERMINATED_CAP, 64);
    RegisterAndCancel(s, Name(64));
    assert (s.order + [Name(64)])[1..] == Names(1, TERMINATED_CAP);
  }

  /**
   A run from the empty registry in which a cancel of an id that is still marked
   leaves the old mark where it was: a single later cancel evicts it and the next
   phase revives an operation the user has just closed.
   */
  lemma StaleMarkIsEvictedEarly(action: Action)
    ensures Step(Runs(EMPTY, EarlyEviction()), TakeOver(Name(0), action)).1
  {
    var again, last := [Store(Name(0), NoAction), Cancel(Name(0))], [Store(Name(64), NoAction), Cancel(Name(64))];
    Filled(TERMINATED_CAP);
    var s := State(map[], Names(0, TERMINATED_CAP), []);
    AgainKeepsPlace(s);
    RunsJoin(EMPTY, Fill(TERMINATED_CAP) + again, last);
    RunsJoin(EMPTY, Fill(TERMINATED_CAP), again);
    NotNamed(1, TERMINATED_CAP, 0);
  }

  // ----- every action runs at most once ---------------------------------------------------

  function Stored(ops: seq<Op>): seq<nat> {
    if ops == [] then []
    else
      var rest := Stored(ops[..|ops| - 1]);
      var op := ops[|ops| - 1];
      if (op.Store? || op.TakeOver?) && op.action.Run? then rest + [op.action.token] else rest
  }

  function History(ops: seq<Op>): State {
    if ops == [] then EMPTY else Step(History(ops[..|ops| - 1]), ops[|ops| - 1]).0
  }

  ghost predicate Accounted(s: State, stored: seq<nat>) {
    && NoDup(s.ran)
    && (forall t :: t in s.ran ==> t in stored)
    && (forall id :: id in s.actions && s.actions[id].Run? ==>
          s.actions[id].token in stored && s.actions[id].token !in s.ran)
    && (forall id, id' :: id in s.actions && id' in s.actions && id != id' && s.actions[id].Run?
          ==> s.actions[id] != s.actions[id'])
  }

  /** Over every run that stores each action once, no action is run twice, and none that was not stored. */
  lemma {:induction false} ActionsRunAtMostOnce(ops: seq<Op>)
    requires NoDup(Stored(ops))
    ensures Accounted(History(ops), Stored(ops))
    decreases |ops|
  {
    if ops != [] {
      var n := |ops| - 1;
      var before := Stored(ops[..n]);
      assert NoDup(before) by {
        assert forall i :: 0 <= i < |before| ==> before[i] == Stored(ops)[i];
      }
      ActionsRunAtMostOnce(ops[..n]);
      var s, op := History(ops[..n]), ops[n];
      if (op.Store? || op.TakeOver?) && op.action.Run? {
        var stored := Stored(ops);
        assert stored[|stored| - 1] == op.action.token;
        assert forall i :: 0 <= i < |before| ==> before[i] == stored[i];
        assert op.action.token !in before;
      }
      AccountedStep(s, op, before, Stored(ops));
    }
  }

  lemma AccountedStep(s: State, op: Op, before: seq<nat>, stored: seq<nat>)
    requires Accounted(s, before)
    requires if (op.Store? || op.TakeOver?) && op.action.Run?
             then stored == before + [op.action.token] && op.action.token !in before else stored == before
    ensures Accounted(Step(s, op).0, stored)
  {
  }

  // ----- and a cancel does run it ---------------------------------------------------------------

  /** Step i put the action under the id: stored, or taken over and not refused. */
  function PutsAt(ops: seq<Op>, id: string, action: Action): nat -> bool {
    (i: nat) => i < |ops| && (ops[i].Store? || ops[i].TakeOver?) && ops[i].id == id && ops[i].action == action
      && Step(History(ops[..i]), ops[i]).1
  }

  function SpeaksAt(ops: seq<Op>, id: string): nat -> bool {
    (i: nat) => i < |ops| && ops[i].id == id
  }

  /** The action was put under the id, and nothing concerned the id since. */
  ghost predicate Stands(ops: seq<Op>, id: string, action: Action) {
    Since(PutsAt(ops, id, action), SpeaksAt(ops, id), |ops|)
  }

  /** What is kept under an id is the action put there last, until anything else concerns the id. */
  lemma {:induction false} KeptMeansStands(ops: seq<Op>, id: string, action: Action)
    ensures Keeps(History(ops), id, action) <==> Stands(ops, id, action)
    decreases |ops|
  {
    if ops != [] {
      var n := |ops| - 1;
      var before := ops[..n];
      KeptMeansStands(before, id, action);
      SinceGrows(PutsAt(ops, id, action), SpeaksAt(ops, id), n);
      forall j: nat | j < n
        ensures PutsAt(before, id, action)(j) == PutsAt(ops, id, action)(j) && SpeaksAt(before, id)(j) == SpeaksAt(ops, id)(j)
      {
        assert before[..j] == ops[..j];
      }
      SinceSame(PutsAt(before, id, action), SpeaksAt(before, id), PutsAt(ops, id, action), SpeaksAt(ops, id), n);
      KeptStep(History(before), ops[n], id, action);
    }
  }

  predicate Keeps(s: State, id: string, action: Action) { id in s.actions && s.actions[id] == action }

  lemma KeptStep(s: State, op: Op, id: string, action: Action)
    ensures Keeps(Step(s, op).0, id, action) <==>
              || ((op.Store? || op.TakeOver?) && op.id == id && op.action == action && Step(s, op).1)
              || (Keeps(s, id, action) && op.id != id)
  {
  }

  /**
   A cancel runs the action that stands under its id, answers that it found one
   and leaves none; with nothing there it runs nothing and says so. No other
   operation runs anything.
   */
  lemma CancelRunsWhatStands(ops: seq<Op>, op: Op, action: Action)
    ensures op.Cancel? && Stands(ops, op.id, action) ==>
              var (s', found) := Step(History(ops), op);
              && found && op.id !in s'.actions && op.id in s'.order
              && s'.ran == History(ops).ran + if action.Run? then [action.token] else []
    ensures !op.Cancel? || (forall a :: !Stands(ops, op.id, a)) ==> Step(History(ops), op).0.ran == History(ops).ran
    ensures op.Cancel? && (forall a :: !Stands(ops, op.id, a)) ==> !Step(History(ops), op).1
  {
    var s := History(ops);
    KeptMeansStands(ops, op.id, action);
    if op.id in s.actions {
      KeptMeansStands(ops, op.id, s.actions[op.id]);
    }
    var pushed := Push(s.order, op.id);
    assert op.id in s.order || pushed[|pushed| - 1] == op.id;
  }

  // ----- the registry as the program keeps it ----------------------------------------------

  class Registry {
    var actions: map<string, Action>
    var terminated: set<string>
    var terminatedOrder: seq<string>
    /** The callbacks run so far, in order: the effect Cancel has outside the registry. */
    ghost var ran: seq<nat>

    ghost predicate Valid()
      reads this
    {
      NoDup(terminatedOrder) && |terminatedOrder| <= TERMINATED_CAP && terminated == Marks(terminatedOrder)
    }

    ghost function View(): State
      reads this
    {
      State(actions, terminatedOrder, ran)
    }

    constructor ()
      ensures Valid() && View() == EMPTY
    {
      actions, terminated, terminatedOrder, ran := map[], {}, [], [];
    }

    method Set(id: string, action: Action)
      requires Valid()
      modifies this
      ensures Valid() && View() == Step(old(View()), Store(id, action)).0
    {
      actions := actions[id := action];
    }

    method DoTakeOver(id: string, action: Action) returns (accepted: bool)
      requires Valid()
      modifies this
      ensures Valid() && (View(), accepted) == Step(old(View()), TakeOver(id, action))
    {
      if id in terminated {
        ForgetTerminated(id);
        actions := actions - {id};
        return false;
      }
      actions := actions[id := action];
      return true;
    }

    method DoUnregister(id: string)
      requires Valid()
      modifies this
      ensures Valid() && View() == Step(old(View()), Unregister(id)).0
    {
      actions := actions - {id};
      ForgetTerminated(id);
    }

    method DoCancel(id: string) returns (found: bool)
      requires Valid()
      modifies this
      ensures Valid() && (View(), found) == Step(old(View()), Cancel(id))
    {
      found := id in actions;
      var action := if found then actions[id] else NoAction;
      actions := actions - {id};
      if found {
        MarkTerminated(id);
      } else {
        assert actions == old(actions);
        ForgetTerminated(id);
      }
      if found && action.Run? {
        ran := ran + [action.token];
      }
    }

    method MarkTerminated(id: string)
      requires Valid()
      modifies this`terminated, this`terminatedOrder
      ensures Valid() && terminatedOrder == Push(old(terminatedOrder), id)
    {
      if id in terminated {
        return;
      }
      ghost var before := terminatedOrder;
      PushKeeps(before, id);
      assert NoDup(before + [id]);
      terminated := terminated + {id};
      terminatedOrder := terminatedOrder + [id];
      MarksSnoc(before, id);
      while |terminatedOrder| > TERMINATED_CAP
        invariant NoDup(terminatedOrder) && terminated == Marks(terminatedOrder)
        invariant terminatedOrder == before + [id] || terminatedOrder == Push(before, id)
        decreases |terminatedOrder|
      {
        ghost var all := terminatedOrder;
        assert all == [all[0]] + all[1..];
        MarksCons(all[0], all[1..]);
        assert all[0] !in Marks(all[1..]);
        terminated := terminated - {terminatedOrder[0]};
        terminatedOrder := terminatedOrder[1..];
      }
    }

    method ForgetTerminated(id: string)
      requires Valid()
      modifies this`terminated, this`terminatedOrder
      ensures Valid() && terminatedOrder == Without(old(terminatedOrder), id)
    {
      WithoutKeeps(terminatedOrder, id);
      if id !in terminated {
        WithoutAbsent(terminatedOrder, id);
        return;
      }
      terminated := terminated - {id};
      for i := 0 to |terminatedOrder|
        invariant terminatedOrder == old(terminatedOrder)
        invariant id !in terminatedOrder[..i]
      {
        if terminatedOrder[i] == id {
          WithoutCuts(terminatedOrder, id, i);
          terminatedOrder := terminatedOrder[..i] + terminatedOrder[i + 1..];
          return;
        }
      }
      assert false;
    }
  }

  lemma MarksSnoc(s: seq<string>, x: string)
    ensures Marks(s + [x]) == Marks(s) + {x}
  {
    assert forall i :: 0 <= i < |s| ==> (s + [x])[i] == s[i];
    assert x == (s + [x])[|s|];
  }
}
