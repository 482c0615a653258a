/**
 What the user sees of a trust question: whether a session that holds one shows
 it, what can draw a session back or strand a question, and which subject is
 named (internal/usecase/peer_trust_lifecycle.go, internal/usecase/peer_trust_service.go).
 Raising and rejecting a question each take two writes, and anything may come
 between them.
 */
module PeerTrustScreen {
  import opened Basics
  import opened PeerTrust

  // ----- who may be asked ----------------------------------------------------------------------

  /** A question is raised only on a session that is connecting or already waits for a decision. */
  lemma OnlyWaitingSessionsAreAsked(s: State, op: Op, sid: nat)
    requires !Pending(s, sid) && Pending(Step(s, op), sid)
    ensures sid in s.sessions && (s.sessions[sid].state.Connecting? || s.sessions[sid].state.TrustRequired?)
    ensures Raises(s, op, sid)
    ensures PromptOf(Step(s, op), sid) == Some(s.calls[op.cid].prompt)
  {
    if op.Go? && op.cid in s.calls {
      match s.calls[op.cid]
      case Finding(_, _, _, _) =>
      case Asking(_, _) =>
      case Marking(_, _) =>
      case Telling(_, _) =>
      case Storing(_, _, _) =>
      case Retrying(_) =>
      case RetryingTrust(_) =>
      case Refusing(_) =>
      case Failing(_) =>
    }
  }

  /** The first write of a question: a call that asks puts it on the session. */
  predicate Raises(s: State, op: Op, sid: nat) {
    && op.Go? && op.cid in s.calls && s.calls[op.cid].Asking? && s.calls[op.cid].sid == sid
    && sid in s.sessions && Begin(s.sessions[sid], s.calls[op.cid].prompt).Raised?
  }

  /** The second: the call that raised it marks the session. */
  predicate Marks(s: State, op: Op, sid: nat) {
    op.Go? && op.cid in s.calls && s.calls[op.cid].Marking? && s.calls[op.cid].sid == sid
  }

  /** The second write of a rejection. */
  predicate Fails(s: State, op: Op, sid: nat) {
    op.Go? && op.cid in s.calls && s.calls[op.cid].Failing? && s.calls[op.cid].sid == sid
  }

  // ----- the state of a session ---------------------------------------------------------------------

  /** The state a step writes into a session that keeps its question. */
  function Written(s: State, op: Op, sid: nat): Option<SessionState> {
    if op.Move? && op.sid == sid then Some(op.to)
    else if Marks(s, op, sid) then Some(TrustRequired)
    else if Fails(s, op, sid) then Some(Failed)
    else None
  }

  /** Nothing else moves a session while its question is pending. */
  lemma StateStep(s: State, op: Op, sid: nat)
    requires Pending(s, sid) && Pending(Step(s, op), sid)
    ensures Step(s, op).sessions[sid].state
         == if Written(s, op, sid).Some? then Written(s, op, sid).value else s.sessions[sid].state
  {
    if op.Go? && op.cid in s.calls {
      match s.calls[op.cid]
      case Finding(_, _, _, _) =>
      case Asking(_, _) =>
      case Marking(_, _) =>
      case Telling(_, _) =>
      case Storing(_, _, _) =>
      case Retrying(_) =>
      case RetryingTrust(_) =>
      case Refusing(_) =>
      case Failing(_) =>
    }
  }

  lemma RaisingStep(s: State, op: Op, sid: nat)
    requires !Pending(s, sid) && Pending(Step(s, op), sid)
    ensures sid in s.sessions && Step(s, op).sessions[sid].state == s.sessions[sid].state
    ensures BeingMarked(Step(s, op), sid)
  {
    OnlyWaitingSessionsAreAsked(s, op, sid);
    assert Step(s, op).calls[op.cid].Marking?;
  }

  /** Step i raised the question that is pending ever since. */
  ghost predicate PendingSince(ops: seq<Op>, i: nat, sid: nat) {
    && i < |ops| && !Pending(Run(ops[..i]), sid)
    && forall k :: i < k <= |ops| ==> Pending(Run(ops[..k]), sid)
  }

  lemma PendingBefore(ops: seq<Op>, i: nat, sid: nat)
    requires PendingSince(ops, i, sid) && i < |ops| - 1
    ensures PendingSince(ops[..|ops| - 1], i, sid) && Pending(Run(ops[..|ops| - 1]), sid) && Pending(Run(ops), sid)
  {
    var before := ops[..|ops| - 1];
    assert before[..i] == ops[..i];
    forall k | i < k <= |before| ensures Pending(Run(before[..k]), sid) {
      assert before[..k] == ops[..k];
    }
    assert ops[..|ops|] == ops;
  }

  /** After step i a state was written that meets or fails the wish. */
  function WritesAfter(ops: seq<Op>, i: nat, sid: nat, wish: SessionState, meets: bool): nat -> bool {
    (j: nat) => i < j < |ops| && Written(Run(ops[..j]), ops[j], sid).Some?
                && (Written(Run(ops[..j]), ops[j], sid).value == wish) == meets
  }

  /** Since step i the last state written is the one wished for. */
  ghost predicate LastWritten(ops: seq<Op>, i: nat, sid: nat, wish: SessionState) {
    Since(WritesAfter(ops, i, sid, wish, true), WritesAfter(ops, i, sid, wish, false), |ops|)
  }

  /** Since step i the last state written is another one. */
  ghost predicate LastWrittenOther(ops: seq<Op>, i: nat, sid: nat, wish: SessionState) {
    Since(WritesAfter(ops, i, sid, wish, false), WritesAfter(ops, i, sid, wish, true), |ops|)
  }

  lemma SinceShorter(ops: seq<Op>, i: nat, sid: nat, wish: SessionState, meets: bool)
    requires ops != []
    ensures var before := ops[..|ops| - 1];
            Since(WritesAfter(ops, i, sid, wish, meets), WritesAfter(ops, i, sid, wish, !meets), |before|)
            <==> Since(WritesAfter(before, i, sid, wish, meets), WritesAfter(before, i, sid, wish, !meets), |before|)
  {
    var n := |ops| - 1;
    var before := ops[..n];
    forall j: nat | j < n
      ensures WritesAfter(ops, i, sid, wish, meets)(j) == WritesAfter(before, i, sid, wish, meets)(j)
      ensures WritesAfter(ops, i, sid, wish, !meets)(j) == WritesAfter(before, i, sid, wish, !meets)(j)
    {
      assert before[..j] == ops[..j];
    }
    SinceSame(WritesAfter(ops, i, sid, wish, meets), WritesAfter(ops, i, sid, wish, !meets),
              WritesAfter(before, i, sid, wish, meets), WritesAfter(before, i, sid, wish, !meets), n);
  }

  lemma LastWriteGrows(ops: seq<Op>, i: nat, sid: nat, wish: SessionState)
    requires ops != [] && i < |ops| - 1
    ensures var n := |ops| - 1;
            var w := Written(Run(ops[..n]), ops[n], sid);
            && (LastWritten(ops, i, sid, wish) <==>
                  w == Some(wish) || (LastWritten(ops[..n], i, sid, wish) && w.None?))
            && (LastWrittenOther(ops, i, sid, wish) <==>
                  (w.Some? && w != Some(wish)) || (LastWrittenOther(ops[..n], i, sid, wish) && w.None?))
  {
    var n := |ops| - 1;
    SinceShorter(ops, i, sid, wish, true);
    SinceShorter(ops, i, sid, wish, false);
    SinceGrows(WritesAfter(ops, i, sid, wish, true), WritesAfter(ops, i, sid, wish, false), n);
    SinceGrows(WritesAfter(ops, i, sid, wish, false), WritesAfter(ops, i, sid, wish, true), n);
  }

  /** The last state written after step i. */
  function LastSince(ops: seq<Op>, i: nat, sid: nat): Option<SessionState>
    decreases |ops|
  {
    if |ops| <= i + 1 then None
    else
      var n := |ops| - 1;
      var w := Written(Run(ops[..n]), ops[n], sid);
      if w.Some? then w else LastSince(ops[..n], i, sid)
  }

  lemma {:induction false} LastSinceIs(ops: seq<Op>, i: nat, sid: nat, wish: SessionState)
    ensures LastWritten(ops, i, sid, wish) <==> LastSince(ops, i, sid) == Some(wish)
    ensures LastWrittenOther(ops, i, sid, wish) <==> LastSince(ops, i, sid).Some? && LastSince(ops, i, sid) != Some(wish)
    decreases |ops|
  {
    if |ops| <= i + 1 {
      NothingWritten(ops, i, sid, wish);
    } else {
      LastSinceIs(ops[..|ops| - 1], i, sid, wish);
      LastWriteGrows(ops, i, sid, wish);
    }
  }

  lemma NothingWritten(ops: seq<Op>, i: nat, sid: nat, wish: SessionState)
    requires |ops| <= i + 1
    ensures !LastWritten(ops, i, sid, wish) && !LastWrittenOther(ops, i, sid, wish)
  {
  }

  lemma {:induction false} StateIsLast(ops: seq<Op>, i: nat, sid: nat)
    requires PendingSince(ops, i, sid)
    ensures Pending(Run(ops), sid) && sid in Run(ops[..i]).sessions
    ensures Run(ops).sessions[sid].state
         == if LastSince(ops, i, sid).Some? then LastSince(ops, i, sid).value else Run(ops[..i]).sessions[sid].state
    decreases |ops|
  {
    var n := |ops| - 1;
    assert ops[..|ops|] == ops;
    if i == n {
      RaisingStep(Run(ops[..n]), ops[n], sid);
    } else {
      PendingBefore(ops, i, sid);
      assert ops[..n][..i] == ops[..i];
      StateIsLast(ops[..n], i, sid);
      StateStep(Run(ops[..n]), ops[n], sid);
    }
  }

  /** The state of a session that holds a question is the last one written, or the one it was raised in. */
  lemma StateIsLastWritten(ops: seq<Op>, i: nat, sid: nat, wish: SessionState)
    requires PendingSince(ops, i, sid)
    ensures Pending(Run(ops), sid) && sid in Run(ops[..i]).sessions
    ensures Run(ops).sessions[sid].state == wish <==>
              LastWritten(ops, i, sid, wish)
              || (Run(ops[..i]).sessions[sid].state == wish && !LastWrittenOther(ops, i, sid, wish))
  {
    StateIsLast(ops, i, sid);
    LastSinceIs(ops, i, sid, wish);
  }

  // ----- a pending question is visible -----------------------------------------------------------

  ghost predicate BeingMarked(s: State, sid: nat) {
    exists cid :: cid in s.calls && s.calls[cid].Marking? && s.calls[cid].sid == sid
  }

  /** The session shows that it waits for a decision, or a call is about to make it so. */
  ghost predicate Visible(s: State, sid: nat) {
    sid in s.sessions && (s.sessions[sid].state.TrustRequired? || BeingMarked(s, sid))
  }

  lemma CallsElsewhereStay(s: State, op: Op, cid: nat)
    requires cid in s.calls && !(op.Go? && op.cid == cid)
    ensures cid in Step(s, op).calls && Step(s, op).calls[cid] == s.calls[cid]
  {
    if op.Go? && op.cid in s.calls {
      match s.calls[op.cid]
      case Finding(_, _, _, _) =>
      case Asking(_, _) =>
      case Marking(_, _) =>
      case Telling(_, _) =>
      case Storing(_, _, _) =>
      case Retrying(_) =>
      case RetryingTrust(_) =>
      case Refusing(_) =>
      case Failing(_) =>
    }
  }

  lemma MarkingStays(s: State, op: Op, sid: nat)
    requires BeingMarked(s, sid)
    ensures BeingMarked(Step(s, op), sid) || Marks(s, op, sid)
  {
    var cid :| cid in s.calls && s.calls[cid].Marking? && s.calls[cid].sid == sid;
    if !(op.Go? && op.cid == cid) {
      CallsElsewhereStay(s, op, cid);
    }
  }

  /** Either a call is about to mark the session, or its state was written since the question was raised. */
  lemma {:induction false} MarkedOrAboutToBe(ops: seq<Op>, i: nat, sid: nat)
    requires PendingSince(ops, i, sid)
    ensures BeingMarked(Run(ops), sid) || LastSince(ops, i, sid).Some?
    decreases |ops|
  {
    var n := |ops| - 1;
    assert ops[..|ops|] == ops;
    if i == n {
      RaisingStep(Run(ops[..n]), ops[n], sid);
    } else {
      PendingBefore(ops, i, sid);
      MarkedOrAboutToBe(ops[..n], i, sid);
      if BeingMarked(Run(ops[..n]), sid) {
        MarkingStays(Run(ops[..n]), ops[n], sid);
      }
    }
  }

  /**
   Over every run: a session whose question is pending since step i fails to
   show it exactly when, since then, something moved it elsewhere - from
   outside, or a rejection's second write - with nothing marking it again, and
   no call is about to.
   */
  lemma PendingQuestionIsVisible(ops: seq<Op>, i: nat, sid: nat)
    requires PendingSince(ops, i, sid)
    ensures !Visible(Run(ops), sid) <==>
              LastWrittenOther(ops, i, sid, TrustRequired) && !BeingMarked(Run(ops), sid)
  {
    StateIsLast(ops, i, sid);
    MarkedOrAboutToBe(ops, i, sid);
    LastSinceIs(ops, i, sid, TrustRequired);
  }

  /**
   A question is stranded on a failed session exactly when, since it was raised,
   the last write was a failure: a rejection that had dropped an earlier
   question, or one from outside.
   */
  lemma StrandedMeansFailedSince(ops: seq<Op>, i: nat, sid: nat)
    requires PendingSince(ops, i, sid)
    ensures Pending(Run(ops), sid) && Run(ops).sessions[sid].state.Failed? <==> LastWritten(ops, i, sid, Failed)
  {
    StateIsLast(ops, i, sid);
    LastSinceIs(ops, i, sid, Failed);
    assert ops[..i + 1][..i] == ops[..i];
    OnlyWaitingSessionsAreAsked(Run(ops[..i]), ops[i], sid);
  }

  // ----- a ready session is drawn back ---------------------------------------------------------------

  /** Only a move from outside or a call that is about to mark it takes a ready session to trust-required. */
  lemma DrawnBackMeansMarked(s: State, op: Op, sid: nat)
    requires sid in s.sessions && s.sessions[sid].state.Ready?
    ensures sid in Step(s, op).sessions && Step(s, op).sessions[sid].state.TrustRequired? <==>
              Marks(s, op, sid) || op == Move(sid, TrustRequired)
  {
    if op.Go? && op.cid in s.calls {
      match s.calls[op.cid]
      case Finding(_, _, _, _) =>
      case Asking(_, _) =>
      case Marking(_, _) =>
      case Telling(_, _) =>
      case Storing(_, _, _) =>
      case Retrying(_) =>
      case RetryingTrust(_) =>
      case Refusing(_) =>
      case Failing(_) =>
    }
  }

  function RaisesAt(ops: seq<Op>, cid: nat, sid: nat): nat -> bool {
    (j: nat) => j < |ops| && ops[j].Go? && ops[j].cid == cid && Raises(Run(ops[..j]), ops[j], sid)
  }

  function GoesAt(ops: seq<Op>, cid: nat): nat -> bool {
    (j: nat) => j < |ops| && ops[j].Go? && ops[j].cid == cid
  }

  lemma MarkingStep(s: State, op: Op, cid: nat, sid: nat)
    ensures cid in Step(s, op).calls && Step(s, op).calls[cid].Marking? && Step(s, op).calls[cid].sid == sid <==>
              (op.Go? && op.cid == cid && Raises(s, op, sid))
              || (cid in s.calls && s.calls[cid].Marking? && s.calls[cid].sid == sid && !(op.Go? && op.cid == cid))
  {
    if op.Go? && op.cid in s.calls {
      match s.calls[op.cid]
      case Finding(_, _, _, _) =>
      case Asking(_, _) =>
      case Marking(_, _) =>
      case Telling(_, _) =>
      case Storing(_, _, _) =>
      case Retrying(_) =>
      case RetryingTrust(_) =>
      case Refusing(_) =>
      case Failing(_) =>
    }
  }

  lemma RaisesShorter(ops: seq<Op>, cid: nat, sid: nat)
    requires ops != []
    ensures var before := ops[..|ops| - 1];
            Since(RaisesAt(ops, cid, sid), GoesAt(ops, cid), |before|)
            <==> Since(RaisesAt(before, cid, sid), GoesAt(before, cid), |before|)
  {
    var n := |ops| - 1;
    var before := ops[..n];
    forall j: nat | j < n
      ensures RaisesAt(ops, cid, sid)(j) == RaisesAt(before, cid, sid)(j)
      ensures GoesAt(ops, cid)(j) == GoesAt(before, cid)(j)
    {
      assert before[..j] == ops[..j];
    }
    SinceSame(RaisesAt(ops, cid, sid), GoesAt(ops, cid), RaisesAt(before, cid, sid), GoesAt(before, cid), n);
  }

  /** A call is about to mark a session exactly between its own two writes. */
  lemma {:induction false} MarkingMeansRaised(ops: seq<Op>, cid: nat, sid: nat)
    ensures var s := Run(ops);
            cid in s.calls && s.calls[cid].Marking? && s.calls[cid].sid == sid <==>
              Since(RaisesAt(ops, cid, sid), GoesAt(ops, cid), |ops|)
    decreases |ops|
  {
    if ops != [] {
      var n := |ops| - 1;
      MarkingMeansRaised(ops[..n], cid, sid);
      RaisesShorter(ops, cid, sid);
      SinceGrows(RaisesAt(ops, cid, sid), GoesAt(ops, cid), n);
      MarkingStep(Run(ops[..n]), ops[n], cid, sid);
    }
  }

  /**
   Over every run: a step of a call draws a ready session back exactly when that
   call raised a question on it and takes its next step only now, after the
   session became ready.
   */
  lemma DrawnBackMeansRaisedBefore(ops: seq<Op>, cid: nat, obeys: bool, sid: nat)
    requires sid in Run(ops).sessions && Run(ops).sessions[sid].state.Ready?
    ensures var s' := Step(Run(ops), Go(cid, obeys));
            sid in s'.sessions && s'.sessions[sid].state.TrustRequired? <==>
              Since(RaisesAt(ops, cid, sid), GoesAt(ops, cid), |ops|)
  {
    DrawnBackMeansMarked(Run(ops), Go(cid, obeys), sid);
    MarkingMeansRaised(ops, cid, sid);
  }

  // ----- the subject on screen ----------------------------------------------------------------------

  /**
   The pending question and any that was announced on its session name the same
   subject exactly when the session's record did at the two calls that observed
   their material.
   */
  lemma AnnouncedNamesPending(ops: seq<Op>, sid: nat, i: nat) returns (c: nat, d: nat)
    requires Pending(Run(ops), sid) && i < |Run(ops).told| && Run(ops).told[i].sid == sid
    ensures var pending, told := Run(ops).sessions[sid].prompt.value, Run(ops).told[i].prompt;
            && c < |ops| && AskedAt(ops, c, sid, pending.subject, pending.material)
            && d < |ops| && AskedAt(ops, d, sid, told.subject, told.material)
            && (pending.subject == told.subject <==> Run(ops[..c]).subjects[sid] == Run(ops[..d]).subjects[sid])
  {
    EveryRunIsHonest(ops);
    var pending, told := Run(ops).sessions[sid].prompt.value, Run(ops).told[i].prompt;
    assert SessionIsHonest(ops, sid, Run(ops).sessions[sid].prompt);
    c :| 0 <= c < |ops| && AskedAt(ops, c, sid, pending.subject, pending.material);
    d :| 0 <= d < |ops| && AskedAt(ops, d, sid, told.subject, told.material);
  }

  predicate Rewrites(op: Op, sid: nat) { (op.Open? || op.Repoint?) && op.sid == sid }

  lemma SubjectStep(s: State, op: Op, sid: nat)
    requires !Rewrites(op, sid) && sid in s.subjects
    ensures sid in Step(s, op).subjects && Step(s, op).subjects[sid] == s.subjects[sid]
  {
    if op.Go? && op.cid in s.calls {
      match s.calls[op.cid]
      case Finding(_, _, _, _) =>
      case Asking(_, _) =>
      case Marking(_, _) =>
      case Telling(_, _) =>
      case Storing(_, _, _) =>
      case Retrying(_) =>
      case RetryingTrust(_) =>
      case Refusing(_) =>
      case Failing(_) =>
    }
  }

  /** A record that nobody writes between two calls names one subject at both. */
  lemma {:induction false} RecordStands(ops: seq<Op>, c: nat, d: nat, sid: nat)
    requires c <= d <= |ops| && sid in Run(ops[..c]).subjects
    requires forall j :: c <= j < d ==> !Rewrites(ops[j], sid)
    ensures sid in Run(ops[..d]).subjects && Run(ops[..d]).subjects[sid] == Run(ops[..c]).subjects[sid]
    decreases d
  {
    if c < d {
      RecordStands(ops, c, d - 1, sid);
      assert ops[..d][..d - 1] == ops[..d - 1];
      SubjectStep(Run(ops[..d - 1]), ops[d - 1], sid);
    }
  }

  // ----- runs in which it happens --------------------------------------------------------------------

  ghost predicate Reachable(s: State) { exists ops :: Run(ops) == s }

  lemma ReachesStart()
    ensures Reachable(START)
  {
    assert Run([]) == START;
  }

  lemma ReachesStep(s: State, op: Op, s': State)
    requires Reachable(s) && s' == Step(s, op)
    ensures Reachable(s')
  {
    var ops :| Run(ops) == s;
    assert (ops + [op])[..|ops|] == ops;
    assert Run(ops + [op]) == s';
  }

  function Question(m: Material, subject: nat): Prompt { Prompt(subject, Of(m), m, false) }

  /** Session 1 connects to subject 10; the calls, its entry and what was announced vary. */
  function One(e: Entry, subject: nat, calls: map<nat, Call>, told: seq<Told>): State {
    State(map[1 := e], map[1 := subject], map[], calls, told)
  }

  lemma OneAsks(m: Material)
    requires Storable(m)
    ensures Reachable(One(Entry(Connecting, None), 10, map[0 := Asking(1, Question(m, 10))], []))
  {
    ReachesStart();
    var idle := Entry(Connecting, None);
    ReachesStep(START, Open(1, 10), One(idle, 10, map[], []));
    ReachesStep(One(idle, 10, map[], []), Verify(0, 7, 1, 10, m), One(idle, 10, map[0 := Finding(7, 1, 10, m)], []));
    ReachesStep(One(idle, 10, map[0 := Finding(7, 1, 10, m)], []), Go(0, true),
                One(idle, 10, map[0 := Asking(1, Question(m, 10))], []));
  }

  lemma OneRaises(m: Material)
    requires Storable(m)
    ensures Reachable(One(Entry(Connecting, Some(Question(m, 10))), 10, map[0 := Marking(1, Question(m, 10))], []))
  {
    OneAsks(m);
    var p := Question(m, 10);
    ReachesStep(One(Entry(Connecting, None), 10, map[0 := Asking(1, p)], []), Go(0, true),
                One(Entry(Connecting, Some(p)), 10, map[0 := Marking(1, p)], []));
  }

  lemma OneAnnounces(m: Material)
    requires Storable(m)
    ensures Reachable(One(Entry(TrustRequired, Some(Question(m, 10))), 10, map[], [Told(1, Question(m, 10))]))
  {
    OneRaises(m);
    var p := Question(m, 10);
    var shown := Entry(TrustRequired, Some(p));
    ReachesStep(One(Entry(Connecting, Some(p)), 10, map[0 := Marking(1, p)], []), Go(0, true),
                One(shown, 10, map[0 := Telling(1, p)], []));
    assert map[0 := Telling(1, p)] - {0} == map[];
    ReachesStep(One(shown, 10, map[0 := Telling(1, p)], []), Go(0, true), One(shown, 10, map[], [Told(1, p)]));
  }

  /** A run in which a session becomes ready between the two writes of a question and is drawn back. */
  lemma LateMarkReachesAReadySession(m: Material)
    requires Storable(m)
    ensures var p := Question(m, 10);
            var ready := One(Entry(Ready, Some(p)), 10, map[0 := Marking(1, p)], []);
            Reachable(ready) && Step(ready, Go(0, true)).sessions[1] == Entry(TrustRequired, Some(p))
  {
    OneRaises(m);
    var p := Question(m, 10);
    ReachesStep(One(Entry(Connecting, Some(p)), 10, map[0 := Marking(1, p)], []), Move(1, Ready),
                One(Entry(Ready, Some(p)), 10, map[0 := Marking(1, p)], []));
  }

  lemma OneRejectsAndAsks(m: Material)
    requires Storable(m)
    ensures var p := Question(m, 10);
            Reachable(One(Entry(TrustRequired, Some(p)), 10, map[0 := Refusing(1), 2 := Asking(1, p)], [Told(1, p)]))
  {
    OneAnnounces(m);
    var p := Question(m, 10);
    var shown, told := Entry(TrustRequired, Some(p)), [Told(1, p)];
    ReachesStep(One(shown, 10, map[], told), Resolve(0, 7, 1, Reject, Of(m)), One(shown, 10, map[0 := Refusing(1)], told));
    ReachesStep(One(shown, 10, map[0 := Refusing(1)], told), Verify(2, 7, 1, 10, m),
                One(shown, 10, map[0 := Refusing(1), 2 := Finding(7, 1, 10, m)], told));
    ReachesStep(One(shown, 10, map[0 := Refusing(1), 2 := Finding(7, 1, 10, m)], told), Go(2, true),
                One(shown, 10, map[0 := Refusing(1), 2 := Asking(1, p)], told));
  }

  lemma OneDrops(m: Material)
    requires Storable(m)
    ensures var p := Question(m, 10);
            Reachable(One(Entry(TrustRequired, None), 10, map[0 := Failing(1), 2 := Asking(1, p)], [Told(1, p)]))
  {
    OneRejectsAndAsks(m);
    var p := Question(m, 10);
    ReachesStep(One(Entry(TrustRequired, Some(p)), 10, map[0 := Refusing(1), 2 := Asking(1, p)], [Told(1, p)]), Go(0, true),
                One(Entry(TrustRequired, None), 10, map[0 := Failing(1), 2 := Asking(1, p)], [Told(1, p)]));
  }

  lemma OneAsksBetween(m: Material)
    requires Storable(m)
    ensures var p := Question(m, 10);
            Reachable(One(Entry(TrustRequired, Some(p)), 10, map[0 := Failing(1), 2 := Telling(1, p)], [Told(1, p)]))
  {
    OneDrops(m);
    var p := Question(m, 10);
    var shown, dropped, told := Entry(TrustRequired, Some(p)), Entry(TrustRequired, None), [Told(1, p)];
    ReachesStep(One(dropped, 10, map[0 := Failing(1), 2 := Asking(1, p)], told), Go(2, true),
                One(shown, 10, map[0 := Failing(1), 2 := Marking(1, p)], told));
    ReachesStep(One(shown, 10, map[0 := Failing(1), 2 := Marking(1, p)], told), Go(2, true),
                One(shown, 10, map[0 := Failing(1), 2 := Telling(1, p)], told));
  }

  /** A run in which a question raised between the two writes of a rejection is left on a failed session. */
  lemma RejectCanStrandAQuestion(m: Material)
    requires Storable(m)
    ensures var p := Question(m, 10);
            Reachable(One(Entry(Failed, Some(p)), 10, map[2 := Telling(1, p)], [Told(1, p)]))
  {
    OneAsksBetween(m);
    var p := Question(m, 10);
    var before := One(Entry(TrustRequired, Some(p)), 10, map[0 := Failing(1), 2 := Telling(1, p)], [Told(1, p)]);
    assert before.calls - {0} == map[2 := Telling(1, p)];
    ReachesStep(before, Go(0, true), One(Entry(Failed, Some(p)), 10, map[2 := Telling(1, p)], [Told(1, p)]));
  }

  /** A run in which the record changes under a pending question, and the same material announces another subject. */
  lemma RepointedQuestionKeepsOldSubject(m: Material)
    requires Storable(m)
    ensures var p, q := Question(m, 10), Question(m, 20);
            Reachable(One(Entry(TrustRequired, Some(p)), 20, map[], [Told(1, p), Told(1, q)]))
  {
    OneAnnounces(m);
    var p, q := Question(m, 10), Question(m, 20);
    var shown := Entry(TrustRequired, Some(p));
    RepointedAsks(m);
    assert map[0 := Telling(1, q)] - {0} == map[];
    assert [Told(1, p)] + [Told(1, q)] == [Told(1, p), Told(1, q)];
    ReachesStep(One(shown, 20, map[0 := Asking(1, q)], [Told(1, p)]), Go(0, true),
                One(shown, 20, map[0 := Telling(1, q)], [Told(1, p)]));
    ReachesStep(One(shown, 20, map[0 := Telling(1, q)], [Told(1, p)]), Go(0, true),
                One(shown, 20, map[], [Told(1, p), Told(1, q)]));
  }

  lemma RepointedAsks(m: Material)
    requires Storable(m)
    ensures Reachable(One(Entry(TrustRequired, Some(Question(m, 10))), 20, map[0 := Asking(1, Question(m, 20))], [Told(1, Question(m, 10))]))
  {
    OneAnnounces(m);
    var p, q := Question(m, 10), Question(m, 20);
    var shown, told := Entry(TrustRequired, Some(p)), [Told(1, p)];
    ReachesStep(One(shown, 10, map[], told), Repoint(1, 20), One(shown, 20, map[], told));
    ReachesStep(One(shown, 20, map[], told), Verify(0, 7, 1, 20, m), One(shown, 20, map[0 := Finding(7, 1, 20, m)], told));
    ReachesStep(One(shown, 20, map[0 := Finding(7, 1, 20, m)], told), Go(0, true), One(shown, 20, map[0 := Asking(1, q)], told));
  }
}
