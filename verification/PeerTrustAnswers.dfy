/**
 What a trust call comes to when it is left to finish, from any state: asking,
 trusting and rejecting end to end, and what a question's warning means.
 */
module PeerTrustAnswers {
  import opened Basics
  import opened PeerTrust

  /** The call takes its next n steps, storage obeying. */
  function GoOn(s: State, cid: nat, n: nat): State {
    if n == 0 then s else Step(GoOn(s, cid, n - 1), Go(cid, true))
  }

  lemma GoTwo(s: State, cid: nat)
    ensures GoOn(s, cid, 1) == Step(s, Go(cid, true))
    ensures GoOn(s, cid, 2) == Step(GoOn(s, cid, 1), Go(cid, true))
    ensures GoOn(s, cid, 3) == Step(GoOn(s, cid, 2), Go(cid, true))
    ensures GoOn(s, cid, 4) == Step(GoOn(s, cid, 3), Go(cid, true))
  {
    assert GoOn(s, cid, 0) == s;
  }

  // ----- a question is raised ----------------------------------------------------------------

  predicate Waits(e: Entry) { e.state.Connecting? || e.state.TrustRequired? }

  lemma AskFinishes(s: State, cid: nat, sid: nat, p: Prompt)
    requires cid in s.calls && s.calls[cid] == Asking(sid, p) && sid in s.sessions
    ensures var e, t := s.sessions[sid], GoOn(s, cid, 3);
            if Waits(e) && e.prompt.None? then
              t == State(s.sessions[sid := Entry(TrustRequired, Some(p))], s.subjects, s.repo, s.calls - {cid}, s.told + [Told(sid, p)])
            else if Waits(e) && e.prompt.value.material == p.material then
              t == s.(calls := s.calls - {cid}, told := s.told + [Told(sid, p)])
            else t == s.(calls := s.calls - {cid})
  {
    var e := s.sessions[sid];
    GoTwo(s, cid);
    assert s.sessions[sid := e] == s.sessions;
    var s1 := Step(s, Go(cid, true));
    if Waits(e) && e.prompt.None? {
      assert s1 == Next(SetEntry(s, sid, e.(prompt := Some(p))), cid, Marking(sid, p));
      var s2 := Step(s1, Go(cid, true));
      assert s2.sessions == s.sessions[sid := Entry(TrustRequired, Some(p))];
      assert s2.calls - {cid} == s.calls - {cid};
    } else if Waits(e) && e.prompt.value.material == p.material {
      assert s1 == Next(s, cid, Telling(sid, p));
      assert s1.calls - {cid} == s.calls - {cid};
    } else {
      assert s1 == s.(calls := s.calls - {cid});
    }
  }

  /**
   Asking, end to end. An accepted Verify of material that is not the stored one
   leaves its session waiting for the user with exactly that question, which
   warns when other material is stored, and the user is told; a question already
   pending about the same material is told again; one about other material, or a
   session that is not waiting, is left as it is. Nothing else changes, and
   known material asks nothing.
   */
  lemma VerifyAsks(s: State, op: Op)
    requires op.Verify? && Accepts(s, op)
    ensures var t, e, place := GoOn(Step(s, op), op.cid, 4), s.sessions[op.sid], Place(op.scope, op.claimed);
            var p := Prompt(op.claimed, Of(op.material), op.material, place in s.repo);
            if place in s.repo && s.repo[place] == op.material then t == s
            else if Waits(e) && e.prompt.None? then
              t == s.(sessions := s.sessions[op.sid := Entry(TrustRequired, Some(p))], told := s.told + [Told(op.sid, p)])
            else if Waits(e) && e.prompt.value.material == op.material then t == s.(told := s.told + [Told(op.sid, p)])
            else t == s
  {
    var s1 := Step(s, op);
    var p := Prompt(op.claimed, Of(op.material), op.material, Place(op.scope, op.claimed) in s.repo);
    GoTwo(s1, op.cid);
    var s2 := Step(s1, Go(op.cid, true));
    assert s1.calls - {op.cid} == s.calls;
    if !Known(s1, s1.calls[op.cid]) {
      assert s2.calls - {op.cid} == s.calls;
      AskFinishes(s2, op.cid, op.sid, p);
      GoTwo(s2, op.cid);
      assert GoOn(s1, op.cid, 4) == GoOn(s2, op.cid, 3);
    }
  }

  // ----- the user answers --------------------------------------------------------------------

  /**
   Trusting, end to end: the material of the question is stored for its subject,
   a session that still waits goes back to connecting without a question, and
   nothing else changes.
   */
  lemma TrustStores(s: State, op: Op)
    requires op.Resolve? && Echoes(s, op) && op.action.Trust? && Storable(s.sessions[op.sid].prompt.value.material)
    ensures var t, e := GoOn(Step(s, op), op.cid, 3), s.sessions[op.sid];
            && t.repo == s.repo[Place(op.scope, e.prompt.value.subject) := e.prompt.value.material]
            && t.sessions == (if e.state.HostKeyRequired? || e.state.TrustRequired?
                              then s.sessions[op.sid := Entry(Connecting, None)] else s.sessions)
            && t.subjects == s.subjects && t.calls == s.calls && t.told == s.told
  {
    var s1, e := Step(s, op), s.sessions[op.sid];
    GoTwo(s1, op.cid);
    var s2 := Step(s1, Go(op.cid, true));
    assert s2.calls - {op.cid} == s.calls;
    var s3 := Step(s2, Go(op.cid, true));
    if e.state.HostKeyRequired? {
      assert s3.calls == s.calls;
    } else {
      assert s3.calls - {op.cid} == s.calls;
      assert s.sessions[op.sid := e] == s.sessions;
    }
  }

  /** What the user trusted is verified from then on: any session whose record names the subject gets a yes for that material. */
  lemma TrustThenVerify(s: State, op: Op, again: Op)
    requires op.Resolve? && Echoes(s, op) && op.action.Trust? && Storable(s.sessions[op.sid].prompt.value.material)
    requires again.Verify? && Accepts(GoOn(Step(s, op), op.cid, 3), again) && again.scope == op.scope
    requires again.claimed == s.sessions[op.sid].prompt.value.subject
    ensures AnswersTrue(Step(GoOn(Step(s, op), op.cid, 3), again), Go(again.cid, true))
            <==> again.material == s.sessions[op.sid].prompt.value.material
  {
    TrustStores(s, op);
  }

  /** Rejecting, end to end: the question goes, the session fails, and nothing is stored. */
  lemma RejectFails(s: State, op: Op)
    requires op.Resolve? && Echoes(s, op) && op.action.Reject?
    ensures GoOn(Step(s, op), op.cid, 2) == s.(sessions := s.sessions[op.sid := Entry(Failed, None)])
  {
    var s1 := Step(s, op);
    GoTwo(s1, op.cid);
    var s2 := Step(s1, Go(op.cid, true));
    assert s2.calls - {op.cid} == s.calls;
  }

  /** An answer that does not echo the pending question's fingerprint, or is neither of the two, changes nothing. */
  lemma StrayAnswerChangesNothing(s: State, op: Op)
    requires op.Resolve? && op.cid !in s.calls
    ensures Step(s, op) == s <==>
              || op.action.Unknown? || op.sid !in s.sessions || s.sessions[op.sid].prompt.None?
              || op.fingerprint == Blank || op.fingerprint != s.sessions[op.sid].prompt.value.fingerprint
  {
    if Echoes(s, op) && !op.action.Unknown? {
      assert op.cid in Step(s, op).calls;
    }
  }

  // ----- the warning ---------------------------------------------------------------------------

  /**
   Over every run: a pending question warns of a mismatch exactly when, at the
   step its material was looked up, other material stood stored for its subject.
   */
  lemma WarningMeansOtherKnown(ops: seq<Op>, sid: nat) returns (f: nat, scope: nat)
    requires PromptOf(Run(ops), sid).Some?
    ensures var p := PromptOf(Run(ops), sid).value;
            && FoundAt(ops, f, scope, sid, p)
            && (p.mismatch <==> exists other :: Stands(ops[..f], Place(scope, p.subject), other))
            && !Stands(ops[..f], Place(scope, p.subject), p.material)
  {
    EveryRunIsHonest(ops);
    var p := PromptOf(Run(ops), sid).value;
    assert SessionIsHonest(ops, sid, Some(p));
    f, scope :| FoundAt(ops, f, scope, sid, p);
    var place, repo := Place(scope, p.subject), Run(ops[..f]).repo;
    RepoIsLastPut(ops[..f], place, p.material);
    if place in repo {
      RepoIsLastPut(ops[..f], place, repo[place]);
    } else {
      forall other ensures !Stands(ops[..f], place, other) { RepoIsLastPut(ops[..f], place, other); }
    }
  }

  /** And every question is about storable material, so that trusting it always stores. */
  lemma QuestionsAreStorable(ops: seq<Op>, sid: nat)
    requires PromptOf(Run(ops), sid).Some?
    ensures Storable(PromptOf(Run(ops), sid).value.material)
  {
    EveryRunIsHonest(ops);
    var p := PromptOf(Run(ops), sid).value;
    assert SessionIsHonest(ops, sid, Some(p));
    var c :| 0 <= c < |ops| && AskedAt(ops, c, sid, p.subject, p.material);
  }

  // ----- sessions ------------------------------------------------------------------------------

  function OpensAt(ops: seq<Op>, sid: nat): nat -> bool {
    (i: nat) => i < |ops| && ops[i].Open? && ops[i].sid == sid
  }

  function ClosesAt(ops: seq<Op>, sid: nat): nat -> bool {
    (i: nat) => i < |ops| && ops[i].Close? && ops[i].sid == sid
  }

  lemma SessionsStep(s: State, op: Op, sid: nat)
    ensures sid in Step(s, op).sessions <==>
              (op.Open? && op.sid == sid) || (sid in s.sessions && !(op.Close? && op.sid == sid))
  {
    if op.Go? && op.cid in s.calls {
      AdvanceKeepsSessions(s, op.cid, op.obeys);
    }
  }

  lemma AdvanceKeepsSessions(s: State, cid: nat, obeys: bool)
    requires cid in s.calls
    ensures Advance(s, cid, obeys).sessions.Keys == s.sessions.Keys
  {
  }

  /** A session is there exactly when it was opened and not closed since: no answer, retry or failure removes it. */
  lemma {:induction false} SessionIsHistory(ops: seq<Op>, n: nat, sid: nat)
    requires n <= |ops|
    ensures sid in Run(ops[..n]).sessions <==> Since(OpensAt(ops, sid), ClosesAt(ops, sid), n)
    decreases n
  {
    if n > 0 {
      var m := n - 1;
      SessionIsHistory(ops, m, sid);
      SinceGrows(OpensAt(ops, sid), ClosesAt(ops, sid), m);
      assert ops[..n][..m] == ops[..m];
      SessionsStep(Run(ops[..m]), ops[m], sid);
    }
  }
}
