/**
 Trust decisions about a remote peer (internal/usecase/peer_trust_service.go,
 internal/usecase/peer_trust_lifecycle.go, internal/infra/persistence/peer_trust_repo.go).
 A plugin may call Verify whenever it likes, the user may answer whenever they
 like, and each call is cut into the steps between which another may come.
 */
module PeerTrust {
  import opened Basics

  const MAX_MATERIAL: nat := 0x10000

  /** Bytes a plugin observed, known by their length and by which bytes they are. */
  datatype Material = Material(size: nat, bytes: nat)

  predicate Storable(m: Material) { 0 < m.size <= MAX_MATERIAL }

  /** What the user is shown: the digest of the material, taken to tell materials apart. */
  datatype Fingerprint = Blank | Of(material: Material)

  datatype Prompt = Prompt(subject: nat, fingerprint: Fingerprint, material: Material, mismatch: bool)

  datatype SessionState = Connecting | HostKeyRequired | TrustRequired | Ready | Failed | Closed

  datatype Entry = Entry(state: SessionState, prompt: Option<Prompt>)

  /** Who trusts, and whom: what an entry is stored under. */
  datatype Place = Place(scope: nat, subject: nat)

  datatype Action = Trust | Reject | Unknown

  // ----- what one session does under the registry's lock --------------------------------

  datatype Begun = NotWaiting | Busy | Repeated | Raised

  function Begin(e: Entry, p: Prompt): Begun {
    if !e.state.Connecting? && !e.state.TrustRequired? then NotWaiting
    else if e.prompt.None? then Raised
    else if e.prompt.value.material == p.material then Repeated
    else Busy
  }

  function AfterBegin(e: Entry, p: Prompt): Entry {
    if Begin(e, p).Raised? then e.(prompt := Some(p)) else e
  }

  function AfterRetry(e: Entry, from: SessionState): Entry {
    if e.state == from then Entry(Connecting, None) else e
  }

  class Sessions {
    var entries: map<nat, Entry>

    /** The write BeginPeerTrustPrompt makes inside its one Mutate; None when there is no such session. */
    method Raise(sid: nat, p: Prompt) returns (r: Option<Begun>)
      modifies this
      ensures sid !in old(entries) ==> r == None && entries == old(entries)
      ensures sid in old(entries) ==>
                r == Some(Begin(old(entries)[sid], p)) && entries == old(entries)[sid := AfterBegin(old(entries)[sid], p)]
    {
      if sid !in entries {
        return None;
      }
      var e := entries[sid];
      assert entries == entries[sid := e];
      if e.state != Connecting && e.state != TrustRequired {
        return Some(NotWaiting);
      }
      if e.prompt.Some? {
        return Some(if e.prompt.value.material != p.material then Busy else Repeated);
      }
      entries := entries[sid := e.(prompt := Some(p))];
      return Some(Raised);
    }

    method Clear(sid: nat) returns (found: bool)
      modifies this
      ensures found == (sid in old(entries))
      ensures entries == if found then old(entries)[sid := old(entries)[sid].(prompt := None)] else old(entries)
    {
      if sid !in entries {
        return false;
      }
      entries := entries[sid := entries[sid].(prompt := None)];
      return true;
    }

    /** CompareAndTransition back to connecting, clearing the question under the same lock. */
    method Retake(sid: nat, from: SessionState) returns (moved: bool)
      requires from != Connecting
      modifies this
      ensures moved == (sid in old(entries) && old(entries)[sid].state == from)
      ensures entries == if sid in old(entries) then old(entries)[sid := AfterRetry(old(entries)[sid], from)] else old(entries)
    {
      if sid !in entries || entries[sid].state != from {
        assert sid in entries ==> entries == entries[sid := entries[sid]];
        return false;
      }
      entries := entries[sid := entries[sid].(state := Connecting)];
      entries := entries[sid := entries[sid].(prompt := None)];
      return true;
    }

    /** takeWaitingSessionForRetry when nothing comes between its two attempts. */
    method TakeWaiting(sid: nat) returns (moved: bool)
      modifies this
      ensures moved <==> sid in old(entries) && (old(entries)[sid].state.HostKeyRequired? || old(entries)[sid].state.TrustRequired?)
      ensures entries == if moved then old(entries)[sid := Entry(Connecting, None)] else old(entries)
    {
      moved := Retake(sid, HostKeyRequired);
      if !moved {
        assert entries == old(entries);
        moved := Retake(sid, TrustRequired);
        assert !moved ==> entries == old(entries);
      }
    }
  }

  // ----- the list of stored trust ---------------------------------------------------------

  datatype Stored = Stored(place: Place, material: Material)

  /** What the list holds for a place: the first entry filed under it. */
  function Lookup(list: seq<Stored>, place: Place): Option<Material> {
    if list == [] then None
    else if list[0].place == place then Some(list[0].material)
    else Lookup(list[1..], place)
  }

  function Dropped(list: seq<Stored>, place: Place): seq<Stored> {
    Rejecting(list, (e: Stored) => e.place == place)
  }

  lemma {:induction false} LookupSnoc(list: seq<Stored>, last: Stored, place: Place)
    ensures Lookup(list + [last], place)
         == if Lookup(list, place).Some? then Lookup(list, place)
            else if last.place == place then Some(last.material) else None
    decreases |list|
  {
    if list == [] {
      assert list + [last] == [last];
    } else {
      assert (list + [last])[1..] == list[1..] + [last];
      LookupSnoc(list[1..], last, place);
    }
  }

  lemma {:induction false} LookupDropped(list: seq<Stored>, gone: Place, place: Place)
    ensures Lookup(Dropped(list, gone), place) == if place == gone then None else Lookup(list, place)
    decreases |list|
  {
    if list != [] {
      var n := |list| - 1;
      LookupDropped(list[..n], gone, place);
      assert list == list[..n] + [list[n]];
      LookupSnoc(list[..n], list[n], place);
      LookupSnoc(Dropped(list[..n], gone), list[n], place);
      if list[n].place == gone {
        assert Dropped(list, gone) == Dropped(list[..n], gone);
      }
    }
  }

  class TrustRepo {
    var list: seq<Stored>

    method Find(place: Place) returns (known: Option<Material>)
      ensures known == Lookup(list, place)
    {
      for i := 0 to |list|
        invariant Lookup(list, place) == Lookup(list[i..], place)
      {
        if list[i].place == place {
          return Some(list[i].material);
        }
      }
      return None;
    }

    /** Put replaces, precisely: the place then holds the new material and every other place what it held. */
    method Put(place: Place, material: Material) returns (ok: bool)
      modifies this
      ensures ok == Storable(material)
      ensures forall p :: Lookup(list, p) == if ok && p == place then Some(material) else old(Lookup(list, p))
    {
      if material.size == 0 || material.size > MAX_MATERIAL {
        return false;
      }
      var kept := KeepRest(list, (e: Stored) => e.place == place);
      forall p ensures Lookup(kept + [Stored(place, material)], p) == if p == place then Some(material) else Lookup(list, p) {
        LookupDropped(list, place, p);
        LookupSnoc(kept, Stored(place, material), p);
      }
      list := kept + [Stored(place, material)];
      return true;
    }

    method Remove(place: Place)
      modifies this
      ensures forall p :: Lookup(list, p) == if p == place then None else old(Lookup(list, p))
    {
      var kept := KeepRest(list, (e: Stored) => e.place == place);
      forall p ensures Lookup(kept, p) == if p == place then None else Lookup(list, p) {
        LookupDropped(list, place, p);
      }
      list := kept;
    }
  }

  // ----- calls in flight --------------------------------------------------------------------

  /** Where a call stands: what it has learnt and the step it takes next. */
  datatype Call =
    | Finding(scope: nat, sid: nat, subject: nat, material: Material)
    | Asking(sid: nat, prompt: Prompt)
    | Marking(sid: nat, prompt: Prompt)
    | Telling(sid: nat, prompt: Prompt)
    | Storing(scope: nat, sid: nat, prompt: Prompt)
    | Retrying(sid: nat)
    | RetryingTrust(sid: nat)
    | Refusing(sid: nat)
    | Failing(sid: nat)

  datatype Told = Told(sid: nat, prompt: Prompt)

  /** subjects is what the connection record of a session names, where it names anything usable. */
  datatype State = State(sessions: map<nat, Entry>, subjects: map<nat, nat>, repo: map<Place, Material>,
                         calls: map<nat, Call>, told: seq<Told>)

  const START := State(map[], map[], map[], map[], [])

  datatype Op =
    | Verify(cid: nat, scope: nat, sid: nat, claimed: nat, material: Material)
    | Resolve(cid: nat, scope: nat, sid: nat, action: Action, fingerprint: Fingerprint)
    | Retry(cid: nat, sid: nat)
    /** The next step of a call in flight; obeys says whether storage does what it is told. */
    | Go(cid: nat, obeys: bool)
    | Open(sid: nat, subject: nat)
    | Close(sid: nat)
    | Repoint(sid: nat, subject: nat)
    | Move(sid: nat, to: SessionState)
    | Revoke(place: Place)

  predicate Accepts(s: State, op: Op)
    requires op.Verify?
  {
    && op.cid !in s.calls && Storable(op.material) && op.sid in s.sessions
    && op.sid in s.subjects && op.claimed == s.subjects[op.sid]
  }

  predicate Pending(s: State, sid: nat) { sid in s.sessions && s.sessions[sid].prompt.Some? }

  predicate Echoes(s: State, op: Op)
    requires op.Resolve?
  {
    && op.cid !in s.calls && Pending(s, op.sid) && op.fingerprint != Blank
    && op.fingerprint == s.sessions[op.sid].prompt.value.fingerprint
  }

  function Next(s: State, cid: nat, call: Call): State { s.(calls := s.calls[cid := call]) }

  function Done(s: State, cid: nat): State { s.(calls := s.calls - {cid}) }

  function SetEntry(s: State, sid: nat, e: Entry): State { s.(sessions := s.sessions[sid := e]) }

  function SetState(s: State, sid: nat, to: SessionState): State {
    if sid in s.sessions then SetEntry(s, sid, s.sessions[sid].(state := to)) else s
  }

  /** Whether the repository already holds exactly this material: the only way Verify answers true. */
  predicate Known(s: State, call: Call)
    requires call.Finding?
  {
    var place := Place(call.scope, call.subject);
    place in s.repo && s.repo[place] == call.material
  }

  function Advance(s: State, cid: nat, obeys: bool): State
    requires cid in s.calls
  {
    match s.calls[cid]
    case Finding(scope, sid, subject, material) =>
      if !obeys || Known(s, s.calls[cid]) then Done(s, cid)
      else Next(s, cid, Asking(sid, Prompt(subject, Of(material), material, Place(scope, subject) in s.repo)))
    case Asking(sid, prompt) =>
      if sid !in s.sessions then Done(s, cid)
      else
        var s' := SetEntry(s, sid, AfterBegin(s.sessions[sid], prompt));
        (match Begin(s.sessions[sid], prompt)
         case Raised => Next(s', cid, Marking(sid, prompt))
         case Repeated => Next(s', cid, Telling(sid, prompt))
         case _ => Done(s', cid))
    case Marking(sid, prompt) => Next(SetState(s, sid, TrustRequired), cid, Telling(sid, prompt))
    case Telling(sid, prompt) => Done(s.(told := s.told + [Told(sid, prompt)]), cid)
    case Storing(scope, sid, prompt) =>
      if obeys && Storable(prompt.material)
      then Next(s.(repo := s.repo[Place(scope, prompt.subject) := prompt.material]), cid, Retrying(sid))
      else Done(s, cid)
    case Retrying(sid) =>
      if sid in s.sessions && s.sessions[sid].state.HostKeyRequired?
      then Done(SetEntry(s, sid, AfterRetry(s.sessions[sid], HostKeyRequired)), cid)
      else Next(s, cid, RetryingTrust(sid))
    case RetryingTrust(sid) =>
      if sid in s.sessions then Done(SetEntry(s, sid, AfterRetry(s.sessions[sid], TrustRequired)), cid)
      else Done(s, cid)
    case Refusing(sid) =>
      if sid in s.sessions then Next(SetEntry(s, sid, s.sessions[sid].(prompt := None)), cid, Failing(sid))
      else Done(s, cid)
    case Failing(sid) => Done(SetState(s, sid, Failed), cid)
  }

  function Step(s: State, op: Op): State {
    match op
    case Verify(cid, scope, sid, claimed, material) =>
      if Accepts(s, op) then Next(s, cid, Finding(scope, sid, claimed, material)) else s
    case Resolve(cid, scope, sid, action, _) =>
      if !Echoes(s, op) || action.Unknown? then s
      else if action.Trust? then Next(s, cid, Storing(scope, sid, s.sessions[sid].prompt.value))
      else Next(s, cid, Refusing(sid))
    case Retry(cid, sid) => if cid in s.calls then s else Next(s, cid, Retrying(sid))
    case Go(cid, obeys) => if cid in s.calls then Advance(s, cid, obeys) else s
    case Open(sid, subject) =>
      if sid in s.sessions then s
      else SetEntry(s, sid, Entry(Connecting, None)).(subjects := s.subjects[sid := subject])
    case Close(sid) => s.(sessions := s.sessions - {sid})
    case Repoint(sid, subject) => s.(subjects := s.subjects[sid := subject])
    case Move(sid, to) => SetState(s, sid, to)
    case Revoke(place) => s.(repo := s.repo - {place})
  }

  function Run(ops: seq<Op>): State {
    if ops == [] then START else Step(Run(ops[..|ops| - 1]), ops[|ops| - 1])
  }

  // ----- a pending question stands --------------------------------------------------------------

  function PromptOf(s: State, sid: nat): Option<Prompt> {
    if sid in s.sessions then s.sessions[sid].prompt else None
  }

  lemma AdvanceKeepsQuestion(s: State, cid: nat, obeys: bool, sid: nat)
    requires cid in s.calls
    ensures var p, p' := PromptOf(s, sid), PromptOf(Advance(s, cid, obeys), sid);
            p.Some? && p'.Some? ==> p == p'
  {
  }

  lemma StepKeepsQuestion(s: State, op: Op, sid: nat)
    ensures var p, p' := PromptOf(s, sid), PromptOf(Step(s, op), sid);
            p.Some? && p'.Some? ==> p == p'
  {
    if op.Go? && op.cid in s.calls {
      AdvanceKeepsQuestion(s, op.cid, op.obeys, sid);
    }
  }

  /** While a session keeps having a question, it is the same one: material, fingerprint and subject. */
  lemma {:induction false} PendingQuestionStands(ops: seq<Op>, i: nat, j: nat, sid: nat)
    requires i <= j <= |ops|
    requires forall k :: i <= k <= j ==> Pending(Run(ops[..k]), sid)
    ensures PromptOf(Run(ops[..j]), sid) == PromptOf(Run(ops[..i]), sid)
    decreases j
  {
    if i < j {
      PendingQuestionStands(ops, i, j - 1, sid);
      var s, op := Run(ops[..j - 1]), ops[j - 1];
      assert ops[..j][..j - 1] == ops[..j - 1];
      assert Pending(s, sid) && Pending(Run(ops[..j]), sid);
      StepKeepsQuestion(s, op, sid);
    }
  }

  // ----- where everything comes from ---------------------------------------------------------------

  /** At step c a plugin observed the material on a session whose record named the subject. */
  ghost predicate AskedAt(ops: seq<Op>, c: nat, sid: nat, subject: nat, material: Material)
    requires c < |ops|
  {
    && ops[c].Verify? && Accepts(Run(ops[..c]), ops[c])
    && ops[c].sid == sid && ops[c].claimed == subject && ops[c].material == material
  }

  ghost predicate Asked(ops: seq<Op>, sid: nat, subject: nat, material: Material) {
    exists c :: 0 <= c < |ops| && AskedAt(ops, c, sid, subject, material)
  }

  /**
   At step f a call that observed the material looked the subject up and did not
   find that material; the question tells whether it found another.
   */
  ghost predicate FoundAt(ops: seq<Op>, f: nat, scope: nat, sid: nat, p: Prompt) {
    && f < |ops| && ops[f].Go? && ops[f].cid in Run(ops[..f]).calls
    && Run(ops[..f]).calls[ops[f].cid] == Finding(scope, sid, p.subject, p.material)
    && var repo, place := Run(ops[..f]).repo, Place(scope, p.subject);
       (p.mismatch <==> place in repo) && (place in repo ==> repo[place] != p.material)
  }

  ghost predicate Found(ops: seq<Op>, sid: nat, p: Prompt) {
    exists f: nat, scope :: FoundAt(ops, f, scope, sid, p)
  }

  /**
   A question as it should be: it shows the digest of its own material, which was
   observed there, and says whether other material was known.
   */
  ghost predicate Honest(ops: seq<Op>, sid: nat, p: Prompt) {
    p.fingerprint == Of(p.material) && Asked(ops, sid, p.subject, p.material) && Found(ops, sid, p)
  }

  /** At step a the user said trust, echoing the fingerprint of the question then pending. */
  ghost predicate EchoedAt(ops: seq<Op>, a: nat, scope: nat, sid: nat, p: Prompt)
    requires a < |ops|
  {
    && ops[a].Resolve? && ops[a].action.Trust? && ops[a].scope == scope && ops[a].sid == sid
    && ops[a].fingerprint == p.fingerprint
    && PromptOf(Run(ops[..a]), sid) == Some(p)
  }

  ghost predicate Echoed(ops: seq<Op>, scope: nat, sid: nat, p: Prompt) {
    exists a :: 0 <= a < |ops| && EchoedAt(ops, a, scope, sid, p)
  }

  ghost predicate CallIsHonest(ops: seq<Op>, call: Call) {
    match call
    case Finding(_, sid, subject, material) => Asked(ops, sid, subject, material)
    case Asking(sid, p) => Honest(ops, sid, p)
    case Marking(sid, p) => Honest(ops, sid, p)
    case Telling(sid, p) => Honest(ops, sid, p)
    case Storing(scope, sid, p) => Honest(ops, sid, p) && Echoed(ops, scope, sid, p)
    case _ => true
  }

  ghost predicate SessionIsHonest(ops: seq<Op>, sid: nat, p: Option<Prompt>) {
    p.Some? ==> Honest(ops, sid, p.value)
  }

  lemma AskedExtends(ops: seq<Op>, sid: nat, subject: nat, material: Material)
    requires ops != [] && Asked(ops[..|ops| - 1], sid, subject, material)
    ensures Asked(ops, sid, subject, material)
  {
    var before := ops[..|ops| - 1];
    var c :| 0 <= c < |before| && AskedAt(before, c, sid, subject, material);
    assert ops[..c] == before[..c];
    assert AskedAt(ops, c, sid, subject, material);
  }

  lemma EchoedExtends(ops: seq<Op>, scope: nat, sid: nat, p: Prompt)
    requires ops != [] && Echoed(ops[..|ops| - 1], scope, sid, p)
    ensures Echoed(ops, scope, sid, p)
  {
    var before := ops[..|ops| - 1];
    var a :| 0 <= a < |before| && EchoedAt(before, a, scope, sid, p);
    assert ops[..a] == before[..a];
    assert EchoedAt(ops, a, scope, sid, p);
  }

  lemma HonestExtends(ops: seq<Op>, sid: nat, p: Prompt)
    requires ops != [] && Honest(ops[..|ops| - 1], sid, p)
    ensures Honest(ops, sid, p)
  {
    AskedExtends(ops, sid, p.subject, p.material);
    FoundExtends(ops, sid, p);
  }

  lemma FoundExtends(ops: seq<Op>, sid: nat, p: Prompt)
    requires ops != [] && Found(ops[..|ops| - 1], sid, p)
    ensures Found(ops, sid, p)
  {
    var before := ops[..|ops| - 1];
    var f: nat, scope :| FoundAt(before, f, scope, sid, p);
    assert ops[..f] == before[..f];
    assert FoundAt(ops, f, scope, sid, p);
  }

  lemma CallExtends(ops: seq<Op>, call: Call)
    requires ops != [] && CallIsHonest(ops[..|ops| - 1], call)
    ensures CallIsHonest(ops, call)
  {
    match call
    case Finding(_, sid, subject, material) => AskedExtends(ops, sid, subject, material);
    case Asking(sid, p) => HonestExtends(ops, sid, p);
    case Marking(sid, p) => HonestExtends(ops, sid, p);
    case Telling(sid, p) => HonestExtends(ops, sid, p);
    case Storing(scope, sid, p) => HonestExtends(ops, sid, p); EchoedExtends(ops, scope, sid, p);
    case _ =>
  }

  ghost predicate AllHonest(ops: seq<Op>, s: State) {
    && (forall cid :: cid in s.calls ==> CallIsHonest(ops, s.calls[cid]))
    && (forall sid :: sid in s.sessions ==> SessionIsHonest(ops, sid, s.sessions[sid].prompt))
    && (forall i :: 0 <= i < |s.told| ==> Honest(ops, s.told[i].sid, s.told[i].prompt))
  }

  lemma HonestyExtends(ops: seq<Op>, s: State)
    requires ops != [] && AllHonest(ops[..|ops| - 1], s)
    ensures AllHonest(ops, s)
  {
    forall cid | cid in s.calls ensures CallIsHonest(ops, s.calls[cid]) {
      CallExtends(ops, s.calls[cid]);
    }
    forall sid | sid in s.sessions ensures SessionIsHonest(ops, sid, s.sessions[sid].prompt) {
      if s.sessions[sid].prompt.Some? {
        HonestExtends(ops, sid, s.sessions[sid].prompt.value);
      }
    }
    forall i | 0 <= i < |s.told| ensures Honest(ops, s.told[i].sid, s.told[i].prompt) {
      HonestExtends(ops, s.told[i].sid, s.told[i].prompt);
    }
  }

  lemma NextIsHonest(ops: seq<Op>, s: State, cid: nat, call: Call)
    requires AllHonest(ops, s) && CallIsHonest(ops, call)
    ensures AllHonest(ops, Next(s, cid, call))
  {
  }

  lemma DoneIsHonest(ops: seq<Op>, s: State, cid: nat)
    requires AllHonest(ops, s)
    ensures AllHonest(ops, Done(s, cid))
  {
  }

  lemma EntryIsHonest(ops: seq<Op>, s: State, sid: nat, e: Entry)
    requires AllHonest(ops, s) && SessionIsHonest(ops, sid, e.prompt)
    ensures AllHonest(ops, SetEntry(s, sid, e))
  {
  }

  lemma StateIsHonest(ops: seq<Op>, s: State, sid: nat, to: SessionState)
    requires AllHonest(ops, s)
    ensures AllHonest(ops, SetState(s, sid, to))
  {
  }

  lemma AskingIsHonest(ops: seq<Op>, s: State, cid: nat, obeys: bool)
    requires cid in s.calls && s.calls[cid].Asking? && AllHonest(ops, s)
    ensures AllHonest(ops, Advance(s, cid, obeys))
  {
    var call := s.calls[cid];
    assert CallIsHonest(ops, call);
    if call.sid in s.sessions {
      var e := AfterBegin(s.sessions[call.sid], call.prompt);
      assert SessionIsHonest(ops, call.sid, e.prompt);
      EntryIsHonest(ops, s, call.sid, e);
      var s' := SetEntry(s, call.sid, e);
      match Begin(s.sessions[call.sid], call.prompt)
      case Raised => NextIsHonest(ops, s', cid, Marking(call.sid, call.prompt));
      case Repeated => NextIsHonest(ops, s', cid, Telling(call.sid, call.prompt));
      case _ => DoneIsHonest(ops, s', cid);
    }
  }

  lemma RetryIsHonest(ops: seq<Op>, s: State, cid: nat, sid: nat, from: SessionState)
    requires AllHonest(ops, s) && sid in s.sessions
    ensures AllHonest(ops, Done(SetEntry(s, sid, AfterRetry(s.sessions[sid], from)), cid))
  {
    var e := AfterRetry(s.sessions[sid], from);
    EntryIsHonest(ops, s, sid, e);
    DoneIsHonest(ops, SetEntry(s, sid, e), cid);
  }

  lemma RetryingIsHonest(ops: seq<Op>, s: State, cid: nat, obeys: bool)
    requires cid in s.calls && AllHonest(ops, s)
    requires s.calls[cid].Retrying? || s.calls[cid].RetryingTrust?
    ensures AllHonest(ops, Advance(s, cid, obeys))
  {
    var call := s.calls[cid];
    if call.sid in s.sessions {
      RetryIsHonest(ops, s, cid, call.sid, if call.Retrying? then HostKeyRequired else TrustRequired);
    } else {
      DoneIsHonest(ops, s, cid);
    }
    NextIsHonest(ops, s, cid, RetryingTrust(call.sid));
  }

  lemma RefusingIsHonest(ops: seq<Op>, s: State, cid: nat, obeys: bool)
    requires cid in s.calls && AllHonest(ops, s)
    requires s.calls[cid].Refusing? || s.calls[cid].Failing?
    ensures AllHonest(ops, Advance(s, cid, obeys))
  {
    var call := s.calls[cid];
    if call.Failing? {
      StateIsHonest(ops, s, call.sid, Failed);
      DoneIsHonest(ops, SetState(s, call.sid, Failed), cid);
    } else if call.sid in s.sessions {
      var e := s.sessions[call.sid].(prompt := None);
      EntryIsHonest(ops, s, call.sid, e);
      NextIsHonest(ops, SetEntry(s, call.sid, e), cid, Failing(call.sid));
    } else {
      DoneIsHonest(ops, s, cid);
    }
  }

  lemma FindingIsHonest(ops: seq<Op>, s: State, cid: nat, obeys: bool)
    requires cid in s.calls && AllHonest(ops, s)
    requires ops != [] && s == Run(ops[..|ops| - 1]) && ops[|ops| - 1] == Go(cid, obeys)
    requires s.calls[cid].Finding? || s.calls[cid].Storing?
    ensures AllHonest(ops, Advance(s, cid, obeys))
  {
    var call := s.calls[cid];
    assert CallIsHonest(ops, call);
    DoneIsHonest(ops, s, cid);
    if call.Finding? && !Known(s, call) {
      var p := Prompt(call.subject, Of(call.material), call.material, Place(call.scope, call.subject) in s.repo);
      assert FoundAt(ops, |ops| - 1, call.scope, call.sid, p);
      NextIsHonest(ops, s, cid, Asking(call.sid, p));
    } else if call.Storing? {
      var stored := s.(repo := s.repo[Place(call.scope, call.prompt.subject) := call.prompt.material]);
      NextIsHonest(ops, stored, cid, Retrying(call.sid));
    }
  }

  lemma TellingIsHonest(ops: seq<Op>, s: State, cid: nat, obeys: bool)
    requires cid in s.calls && AllHonest(ops, s)
    requires s.calls[cid].Marking? || s.calls[cid].Telling?
    ensures AllHonest(ops, Advance(s, cid, obeys))
  {
    var call := s.calls[cid];
    assert CallIsHonest(ops, call);
    if call.Marking? {
      StateIsHonest(ops, s, call.sid, TrustRequired);
      NextIsHonest(ops, SetState(s, call.sid, TrustRequired), cid, Telling(call.sid, call.prompt));
    } else {
      DoneIsHonest(ops, s.(told := s.told + [Told(call.sid, call.prompt)]), cid);
    }
  }

  lemma AdvanceKeepsHonesty(ops: seq<Op>, s: State, cid: nat, obeys: bool)
    requires cid in s.calls && AllHonest(ops, s)
    requires ops != [] && s == Run(ops[..|ops| - 1]) && ops[|ops| - 1] == Go(cid, obeys)
    ensures AllHonest(ops, Advance(s, cid, obeys))
  {
    match s.calls[cid]
    case Finding(_, _, _, _) => FindingIsHonest(ops, s, cid, obeys);
    case Asking(_, _) => AskingIsHonest(ops, s, cid, obeys);
    case Marking(_, _) => TellingIsHonest(ops, s, cid, obeys);
    case Telling(_, _) => TellingIsHonest(ops, s, cid, obeys);
    case Storing(_, _, _) => FindingIsHonest(ops, s, cid, obeys);
    case Retrying(_) => RetryingIsHonest(ops, s, cid, obeys);
    case RetryingTrust(_) => RetryingIsHonest(ops, s, cid, obeys);
    case Refusing(_) => RefusingIsHonest(ops, s, cid, obeys);
    case Failing(_) => RefusingIsHonest(ops, s, cid, obeys);
  }

  lemma CallBegins(ops: seq<Op>, s: State, op: Op)
    requires ops != [] && s == Run(ops[..|ops| - 1]) && op == ops[|ops| - 1] && AllHonest(ops, s)
    requires op.Verify? || op.Resolve?
    ensures AllHonest(ops, Step(s, op))
  {
    if op.Verify? && Accepts(s, op) {
      assert AskedAt(ops, |ops| - 1, op.sid, op.claimed, op.material);
      NextIsHonest(ops, s, op.cid, Finding(op.scope, op.sid, op.claimed, op.material));
    } else if op.Resolve? && Echoes(s, op) && op.action.Trust? {
      var p := s.sessions[op.sid].prompt.value;
      assert SessionIsHonest(ops, op.sid, Some(p));
      assert EchoedAt(ops, |ops| - 1, op.scope, op.sid, p);
      NextIsHonest(ops, s, op.cid, Storing(op.scope, op.sid, p));
    } else if op.Resolve? && Echoes(s, op) && op.action.Reject? {
      NextIsHonest(ops, s, op.cid, Refusing(op.sid));
    }
  }

  lemma RestIsHonest(ops: seq<Op>, s: State, op: Op)
    requires AllHonest(ops, s) && !op.Verify? && !op.Resolve? && !op.Go?
    ensures AllHonest(ops, Step(s, op))
  {
    match op
    case Open(sid, _) => EntryIsHonest(ops, s, sid, Entry(Connecting, None));
    case Move(sid, to) => StateIsHonest(ops, s, sid, to);
    case _ =>
  }

  /** Over every run, every question, every announcement and every call in flight has an honest history. */
  lemma {:induction false} EveryRunIsHonest(ops: seq<Op>)
    ensures AllHonest(ops, Run(ops))
    decreases |ops|
  {
    if ops != [] {
      var n := |ops| - 1;
      var s, op := Run(ops[..n]), ops[n];
      EveryRunIsHonest(ops[..n]);
      HonestyExtends(ops, s);
      if op.Go? {
        if op.cid in s.calls {
          AdvanceKeepsHonesty(ops, s, op.cid, op.obeys);
        }
      } else if op.Verify? || op.Resolve? {
        CallBegins(ops, s, op);
      } else {
        RestIsHonest(ops, s, op);
      }
    }
  }

  // ----- what is stored -----------------------------------------------------------------------------

  /** What the next step writes into the store, if anything. */
  function Writes(s: State, op: Op): Option<Stored> {
    if op.Go? && op.obeys && op.cid in s.calls && s.calls[op.cid].Storing? && Storable(s.calls[op.cid].prompt.material)
    then Some(Stored(Place(s.calls[op.cid].scope, s.calls[op.cid].prompt.subject), s.calls[op.cid].prompt.material))
    else None
  }

  predicate Touches(s: State, op: Op, place: Place) {
    op == Revoke(place) || (Writes(s, op).Some? && Writes(s, op).value.place == place)
  }

  lemma StepWrites(s: State, op: Op)
    ensures Step(s, op).repo ==
              if Writes(s, op).Some? then s.repo[Writes(s, op).value.place := Writes(s, op).value.material]
              else if op.Revoke? then s.repo - {op.place}
              else s.repo
  {
  }

  /** At step b a call stored the material it held for the place. */
  predicate PutAt(ops: seq<Op>, b: nat, place: Place, material: Material) {
    b < |ops| && Writes(Run(ops[..b]), ops[b]) == Some(Stored(place, material))
  }

  predicate TouchedAt(ops: seq<Op>, j: nat, place: Place) {
    j < |ops| && Touches(Run(ops[..j]), ops[j], place)
  }

  /** The material was stored at step b, and nobody replaced or revoked what the place holds since. */
  ghost predicate Standing(ops: seq<Op>, b: nat, place: Place, material: Material) {
    PutAt(ops, b, place, material) && forall j :: b < j < |ops| ==> !TouchedAt(ops, j, place)
  }

  lemma PrefixAgrees(ops: seq<Op>, n: nat, j: nat, place: Place, material: Material)
    requires j < n <= |ops|
    ensures PutAt(ops[..n], j, place, material) == PutAt(ops, j, place, material)
    ensures TouchedAt(ops[..n], j, place) == TouchedAt(ops, j, place)
  {
    assert ops[..n][..j] == ops[..j];
  }

  lemma StandingExtends(ops: seq<Op>, b: nat, place: Place, material: Material)
    requires ops != [] && b < |ops| - 1
    ensures Standing(ops, b, place, material)
       <==> Standing(ops[..|ops| - 1], b, place, material) && !TouchedAt(ops, |ops| - 1, place)
  {
    var n := |ops| - 1;
    forall j | b <= j < n
      ensures PutAt(ops[..n], j, place, material) == PutAt(ops, j, place, material)
      ensures TouchedAt(ops[..n], j, place) == TouchedAt(ops, j, place)
    {
      PrefixAgrees(ops, n, j, place, material);
    }
  }

  ghost predicate Stands(ops: seq<Op>, place: Place, material: Material) {
    exists b: nat :: Standing(ops, b, place, material)
  }

  lemma StandsStep(ops: seq<Op>, place: Place, material: Material)
    requires ops != []
    ensures Stands(ops, place, material) <==>
              PutAt(ops, |ops| - 1, place, material)
              || (Stands(ops[..|ops| - 1], place, material) && !TouchedAt(ops, |ops| - 1, place))
  {
    var n := |ops| - 1;
    if PutAt(ops, n, place, material) {
      assert Standing(ops, n, place, material);
    } else if Stands(ops, place, material) {
      var b: nat :| Standing(ops, b, place, material);
      StandingExtends(ops, b, place, material);
    } else if Stands(ops[..n], place, material) {
      var b: nat :| Standing(ops[..n], b, place, material);
      StandingExtends(ops, b, place, material);
    }
  }

  /** The store holds a material for a place exactly when a call stored it and nothing touched the place since. */
  lemma {:induction false} RepoIsLastPut(ops: seq<Op>, place: Place, material: Material)
    ensures place in Run(ops).repo && Run(ops).repo[place] == material <==> Stands(ops, place, material)
    decreases |ops|
  {
    if ops != [] {
      var n := |ops| - 1;
      RepoIsLastPut(ops[..n], place, material);
      StandsStep(ops, place, material);
      StepWrites(Run(ops[..n]), ops[n]);
    }
  }

  /** The material stands for the place since step b, and before that the user trusted the question p. */
  ghost predicate ConsentedBefore(ops: seq<Op>, b: nat, sid: nat, p: Prompt, place: Place, material: Material) {
    && Standing(ops, b, place, material)
    && p.subject == place.subject && p.material == material
    && Honest(ops[..b], sid, p) && Echoed(ops[..b], place.scope, sid, p)
  }

  /**
   Consent. Over every run with any plugin behaviour, whatever is stored for a
   scope and subject is the material of a question about that subject, raised
   because a plugin observed that material on a session whose record named the
   subject, and whose own fingerprint the user echoed with "trust"; it was stored
   after that and nobody replaced or revoked it since.
   */
  lemma StoredMeansConsented(ops: seq<Op>, place: Place)
    requires place in Run(ops).repo
    ensures exists b: nat, sid, p :: ConsentedBefore(ops, b, sid, p, place, Run(ops).repo[place])
  {
    var material := Run(ops).repo[place];
    RepoIsLastPut(ops, place, material);
    var b: nat :| Standing(ops, b, place, material);
    EveryRunIsHonest(ops[..b]);
    var call := Run(ops[..b]).calls[ops[b].cid];
    assert CallIsHonest(ops[..b], call);
    assert ConsentedBefore(ops, b, call.sid, call.prompt, place, material);
  }

  /** The step at which a Verify call answers true. */
  predicate AnswersTrue(s: State, op: Op) {
    op.Go? && op.obeys && op.cid in s.calls && s.calls[op.cid].Finding? && Known(s, s.calls[op.cid])
  }

  /**
   Verify answers true only for material that is stored for its scope and for
   the subject its session's record named when it was called, that the user
   consented to, and that was neither replaced nor revoked before the answer.
   */
  lemma VerifyTrueMeansConsented(ops: seq<Op>, op: Op)
    requires AnswersTrue(Run(ops), op)
    ensures var call := Run(ops).calls[op.cid];
            var place := Place(call.scope, call.subject);
            && Asked(ops, call.sid, call.subject, call.material)
            && exists b: nat, sid, p :: ConsentedBefore(ops, b, sid, p, place, call.material)
  {
    EveryRunIsHonest(ops);
    var call := Run(ops).calls[op.cid];
    assert CallIsHonest(ops, call);
    StoredMeansConsented(ops, Place(call.scope, call.subject));
  }
}
