/**
 Reconciling one synced plugin file from three digests - on disk, in the vault
 mirror, and last seen on disk by this device - and what that rule does to a
 fleet of devices that share the mirror (internal/usecase/plugin_data_plan.go).
 */
module PluginPlan {

  type Sum(==, !new)

  /** A digest, or the empty string that stands for no file. */
  datatype Version = Absent | Of(sum: Sum)

  datatype Action = Nothing | Push | Write | Wait

  function Plan(disk: Version, mirror: Version, last: Version, mayWrite: bool): (Action, bool) {
    if disk != last then (Push, mirror != last && mirror != disk)
    else if mirror == disk then (Nothing, false)
    else if mayWrite then (Write, false)
    else (Wait, false)
  }

  /** One path of one device, and what a pass makes of it. */
  datatype Triple = Triple(disk: Version, mirror: Version, last: Version)

  function Passed(t: Triple, mayWrite: bool): Triple {
    match Plan(t.disk, t.mirror, t.last, mayWrite).0
    case Push => Triple(t.disk, t.disk, t.disk)
    case Write => Triple(t.mirror, t.mirror, t.mirror)
    case _ => t
  }

  predicate Agreed(t: Triple) { t.disk == t.mirror == t.last }

  /** A pass that may write brings all three together; the next one has nothing to do; no local edit is overwritten. */
  lemma PassAgrees(t: Triple, mayWrite: bool)
    ensures mayWrite ==> Agreed(Passed(t, mayWrite))
    ensures Agreed(t) <==> Plan(t.disk, t.mirror, t.last, mayWrite) == (Nothing, false)
    ensures t.disk != t.last ==> Passed(t, mayWrite).disk == t.disk
    ensures !mayWrite ==> Passed(t, mayWrite).disk == t.disk
    ensures Passed(t, mayWrite).disk == Passed(t, mayWrite).last
    ensures Passed(t, mayWrite).disk in {t.disk, t.mirror} && Passed(t, mayWrite).mirror in {t.disk, t.mirror}
  {
  }

  /**
   A conflict is an edit that replaces a version this device never had: told
   exactly where the pass overwrites a mirror that moved since. And what each
   action is for: an edited disk is pushed, an untouched one that lags behind
   takes the mirror's version, or waits where it may not be written.
   */
  lemma PlanMeans(t: Triple, mayWrite: bool)
    ensures var plan, after := Plan(t.disk, t.mirror, t.last, mayWrite), Passed(t, mayWrite);
            && (plan.1 <==> after.mirror != t.mirror && t.mirror != t.last)
            && (plan.0 == Push <==> t.disk != t.last)
            && (plan.0 == Write <==> after.disk != t.disk)
            && (plan.0 == Wait <==> t.disk == t.last && t.disk != t.mirror && !mayWrite)
            && (plan.0 == Push ==> after.mirror == t.disk) && (plan.0 == Write ==> after.disk == t.mirror)
  {
  }

  // ----- many devices -------------------------------------------------------------------------

  datatype Device = Device(disk: Version, last: Version)

  /** One path across the fleet; the mirror is a register in which the last write stands. */
  datatype Fleet = Fleet(mirror: Version, devices: seq<Device>)

  datatype Turn = Turn(device: nat, mayWrite: bool)

  function TakeTurn(f: Fleet, turn: Turn): Fleet {
    if turn.device < |f.devices| then
      var d := f.devices[turn.device];
      var t := Passed(Triple(d.disk, f.mirror, d.last), turn.mayWrite);
      Fleet(t.mirror, f.devices[turn.device := Device(t.disk, t.last)])
    else f
  }

  function Play(f: Fleet, turns: seq<Turn>): Fleet {
    if turns == [] then f else TakeTurn(Play(f, turns[..|turns| - 1]), turns[|turns| - 1])
  }

  predicate Clean(d: Device) { d.disk == d.last }

  predicate TookTurn(turns: seq<Turn>, i: nat) {
    exists k :: 0 <= k < |turns| && turns[k].device == i
  }

  predicate TookWritingTurn(turns: seq<Turn>, i: nat) {
    exists k :: 0 <= k < |turns| && turns[k].device == i && turns[k].mayWrite
  }

  /** A device is clean once it had a turn, and stays clean. */
  lemma {:induction false} TurnsClean(f: Fleet, turns: seq<Turn>, i: nat)
    requires i < |f.devices|
    ensures |Play(f, turns).devices| == |f.devices|
    ensures TookTurn(turns, i) || Clean(f.devices[i]) ==> Clean(Play(f, turns).devices[i])
    ensures !TookTurn(turns, i) ==> Play(f, turns).devices[i] == f.devices[i]
    decreases |turns|
  {
    if turns != [] {
      var n := |turns| - 1;
      TurnsClean(f, turns[..n], i);
      if TookTurn(turns, i) && turns[n].device != i {
        var k :| 0 <= k < |turns| && turns[k].device == i;
        assert turns[..n][k] == turns[k];
      }
      if TookTurn(turns[..n], i) {
        var k :| 0 <= k < n && turns[..n][k].device == i;
        assert turns[k].device == i;
      }
      assert turns[n].device == i ==> TookTurn(turns, i);
    }
  }

  predicate AllClean(f: Fleet) {
    forall i :: 0 <= i < |f.devices| ==> Clean(f.devices[i])
  }

  /** A clean fleet leaves the mirror alone, and a writing turn takes the mirror's version for good. */
  lemma {:induction false} CleanFleetFollows(f: Fleet, turns: seq<Turn>, i: nat)
    requires AllClean(f) && i < |f.devices|
    ensures |Play(f, turns).devices| == |f.devices|
    ensures Play(f, turns).mirror == f.mirror
    ensures TookWritingTurn(turns, i) ==> Play(f, turns).devices[i] == Device(f.mirror, f.mirror)
    ensures Play(f, turns).devices[i] in {f.devices[i], Device(f.mirror, f.mirror)}
    decreases |turns|
  {
    if turns != [] {
      var n := |turns| - 1;
      CleanFleetFollows(f, turns[..n], i);
      if turns[n].device < |f.devices| {
        CleanFleetFollows(f, turns[..n], turns[n].device);
        TurnsClean(f, turns[..n], turns[n].device);
      }
      if TookWritingTurn(turns, i) && !(turns[n].device == i && turns[n].mayWrite) {
        var k :| 0 <= k < |turns| && turns[k].device == i && turns[k].mayWrite;
        assert turns[..n][k] == turns[k];
      }
    }
  }

  predicate Converged(f: Fleet) {
    forall i :: 0 <= i < |f.devices| ==> f.devices[i] == Device(f.mirror, f.mirror)
  }

  /**
   Convergence. With no further edits, once every device has had a turn, and
   after that every device a turn in which it may write - in any order, with any
   other turns in between - every disk, every last record and the mirror agree.
   */
  lemma TwoRoundsConverge(f: Fleet, first: seq<Turn>, second: seq<Turn>)
    requires forall i :: 0 <= i < |f.devices| ==> TookTurn(first, i)
    requires forall i :: 0 <= i < |f.devices| ==> TookWritingTurn(second, i)
    ensures Converged(Play(Play(f, first), second))
    ensures Play(Play(f, first), second).mirror == Play(f, first).mirror
  {
    var g := Play(f, first);
    forall i | 0 <= i < |f.devices|
      ensures |g.devices| == |f.devices| && Clean(g.devices[i])
    {
      TurnsClean(f, first, i);
    }
    PlayKeepsSize(f, first);
    PlayKeepsSize(g, second);
    forall i | 0 <= i < |g.devices|
      ensures Play(g, second).devices[i] == Device(g.mirror, g.mirror) && Play(g, second).mirror == g.mirror
    {
      CleanFleetFollows(g, second, i);
    }
    if g.devices == [] {
      EmptyFleetStands(g, second);
    } else {
      CleanFleetFollows(g, second, 0);
    }
  }

  lemma {:induction false} PlayKeepsSize(f: Fleet, turns: seq<Turn>)
    ensures |Play(f, turns).devices| == |f.devices|
    decreases |turns|
  {
    if turns != [] {
      PlayKeepsSize(f, turns[..|turns| - 1]);
    }
  }

  lemma {:induction false} EmptyFleetStands(f: Fleet, turns: seq<Turn>)
    requires f.devices == []
    ensures Play(f, turns) == f
    decreases |turns|
  {
    if turns != [] {
      EmptyFleetStands(f, turns[..|turns| - 1]);
    }
  }

  /**
   What they agree on is nobody's invention: the mirror's own version, or the
   version some device had edited. If one device alone was edited, its edit is
   what everyone ends with.
   */
  lemma {:induction false} MirrorComesFromAnEdit(f: Fleet, turns: seq<Turn>)
    ensures Play(f, turns).mirror == f.mirror
            || exists i :: 0 <= i < |f.devices| && !Clean(f.devices[i]) && Play(f, turns).mirror == f.devices[i].disk
    decreases |turns|
  {
    if turns != [] {
      var n := |turns| - 1;
      var g, i := Play(f, turns[..n]), turns[n].device;
      MirrorComesFromAnEdit(f, turns[..n]);
      PlayKeepsSize(f, turns[..n]);
      if i < |f.devices| && !Clean(g.devices[i]) {
        TurnsClean(f, turns[..n], i);
      }
    }
  }

  lemma {:induction false} LoneEditWins(f: Fleet, turns: seq<Turn>, e: nat)
    requires e < |f.devices| && forall i :: 0 <= i < |f.devices| && i != e ==> Clean(f.devices[i])
    requires !Clean(f.devices[e])
    ensures Play(f, turns).mirror == if TookTurn(turns, e) then f.devices[e].disk else f.mirror
    decreases |turns|
  {
    if turns != [] {
      var n := |turns| - 1;
      var i := turns[n].device;
      LoneEditWins(f, turns[..n], e);
      PlayKeepsSize(f, turns[..n]);
      TurnsClean(f, turns[..n], e);
      if i < |f.devices| {
        TurnsClean(f, turns[..n], i);
      }
      if TookTurn(turns[..n], e) {
        var k :| 0 <= k < n && turns[..n][k].device == e;
        assert turns[k].device == e;
      }
      if TookTurn(turns, e) && i != e {
        var k :| 0 <= k < |turns| && turns[k].device == e;
        assert turns[..n][k] == turns[k];
      }
      assert i == e ==> TookTurn(turns, e);
    }
  }

  /** One round is not enough: a device that goes before the editor misses the edit. */
  lemma OneRoundIsNotEnough(x: Sum)
    ensures var f := Fleet(Absent, [Device(Absent, Absent), Device(Of(x), Absent)]);
            !Converged(Play(f, [Turn(0, true), Turn(1, true)]))
  {
    var f := Fleet(Absent, [Device(Absent, Absent), Device(Of(x), Absent)]);
    var turns := [Turn(0, true), Turn(1, true)];
    assert turns[..1] == [Turn(0, true)] && turns[..1][..0] == [];
    assert Play(f, turns[..1]) == f;
    var g := Play(f, turns);
    assert g.mirror == Of(x) && g.devices[0] == Device(Absent, Absent);
  }
}
