/**
 One reconcile pass over one plugin's synced files: scan the disk, load the
 mirror and the last record, decide each file, write what came in, and commit
 (internal/usecase/plugin_data_reconcile.go). File system answers - which files
 cannot be read or written - are parameters.
 */
module PluginPass {
  import opened Basics
  import opened PluginPlan

  type PluginId(==, !new)
  type Path(==, !new)
  type Content(==, !new)

  const MAX_FILE_BYTES: nat := 8 * 1024 * 1024
  const MAX_PLUGIN_BYTES: nat := 64 * 1024 * 1024
  const MAX_PLUGIN_FILES: nat := 4096
  const SYNCED_MODE: nat := 0x180    // 0600

  datatype Key = Key(plugin: PluginId, path: Path)

  datatype MirrorFile = MirrorFile(plugin: PluginId, path: Path, mode: nat, sum: Sum, content: Content)

  datatype Scanned = Scanned(sum: Sum, content: Content)

  /** The vault half: the mirrored files of all plugins, and what this device last had on disk. */
  class Vault {
    var files: seq<MirrorFile>
    var onDisk: map<Key, Sum>

    constructor (files: seq<MirrorFile>, onDisk: map<Key, Sum>)
      ensures this.files == files && this.onDisk == onDisk
    {
      this.files, this.onDisk := files, onDisk;
    }
  }

  /** The plugin's data directory. */
  class Zone {
    var disk: map<Path, Content>

    constructor (disk: map<Path, Content>)
      ensures this.disk == disk
    {
      this.disk := disk;
    }
  }

  // ----- what the three sides say about one path ---------------------------------------------

  function DiskAt(disk: map<Path, Content>, digest: Content -> Sum, path: Path): Version {
    if path in disk then Of(digest(disk[path])) else Absent
  }

  /** The last entry for a key counts, as filling a map from the list makes it. */
  function FileAt(files: seq<MirrorFile>, k: Key): Option<MirrorFile> {
    if files == [] then None
    else
      var f := files[|files| - 1];
      if Key(f.plugin, f.path) == k then Some(f) else FileAt(files[..|files| - 1], k)
  }

  function MirrorAt(files: seq<MirrorFile>, k: Key): Version {
    var f := FileAt(files, k);
    if f.Some? then Of(f.value.sum) else Absent
  }

  function LastAt(onDisk: map<Key, Sum>, k: Key): Version {
    if k in onDisk then Of(onDisk[k]) else Absent
  }

  /** A mirrored file carries the digest of its content. */
  ghost predicate Honest(files: seq<MirrorFile>, digest: Content -> Sum) {
    forall i :: 0 <= i < |files| ==> files[i].sum == digest(files[i].content)
  }

  function Drop(files: seq<MirrorFile>, k: Key): seq<MirrorFile> {
    Rejecting(files, (f: MirrorFile) => Key(f.plugin, f.path) == k)
  }

  lemma {:induction false} DropFile(files: seq<MirrorFile>, k: Key, k': Key)
    ensures FileAt(Drop(files, k), k') == if k' == k then None else FileAt(files, k')
    decreases |files|
  {
    if files != [] {
      var f := files[|files| - 1];
      var rest := Drop(files[..|files| - 1], k);
      DropFile(files[..|files| - 1], k, k');
      assert Drop(files, k) == if Key(f.plugin, f.path) == k then rest else rest + [f];
      assert (rest + [f])[..|rest|] == rest;
    }
  }

  lemma {:induction false} DropKeepsHonest(files: seq<MirrorFile>, k: Key, digest: Content -> Sum)
    requires Honest(files, digest)
    ensures Honest(Drop(files, k), digest)
    decreases |files|
  {
    if files != [] {
      assert Honest(files[..|files| - 1], digest);
      DropKeepsHonest(files[..|files| - 1], k, digest);
    }
  }

  lemma AppendFile(files: seq<MirrorFile>, f: MirrorFile, k: Key)
    ensures FileAt(files + [f], k) == if Key(f.plugin, f.path) == k then Some(f) else FileAt(files, k)
  {
    assert (files + [f])[..|files|] == files;
  }

  lemma {:induction false} HonestFile(files: seq<MirrorFile>, k: Key, digest: Content -> Sum)
    requires Honest(files, digest) && FileAt(files, k).Some?
    ensures FileAt(files, k).value.sum == digest(FileAt(files, k).value.content)
    ensures Key(FileAt(files, k).value.plugin, FileAt(files, k).value.path) == k
    decreases |files|
  {
    var f := files[|files| - 1];
    if Key(f.plugin, f.path) != k {
      assert Honest(files[..|files| - 1], digest);
      HonestFile(files[..|files| - 1], k, digest);
    }
  }

  // ----- what deciding does to one path -------------------------------------------------------

  /** What scanning and loading found. */
  datatype Facts = Facts(disk: map<Path, Scanned>, mirror: map<Path, MirrorFile>, last: map<Path, Sum>) {
    function Disk(rel: Path): Option<Scanned> { if rel in disk then Some(disk[rel]) else None }
    function Mirror(rel: Path): Option<MirrorFile> { if rel in mirror then Some(mirror[rel]) else None }
    function Last(rel: Path): Version { if rel in last then Of(last[rel]) else Absent }
  }

  function ScannedVersion(s: Option<Scanned>): Version { if s.Some? then Of(s.value.sum) else Absent }

  function FileVersion(f: Option<MirrorFile>): Version { if f.Some? then Of(f.value.sum) else Absent }

  datatype Effect = Skips | Idles | Pushes | Writes

  function EffectOn(f: Facts, rel: Path, declared: bool, mayWrite: bool, writable: bool, skipped: bool): Effect {
    var action := Plan(ScannedVersion(f.Disk(rel)), FileVersion(f.Mirror(rel)), f.Last(rel), mayWrite).0;
    if skipped then Skips
    else if action == Nothing then Idles
    else if !declared then Skips
    else if action == Push then Pushes
    else if action == Wait then Idles
    else if !writable then Skips
    else Writes
  }

  /** Everything a pass holds about one path: left out, to be pushed, to be recorded, and the file itself. */
  datatype Row = Row(skipped: bool, push: Option<Option<Scanned>>, recorded: Option<Version>, file: Option<Content>)

  function RowAfter(row: Row, e: Effect, scanned: Option<Scanned>, mirrored: Option<MirrorFile>): Row {
    match e
    case Skips => row.(skipped := true)
    case Idles => row
    case Pushes => row.(push := Some(scanned), recorded := Some(ScannedVersion(scanned)))
    case Writes => row.(file := if mirrored.Some? then Some(mirrored.value.content) else None,
                        recorded := Some(FileVersion(mirrored)))
  }

  function RowOf(
    skipped: set<Path>, pushes: map<Path, Option<Scanned>>, recorded: map<Path, Version>, disk: map<Path, Content>, rel: Path): Row
  {
    Row(rel in skipped,
        if rel in pushes then Some(pushes[rel]) else None,
        if rel in recorded then Some(recorded[rel]) else None,
        if rel in disk then Some(disk[rel]) else None)
  }

  lemma OneKeyMore<K, V>(m: map<K, V>, k: K, v: V)
    requires k !in m
    ensures |m[k := v]| == |m| + 1
  {
    assert m[k := v].Keys == m.Keys + {k};
    assert |m[k := v]| == |m[k := v].Keys| && |m| == |m.Keys|;
  }

  /** Bytes of the given files. */
  function Load(files: seq<Path>, disk: map<Path, Content>, length: Content -> nat): nat {
    if files == [] then 0
    else
      var rel := files[|files| - 1];
      Load(files[..|files| - 1], disk, length) + if rel in disk then length(disk[rel]) else 0
  }

  /** One more file can be read next to so many others of so many bytes; listed is its size at the walk. */
  predicate Fits(files: nat, bytes: nat, listed: nat, read: nat, readable: bool) {
    && listed <= MAX_FILE_BYTES && files < MAX_PLUGIN_FILES && bytes + listed <= MAX_PLUGIN_BYTES
    && readable && read <= MAX_FILE_BYTES
  }

  /** The listed files the limits let a pass read: each, in order, that fits next to those before it. */
  function Taken(
    listing: seq<Path>, disk: map<Path, Content>, size: Path -> nat, length: Content -> nat, unreadable: set<Path>): seq<Path>
  {
    if listing == [] then []
    else
      var rel, taken := listing[|listing| - 1], Taken(listing[..|listing| - 1], disk, size, length, unreadable);
      if rel in disk && Fits(|taken|, Load(taken, disk, length), size(rel), length(disk[rel]), rel !in unreadable)
      then taken + [rel] else taken
  }

  /** A listed file that is left unread. */
  predicate PassedOver(
    listing: seq<Path>, disk: map<Path, Content>, size: Path -> nat, length: Content -> nat, unreadable: set<Path>, rel: Path)
  {
    rel in listing && rel !in Taken(listing, disk, size, length, unreadable)
  }

  lemma LoadGrows(files: seq<Path>, disk: map<Path, Content>, length: Content -> nat, rel: Path)
    ensures Load(files + [rel], disk, length) == Load(files, disk, length) + if rel in disk then length(disk[rel]) else 0
  {
    assert (files + [rel])[..|files|] == files;
  }

  lemma TakenNext(
    listing: seq<Path>, rel: Path, disk: map<Path, Content>, size: Path -> nat, length: Content -> nat, unreadable: set<Path>)
    requires rel in disk
    ensures var taken := Taken(listing, disk, size, length, unreadable);
            Taken(listing + [rel], disk, size, length, unreadable)
            == if Fits(|taken|, Load(taken, disk, length), size(rel), length(disk[rel]), rel !in unreadable) then taken + [rel] else taken
  {
    assert (listing + [rel])[..|listing|] == listing;
  }

  /**
   What is read stays within the limits. The bytes do too, unless a file outgrew
   its listed size between the walk and the read; then they exceed the limit by
   less than one file.
   */
  lemma {:induction false} TakenWithin(
    listing: seq<Path>, disk: map<Path, Content>, size: Path -> nat, length: Content -> nat, unreadable: set<Path>)
    ensures var taken := Taken(listing, disk, size, length, unreadable);
            && |taken| <= MAX_PLUGIN_FILES && Load(taken, disk, length) <= MAX_PLUGIN_BYTES + MAX_FILE_BYTES
            && (forall rel :: rel in taken ==> rel in listing && rel in disk && rel !in unreadable && size(rel) <= MAX_FILE_BYTES)
            && ((forall rel :: rel in taken ==> rel in disk && length(disk[rel]) <= size(rel)) ==> Load(taken, disk, length) <= MAX_PLUGIN_BYTES)
    decreases |listing|
  {
    if listing != [] {
      var rel, before := listing[|listing| - 1], Taken(listing[..|listing| - 1], disk, size, length, unreadable);
      TakenWithin(listing[..|listing| - 1], disk, size, length, unreadable);
      LoadGrows(before, disk, length, rel);
    }
  }

  function Sizes(listing: seq<Path>, size: Path -> nat): nat {
    if listing == [] then 0 else Sizes(listing[..|listing| - 1], size) + size(listing[|listing| - 1])
  }

  /** Conversely, where every file can be read and together they keep the limits, none is passed over. */
  lemma {:induction false} AllTaken(
    listing: seq<Path>, disk: map<Path, Content>, size: Path -> nat, length: Content -> nat, unreadable: set<Path>)
    requires |listing| <= MAX_PLUGIN_FILES && Sizes(listing, size) <= MAX_PLUGIN_BYTES
    requires forall rel :: rel in listing ==>
               rel in disk && rel !in unreadable && length(disk[rel]) <= size(rel) <= MAX_FILE_BYTES
    ensures Taken(listing, disk, size, length, unreadable) == listing
    ensures Load(listing, disk, length) <= Sizes(listing, size)
    decreases |listing|
  {
    if listing != [] {
      var n := |listing| - 1;
      AllTaken(listing[..n], disk, size, length, unreadable);
      assert listing == listing[..n] + [listing[n]] && listing[n] in listing;
    }
  }

  /** What a pass reports about one path. */
  datatype Notice = Notice(conflict: bool, pushed: bool, applied: bool, waits: bool)

  /** All a pass holds about one path. */
  datatype Cell = Cell(row: Row, notice: Notice)

  /** What deciding makes of a path: the effect the facts call for, and its notice. */
  function Judged(f: Facts, rel: Path, declared: bool, mayWrite: bool, writable: bool, row: Row): Cell {
    Cell(RowAfter(row, EffectOn(f, rel, declared, mayWrite, writable, row.skipped), f.Disk(rel), f.Mirror(rel)),
         NoticeOn(f, rel, declared, mayWrite, writable, row.skipped))
  }

  const NO_NOTICE := Notice(false, false, false, false)

  function NoticeOn(f: Facts, rel: Path, declared: bool, mayWrite: bool, writable: bool, skipped: bool): Notice {
    var plan := Plan(ScannedVersion(f.Disk(rel)), FileVersion(f.Mirror(rel)), f.Last(rel), mayWrite);
    var effect := EffectOn(f, rel, declared, mayWrite, writable, skipped);
    Notice(!skipped && plan.1, effect == Pushes, effect == Writes, !skipped && declared && plan.0 == Wait)
  }

  class Pass {
    const plugin: PluginId
    const declares: Path -> bool
    const digest: Content -> Sum

    var disk: map<Path, Scanned>
    var skipped: set<Path>
    var mirror: map<Path, MirrorFile>
    var last: map<Path, Sum>
    var pushes: map<Path, Option<Scanned>>     // None: deleted here
    var recorded: map<Path, Version>           // what is on disk now, for the paths that were settled
    var conflicts: seq<Path>
    var pushed: nat
    var applied: nat
    var waiting: nat
    /** The paths behind the counts. */
    ghost var appliedTo: set<Path>
    ghost var waitingFor: set<Path>

    constructor (plugin: PluginId, declares: Path -> bool, digest: Content -> Sum)
      ensures this.plugin == plugin && this.declares == declares && this.digest == digest
      ensures skipped == {} && pushes == map[] && recorded == map[] && mirror == map[] && last == map[] && disk == map[]
      ensures Counted() && forall rel :: NoticeAt(rel) == NO_NOTICE
    {
      this.plugin, this.declares, this.digest := plugin, declares, digest;
      disk, skipped, mirror, last := map[], {}, map[], map[];
      pushes, recorded, conflicts, pushed, applied, waiting := map[], map[], [], 0, 0, 0;
      appliedTo, waitingFor := {}, {};
    }

    /** No conflict is reported twice, and the counts are those of distinct paths. */
    ghost predicate Counted()
      reads this`conflicts, this`pushes, this`pushed, this`applied, this`appliedTo, this`waiting, this`waitingFor
    {
      NoDup(conflicts) && pushed == |pushes| && applied == |appliedTo| && waiting == |waitingFor|
    }

    ghost function NoticeAt(rel: Path): Notice
      reads this`conflicts, this`pushes, this`appliedTo, this`waitingFor
    {
      Notice(rel in conflicts, rel in pushes, rel in appliedTo, rel in waitingFor)
    }

    ghost function Found(): Facts
      reads this`disk, this`mirror, this`last
    {
      Facts(disk, mirror, last)
    }

    ghost function RowAt(zone: Zone, rel: Path): Row
      reads this`skipped, this`pushes, this`recorded, zone
    {
      RowOf(skipped, pushes, recorded, zone.disk, rel)
    }

    /** The listed files go one way or the other, as the limits say; what was scanned is what the disk holds. */
    ghost predicate ScannedIs(zone: Zone, listed: seq<Path>, taken: seq<Path>)
      reads this`disk, this`skipped, zone
    {
      && |disk| == |taken|
      && forall rel :: ScanAt(rel) ==
           if rel in taken && rel in zone.disk then (false, Some(Scanned(digest(zone.disk[rel]), zone.disk[rel])))
           else (rel in listed, None)
    }

    /** Reads the declared files in the order of the listing, as far as the limits let it, and skips the others. */
    method Scan(zone: Zone, listing: seq<Path>, size: Path -> nat, length: Content -> nat, unreadable: set<Path>)
      requires forall rel :: rel in listing <==> rel in zone.disk && declares(rel)
      requires NoDup(listing)
      requires disk == map[] && skipped == {}
      modifies this`disk, this`skipped
      ensures ScannedIs(zone, listing, Taken(listing, zone.disk, size, length, unreadable))
    {
      var total := 0;
      for i := 0 to |listing|
        invariant total == Load(Taken(listing[..i], zone.disk, size, length, unreadable), zone.disk, length)
        invariant ScannedIs(zone, listing[..i], Taken(listing[..i], zone.disk, size, length, unreadable))
      {
        var rel := listing[i];
        assert rel in listing && rel !in listing[..i] && listing[..i + 1] == listing[..i] + [rel];
        total := ScanNext(zone, listing[..i], rel, size, length, unreadable, total);
      }
      assert listing[..|listing|] == listing;
    }

    method ScanNext(
      zone: Zone, listed: seq<Path>, rel: Path, size: Path -> nat, length: Content -> nat, unreadable: set<Path>, total: nat)
      returns (total': nat)
      requires rel in zone.disk && rel !in listed
      requires total == Load(Taken(listed, zone.disk, size, length, unreadable), zone.disk, length)
      requires ScannedIs(zone, listed, Taken(listed, zone.disk, size, length, unreadable))
      modifies this`disk, this`skipped
      ensures total' == Load(Taken(listed + [rel], zone.disk, size, length, unreadable), zone.disk, length)
      ensures ScannedIs(zone, listed + [rel], Taken(listed + [rel], zone.disk, size, length, unreadable))
    {
      ghost var taken := Taken(listed, zone.disk, size, length, unreadable);
      ghost var fits := Fits(|taken|, total, size(rel), length(zone.disk[rel]), rel !in unreadable);
      TakenWithin(listed, zone.disk, size, length, unreadable);
      TakenNext(listed, rel, zone.disk, size, length, unreadable);
      LoadGrows(taken, zone.disk, length, rel);
      assert ScanAt(rel) == (false, None);
      total' := ScanOne(rel, zone.disk[rel], size(rel), length, total, rel !in unreadable);
      assert ScannedIs(zone, listed + [rel], if fits then taken + [rel] else taken);
    }

    ghost function ScanAt(rel: Path): (bool, Option<Scanned>)
      reads this`disk, this`skipped
    {
      (rel in skipped, if rel in disk then Some(disk[rel]) else None)
    }

    /** A read that does not fail yields at most the limit per file. */
    method ScanOne(rel: Path, content: Content, size: nat, length: Content -> nat, total: nat, readable: bool) returns (total': nat)
      requires ScanAt(rel) == (false, None)
      modifies this`disk, this`skipped
      ensures var fits := Fits(|old(disk)|, total, size, length(content), readable);
              && ScanAt(rel) == (if fits then (false, Some(Scanned(digest(content), content))) else (true, None))
              && |disk| == |old(disk)| + (if fits then 1 else 0)
              && total' == total + if fits then length(content) else 0
      ensures forall rel' :: rel' != rel ==> ScanAt(rel') == old(ScanAt(rel'))
    {
      total' := total;
      if size > MAX_FILE_BYTES || |disk| >= MAX_PLUGIN_FILES || total + size > MAX_PLUGIN_BYTES {
        skipped := skipped + {rel};
        return;
      }
      if !readable || length(content) > MAX_FILE_BYTES {
        skipped := skipped + {rel};
        return;
      }
      total' := total + length(content);
      OneKeyMore(disk, rel, Scanned(digest(content), content));
      disk := disk[rel := Scanned(digest(content), content)];
    }

    method LoadMirror(files: seq<MirrorFile>)
      requires mirror == map[]
      modifies this`mirror
      ensures forall rel :: Found().Mirror(rel) == FileAt(files, Key(plugin, rel))
    {
      for i := 0 to |files|
        invariant forall rel :: Found().Mirror(rel) == FileAt(files[..i], Key(plugin, rel))
      {
        assert files[..i + 1][..i] == files[..i];
        if files[i].plugin == plugin {
          mirror := mirror[files[i].path := files[i]];
        }
      }
      assert files[..|files|] == files;
    }

    method LoadLast(onDisk: map<Key, Sum>)
      requires last == map[]
      modifies this`last
      ensures forall rel :: Found().Last(rel) == LastAt(onDisk, Key(plugin, rel))
    {
      var todo := onDisk.Keys;
      while todo != {}
        invariant todo <= onDisk.Keys
        invariant forall rel :: Found().Last(rel) == if Key(plugin, rel) in todo then Absent else LastAt(onDisk, Key(plugin, rel))
        decreases todo
      {
        var k :| k in todo;
        todo := todo - {k};
        if k.plugin == plugin {
          last := last[k.path := onDisk[k]];
        }
      }
    }

    ghost function CellAt(zone: Zone, rel: Path): Cell
      reads this`skipped, this`pushes, this`recorded, this`conflicts, this`appliedTo, this`waitingFor, zone
    {
      Cell(RowAt(zone, rel), NoticeAt(rel))
    }

    /**
     Each path known to the disk, the mirror or the last record is judged once,
     and gets its own effect and its own notice, no other.
     */
    method Decide(zone: Zone, mayWrite: bool, unwritable: set<Path>)
      requires Counted() && forall rel :: NoticeAt(rel) == NO_NOTICE
      modifies this`skipped, this`pushes, this`recorded, this`conflicts, this`pushed, this`applied, this`waiting,
               this`appliedTo, this`waitingFor, zone
      ensures forall rel :: CellAt(zone, rel) == Judged(Found(), rel, declares(rel), mayWrite, rel !in unwritable, old(RowAt(zone, rel)))
      ensures Counted()
    {
      var todo := disk.Keys + mirror.Keys + last.Keys;
      forall rel | rel !in todo
        ensures CellAt(zone, rel) == Judged(Found(), rel, declares(rel), mayWrite, rel !in unwritable, RowAt(zone, rel))
      {
        assert NoticeAt(rel) == NO_NOTICE;
      }
      while todo != {}
        invariant todo <= disk.Keys + mirror.Keys + last.Keys && Counted()
        invariant forall rel :: CellAt(zone, rel) ==
                    if rel in todo then Cell(old(RowAt(zone, rel)), NO_NOTICE)
                    else Judged(Found(), rel, declares(rel), mayWrite, rel !in unwritable, old(RowAt(zone, rel)))
        decreases todo
      {
        var rel :| rel in todo;
        todo := todo - {rel};
        assert CellAt(zone, rel) == Cell(old(RowAt(zone, rel)), NO_NOTICE);
        DecideOne(zone, rel, mayWrite, rel !in unwritable);
      }
    }

    method DecideOne(zone: Zone, rel: Path, mayWrite: bool, writable: bool)
      requires Counted() && NoticeAt(rel) == NO_NOTICE
      modifies this`skipped, this`pushes, this`recorded, this`conflicts, this`pushed, this`applied, this`waiting,
               this`appliedTo, this`waitingFor, zone
      ensures CellAt(zone, rel) == Judged(Found(), rel, declares(rel), mayWrite, writable, old(RowAt(zone, rel)))
      ensures forall rel' :: rel' != rel ==> CellAt(zone, rel') == old(CellAt(zone, rel'))
      ensures Counted()
    {
      var effect, conflict, waits := Choose(rel, mayWrite, writable);
      if conflict {
        NoteConflict(rel);
      }
      if waits {
        NoteWaiting(rel);
      }
      Carry(zone, rel, effect);
    }

    method Carry(zone: Zone, rel: Path, effect: Effect)
      requires Counted() && !NoticeAt(rel).pushed && !NoticeAt(rel).applied
      modifies this`skipped, this`pushes, this`recorded, this`pushed, this`applied, this`appliedTo, zone
      ensures RowAt(zone, rel) == RowAfter(old(RowAt(zone, rel)), effect, Found().Disk(rel), Found().Mirror(rel))
      ensures forall rel' :: rel' != rel ==> RowAt(zone, rel') == old(RowAt(zone, rel'))
      ensures Counted() && NoticeAt(rel) == old(NoticeAt(rel)).(pushed := effect == Pushes, applied := effect == Writes)
      ensures forall rel' :: rel' != rel ==> NoticeAt(rel') == old(NoticeAt(rel'))
    {
      match effect
      case Skips => SkipOne(zone, rel);
      case Idles =>
      case Pushes => PushOne(zone, rel);
      case Writes => WriteOne(zone, rel);
    }

    /** The branches of decide, and what they report. */
    method Choose(rel: Path, mayWrite: bool, writable: bool) returns (effect: Effect, conflict: bool, waits: bool)
      ensures effect == EffectOn(Found(), rel, declares(rel), mayWrite, writable, rel in skipped)
      ensures NoticeOn(Found(), rel, declares(rel), mayWrite, writable, rel in skipped)
           == Notice(conflict, effect == Pushes, effect == Writes, waits)
    {
      if rel in skipped {
        return Skips, false, false;
      }
      var onDisk := if rel in disk then Of(disk[rel].sum) else Absent;
      var mirrored := if rel in mirror then Of(mirror[rel].sum) else Absent;
      var seen := if rel in last then Of(last[rel]) else Absent;
      var (action, differ) := Plan(onDisk, mirrored, seen, mayWrite);
      conflict, waits := differ, false;
      if action != Nothing && !declares(rel) {
        return Skips, conflict, false;
      }
      match action
      case Nothing => effect := Idles;
      case Push => effect := Pushes;
      case Wait => effect, waits := Idles, true;
      case Write => effect := if writable then Writes else Skips;
    }

    method NoteConflict(rel: Path)
      requires Counted() && !NoticeAt(rel).conflict
      modifies this`conflicts
      ensures Counted() && NoticeAt(rel) == old(NoticeAt(rel)).(conflict := true)
      ensures forall rel' :: rel' != rel ==> NoticeAt(rel') == old(NoticeAt(rel'))
    {
      assert rel !in conflicts;
      conflicts := conflicts + [rel];
    }

    method NoteWaiting(rel: Path)
      requires Counted() && !NoticeAt(rel).waits
      modifies this`waiting, this`waitingFor
      ensures Counted() && NoticeAt(rel) == old(NoticeAt(rel)).(waits := true)
      ensures forall rel' :: rel' != rel ==> NoticeAt(rel') == old(NoticeAt(rel'))
    {
      waiting := waiting + 1;
      waitingFor := waitingFor + {rel};
    }

    method SkipOne(zone: Zone, rel: Path)
      requires Counted()
      modifies this`skipped
      ensures RowAt(zone, rel) == old(RowAt(zone, rel)).(skipped := true)
      ensures forall rel' :: rel' != rel ==> RowAt(zone, rel') == old(RowAt(zone, rel'))
      ensures Counted() && forall rel' :: NoticeAt(rel') == old(NoticeAt(rel'))
    {
      skipped := skipped + {rel};
    }

    method PushOne(zone: Zone, rel: Path)
      requires Counted() && !NoticeAt(rel).pushed
      modifies this`pushes, this`recorded, this`pushed
      ensures RowAt(zone, rel) == RowAfter(old(RowAt(zone, rel)), Pushes, Found().Disk(rel), None)
      ensures forall rel' :: rel' != rel ==> RowAt(zone, rel') == old(RowAt(zone, rel'))
      ensures Counted() && NoticeAt(rel) == old(NoticeAt(rel)).(pushed := true)
      ensures forall rel' :: rel' != rel ==> NoticeAt(rel') == old(NoticeAt(rel'))
    {
      ghost var before := pushes;
      pushes := pushes[rel := if rel in disk then Some(disk[rel]) else None];
      recorded := recorded[rel := if rel in disk then Of(disk[rel].sum) else Absent];
      pushed := pushed + 1;
      OneKeyMore(before, rel, pushes[rel]);
    }

    method WriteOne(zone: Zone, rel: Path)
      requires Counted() && !NoticeAt(rel).applied
      modifies this`recorded, this`applied, this`appliedTo, zone
      ensures RowAt(zone, rel) == RowAfter(old(RowAt(zone, rel)), Writes, None, Found().Mirror(rel))
      ensures forall rel' :: rel' != rel ==> RowAt(zone, rel') == old(RowAt(zone, rel'))
      ensures Counted() && NoticeAt(rel) == old(NoticeAt(rel)).(applied := true)
      ensures forall rel' :: rel' != rel ==> NoticeAt(rel') == old(NoticeAt(rel'))
    {
      WriteFile(zone, rel);
      applied := applied + 1;
      appliedTo := appliedTo + {rel};
    }

    method WriteFile(zone: Zone, rel: Path)
      modifies this`recorded, zone
      ensures RowAt(zone, rel) == RowAfter(old(RowAt(zone, rel)), Writes, None, Found().Mirror(rel))
      ensures forall rel' :: rel' != rel ==> RowAt(zone, rel') == old(RowAt(zone, rel'))
    {
      if rel in mirror {
        zone.disk := zone.disk[rel := mirror[rel].content];
        recorded := recorded[rel := Of(mirror[rel].sum)];
      } else {
        zone.disk := zone.disk - {rel};
        recorded := recorded[rel := Absent];
      }
    }

    method CommitLast(vault: Vault)
      modifies vault`onDisk
      ensures forall k :: LastAt(vault.onDisk, k) ==
                if k.plugin == plugin && k.path in recorded then recorded[k.path] else old(LastAt(vault.onDisk, k))
      ensures recorded == map[] ==> vault.onDisk == old(vault.onDisk)
    {
      var todo := recorded.Keys;
      while todo != {}
        invariant todo <= recorded.Keys
        invariant todo == recorded.Keys ==> vault.onDisk == old(vault.onDisk)
        invariant forall k :: LastAt(vault.onDisk, k) ==
                    if k.plugin == plugin && k.path in recorded && k.path !in todo
                    then recorded[k.path] else old(LastAt(vault.onDisk, k))
        decreases todo
      {
        var rel :| rel in todo;
        todo := todo - {rel};
        vault.onDisk := if recorded[rel].Absent? then vault.onDisk - {Key(plugin, rel)}
                        else vault.onDisk[Key(plugin, rel) := recorded[rel].sum];
      }
    }

    /** The mirror entry a pushed path gets. */
    function Mirrored(rel: Path, s: Option<Scanned>): Option<MirrorFile> {
      if s.Some? then Some(MirrorFile(plugin, rel, SYNCED_MODE, s.value.sum, s.value.content)) else None
    }

    method PushFile(vault: Vault, rel: Path, s: Option<Scanned>)
      requires Honest(vault.files, digest) && (s.Some? ==> s.value.sum == digest(s.value.content))
      modifies vault`files
      ensures Honest(vault.files, digest)
      ensures FileAt(vault.files, Key(plugin, rel)) == Mirrored(rel, s)
      ensures forall k :: k != Key(plugin, rel) ==> FileAt(vault.files, k) == old(FileAt(vault.files, k))
    {
      ghost var before := vault.files;
      var kept := KeepRest(vault.files, (f: MirrorFile) => Key(f.plugin, f.path) == Key(plugin, rel));
      DropKeepsHonest(before, Key(plugin, rel), digest);
      forall k ensures FileAt(kept, k) == if k == Key(plugin, rel) then None else FileAt(before, k) {
        DropFile(before, Key(plugin, rel), k);
      }
      vault.files := kept;
      if s.Some? {
        var f := MirrorFile(plugin, rel, SYNCED_MODE, s.value.sum, s.value.content);
        forall k ensures FileAt(kept + [f], k) == if Key(plugin, rel) == k then Some(f) else FileAt(kept, k) {
          AppendFile(kept, f, k);
        }
        vault.files := kept + [f];
      }
    }

    method CommitMirror(vault: Vault)
      requires Honest(vault.files, digest)
      requires forall rel :: rel in pushes && pushes[rel].Some? ==> pushes[rel].value.sum == digest(pushes[rel].value.content)
      modifies vault`files
      ensures Honest(vault.files, digest)
      ensures forall k :: FileAt(vault.files, k) ==
                if k.plugin == plugin && k.path in pushes then Mirrored(k.path, pushes[k.path]) else old(FileAt(vault.files, k))
      ensures pushes == map[] ==> vault.files == old(vault.files)
    {
      var todo := pushes.Keys;
      while todo != {}
        invariant todo <= pushes.Keys && Honest(vault.files, digest)
        invariant todo == pushes.Keys ==> vault.files == old(vault.files)
        invariant forall k :: FileAt(vault.files, k) ==
                    if k.plugin == plugin && k.path in pushes && k.path !in todo
                    then Mirrored(k.path, pushes[k.path]) else old(FileAt(vault.files, k))
        decreases todo
      {
        var rel :| rel in todo;
        todo := todo - {rel};
        PushFile(vault, rel, pushes[rel]);
      }
    }
  }

  /** What the three sides say about one path of the plugin. */
  ghost function TripleAt(vault: Vault, zone: Zone, plugin: PluginId, digest: Content -> Sum, rel: Path): Triple
    reads vault, zone
  {
    Triple(DiskAt(zone.disk, digest, rel), MirrorAt(vault.files, Key(plugin, rel)), LastAt(vault.onDisk, Key(plugin, rel)))
  }

  function ContentVersion(digest: Content -> Sum, file: Option<Content>): Version {
    if file.Some? then Of(digest(file.value)) else Absent
  }

  /** The triple of a path once its row is committed. */
  function Committed(digest: Content -> Sum, before: Triple, row: Row): Triple {
    Triple(ContentVersion(digest, row.file),
           if row.push.Some? then ScannedVersion(row.push.value) else before.mirror,
           if row.recorded.Some? then row.recorded.value else before.last)
  }

  /** One path, start to end: the effect chosen from the facts is the three-way rule. passed says that the scan left the file unread. */
  lemma PathSettles(
    f: Facts, digest: Content -> Sum, rel: Path, declared: bool, mayWrite: bool, writable: bool, passed: bool,
    file: Option<Content>, before: Triple)
    requires before == Triple(ContentVersion(digest, file), FileVersion(f.Mirror(rel)), f.Last(rel))
    requires f.Disk(rel) == if declared && !passed && file.Some? then Some(Scanned(digest(file.value), file.value)) else None
    requires passed ==> declared
    requires f.Mirror(rel).Some? ==> f.Mirror(rel).value.sum == digest(f.Mirror(rel).value.content)
    ensures var row := RowAfter(Row(passed, None, None, file), EffectOn(f, rel, declared, mayWrite, writable, passed),
                                f.Disk(rel), f.Mirror(rel));
            var touched := declared && !row.skipped;
            && Settled(digest, declared, mayWrite, file, before, row)
            && Moved(touched, mayWrite, digest, file, f.Mirror(rel), before, row)
            && (row.skipped <==> LeftOut(declared, passed, mayWrite, writable, before))
            && Noted(declared, touched, mayWrite, before, AfterPass(touched, before, mayWrite),
                     NoticeOn(f, rel, declared, mayWrite, writable, passed))
  {
  }

  /** Which way the bytes go: an edited file out as it is, the mirror's content in where the disk lags behind, nothing else. */
  predicate Moved(
    touched: bool, mayWrite: bool, digest: Content -> Sum, file: Option<Content>, mirrored: Option<MirrorFile>, before: Triple, row: Row)
  {
    && row.push == (if touched && before.disk != before.last
                    then Some(if file.Some? then Some(Scanned(digest(file.value), file.value)) else None) else None)
    && row.file == (if touched && mayWrite && before.disk == before.last && before.disk != before.mirror
                    then (if mirrored.Some? then Some(mirrored.value.content) else None) else file)
  }

  /** The same of vault and disk: the mirror entry and the file of one path after a pass. */
  predicate Carried(
    touched: bool, mayWrite: bool, k: Key, digest: Content -> Sum, before: Triple,
    file: Option<Content>, mirrored: Option<MirrorFile>, file': Option<Content>, mirrored': Option<MirrorFile>)
  {
    && mirrored' == (if touched && before.disk != before.last
                     then (if file.Some? then Some(MirrorFile(k.plugin, k.path, 0x180, digest(file.value), file.value)) else None)
                     else mirrored)
    && file' == (if touched && mayWrite && before.disk == before.last && before.disk != before.mirror
                 then (if mirrored.Some? then Some(mirrored.value.content) else None) else file)
  }

  function FileIn(disk: map<Path, Content>, rel: Path): Option<Content> { if rel in disk then Some(disk[rel]) else None }

  /** Such a path: no longer declared here, mirrored in another version than the recorded one. */
  lemma UndeclaredIsReportedInConflict(plugin: PluginId, rel: Path, mirrored: Sum, recorded: Sum, content: Content, mayWrite: bool, writable: bool)
    requires mirrored != recorded
    ensures var f := Facts(map[], map[rel := MirrorFile(plugin, rel, SYNCED_MODE, mirrored, content)], map[rel := recorded]);
            && NoticeOn(f, rel, false, mayWrite, writable, false) == NO_NOTICE.(conflict := true)
            && EffectOn(f, rel, false, mayWrite, writable, false) == Skips
  {
  }

  /**
   When a path is left out: a declared one the scan passed over, or that should
   take the mirror's version and cannot be written; an undeclared one as soon as
   the mirror or the last record knows it.
   */
  predicate LeftOut(declared: bool, passed: bool, mayWrite: bool, writable: bool, before: Triple) {
    if declared then passed || (mayWrite && !writable && before.disk == before.last && before.mirror != before.disk)
    else before.mirror != Absent || before.last != Absent
  }

  /** A path that may be touched goes through the three-way rule; any other keeps all three sides. */
  function AfterPass(touched: bool, before: Triple, mayWrite: bool): Triple {
    if touched then Passed(before, mayWrite) else before
  }

  /** The row is what the three-way rule makes of the path, or of nothing where the path may not be touched. */
  predicate Settled(digest: Content -> Sum, declared: bool, mayWrite: bool, file: Option<Content>, before: Triple, row: Row) {
    && Committed(digest, before, row) == AfterPass(declared && !row.skipped, before, mayWrite)
    && (row.push.Some? && row.push.value.Some? ==> row.push.value.value.sum == digest(row.push.value.value.content))
    && ((declared && !row.skipped ==> Agreed(before)) ==> row.push.None? && row.recorded.None? && row.file == file)
  }

  /**
   What is reported, told by the path before and after. Of a path that may be
   touched: a conflict exactly when a mirror version this device never had on
   disk was replaced, pushed when the disk was edited, applied when the disk was
   overwritten, waiting when it lags behind and may not be written. Of any
   other, nothing - but for an undeclared path whose mirror entry and record
   differ, which is reported in conflict although all its sides stand.
   */
  predicate Noted(declared: bool, touched: bool, mayWrite: bool, before: Triple, after: Triple, notice: Notice) {
    && (notice.conflict <==>
          if touched then after.mirror != before.mirror && before.mirror != before.last
          else !declared && before.mirror != Absent && before.last != Absent && before.mirror != before.last)
    && (notice.pushed <==> touched && before.disk != before.last)
    && (notice.applied <==> touched && after.disk != before.disk)
    && (notice.waits <==> touched && before.disk == before.last && before.disk != before.mirror && !mayWrite)
  }

  /**
   The whole pass. Each declared path that was not skipped goes through exactly
   the three-way rule; a skipped or undeclared path keeps its file, its mirror
   entry and its record; no other plugin's entries change. It says exactly which
   paths are skipped, and which the report names in conflict, pushed, applied and
   waiting. A pass that finds
   every path it may touch agreed leaves vault and disk as they are.
   */
  method Reconcile(
    vault: Vault, zone: Zone, plugin: PluginId, declares: Path -> bool, digest: Content -> Sum,
    listing: seq<Path>, size: Path -> nat, length: Content -> nat, unreadable: set<Path>, unwritable: set<Path>, mayWrite: bool)
    returns (pass: Pass)
    requires Honest(vault.files, digest)
    requires forall rel :: rel in listing <==> rel in zone.disk && declares(rel)
    requires NoDup(listing)
    modifies vault, zone
    ensures Honest(vault.files, digest)
    ensures forall rel ::
              TripleAt(vault, zone, plugin, digest, rel)
              == AfterPass(declares(rel) && rel !in pass.skipped, old(TripleAt(vault, zone, plugin, digest, rel)), mayWrite)
    ensures forall rel ::
              Carried(declares(rel) && rel !in pass.skipped, mayWrite, Key(plugin, rel), digest, old(TripleAt(vault, zone, plugin, digest, rel)),
                      FileIn(old(zone.disk), rel), old(FileAt(vault.files, Key(plugin, rel))),
                      FileIn(zone.disk, rel), FileAt(vault.files, Key(plugin, rel)))
    ensures forall k: Key :: k.plugin != plugin ==>
              FileAt(vault.files, k) == old(FileAt(vault.files, k)) && LastAt(vault.onDisk, k) == old(LastAt(vault.onDisk, k))
    ensures forall rel :: rel in pass.skipped <==>
              LeftOut(declares(rel), PassedOver(listing, old(zone.disk), size, length, unreadable, rel), mayWrite,
                      rel !in unwritable, old(TripleAt(vault, zone, plugin, digest, rel)))
    ensures pass.Counted() && forall rel ::
              Noted(declares(rel), declares(rel) && rel !in pass.skipped, mayWrite, old(TripleAt(vault, zone, plugin, digest, rel)),
                    TripleAt(vault, zone, plugin, digest, rel), pass.NoticeAt(rel))
    ensures (forall rel :: declares(rel) && rel !in pass.skipped ==> Agreed(old(TripleAt(vault, zone, plugin, digest, rel))))
            ==> vault.files == old(vault.files) && vault.onDisk == old(vault.onDisk) && zone.disk == old(zone.disk)
  {
    ghost var disk := zone.disk;
    pass := Judge(vault, zone, plugin, declares, digest, listing, size, length, unreadable, unwritable, mayWrite);
    if forall rel :: declares(rel) && rel !in pass.skipped ==> Agreed(old(TripleAt(vault, zone, plugin, digest, rel))) {
      NothingDecided(pass, zone, disk);
    }
    Finish(pass, vault, zone);
    forall rel
      ensures Carried(declares(rel) && rel !in pass.skipped, mayWrite, Key(plugin, rel), digest, old(TripleAt(vault, zone, plugin, digest, rel)),
                      FileIn(disk, rel), old(FileAt(vault.files, Key(plugin, rel))),
                      FileIn(zone.disk, rel), FileAt(vault.files, Key(plugin, rel)))
    {
      assert pass.RowAt(zone, rel).file == FileIn(zone.disk, rel);
    }
    forall rel
      ensures TripleAt(vault, zone, plugin, digest, rel)
              == AfterPass(declares(rel) && rel !in pass.skipped, old(TripleAt(vault, zone, plugin, digest, rel)), mayWrite)
    {
      assert pass.RowAt(zone, rel).skipped == (rel in pass.skipped);
    }
  }

  /** The pass up to its commit: every path judged by the three-way rule, and noted. */
  method Judge(
    vault: Vault, zone: Zone, plugin: PluginId, declares: Path -> bool, digest: Content -> Sum,
    listing: seq<Path>, size: Path -> nat, length: Content -> nat, unreadable: set<Path>, unwritable: set<Path>, mayWrite: bool)
    returns (pass: Pass)
    requires Honest(vault.files, digest)
    requires (forall rel :: rel in listing <==> rel in zone.disk && declares(rel)) && NoDup(listing)
    modifies zone
    ensures fresh(pass) && pass.plugin == plugin && pass.digest == digest && pass.Counted()
    ensures forall rel ::
              Settled(digest, declares(rel), mayWrite, if rel in old(zone.disk) then Some(old(zone.disk)[rel]) else None,
                      old(TripleAt(vault, zone, plugin, digest, rel)), pass.RowAt(zone, rel))
    ensures forall rel ::
              Moved(declares(rel) && rel !in pass.skipped, mayWrite, digest, FileIn(old(zone.disk), rel), FileAt(vault.files, Key(plugin, rel)),
                    old(TripleAt(vault, zone, plugin, digest, rel)), pass.RowAt(zone, rel))
    ensures forall rel :: rel in pass.skipped <==>
              LeftOut(declares(rel), PassedOver(listing, old(zone.disk), size, length, unreadable, rel), mayWrite,
                      rel !in unwritable, old(TripleAt(vault, zone, plugin, digest, rel)))
    ensures forall rel :: var touched, before := declares(rel) && rel !in pass.skipped, old(TripleAt(vault, zone, plugin, digest, rel));
              Noted(declares(rel), touched, mayWrite, before, AfterPass(touched, before, mayWrite), pass.NoticeAt(rel))
  {
    ghost var files, disk := vault.files, zone.disk;
    pass := Prepare(vault, zone, plugin, declares, digest, listing, size, length, unreadable);
    ghost var f, skipped := pass.Found(), pass.skipped;
    pass.Decide(zone, mayWrite, unwritable);
    forall rel
      ensures Settled(digest, declares(rel), mayWrite, if rel in disk then Some(disk[rel]) else None,
                      old(TripleAt(vault, zone, plugin, digest, rel)), pass.RowAt(zone, rel))
      ensures Moved(declares(rel) && rel !in pass.skipped, mayWrite, digest, FileIn(disk, rel), FileAt(files, Key(plugin, rel)),
                    old(TripleAt(vault, zone, plugin, digest, rel)), pass.RowAt(zone, rel))
      ensures rel in pass.skipped <==>
                LeftOut(declares(rel), rel in skipped, mayWrite, rel !in unwritable, old(TripleAt(vault, zone, plugin, digest, rel)))
      ensures var touched, before := declares(rel) && rel !in pass.skipped, old(TripleAt(vault, zone, plugin, digest, rel));
              Noted(declares(rel), touched, mayWrite, before, AfterPass(touched, before, mayWrite), pass.NoticeAt(rel))
    {
      var file := if rel in disk then Some(disk[rel]) else None;
      if FileAt(files, Key(plugin, rel)).Some? {
        HonestFile(files, Key(plugin, rel), digest);
      }
      assert pass.CellAt(zone, rel) == Judged(f, rel, declares(rel), mayWrite, rel !in unwritable, Row(rel in skipped, None, None, file));
      PathSettles(f, digest, rel, declares(rel), mayWrite, rel !in unwritable, rel in skipped, file,
                  old(TripleAt(vault, zone, plugin, digest, rel)));
    }
  }

  /** A pass whose every row is as it began has nothing to commit. */
  lemma NothingDecided(pass: Pass, zone: Zone, disk: map<Path, Content>)
    requires forall rel :: var row := pass.RowAt(zone, rel);
               row.push.None? && row.recorded.None? && row.file == if rel in disk then Some(disk[rel]) else None
    ensures pass.pushes == map[] && pass.recorded == map[] && zone.disk == disk
  {
    assert forall rel :: rel !in pass.pushes by {
      forall rel ensures rel !in pass.pushes { assert pass.RowAt(zone, rel).push.None?; }
    }
    assert forall rel :: rel !in pass.recorded by {
      forall rel ensures rel !in pass.recorded { assert pass.RowAt(zone, rel).recorded.None?; }
    }
    forall rel
      ensures rel in zone.disk <==> rel in disk
      ensures rel in disk ==> rel in zone.disk && zone.disk[rel] == disk[rel]
    {
      assert pass.RowAt(zone, rel).file == if rel in disk then Some(disk[rel]) else None;
    }
  }

  /** A walk lists each declared file of the disk once. */
  ghost predicate Walks(walk: map<Path, Content> -> seq<Path>, declares: Path -> bool) {
    forall disk :: NoDup(walk(disk)) && forall rel :: rel in walk(disk) <==> rel in disk && declares(rel)
  }

  /**
   A pass that may write, and then another. files, onDisk and disk are the vault
   and the disk between the two: what the first pass makes of each path. Unless
   the second may touch a path that the first had to leave out, it changes
   nothing at all.
   */
  method ReconcileTwice(
    vault: Vault, zone: Zone, plugin: PluginId, declares: Path -> bool, digest: Content -> Sum,
    walk: map<Path, Content> -> seq<Path>, size: Path -> nat, length: Content -> nat,
    unreadable: set<Path>, unwritable: set<Path>, mayWrite: bool)
    returns (first: Pass, second: Pass, ghost files: seq<MirrorFile>, ghost onDisk: map<Key, Sum>, ghost disk: map<Path, Content>)
    requires Honest(vault.files, digest) && Walks(walk, declares)
    modifies vault, zone
    ensures forall rel ::
              Triple(DiskAt(disk, digest, rel), MirrorAt(files, Key(plugin, rel)), LastAt(onDisk, Key(plugin, rel)))
              == AfterPass(declares(rel) && rel !in first.skipped, old(TripleAt(vault, zone, plugin, digest, rel)), true)
    ensures first.skipped <= second.skipped ==> vault.files == files && vault.onDisk == onDisk && zone.disk == disk
    ensures first.skipped <= second.skipped ==> forall rel ::
              TripleAt(vault, zone, plugin, digest, rel)
              == AfterPass(declares(rel) && rel !in first.skipped, old(TripleAt(vault, zone, plugin, digest, rel)), true)
  {
    first := Reconcile(vault, zone, plugin, declares, digest, walk(zone.disk), size, length, unreadable, unwritable, true);
    files, onDisk, disk := vault.files, vault.onDisk, zone.disk;
    ghost var agreed := first.skipped;
    forall rel | declares(rel) && rel !in agreed ensures Agreed(TripleAt(vault, zone, plugin, digest, rel)) {
      PassAgrees(old(TripleAt(vault, zone, plugin, digest, rel)), true);
    }
    second := Reconcile(vault, zone, plugin, declares, digest, walk(zone.disk), size, length, unreadable, unwritable, mayWrite);
  }

  /** Scanning and loading: the facts are those of the disk and the vault, and nothing is decided yet. */
  method Prepare(
    vault: Vault, zone: Zone, plugin: PluginId, declares: Path -> bool, digest: Content -> Sum,
    listing: seq<Path>, size: Path -> nat, length: Content -> nat, unreadable: set<Path>)
    returns (pass: Pass)
    requires forall rel :: rel in listing <==> rel in zone.disk && declares(rel)
    requires NoDup(listing)
    ensures fresh(pass) && pass.plugin == plugin && pass.declares == declares && pass.digest == digest
    ensures pass.Counted() && forall rel :: pass.NoticeAt(rel) == NO_NOTICE
    ensures forall rel :: pass.RowAt(zone, rel) == Row(rel in pass.skipped, None, None, if rel in zone.disk then Some(zone.disk[rel]) else None)
    ensures forall rel :: rel in pass.skipped <==> PassedOver(listing, zone.disk, size, length, unreadable, rel)
    ensures forall rel :: pass.Found().Disk(rel) ==
              if declares(rel) && rel !in pass.skipped && rel in zone.disk
              then Some(Scanned(digest(zone.disk[rel]), zone.disk[rel])) else None
    ensures forall rel :: pass.Found().Mirror(rel) == FileAt(vault.files, Key(plugin, rel))
    ensures forall rel :: pass.Found().Last(rel) == LastAt(vault.onDisk, Key(plugin, rel))
  {
    pass := Begin(zone, plugin, declares, digest, listing, size, length, unreadable);
    pass.LoadMirror(vault.files);
    pass.LoadLast(vault.onDisk);
  }

  /** A new pass with the disk scanned. */
  method Begin(
    zone: Zone, plugin: PluginId, declares: Path -> bool, digest: Content -> Sum,
    listing: seq<Path>, size: Path -> nat, length: Content -> nat, unreadable: set<Path>)
    returns (pass: Pass)
    requires forall rel :: rel in listing <==> rel in zone.disk && declares(rel)
    requires NoDup(listing)
    ensures fresh(pass) && pass.plugin == plugin && pass.declares == declares && pass.digest == digest
    ensures pass.Counted() && forall rel :: pass.NoticeAt(rel) == NO_NOTICE
    ensures pass.pushes == map[] && pass.recorded == map[] && pass.mirror == map[] && pass.last == map[]
    ensures forall rel :: rel in pass.skipped <==> PassedOver(listing, zone.disk, size, length, unreadable, rel)
    ensures forall rel :: pass.Found().Disk(rel) ==
              if declares(rel) && rel !in pass.skipped && rel in zone.disk
              then Some(Scanned(digest(zone.disk[rel]), zone.disk[rel])) else None
  {
    pass := new Pass(plugin, declares, digest);
    pass.Scan(zone, listing, size, length, unreadable);
    TakenWithin(listing, zone.disk, size, length, unreadable);
    forall rel
      ensures pass.ScanAt(rel).0 <==> PassedOver(listing, zone.disk, size, length, unreadable, rel)
      ensures pass.Found().Disk(rel) == pass.ScanAt(rel).1
    {
    }
  }

  method Finish(pass: Pass, vault: Vault, zone: Zone)
    requires Honest(vault.files, pass.digest)
    requires forall rel :: var row := pass.RowAt(zone, rel);
               row.push.Some? && row.push.value.Some? ==> row.push.value.value.sum == pass.digest(row.push.value.value.content)
    modifies vault
    ensures Honest(vault.files, pass.digest)
    ensures forall rel :: TripleAt(vault, zone, pass.plugin, pass.digest, rel)
              == Committed(pass.digest, old(TripleAt(vault, zone, pass.plugin, pass.digest, rel)), pass.RowAt(zone, rel))
    ensures forall rel :: var push := pass.RowAt(zone, rel).push;
              FileAt(vault.files, Key(pass.plugin, rel))
              == if push.Some? then pass.Mirrored(rel, push.value) else old(FileAt(vault.files, Key(pass.plugin, rel)))
    ensures forall k: Key :: k.plugin != pass.plugin ==>
              FileAt(vault.files, k) == old(FileAt(vault.files, k)) && LastAt(vault.onDisk, k) == old(LastAt(vault.onDisk, k))
    ensures pass.pushes == map[] && pass.recorded == map[] ==> vault.files == old(vault.files) && vault.onDisk == old(vault.onDisk)
  {
    forall rel | rel in pass.pushes && pass.pushes[rel].Some?
      ensures pass.pushes[rel].value.sum == pass.digest(pass.pushes[rel].value.content)
    {
      assert pass.RowAt(zone, rel).push == Some(pass.pushes[rel]);
    }
    pass.CommitLast(vault);
    pass.CommitMirror(vault);
  }
}
