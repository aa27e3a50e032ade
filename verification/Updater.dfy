/** An update as the sequence of file and service operations it is, any of which may fail. */
module Updater {
  import opened Common
  import opened Backups

  /** Every operation of an update that can fail; i counts the database files, j the shipped ones. */
  datatype Point =
    | MakeDir | FirstStop | SaveBinary | StatDb(i: nat) | SaveDb(i: nat) | StatAux(j: nat) | SaveAux(j: nat)
    | NewBinary | NewSudoers | NewUnit | Reload | StartNew | Health
    | LastStop | BackBinary | RemoveDb(i: nat) | StatCopy(i: nat) | BackDb(i: nat)
    | StatAuxCopy(j: nat) | BackAux(j: nat) | LastStart

  /** What happens at a point: it works, it fails, or it fails and cannot remove the partial copy it made. */
  datatype Fault = Fine | Fails | Leaves(residue: Content)

  /** Where looking for source k, and copying it, can fail. */
  function StatAt(k: nat): Point {
    if k < 3 then StatDb(k) else StatAux(k - 3)
  }

  function SaveAt(k: nat): Point {
    if k < 3 then SaveDb(k) else SaveAux(k - 3)
  }

  /** Looking for a file works, and so does copying it if it is there. */
  predicate SaveFine(f: Files, path: Path, stat: Fault, save: Fault) {
    stat.Fine? && (path in f ==> save.Fine?)
  }

  /** No operation on the first n sources after the binary fails. */
  ghost predicate SavesFine(f: Files, o: Layout, faults: Point -> Fault, n: nat)
    requires n <= 5
  {
    faults(SaveBinary).Fine? && forall k :: 0 <= k < n ==> SaveFine(f, o.Rest()[k], faults(StatAt(k)), faults(SaveAt(k)))
  }

  /** Every operation of the installation that is reached works. */
  predicate InstallFine(faults: Point -> Fault, sudoers: Option<Content>, unit: Option<Content>) {
    && faults(NewBinary).Fine? && (sudoers.Some? ==> faults(NewSudoers).Fine?)
    && (unit.Some? ==> faults(NewUnit).Fine? && faults(Reload).Fine?)
    && faults(StartNew).Fine? && faults(Health).Fine?
  }

  predicate RollbackFine(faults: Point -> Fault) {
    && faults(LastStop).Fine? && faults(BackBinary).Fine?
    && (forall i | 0 <= i < 3 :: faults(RemoveDb(i)).Fine? && faults(StatCopy(i)).Fine? && faults(BackDb(i)).Fine?)
    && (forall j | 0 <= j < 2 :: faults(StatAuxCopy(j)).Fine? && faults(BackAux(j)).Fine?)
  }

  /** The database files as the service that ran until this stop leaves them. */
  function Scribble(f: Files, o: Layout, scribble: (Point, nat) -> Option<Content>, at: Point, n: nat): Files {
    if n == 0 then f
    else
      var g := Scribble(f, o, scribble, at, n - 1);
      var left := scribble(at, n - 1);
      if left.Some? then g[o.Db(n - 1) := left.value] else g - {o.Db(n - 1)}
  }

  lemma ScribbleTouches(f: Files, g: Files, o: Layout, scribble: (Point, nat) -> Option<Content>, at: Point, n: nat)
    requires n <= 3 && Untouched(f, g, o)
    ensures Untouched(f, Scribble(g, o, scribble, at, n), o)
    ensures forall p :: !DbPath(o, p) ==> (p in Scribble(g, o, scribble, at, n) <==> p in g)
  {
    if n > 0 {
      ScribbleTouches(f, g, o, scribble, at, n - 1);
      assert DbPath(o, o.Db(n - 1));
    }
  }

  /** The files when the service has been stopped. */
  function AtRest(f: Files, active: bool, o: Layout, scribble: (Point, nat) -> Option<Content>, at: Point): Files {
    if active then Scribble(f, o, scribble, at, 3) else f
  }

  lemma AtRestTouches(f: Files, g: Files, active: bool, o: Layout, scribble: (Point, nat) -> Option<Content>, at: Point)
    requires Untouched(f, g, o)
    ensures Untouched(f, AtRest(g, active, o, scribble, at), o)
    ensures forall p :: !DbPath(o, p) ==> (p in AtRest(g, active, o, scribble, at) <==> p in g)
  {
    ScribbleTouches(f, g, o, scribble, at, 3);
  }

  /** The shipped files that installing gets as far as writing. */
  function Shipped(o: Layout, faults: Point -> Fault, sudoers: Option<Content>, unit: Option<Content>): set<Path> {
    var withSudoers := faults(NewBinary).Fine? && sudoers.Some? && faults(NewSudoers).Fine?;
    var withUnit := faults(NewBinary).Fine? && (sudoers.Some? ==> faults(NewSudoers).Fine?) && unit.Some? && faults(NewUnit).Fine?;
    (if withSudoers then {o.sudoers} else {}) + (if withUnit then {o.unit} else {})
  }

  function WithoutDirs(f: Files, dirs: set<string>): Files {
    map p | p in f && p.dir !in dirs :: f[p]
  }

  /** Nothing but what an update touches changed, and its backup directory. */
  ghost predicate Confined(f: Files, g: Files, o: Layout) {
    forall p :: p != o.binary && p != o.sudoers && p != o.unit && !DbPath(o, p) && p.dir != o.backupDir ==> Same(f, g, p)
  }

  function WithAux(f: Files, path: Path, data: Option<Content>): Files {
    if data.Some? then f[path := data.value] else f
  }

  /** The files of a finished update. */
  function Installed(f: Files, o: Layout, binary: Content, sudoers: Option<Content>, unit: Option<Content>): Files {
    WithAux(WithAux(f[o.binary := binary], o.sudoers, sudoers), o.unit, unit)
  }

  /** File by file: the unit if one is shipped, then the sudoers, then the binary; every other file is as before. */
  lemma InstalledMeans(f: Files, o: Layout, binary: Content, sudoers: Option<Content>, unit: Option<Content>)
    ensures var g := Installed(f, o, binary, sudoers, unit);
            && (unit.Some? ==> o.unit in g && g[o.unit] == unit.value)
            && (sudoers.Some? && o.sudoers != o.unit ==> o.sudoers in g && g[o.sudoers] == sudoers.value)
            && (o.binary != o.unit && o.binary != o.sudoers ==> o.binary in g && g[o.binary] == binary)
            && (unit.None? && o.unit != o.sudoers && o.unit != o.binary ==> Same(f, g, o.unit))
            && (sudoers.None? && o.sudoers != o.unit && o.sudoers != o.binary ==> Same(f, g, o.sudoers))
            && (forall p :: p != o.binary && p != o.sudoers && p != o.unit ==> Same(f, g, p))
  {
  }

  ghost predicate OnlyAt(f: Files, g: Files, p: Path) {
    forall q :: q != p ==> Same(f, g, q)
  }

  /** A copy among the backups, whole or partial, changes nothing outside. */
  lemma StillOutside(f: Files, g: Files, h: Files, o: Layout, name: string)
    requires SameOutside(f, g, o.backupDir) && OnlyAt(g, h, o.Backup(name))
    ensures SameOutside(f, h, o.backupDir)
  {
    forall p: Path | p.dir != o.backupDir ensures Same(f, h, p) {
      assert Same(f, g, p) && Same(g, h, p);
    }
  }

  // ---- what a rollback does, operation by operation --------------------------------------

  /** Restoring database file i works. */
  predicate DbFine(f: Files, o: Layout, faults: Point -> Fault, i: nat) {
    faults(RemoveDb(i)).Fine? && faults(StatCopy(i)).Fine? && (o.Backup(DbName(i)) in f ==> faults(BackDb(i)).Fine?)
  }

  /** The first n database files are restored; file n is where it stops, and is removed unless removing it is what fails. */
  predicate StopsAt(f: Files, g: Files, o: Layout, faults: Point -> Fault, n: nat) {
    && n < 3 && !DbFine(f, o, faults, n) && (forall i | 0 <= i < n :: DbFine(f, o, faults, i))
    && g == if faults(RemoveDb(n)).Fine? then RestoreDb(f, o, n) - {o.Db(n)} else RestoreDb(f, o, n)
  }

  ghost predicate DbOutcome(f: Files, g: Files, o: Layout, faults: Point -> Fault) {
    || ((forall i :: 0 <= i < 3 ==> DbFine(f, o, faults, i)) && g == RestoreDb(f, o, 3))
    || exists n :: StopsAt(f, g, o, faults, n)
  }

  function BinaryBack(f: Files, o: Layout, faults: Point -> Fault): Files {
    if o.Backup(BINARY) in f && faults(BackBinary).Fine? then f[o.binary := f[o.Backup(BINARY)]] else f
  }

  function AuxBack(f: Files, o: Layout, path: Path, stat: Fault, back: Fault): Files {
    if stat.Fine? && back.Fine? then RestoreAux(f, o, path) else f
  }

  /** Each of the four restorations goes its own way: one that fails keeps none of the others from being tried. */
  ghost predicate RollsBack(f: Files, h: Files, o: Layout, faults: Point -> Fault) {
    exists g :: DbOutcome(BinaryBack(f, o, faults), g, o, faults) && h == BothAuxBack(g, o, faults)
  }

  function BothAuxBack(g: Files, o: Layout, faults: Point -> Fault): Files {
    AuxBack(AuxBack(g, o, o.sudoers, faults(StatAuxCopy(0)), faults(BackAux(0))), o, o.unit,
            faults(StatAuxCopy(1)), faults(BackAux(1)))
  }

  lemma RollsBackTouches(f: Files, h: Files, o: Layout, faults: Point -> Fault)
    requires o.Sane() && RollsBack(f, h, o, faults)
    ensures Untouched(f, h, o)
  {
    var f1 := BinaryBack(f, o, faults);
    var g :| DbOutcome(f1, g, o, faults) && h == BothAuxBack(g, o, faults);
    DbTouches(f1, g, o, faults);
    forall p | p != o.binary && p != o.sudoers && p != o.unit && !DbPath(o, p) ensures Same(f, h, p) {
      assert Same(f1, g, p);
    }
  }

  lemma DbTouches(f: Files, g: Files, o: Layout, faults: Point -> Fault)
    requires o.Sane() && DbOutcome(f, g, o, faults)
    ensures forall p :: !DbPath(o, p) ==> Same(f, g, p)
  {
    if g == RestoreDb(f, o, 3) {
      RestoreDbMeans(f, o, 3);
    } else {
      var n :| StopsAt(f, g, o, faults, n);
      RestoreDbMeans(f, o, n);
      assert DbPath(o, o.Db(n));
      forall p | !DbPath(o, p) ensures Same(f, g, p) {
        assert Same(f, RestoreDb(f, o, n), p);
      }
    }
  }

  lemma FineRollsBack(f: Files, h: Files, o: Layout, faults: Point -> Fault)
    requires RollsBack(f, h, o, faults) && RollbackFine(faults) && o.Backup(BINARY) in f
    ensures h == Restore(f, o)
  {
    var f1 := BinaryBack(f, o, faults);
    var g :| DbOutcome(f1, g, o, faults) && h == BothAuxBack(g, o, faults);
    assert forall i :: 0 <= i < 3 ==> DbFine(f1, o, faults, i);
  }

  class Host {
    var files: Files
    /** The files on which the service was last started, if that start worked and no stop has since. */
    ghost var launched: Option<Files>
    /** Whether the service has been started since it was last stopped. */
    var active: bool
    const faults: Point -> Fault
    /** What the service that runs until a stop leaves of each database file: a different one each time. */
    const scribble: (Point, nat) -> Option<Content>

    constructor (files: Files, faults: Point -> Fault, scribble: (Point, nat) -> Option<Content>)
      ensures this.files == files && active && this.faults == faults && this.scribble == scribble && launched == Some(files)
    {
      this.files, active, this.faults, this.scribble, launched := files, true, faults, scribble, Some(files);
    }

    // ---- single operations ----------------------------------------------------------------

    /** systemctl stop: what the service did to its database until then becomes visible. */
    method Stop(o: Layout, at: Point) returns (ok: bool)
      modifies this
      ensures ok == faults(at).Fine?
      ensures files == AtRest(old(files), old(active), o, scribble, at)
      ensures active == (old(active) && !ok) && launched == if ok then None else old(launched)
    {
      if active {
        files := Scribble(files, o, scribble, at, 3);
      }
      ok := faults(at).Fine?;
      active := active && !ok;
      launched := if ok then None else launched;
    }

    /** systemctl start: even when it fails the service may have run for a moment. */
    method Start(at: Point) returns (ok: bool)
      modifies this`active, this`launched
      ensures ok == faults(at).Fine? && active && launched == if ok then Some(files) else None
    {
      ok := faults(at).Fine?;
      active := true;
      launched := if ok then Some(files) else None;
    }

    /** Never overwrites: the destination is opened with O_EXCL. */
    method CopyFile(source: Path, destination: Path, at: Point) returns (ok: bool)
      modifies this`files
      ensures ok <==> source in old(files) && destination !in old(files) && faults(at).Fine?
      ensures ok ==> files == old(files)[destination := old(files)[source]]
      ensures OnlyAt(old(files), files, destination)
    {
      if source !in files || destination in files || faults(at).Fails? {
        return false;
      }
      if faults(at).Leaves? {
        files := files[destination := faults(at).residue];
        return false;
      }
      files := files[destination := files[source]];
      ok := true;
    }

    /** Through a temporary file and a rename: all or nothing. */
    method CopyFileAtomic(source: Path, destination: Path, at: Point) returns (ok: bool)
      modifies this`files
      ensures ok <==> source in old(files) && faults(at).Fine?
      ensures files == if ok then old(files)[destination := old(files)[source]] else old(files)
    {
      ok := source in files && faults(at).Fine?;
      if ok {
        files := files[destination := files[source]];
      }
    }

    method WriteFileAtomic(destination: Path, data: Content, at: Point) returns (ok: bool)
      modifies this`files
      ensures ok == faults(at).Fine?
      ensures files == if ok then old(files)[destination := data] else old(files)
    {
      ok := faults(at).Fine?;
      if ok {
        files := files[destination := data];
      }
    }

    // ---- backing up ---------------------------------------------------------------------

    /** Back up one file if it exists; `saved` are the sources saved before it. */
    method SaveIfPresent(path: Path, o: Layout, stat: Point, save: Point, ghost f: Files, ghost saved: seq<Path>) returns (ok: bool)
      requires path.dir != o.backupDir && SaveAll(f, saved, o.backupDir) == Some(files) && SameOutside(f, files, o.backupDir)
      modifies this`files
      ensures SameOutside(f, files, o.backupDir)
      ensures var all := if path in f then saved + [path] else saved;
              && (ok ==> SaveAll(f, all, o.backupDir) == Some(files))
              && (ok <==> SaveFine(f, path, faults(stat), faults(save)) && SaveAll(f, all, o.backupDir).Some?)
    {
      ghost var g := files;
      assert Same(f, g, path);
      if !faults(stat).Fine? {
        return false;
      }
      if path !in files {
        return true;
      }
      ok := CopyFile(path, o.Backup(path.base), save);
      assert (saved + [path])[..|saved|] == saved;
      StillOutside(f, g, files, o, path.base);
    }

    /** The files hold the binary's copy and those of the first k other sources. */
    ghost predicate Saved(f: Files, o: Layout, k: nat)
      requires k <= 5
      reads this`files
    {
      && SavesFine(f, o, faults, k)
      && SaveAll(f, [o.binary] + Existing(f, o.Rest()[..k]), o.backupDir) == Some(files) && SameOutside(f, files, o.backupDir)
    }

    /** Why a backup stops: an operation on some source fails, or its base name is taken. */
    ghost predicate Hindered(f: Files, o: Layout) {
      !SavesFine(f, o, faults, 5) || SaveAll(f, Sources(f, o), o.backupDir).None?
    }

    /** Back up source k if it exists. */
    method SaveNext(o: Layout, k: nat, path: Path, stat: Point, save: Point, ghost f: Files) returns (ok: bool)
      requires o.Sane() && k < 5 && path == o.Rest()[k] && stat == StatAt(k) && save == SaveAt(k) && Saved(f, o, k)
      modifies this`files
      ensures SameOutside(f, files, o.backupDir)
      ensures if ok then Saved(f, o, k + 1) else Hindered(f, o)
    {
      ok := SaveIfPresent(path, o, stat, save, f, [o.binary] + Existing(f, o.Rest()[..k]));
      ExistingNext(f, o, k);
    }

    method BackupDatabase(o: Layout, ghost f: Files) returns (ok: bool)
      requires o.Sane() && Saved(f, o, 0)
      modifies this`files
      ensures SameOutside(f, files, o.backupDir)
      ensures if ok then Saved(f, o, 3) else Hindered(f, o)
    {
      for i := 0 to 3
        invariant Saved(f, o, i)
      {
        ok := SaveNext(o, i, o.Db(i), StatDb(i), SaveDb(i), f);
        if !ok {
          return;
        }
      }
      ok := true;
    }

    method BackupAux(o: Layout, ghost f: Files) returns (ok: bool)
      requires o.Sane() && Saved(f, o, 3)
      modifies this`files
      ensures SameOutside(f, files, o.backupDir)
      ensures if ok then SavesFine(f, o, faults, 5) && SaveAll(f, Sources(f, o), o.backupDir) == Some(files) else Hindered(f, o)
    {
      for j := 0 to 2
        invariant Saved(f, o, 3 + j)
      {
        ok := SaveNext(o, 3 + j, if j == 0 then o.sudoers else o.unit, StatAux(j), SaveAux(j), f);
        if !ok {
          return;
        }
      }
      ok := true;
      assert o.Rest()[..5] == o.Rest();
    }

    method Backup(o: Layout) returns (ok: bool)
      requires o.Sane()
      modifies this`files
      ensures SameOutside(old(files), files, o.backupDir)
      ensures ok <==> SavesFine(old(files), o, faults, 5) && SaveAll(old(files), Sources(old(files), o), o.backupDir).Some?
      ensures ok ==> SaveAll(old(files), Sources(old(files), o), o.backupDir) == Some(files)
    {
      ghost var f := files;
      ok := CopyFile(o.binary, o.Backup(BINARY), SaveBinary);
      StillOutside(f, f, files, o, BINARY);
      assert [o.binary][..0] == [];
      if !ok {
        FirstSaves(f, o);
        return;
      }
      assert [o.binary] + Existing(f, o.Rest()[..0]) == [o.binary];
      ok := BackupDatabase(o, f);
      if ok {
        ok := BackupAux(o, f);
      }
    }

    // ---- rolling back -------------------------------------------------------------------

    method RestoreDatabaseBackup(o: Layout) returns (ok: bool)
      requires o.Sane()
      modifies this`files
      ensures ok <==> forall i :: 0 <= i < 3 ==> DbFine(old(files), o, faults, i)
      ensures DbOutcome(old(files), files, o, faults)
      ensures Untouched(old(files), files, o)
    {
      ghost var f := files;
      for i := 0 to 3
        invariant files == RestoreDb(f, o, i) && forall k :: 0 <= k < i ==> DbFine(f, o, faults, k)
      {
        RestoreDbMeans(f, o, i);
        assert DbPath(o, o.Db(i));
        var copy := o.Backup(DbName(i));
        assert Same(f, files, copy);
        if !faults(RemoveDb(i)).Fine? {
          assert StopsAt(f, files, o, faults, i);
          return false;
        }
        ghost var g := files;
        files := files - {o.Db(i)};
        if !faults(StatCopy(i)).Fine? {
          assert StopsAt(f, files, o, faults, i);
          return false;
        }
        if copy in files {
          ok := CopyFileAtomic(copy, o.Db(i), BackDb(i));
          if !ok {
            assert StopsAt(f, files, o, faults, i);
            return;
          }
          assert files == g[o.Db(i) := g[copy]];
        }
      }
      RestoreDbMeans(f, o, 3);
      ok := true;
    }

    method RestoreAuxFile(o: Layout, path: Path, stat: Point, back: Point)
      modifies this`files
      ensures files == AuxBack(old(files), o, path, faults(stat), faults(back))
    {
      if o.Backup(path.base) in files && faults(stat).Fine? {
        var _ := CopyFileAtomic(o.Backup(path.base), path, back);
      }
    }

    /** The deferred rollback, up to the point where the old service is started again. */
    method Rollback(o: Layout, backupReady: bool)
      requires o.Sane()
      modifies this
      ensures var f := AtRest(old(files), old(active), o, scribble, LastStop);
              && Untouched(f, files, o)
              && (if backupReady then RollsBack(f, files, o, faults) else files == f)
              && (RollbackFine(faults) && backupReady && o.Backup(BINARY) in f ==> files == Restore(f, o))
    {
      var _ := Stop(o, LastStop);
      if backupReady {
        ghost var f := files;
        RestoreFiles(o);
        RollsBackTouches(f, files, o, faults);
        if RollbackFine(faults) && o.Backup(BINARY) in f {
          FineRollsBack(f, files, o, faults);
        }
      }
    }

    /** Copy everything back, whatever fails in between. */
    method RestoreFiles(o: Layout)
      requires o.Sane()
      modifies this`files
      ensures RollsBack(old(files), files, o, faults)
    {
      var _ := CopyFileAtomic(o.Backup(BINARY), o.binary, BackBinary);
      assert files == BinaryBack(old(files), o, faults);
      var _ := RestoreDatabaseBackup(o);
      ghost var g := files;
      RestoreAuxFile(o, o.sudoers, StatAuxCopy(0), BackAux(0));
      RestoreAuxFile(o, o.unit, StatAuxCopy(1), BackAux(1));
      assert files == BothAuxBack(g, o, faults);
    }

    // ---- the update -----------------------------------------------------------------------

    /** Install the new files and start the service on them. */
    method Install(o: Layout, binary: Content, sudoers: Option<Content>, unit: Option<Content>) returns (ok: bool)
      requires o.binary in files
      modifies this
      ensures Untouched(old(files), files, o)
      ensures files.Keys == old(files).Keys + Shipped(o, faults, sudoers, unit)
      ensures ok <==> InstallFine(faults, sudoers, unit)
      ensures ok ==> files == Installed(old(files), o, binary, sudoers, unit) && active && launched == Some(files)
    {
      ok := WriteFileAtomic(o.binary, binary, NewBinary);
      if !ok {
        return;
      }
      if sudoers.Some? {
        ok := WriteFileAtomic(o.sudoers, sudoers.value, NewSudoers);
        if !ok {
          return;
        }
      }
      if unit.Some? {
        ok := WriteFileAtomic(o.unit, unit.value, NewUnit);
        if !ok {
          return;
        }
        if !faults(Reload).Fine? {
          return false;
        }
      }
      ok := Start(StartNew);
      if ok {
        ok := faults(Health).Fine?;
      }
    }

    /** The update from the backup directory on. `before` are the files once the service is stopped and `ready` says
        whether the backup was completed: exactly when no operation on a source fails and no base name is taken. The update
        succeeds exactly when, besides, every operation of the installation works. It then has installed the files, runs on
        them, and has removed the older backup directories it prunes. If it fails after the stop, the service is started
        again on what the rollback left of the files that the second stop found (`later`), and runs exactly if that start
        works; if the rollback's own operations work the files are rolled back; without a completed backup nothing outside
        the backup directory changed at all; and nothing else ever changes. */
    method PerformUpdate(o: Layout, binary: Content, sudoers: Option<Content>, unit: Option<Content>, pruned: set<string>)
      returns (ok: bool, ghost before: Files, ghost later: Files, ghost ready: bool)
      requires o.Sane()
      modifies this
      ensures faults(MakeDir) != Fine ==> !ok && files == old(files) && active == old(active) && launched == old(launched)
      ensures faults(MakeDir).Fine? ==> before == AtRest(old(files), old(active), o, scribble, FirstStop)
      ensures faults(MakeDir).Fine? && faults(FirstStop) != Fine ==>
                !ok && files == before && active == old(active) && launched == old(launched)
      ensures faults(MakeDir).Fine? && faults(FirstStop).Fine? ==>
                && (ready <==> SavesFine(before, o, faults, 5) && SaveAll(before, Sources(before, o), o.backupDir).Some?)
                && (ok <==> ready && InstallFine(faults, sudoers, unit)) && active
                && (!ok ==> launched == (if faults(LastStart).Fine? then Some(files) else None))
                && (!ok ==> Confined(before, files, o))
                && (!ok && ready ==> RollsBack(later, files, o, faults))
                && (!ready ==> files == later && SameOutside(before, files, o.backupDir))
                && (!ok && RollbackFine(faults) ==> RolledBack(before, files, o, ready, Shipped(o, faults, sudoers, unit)))
      ensures ok ==>
                && faults(MakeDir).Fine? && faults(FirstStop).Fine?
                && launched == Some(Installed(SaveAll(before, Sources(before, o), o.backupDir).value, o, binary, sudoers, unit))
                && files == WithoutDirs(launched.value, pruned)
    {
      before, later, ready := files, files, false;
      if !faults(MakeDir).Fine? {
        return false, before, later, false;
      }
      ok := Stop(o, FirstStop);
      before := files;
      if !ok {
        return;
      }
      var backupReady := Backup(o);
      ready := backupReady;
      if backupReady {
        ghost var saved := files;
        SavedHasBinary(before, saved, o);
        ok := Install(o, binary, sudoers, unit);
        StillConfined(before, saved, files, o);
        if ok {
          files := WithoutDirs(files, pruned);
          return;
        }
        later := AtRest(files, active, o, scribble, LastStop);
        AtRestTouches(saved, files, active, o, scribble, LastStop);
        NowPlaced(before, saved, files, later, o, Shipped(o, faults, sudoers, unit));
        RollbackRestores(before, saved, later, o, Shipped(o, faults, sudoers, unit));
        StillConfined(before, saved, later, o);
        Rollback(o, true);
        ConfinedOn(before, later, files, o);
      } else {
        Rollback(o, false);
        later := files;
      }
      ok := false;
      var _ := Start(LastStart);
    }
  }

  lemma SavedHasBinary(f: Files, g: Files, o: Layout)
    requires o.Sane() && SaveAll(f, Sources(f, o), o.backupDir) == Some(g)
    ensures o.binary in g && SameOutside(f, g, o.backupDir)
  {
    SourcesAre(f, o);
    BackupMeans(f, Sources(f, o), o.backupDir);
    assert Same(f, g, o.binary);
  }

  lemma StillConfined(f: Files, g: Files, h: Files, o: Layout)
    requires SameOutside(f, g, o.backupDir) && Untouched(g, h, o)
    ensures Confined(f, h, o)
  {
    forall p: Path | p != o.binary && p != o.sudoers && p != o.unit && !DbPath(o, p) && p.dir != o.backupDir
      ensures Same(f, h, p)
    {
      assert Same(f, g, p) && Same(g, h, p);
    }
  }

  lemma ConfinedOn(f: Files, g: Files, h: Files, o: Layout)
    requires Confined(f, g, o) && Untouched(g, h, o)
    ensures Confined(f, h, o)
  {
    forall p: Path | p != o.binary && p != o.sudoers && p != o.unit && !DbPath(o, p) && p.dir != o.backupDir
      ensures Same(f, h, p)
    {
      assert Same(f, g, p) && Same(g, h, p);
    }
  }

  lemma NowPlaced(f: Files, saved: Files, installed: Files, later: Files, o: Layout, shipped: set<Path>)
    requires o.Sane() && SameOutside(f, saved, o.backupDir) && installed.Keys == saved.Keys + shipped
    requires forall p :: !DbPath(o, p) ==> (p in later <==> p in installed)
    ensures Placed(f, later, o, shipped)
  {
    forall path | (path == o.sudoers || path == o.unit) && path !in f && !DbPath(o, path)
      ensures path in later <==> path in shipped
    {
      assert Same(f, saved, path);
    }
  }

  lemma FirstSaves(f: Files, o: Layout)
    ensures SaveAll(f, Sources(f, o), o.backupDir).Some? ==> SaveAll(f, [o.binary], o.backupDir).Some?
  {
    if SaveAll(f, Sources(f, o), o.backupDir).Some? {
      PrefixSaves(f, [o.binary], Existing(f, o.Rest()), o.backupDir);
    }
  }

  lemma {:induction false} ExistingSplits(f: Files, a: seq<Path>, b: seq<Path>)
    ensures Existing(f, a + b) == Existing(f, a) + Existing(f, b)
  {
    if b == [] {
      assert a + b == a;
    } else {
      assert (a + b)[..|a + b| - 1] == a + b[..|b| - 1];
      ExistingSplits(f, a, b[..|b| - 1]);
    }
  }

  /** The sources up to file k, and that they are a prefix of all of them. */
  lemma ExistingNext(f: Files, o: Layout, k: nat)
    requires k < 5
    ensures var now, next := [o.binary] + Existing(f, o.Rest()[..k]), [o.binary] + Existing(f, o.Rest()[..k + 1]);
            && next == (if o.Rest()[k] in f then now + [o.Rest()[k]] else now)
            && (SaveAll(f, next, o.backupDir).None? ==> SaveAll(f, Sources(f, o), o.backupDir).None?)
  {
    var paths := o.Rest();
    assert paths[..k + 1][..k] == paths[..k];
    assert paths[..k + 1] + paths[k + 1..] == paths;
    ExistingSplits(f, paths[..k + 1], paths[k + 1..]);
    var next := [o.binary] + Existing(f, paths[..k + 1]);
    assert Sources(f, o) == next + Existing(f, paths[k + 1..]);
    if SaveAll(f, Sources(f, o), o.backupDir).Some? {
      PrefixSaves(f, next, Existing(f, paths[k + 1..]), o.backupDir);
    }
  }
}
