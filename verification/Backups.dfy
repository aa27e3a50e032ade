/** The file side of an update: copying files into a fresh backup directory without ever overwriting one,
    and copying them back. */
module Backups {
  import opened Common

  type Content = string

  /** A file by its directory and base name. */
  datatype Path = Path(dir: string, base: string)

  type Files = map<Path, Content>

  const BINARY := "mini-ubuntu-server"

  /** Where things are: the installed binary, the data directory, this update's backup directory, and the two files
      shipped beside the binary. */
  datatype Layout = Layout(binary: Path, dataDir: string, backupDir: string, sudoers: Path, unit: Path) {
    /** None of the files an update replaces lies in its own backup directory. */
    predicate Sane() {
      && binary.base == BINARY && binary.dir != backupDir && dataDir != backupDir
      && sudoers.dir != backupDir && unit.dir != backupDir
    }

    function Backup(name: string): Path {
      Path(backupDir, name)
    }

    function Db(i: nat): Path {
      Path(dataDir, DbName(i))
    }

    /** Everything backed up after the binary, in order. */
    function Rest(): seq<Path> {
      [Db(0), Db(1), Db(2), sudoers, unit]
    }
  }

  function DbName(i: nat): string {
    "mini-ubuntu-server.db" + if i == 0 then "" else if i == 1 then "-wal" else "-shm"
  }

  predicate Same(f: Files, g: Files, p: Path) {
    if p in f then p in g && g[p] == f[p] else p !in g
  }

  /** Nothing outside the backup directory changed. */
  ghost predicate SameOutside(f: Files, g: Files, backupDir: string) {
    forall p: Path :: p.dir != backupDir ==> Same(f, g, p)
  }

  function Existing(f: Files, paths: seq<Path>): seq<Path> {
    if paths == [] then []
    else
      var n := |paths| - 1;
      if paths[n] in f then Existing(f, paths[..n]) + [paths[n]] else Existing(f, paths[..n])
  }

  function Sources(f: Files, o: Layout): seq<Path> {
    [o.binary] + Existing(f, o.Rest())
  }

  /** One copy into the backup directory: the source must exist and the destination must not. */
  function Save(f: Files, source: Path, backupDir: string): Option<Files> {
    var copy := Path(backupDir, source.base);
    if source in f && copy !in f then Some(f[copy := f[source]]) else None
  }

  function SaveAll(f: Files, sources: seq<Path>, backupDir: string): Option<Files> {
    if sources == [] then Some(f)
    else
      var before := SaveAll(f, sources[..|sources| - 1], backupDir);
      if before.None? then None else Save(before.value, sources[|sources| - 1], backupDir)
  }

  // ---- what a backup holds --------------------------------------------------------------

  ghost predicate Named(sources: seq<Path>, name: string) {
    exists k :: 0 <= k < |sources| && sources[k].base == name
  }

  /** The sources exist, their base names differ, and no copy is in the way. */
  ghost predicate Savable(f: Files, sources: seq<Path>, backupDir: string) {
    && (forall k :: 0 <= k < |sources| ==> sources[k] in f && Path(backupDir, sources[k].base) !in f)
    && (forall j, k :: 0 <= j < k < |sources| ==> sources[j].base != sources[k].base)
  }

  /** The tables of contents before and after a complete backup. */
  ghost predicate Holds(f: Files, g: Files, sources: seq<Path>, backupDir: string) {
    && SameOutside(f, g, backupDir)
    && (forall name :: Path(backupDir, name) in g <==> Path(backupDir, name) in f || Named(sources, name))
    && (forall name :: Path(backupDir, name) in f ==> g[Path(backupDir, name)] == f[Path(backupDir, name)])
    && (forall k :: 0 <= k < |sources| && sources[k] in f ==>
          Path(backupDir, sources[k].base) in g && g[Path(backupDir, sources[k].base)] == f[sources[k]])
  }

  lemma NamedGrows(sources: seq<Path>, s: Path, name: string)
    ensures Named(sources + [s], name) <==> Named(sources, name) || s.base == name
  {
    if Named(sources, name) {
      var k :| 0 <= k < |sources| && sources[k].base == name;
      assert (sources + [s])[k].base == name;
    }
    assert (sources + [s])[|sources|] == s;
  }

  lemma SavableGrows(f: Files, sources: seq<Path>, s: Path, backupDir: string)
    ensures Savable(f, sources + [s], backupDir) <==>
            Savable(f, sources, backupDir) && s in f && Path(backupDir, s.base) !in f && !Named(sources, s.base)
  {
    var all := sources + [s];
    if Savable(f, all, backupDir) {
      assert all[|sources|] == s;
      forall k | 0 <= k < |sources| ensures all[k] == sources[k] && all[k].base != s.base {}
    }
  }

  lemma HoldsGrows(f: Files, g: Files, sources: seq<Path>, s: Path, backupDir: string)
    requires Holds(f, g, sources, backupDir) && s.dir != backupDir && s in f && Path(backupDir, s.base) !in g
    ensures s in g && Holds(f, g[Path(backupDir, s.base) := g[s]], sources + [s], backupDir)
  {
    assert Same(f, g, s);
    var g' := g[Path(backupDir, s.base) := g[s]];
    forall name ensures Named(sources + [s], name) <==> Named(sources, name) || s.base == name {
      NamedGrows(sources, s, name);
    }
    forall p: Path | p.dir != backupDir ensures Same(f, g', p) {
      assert Same(f, g, p);
    }
    forall k | 0 <= k < |sources| + 1 && (sources + [s])[k] in f
      ensures var copy := Path(backupDir, (sources + [s])[k].base); copy in g' && g'[copy] == f[(sources + [s])[k]]
    {
      if k < |sources| {
        assert (sources + [s])[k] == sources[k] && sources[k] in f;
      }
    }
  }

  /** A backup completes exactly when its base names are free and different, and then holds every source. */
  lemma {:induction false} BackupMeans(f: Files, sources: seq<Path>, backupDir: string)
    requires forall k :: 0 <= k < |sources| ==> sources[k].dir != backupDir
    ensures SaveAll(f, sources, backupDir).Some? <==> Savable(f, sources, backupDir)
    ensures SaveAll(f, sources, backupDir).Some? ==> Holds(f, SaveAll(f, sources, backupDir).value, sources, backupDir)
  {
    if sources != [] {
      var n := |sources| - 1;
      var init, s := sources[..n], sources[n];
      assert init + [s] == sources;
      BackupMeans(f, init, backupDir);
      SavableGrows(f, init, s, backupDir);
      if Savable(f, init, backupDir) {
        var g := SaveAll(f, init, backupDir).value;
        assert Same(f, g, s);
        if s in f && Path(backupDir, s.base) !in g {
          HoldsGrows(f, g, init, s, backupDir);
        }
      }
    }
  }

  /** A backup that stopped in the middle cannot be completed by going on. */
  lemma {:induction false} PrefixSaves(f: Files, sources: seq<Path>, more: seq<Path>, backupDir: string)
    requires SaveAll(f, sources + more, backupDir).Some?
    ensures SaveAll(f, sources, backupDir).Some?
  {
    if more == [] {
      assert sources + more == sources;
    } else {
      assert (sources + more)[..|sources + more| - 1] == sources + more[..|more| - 1];
      PrefixSaves(f, sources, more[..|more| - 1], backupDir);
    }
  }

  lemma {:induction false} ExistingIs(f: Files, paths: seq<Path>)
    ensures forall k :: 0 <= k < |Existing(f, paths)| ==> Existing(f, paths)[k] in paths && Existing(f, paths)[k] in f
    ensures forall k :: 0 <= k < |paths| && paths[k] in f ==> paths[k] in Existing(f, paths)
    ensures (forall p :: p in paths ==> p !in f) ==> Existing(f, paths) == []
  {
    if paths != [] {
      var n := |paths| - 1;
      ExistingIs(f, paths[..n]);
      forall k | 0 <= k < n && paths[k] in f ensures paths[k] in Existing(f, paths) {
        assert paths[..n][k] == paths[k];
      }
    }
  }

  // ---- rolling back -------------------------------------------------------------------

  /** Remove each database file and copy its backup back if there is one. */
  function RestoreDb(f: Files, o: Layout, n: nat): Files {
    if n == 0 then f
    else
      var g := RestoreDb(f, o, n - 1);
      var copy := o.Backup(DbName(n - 1));
      if copy in g then g[o.Db(n - 1) := g[copy]] else g - {o.Db(n - 1)}
  }

  function RestoreAux(f: Files, o: Layout, path: Path): Files {
    var copy := o.Backup(path.base);
    if copy in f then f[path := f[copy]] else f
  }

  function Restore(f: Files, o: Layout): Files
    requires o.Backup(BINARY) in f
  {
    RestoreAux(RestoreAux(RestoreDb(f[o.binary := f[o.Backup(BINARY)]], o, 3), o, o.sudoers), o, o.unit)
  }

  lemma DbNames(i: nat, j: nat)
    requires i < 3 && j < 3
    ensures DbName(i) == DbName(j) <==> i == j
    ensures DbName(i) != BINARY
  {
    assert |DbName(0)| == 21 && |DbName(1)| == 25 && |DbName(2)| == 25;
    assert DbName(1)[22] == 'w' && DbName(2)[22] == 's';
    assert |BINARY| == 18;
  }

  ghost predicate DbPath(o: Layout, p: Path) {
    exists i :: 0 <= i < 3 && p == o.Db(i)
  }

  lemma {:induction false} RestoreDbMeans(f: Files, o: Layout, n: nat)
    requires o.dataDir != o.backupDir && n <= 3
    ensures var g := RestoreDb(f, o, n);
            && (forall p :: !DbPath(o, p) ==> Same(f, g, p))
            && (forall i :: 0 <= i < n ==> (o.Db(i) in g <==> o.Backup(DbName(i)) in f))
            && (forall i :: 0 <= i < n && o.Db(i) in g ==> g[o.Db(i)] == f[o.Backup(DbName(i))])
  {
    if n > 0 {
      RestoreDbMeans(f, o, n - 1);
      var g, h := RestoreDb(f, o, n - 1), RestoreDb(f, o, n);
      var copy := o.Backup(DbName(n - 1));
      assert !DbPath(o, copy) && DbPath(o, o.Db(n - 1));
      assert Same(f, g, copy);
      forall i | 0 <= i < n - 1 ensures o.Db(i) != o.Db(n - 1) && Same(g, h, o.Db(i)) {
        DbNames(i, n - 1);
      }
      forall p | !DbPath(o, p) ensures Same(f, h, p) {
        assert Same(f, g, p);
      }
    }
  }

  /** Whatever a restore writes, it writes from the backup of that base name. */
  ghost predicate From(f: Files, h: Files, o: Layout, p: Path) {
    && o.Backup(p.base) in f && p in h && h[p] == f[o.Backup(p.base)]
  }

  lemma RestoreAuxMeans(f: Files, g: Files, o: Layout, path: Path)
    requires path.dir != o.backupDir && Same(f, g, o.Backup(path.base))
    ensures var h := RestoreAux(g, o, path);
            && (o.Backup(path.base) in f ==> From(f, h, o, path))
            && (forall p :: p != path ==> Same(g, h, p))
            && (o.Backup(path.base) !in f ==> h == g)
  {
  }

  ghost predicate Written(f: Files, h: Files, o: Layout) {
    && From(f, h, o, o.binary)
    && (o.Backup(o.sudoers.base) in f ==> From(f, h, o, o.sudoers))
    && (o.Backup(o.unit.base) in f ==> From(f, h, o, o.unit))
    && (forall i :: 0 <= i < 3 ==> if o.Backup(DbName(i)) in f then From(f, h, o, o.Db(i)) else o.Db(i) !in h)
    && LeftAlone(f, h, o, o.sudoers) && LeftAlone(f, h, o, o.unit)
  }

  /** A shipped file without a backup is not written. */
  ghost predicate LeftAlone(f: Files, h: Files, o: Layout, path: Path) {
    o.Backup(path.base) !in f && !DbPath(o, path) ==> Same(f, h, path)
  }

  lemma RestoreMeans(f: Files, o: Layout)
    requires o.Sane() && o.Backup(BINARY) in f
    ensures Written(f, Restore(f, o), o)
  {
    var f1 := f[o.binary := f[o.Backup(BINARY)]];
    var f2 := RestoreDb(f1, o, 3);
    var f3 := RestoreAux(f2, o, o.sudoers);
    RestoreDbMeans(f1, o, 3);
    forall p: Path | p.dir == o.backupDir ensures !DbPath(o, p) && Same(f, f2, p) {
      assert Same(f1, f2, p);
    }
    assert !DbPath(o, o.binary) by {
      DbNames(0, 0);
      DbNames(1, 1);
      DbNames(2, 2);
    }
    assert Same(f1, f2, o.binary);
    RestoreAuxMeans(f, f2, o, o.sudoers);
    assert Same(f2, f3, o.Backup(o.unit.base));
    RestoreAuxMeans(f, f3, o, o.unit);
    forall i | 0 <= i < 3 ensures Same(f, f1, o.Backup(DbName(i))) {}
    forall path | (path == o.sudoers || path == o.unit) && o.Backup(path.base) !in f && !DbPath(o, path)
      ensures Same(f, Restore(f, o), path)
    {
      assert path != o.binary && Same(f1, f2, path) && Same(f2, f3, path);
    }
  }

  // ---- the rollback theorem -------------------------------------------------------------

  /** What the update and the service it started may have changed after the backup. */
  ghost predicate Untouched(f: Files, g: Files, o: Layout) {
    forall p :: p != o.binary && p != o.sudoers && p != o.unit && !DbPath(o, p) ==> Same(f, g, p)
  }

  /** Whether a completed backup has a file of that name: one left there before, or the copy of a file that was there
      and has the name. */
  predicate InBackups(f: Files, o: Layout, name: string) {
    || o.Backup(name) in f
    || name == BINARY
    || exists k :: 0 <= k < |o.Rest()| && o.Rest()[k] in f && o.Rest()[k].base == name
  }

  /** A file that was absent, with a file of its name among the backups. */
  predicate Stray(f: Files, o: Layout, path: Path) {
    path !in f && InBackups(f, o, path.base)
  }

  lemma SourcesAre(f: Files, o: Layout)
    requires o.Sane()
    ensures var s := Sources(f, o);
            && (forall k :: 0 <= k < |s| ==> s[k].dir != o.backupDir && (s[k] == o.binary || (s[k] in o.Rest() && s[k] in f)))
            && s[0] == o.binary
            && (forall p :: p in o.Rest() && p in f ==> p in s)
  {
    ExistingIs(f, o.Rest());
    forall p | p in o.Rest() && p in f ensures p in Sources(f, o) {
      var k :| 0 <= k < |o.Rest()| && o.Rest()[k] == p;
    }
  }

  /** The backup of a source holds what the source held. */
  lemma BackedUp(f: Files, g: Files, o: Layout, p: Path)
    requires o.Sane() && SaveAll(f, Sources(f, o), o.backupDir) == Some(g)
    requires p in Sources(f, o) && p in f
    ensures o.Backup(p.base) in g && g[o.Backup(p.base)] == f[p]
  {
    SourcesAre(f, o);
    BackupMeans(f, Sources(f, o), o.backupDir);
    var k :| 0 <= k < |Sources(f, o)| && Sources(f, o)[k] == p;
  }

  lemma NamedSources(f: Files, o: Layout, name: string)
    requires o.Sane()
    ensures Named(Sources(f, o), name) <==>
              name == BINARY || exists k :: 0 <= k < |o.Rest()| && o.Rest()[k] in f && o.Rest()[k].base == name
  {
    var s := Sources(f, o);
    SourcesAre(f, o);
    if Named(s, name) {
      var k :| 0 <= k < |s| && s[k].base == name;
      assert s[k] == o.binary || s[k] in o.Rest();
    }
    if name == BINARY {
      assert s[0].base == name;
    }
    if j :| 0 <= j < |o.Rest()| && o.Rest()[j] in f && o.Rest()[j].base == name {
      assert o.Rest()[j] in o.Rest();
      var k :| 0 <= k < |s| && s[k] == o.Rest()[j];
    }
  }

  /** Which names a completed backup has, in terms of the files before it. */
  lemma StrayMeans(f: Files, g: Files, o: Layout, name: string)
    requires o.Sane() && SaveAll(f, Sources(f, o), o.backupDir) == Some(g)
    ensures o.Backup(name) in g <==> InBackups(f, o, name)
  {
    SourcesAre(f, o);
    BackupMeans(f, Sources(f, o), o.backupDir);
    NamedSources(f, o, name);
  }

  /** A shipped file that did not exist is absent again exactly unless the update placed it or a stray file of its name
      lies among the backups. */
  ghost predicate AbsentAgain(f: Files, h: Files, o: Layout, path: Path, complete: bool, placed: set<Path>) {
    path !in f && !DbPath(o, path) ==> (path !in h <==> !(complete && (path in placed || Stray(f, o, path))))
  }

  /** Every file an update touches and that existed before is back as it was; of the database files also those that
      did not exist are gone again, unless a stray file of that name lies among the backups; and so are the shipped
      files, unless the update had placed them. */
  ghost predicate RolledBack(f: Files, h: Files, o: Layout, complete: bool, placed: set<Path>) {
    && Same(f, h, o.binary)
    && (o.sudoers in f ==> Same(f, h, o.sudoers))
    && (o.unit in f ==> Same(f, h, o.unit))
    && (forall i :: 0 <= i < 3 ==> (Same(f, h, o.Db(i)) <==> !(complete && Stray(f, o, o.Db(i)))))
    && AbsentAgain(f, h, o, o.sudoers, complete, placed) && AbsentAgain(f, h, o, o.unit, complete, placed)
  }

  /** `placed` are the shipped files that were absent and are now there. */
  ghost predicate Placed(f: Files, later: Files, o: Layout, placed: set<Path>) {
    forall path :: (path == o.sudoers || path == o.unit) && path !in f && !DbPath(o, path) ==>
      (path in later <==> path in placed)
  }

  lemma SourceRestored(f: Files, g: Files, later: Files, h: Files, o: Layout, p: Path)
    requires o.Sane() && SaveAll(f, Sources(f, o), o.backupDir) == Some(g) && Untouched(g, later, o)
    requires p in Sources(f, o) && p in f
    ensures o.Backup(p.base) in later
    ensures From(later, h, o, p) ==> Same(f, h, p)
  {
    BackedUp(f, g, o, p);
    assert Same(g, later, o.Backup(p.base));
  }

  lemma DbRestored(f: Files, g: Files, later: Files, h: Files, o: Layout, i: nat)
    requires o.Sane() && SaveAll(f, Sources(f, o), o.backupDir) == Some(g) && Untouched(g, later, o)
    requires i < 3 && Written(later, h, o)
    ensures Same(f, h, o.Db(i)) <==> !Stray(f, o, o.Db(i))
  {
    assert if o.Backup(DbName(i)) in later then From(later, h, o, o.Db(i)) else o.Db(i) !in h;
    if o.Db(i) in f {
      SourcesAre(f, o);
      assert o.Db(i) in o.Rest();
      SourceRestored(f, g, later, h, o, o.Db(i));
    } else {
      StrayMeans(f, g, o, DbName(i));
      assert Same(g, later, o.Backup(DbName(i)));
    }
  }

  lemma ShippedRestored(f: Files, g: Files, later: Files, h: Files, o: Layout, path: Path, placed: set<Path>)
    requires o.Sane() && SaveAll(f, Sources(f, o), o.backupDir) == Some(g) && Untouched(g, later, o)
    requires (path == o.sudoers || path == o.unit) && Written(later, h, o) && Placed(f, later, o, placed)
    ensures AbsentAgain(f, h, o, path, true, placed)
  {
    StrayMeans(f, g, o, path.base);
    assert Same(g, later, o.Backup(path.base));
    assert LeftAlone(later, h, o, path);
  }

  /** Restoring a complete backup brings everything back, whatever happened to the touched files since. */
  lemma RollbackRestores(f: Files, g: Files, later: Files, o: Layout, placed: set<Path>)
    requires o.Sane() && SaveAll(f, Sources(f, o), o.backupDir) == Some(g) && Untouched(g, later, o)
    requires Placed(f, later, o, placed)
    ensures o.Backup(BINARY) in later && RolledBack(f, Restore(later, o), o, true, placed)
  {
    SourcesAre(f, o);
    BackupMeans(f, Sources(f, o), o.backupDir);
    SourceRestored(f, g, later, later, o, o.binary);
    var h := Restore(later, o);
    RestoreMeans(later, o);
    AllRestored(f, g, later, h, o, placed);
  }

  lemma AllRestored(f: Files, g: Files, later: Files, h: Files, o: Layout, placed: set<Path>)
    requires o.Sane() && SaveAll(f, Sources(f, o), o.backupDir) == Some(g) && Untouched(g, later, o)
    requires Written(later, h, o) && o.binary in f && Placed(f, later, o, placed)
    ensures RolledBack(f, h, o, true, placed)
  {
    SourcesAre(f, o);
    SourceRestored(f, g, later, h, o, o.binary);
    forall p | p in [o.sudoers, o.unit] && p in f ensures Same(f, h, p) {
      assert p in o.Rest();
      SourceRestored(f, g, later, h, o, p);
    }
    forall i | 0 <= i < 3 ensures Same(f, h, o.Db(i)) <==> !Stray(f, o, o.Db(i)) {
      DbRestored(f, g, later, h, o, i);
    }
    ShippedRestored(f, g, later, h, o, o.sudoers, placed);
    ShippedRestored(f, g, later, h, o, o.unit, placed);
  }

  /** With the default sudoers path, whose base name is the binary's, an update of a host that has the sudoers file
      can never complete its backup. */
  lemma DefaultSudoersBlocksBackup(f: Files, o: Layout)
    requires o.Sane() && o.sudoers != o.binary && o.sudoers.base == BINARY && o.sudoers in f
    ensures SaveAll(f, Sources(f, o), o.backupDir).None?
  {
    var s := Sources(f, o);
    SourcesAre(f, o);
    BackupMeans(f, s, o.backupDir);
    assert o.sudoers in o.Rest();
    var k :| 0 <= k < |s| && s[k] == o.sudoers;
    assert s[0].base == s[k].base && 0 < k;
  }

  /** On a host without the sudoers file the update goes on, and rolling it back leaves the old binary there. */
  lemma DefaultSudoersGetsBinary(f: Files, g: Files, later: Files, o: Layout)
    requires o.Sane() && SaveAll(f, Sources(f, o), o.backupDir) == Some(g) && Untouched(g, later, o)
    requires o.sudoers.base == BINARY && o.sudoers !in f
    ensures o.Backup(BINARY) in later && o.binary in f
    ensures o.sudoers in Restore(later, o) && Restore(later, o)[o.sudoers] == f[o.binary]
  {
    SourcesAre(f, o);
    BackupMeans(f, Sources(f, o), o.backupDir);
    BackedUp(f, g, o, o.binary);
    assert Same(g, later, o.Backup(BINARY));
    RestoreMeans(later, o);
  }
}
