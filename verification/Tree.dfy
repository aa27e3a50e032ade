/** A file tree with symbolic links, the kernel's walk through it, and the paths that cannot be redirected by a link. */
module Tree {
  import opened Common
  import opened Text
  import opened Paths

  datatype Node = Dir | File(content: string) | Link(target: string)

  /** A physical location: the names from the root of the tree. */
  type Place = seq<string>

  type Nodes = map<Place, Node>

  /** The kernel's limit on links followed in one lookup. */
  const MAX_LINKS: nat := 40

  function Parent(p: Place): Place {
    if p == [] then [] else p[..|p| - 1]
  }

  predicate IsDir(t: Nodes, p: Place) {
    p in t && t[p].Dir?
  }

  /** An entry has a simple name and lies in a directory. */
  ghost predicate Hangs(t: Nodes, p: Place) {
    p in t && p != [] ==> Simple(p[|p| - 1]) && IsDir(t, Parent(p))
  }

  ghost predicate WellFormed(t: Nodes) {
    IsDir(t, []) && forall p :: Hangs(t, p)
  }

  /** Where a lookup ends, with the links it may still follow; or at a missing last component; or it fails. */
  datatype Lookup = At(place: Place, left: nat) | Absent(place: Place) | NoParent | NotDir | Loop

  function Walk(t: Nodes, left: nat, at: Place, names: seq<string>, follow: bool): Lookup
    decreases left, |names|
  {
    if names == [] then At(at, left)
    else if names[0] == "" || names[0] == "." then Walk(t, left, at, names[1..], follow)
    else if names[0] == ".." then Walk(t, left, Parent(at), names[1..], follow)
    else
      var here, rest := at + [names[0]], names[1..];
      if here !in t then if rest == [] then Absent(here) else NoParent
      else match t[here]
        case Dir => Walk(t, left, here, rest, follow)
        case File(_) => if rest == [] then At(here, left) else NotDir
        case Link(target) =>
          if rest == [] && !follow then At(here, left)
          else if left == 0 then Loop
          else Walk(t, left - 1, if IsAbs(target) then [] else at, Split(target, SLASH) + rest, follow)
  }

  /** A clean absolute path, given by its names, as the kernel looks it up. */
  function Look(t: Nodes, names: seq<string>, follow: bool): Lookup {
    Walk(t, MAX_LINKS, [], names, follow)
  }

  /** Walking on from a directory that a first walk reached. */
  lemma {:induction false} WalkOn(t: Nodes, left: nat, at: Place, a: seq<string>, b: seq<string>, follow: bool)
    requires var w := Walk(t, left, at, a, false); w.At? && IsDir(t, w.place)
    ensures var w := Walk(t, left, at, a, false); Walk(t, left, at, a + b, follow) == Walk(t, w.left, w.place, b, follow)
    decreases left, |a|
  {
    if a == [] {
      assert a + b == b;
    } else {
      assert (a + b)[0] == a[0] && (a + b)[1..] == a[1..] + b;
      var here := at + [a[0]];
      if a[0] == "" || a[0] == "." {
        WalkOn(t, left, at, a[1..], b, follow);
      } else if a[0] == ".." {
        WalkOn(t, left, Parent(at), a[1..], b, follow);
      } else if t[here].Dir? {
        WalkOn(t, left, here, a[1..], b, follow);
      } else if t[here].Link? {
        var target := t[here].target;
        assert Split(target, SLASH) + a[1..] + b == Split(target, SLASH) + (a[1..] + b);
        WalkOn(t, left - 1, if IsAbs(target) then [] else at, Split(target, SLASH) + a[1..], b, follow);
      }
    }
  }

  /** Every proper prefix of the names is a real directory. */
  ghost predicate RealParents(t: Nodes, at: Place, names: seq<string>) {
    forall k :: 0 <= k < |names| ==> IsDir(t, at + names[..k])
  }

  /** Simple names below real directories lead where they say, whether or not links are followed, unless the last
      one is a link that is to be followed. */
  lemma {:induction false} WalkPlainly(t: Nodes, left: nat, at: Place, names: seq<string>, follow: bool)
    requires AllSimple(names) && IsDir(t, at) && RealParents(t, at, names)
    requires follow && at + names in t ==> !t[at + names].Link?
    ensures Walk(t, left, at, names, follow) == if at + names in t then At(at + names, left) else Absent(at + names)
    decreases |names|
  {
    if names == [] {
      assert at + names == at;
    } else {
      var here, rest := at + [names[0]], names[1..];
      assert here + rest == at + names;
      assert names[..1] == [names[0]];
      if rest == [] {
        assert here == at + names;
      } else {
        assert IsDir(t, at + names[..1]);
        forall k | 0 <= k < |rest| ensures IsDir(t, here + rest[..k]) {
          assert here + rest[..k] == at + names[..k + 1];
        }
        WalkPlainly(t, left, here, rest, follow);
      }
    }
  }

  // ---- what cleaning means to the kernel ------------------------------------------------

  /** The kernel's walk along the components passes only real directories, and follows no link, up to the last component. */
  ghost predicate PassesDirs(t: Nodes, left: nat, at: Place, parts: seq<string>) {
    forall k :: 0 <= k < |parts| ==> PassesDir(t, left, Walk(t, left, at, parts[..k], false))
  }

  predicate PassesDir(t: Nodes, left: nat, w: Lookup) {
    w.At? && w.left == left && IsDir(t, w.place)
  }

  lemma PassesDirsShrinks(t: Nodes, left: nat, at: Place, parts: seq<string>)
    requires parts != [] && PassesDirs(t, left, at, parts)
    ensures PassesDirs(t, left, at, parts[..|parts| - 1])
    ensures PassesDir(t, left, Walk(t, left, at, parts[..|parts| - 1], false))
  {
    var init := parts[..|parts| - 1];
    forall k | 0 <= k < |init| ensures PassesDir(t, left, Walk(t, left, at, init[..k], false)) {
      assert init[..k] == parts[..k];
    }
  }

  /** One component met by the kernel in a directory that is no deeper than the stack says. */
  lemma WalkOne(t: Nodes, left: nat, at: Place, stack: seq<string>, part: string, rooted: bool)
    requires WellFormed(t) && IsDir(t, at + stack) && (rooted ==> at == [])
    requires AllSimple(stack) && (!rooted && part == ".." ==> stack != [])
    ensures var p := at + Push(stack, part, rooted);
            Walk(t, left, at + stack, [part], false) == if p in t then At(p, left) else Absent(p)
  {
    var p := at + Push(stack, part, rooted);
    assert [part][1..] == [];
    if part == ".." {
      if stack != [] {
        assert Hangs(t, at + stack);
        assert Parent(at + stack) == p;
      } else {
        assert at + stack == [] == p;
      }
    } else if part != "" && part != "." {
      assert at + stack + [part] == p;
    }
  }

  /** Names without the separator, none of them "..", stay simple when reduced from the root. */
  lemma {:induction false} RootedIsSimple(parts: seq<string>)
    requires forall k :: 0 <= k < |parts| ==> SLASH !in parts[k] && '\0' !in parts[k]
    ensures AllSimple(Reduce(parts, true))
  {
    if parts != [] {
      RootedIsSimple(parts[..|parts| - 1]);
    }
  }

  lemma InsideShrinks(parts: seq<string>)
    requires parts != [] && StaysInside(parts)
    ensures StaysInside(parts[..|parts| - 1]) && (parts[|parts| - 1] == ".." ==> Depth(parts[..|parts| - 1]) > 0)
  {
    var init, last := parts[..|parts| - 1], parts[|parts| - 1];
    assert init + [last] == parts;
    StaysInsideGrows(init, last);
    assert parts[..|parts|] == parts;
  }

  /** The kernel's walk over components that passes only real directories, never above its start unless that is the root,
      ends where Reduce says. */
  lemma {:induction false} WalkIsReduce(t: Nodes, left: nat, at: Place, parts: seq<string>, rooted: bool)
    requires forall k :: 0 <= k < |parts| ==> SLASH !in parts[k] && '\0' !in parts[k]
    requires WellFormed(t) && IsDir(t, at) && (if rooted then at == [] else StaysInside(parts)) && PassesDirs(t, left, at, parts)
    ensures var p := at + Reduce(parts, rooted); Walk(t, left, at, parts, false) == if p in t then At(p, left) else Absent(p)
  {
    if parts == [] {
      assert at + [] == at;
    } else {
      var n := |parts| - 1;
      var init, last := parts[..n], parts[n];
      assert init + [last] == parts;
      PassesDirsShrinks(t, left, at, parts);
      if rooted {
        RootedIsSimple(init);
      } else {
        InsideShrinks(parts);
        ReduceMeans(init);
      }
      WalkIsReduce(t, left, at, init, rooted);
      WalkOn(t, left, at, init, [last], false);
      WalkOne(t, left, at, Reduce(init, rooted), last, rooted);
    }
  }

  /** So the cleaned path is the one the kernel would have walked: if the path as given passes only real directories up to
      its last component, the kernel ends at the place that the cleaned names say. */
  lemma CleanedPathIsWalked(t: Nodes, left: nat, at: Place, value: string)
    requires WellFormed(t) && IsDir(t, at) && CleanRelative(value).Ok? && PassesDirs(t, left, at, Split(value, SLASH))
    ensures var p := at + Names(CleanRelative(value).value);
            Walk(t, left, at, Split(value, SLASH), false) == if p in t then At(p, left) else Absent(p)
  {
    CleanRelativeIsExact(value);
    JoinSplit(value, SLASH);
    SplitChars(value, SLASH, '\0');
    CleanedNames(value);
    WalkIsReduce(t, left, at, Split(value, SLASH), false);
  }

  // ---- paths under a root -------------------------------------------------------------

  /** The names of filepath.Clean of an absolute path. */
  function RootNames(root: string): seq<string> {
    Reduce(Split(root, SLASH), true)
  }

  /** The physical place of an allowed root: a directory that is not itself a link. */
  function RootPlace(t: Nodes, root: string): Option<Place> {
    var w := Look(t, RootNames(root), false);
    if w.At? && IsDir(t, w.place) then Some(w.place) else None
  }

  /** No component below the root is a link, all but the last are directories, and the last exists or may be missing. */
  ghost predicate Safe(t: Nodes, at: Place, names: seq<string>, mayMiss: bool) {
    && RealParents(t, at, names)
    && (names != [] ==> if at + names in t then !t[at + names].Link? else mayMiss)
  }

  /** Where a request's path leads: below the root's place, by the names of the cleaned path, if that is safe. */
  ghost function Target(t: Nodes, root: string, relative: string, mayMiss: bool): Option<Place> {
    var place, cleaned := RootPlace(t, root), CleanRelative(relative);
    if place.Some? && cleaned.Ok? && Safe(t, place.value, Names(cleaned.value), mayMiss)
    then Some(place.value + Names(cleaned.value)) else None
  }

  /** Looking up a path below the root whose parents are real ends right there, without following any further link. */
  lemma LookBelowRoot(t: Nodes, root: string, names: seq<string>, follow: bool)
    requires RootPlace(t, root).Some? && AllSimple(names) && RealParents(t, RootPlace(t, root).value, names)
    requires var p := RootPlace(t, root).value + names; follow && p in t ==> !t[p].Link?
    ensures var p := RootPlace(t, root).value + names;
            Look(t, RootNames(root) + names, follow) ==
              if p in t then At(p, Look(t, RootNames(root), false).left) else Absent(p)
  {
    var w := Look(t, RootNames(root), false);
    WalkOn(t, MAX_LINKS, [], RootNames(root), names, follow);
    WalkPlainly(t, w.left, w.place, names, follow);
  }

  /** Resolution is exact: a path that is accepted leads, even when links are followed, to the root's place extended by
      the cleaned names and nowhere else; it is under the root, and all its parents there are real directories. */
  lemma AcceptedPathIsPhysical(t: Nodes, root: string, relative: string, mayMiss: bool, follow: bool)
    requires Target(t, root, relative, mayMiss).Some?
    ensures var place, names := RootPlace(t, root).value, Names(CleanRelative(relative).value);
            var p := Target(t, root, relative, mayMiss).value;
            && p == place + names && AllSimple(names) && RealParents(t, place, names)
            && Look(t, RootNames(root) + names, follow) ==
                 (if p in t then At(p, Look(t, RootNames(root), false).left) else Absent(p))
            && (p !in t ==> mayMiss)
  {
    CleanRelativeIsExact(relative);
    var place, names := RootPlace(t, root).value, Names(CleanRelative(relative).value);
    assert names == [] ==> place + names == place;
    LookBelowRoot(t, root, names, follow);
  }

  /** And it is refused whenever following links would lead anywhere else. */
  lemma RedirectedPathIsRefused(t: Nodes, root: string, relative: string, mayMiss: bool)
    requires RootPlace(t, root).Some? && CleanRelative(relative).Ok?
    requires var w := Look(t, RootNames(root) + Names(CleanRelative(relative).value), true);
             w.At? ==> w.place != RootPlace(t, root).value + Names(CleanRelative(relative).value)
    requires var w := Look(t, RootNames(root) + Names(CleanRelative(relative).value), true);
             w.Absent? ==> w.place != RootPlace(t, root).value + Names(CleanRelative(relative).value)
    ensures Target(t, root, relative, mayMiss).None?
  {
    if Target(t, root, relative, mayMiss).Some? {
      AcceptedPathIsPhysical(t, root, relative, mayMiss, true);
    }
  }

  /** The same for an absolute root: cleaned, it names the place where the kernel ends. */
  lemma CleanedRootIsWalked(t: Nodes, root: string)
    requires WellFormed(t) && '\0' !in root && PassesDirs(t, MAX_LINKS, [], Split(root, SLASH))
    ensures Look(t, Split(root, SLASH), false) ==
              if RootNames(root) in t then At(RootNames(root), MAX_LINKS) else Absent(RootNames(root))
  {
    JoinSplit(root, SLASH);
    SplitChars(root, SLASH, '\0');
    WalkIsReduce(t, MAX_LINKS, [], Split(root, SLASH), true);
    assert [] + RootNames(root) == RootNames(root);
  }

  lemma {:induction false} AncestorsAreDirs(t: Nodes, p: Place, k: nat)
    requires WellFormed(t) && IsDir(t, p) && k <= |p|
    ensures IsDir(t, p[..k])
    decreases |p|
  {
    if k == |p| {
      assert p[..k] == p;
    } else {
      assert Hangs(t, p);
      AncestorsAreDirs(t, Parent(p), k);
      assert Parent(p)[..k] == p[..k];
    }
  }

  lemma ParentsAreReal(t: Nodes, at: Place, names: seq<string>)
    requires WellFormed(t) && (names != [] ==> IsDir(t, Parent(at + names)))
    ensures RealParents(t, at, names)
  {
    forall k | 0 <= k < |names| ensures IsDir(t, at + names[..k]) {
      AncestorsAreDirs(t, Parent(at + names), |at| + k);
      assert Parent(at + names)[..|at| + k] == at + names[..k];
    }
  }

  /** The place where a walk found nothing lies in a directory. */
  lemma {:induction false} AbsentHangs(t: Nodes, left: nat, at: Place, names: seq<string>)
    requires IsDir(t, at) && Walk(t, left, at, names, false).Absent?
    requires PassesDirs(t, left, at, names)
    ensures IsDir(t, Parent(Walk(t, left, at, names, false).place))
  {
    var n := |names| - 1;
    var init := names[..n];
    assert PassesDir(t, left, Walk(t, left, at, init, false));
    var w := Walk(t, left, at, init, false);
    assert init + [names[n]] == names;
    WalkOn(t, left, at, init, [names[n]], false);
    assert [names[n]][1..] == [];
    assert Parent(w.place + [names[n]]) == w.place;
  }

  /** Which file a request means: when its path as given passes only real directories below the root, exactly the entry
      where the kernel would end, unless that is a link; a missing one where that is allowed. */
  lemma TargetIsWalked(t: Nodes, root: string, relative: string, mayMiss: bool)
    requires WellFormed(t) && RootPlace(t, root).Some? && CleanRelative(relative).Ok?
    requires PassesDirs(t, MAX_LINKS, RootPlace(t, root).value, Split(relative, SLASH))
    ensures var w := Walk(t, MAX_LINKS, RootPlace(t, root).value, Split(relative, SLASH), false);
            && (w.At? || w.Absent?)
            && Target(t, root, relative, mayMiss) ==
                 if w.Absent? then (if mayMiss then Some(w.place) else None)
                 else if w.place in t && t[w.place].Link? then None else Some(w.place)
  {
    var place, names := RootPlace(t, root).value, Names(CleanRelative(relative).value);
    var w := Walk(t, MAX_LINKS, place, Split(relative, SLASH), false);
    CleanedPathIsWalked(t, MAX_LINKS, place, relative);
    if w.Absent? {
      AbsentHangs(t, MAX_LINKS, place, Split(relative, SLASH));
    } else {
      assert Hangs(t, place + names);
    }
    if names == [] {
      assert place + names == place;
    }
    ParentsAreReal(t, place, names);
  }

  /** A root that is itself a link, or no directory, allows nothing. */
  lemma LinkedRootIsRefused(t: Nodes, root: string, relative: string, mayMiss: bool)
    requires WellFormed(t) && '\0' !in root && PassesDirs(t, MAX_LINKS, [], Split(root, SLASH))
    requires !IsDir(t, RootNames(root))
    ensures RootPlace(t, root).None? && Target(t, root, relative, mayMiss).None?
  {
    CleanedRootIsWalked(t, root);
    JoinSplit(root, SLASH);
    SplitChars(root, SLASH, '\0');
    RootedIsSimple(Split(root, SLASH));
    CleanRootIsItself(t, root);
  }

  /** The cleaned root, looked up, is the place it names. */
  lemma CleanRootIsItself(t: Nodes, root: string)
    requires WellFormed(t) && '\0' !in root && PassesDirs(t, MAX_LINKS, [], Split(root, SLASH))
    ensures Look(t, RootNames(root), false) ==
              if RootNames(root) in t then At(RootNames(root), MAX_LINKS) else Absent(RootNames(root))
    ensures IsDir(t, RootNames(root)) ==> RootPlace(t, root) == Some(RootNames(root))
  {
    var names := RootNames(root);
    JoinSplit(root, SLASH);
    SplitChars(root, SLASH, '\0');
    RootedIsSimple(Split(root, SLASH));
    CleanedRootIsWalked(t, root);
    var w := Look(t, Split(root, SLASH), false);
    if w.Absent? {
      AbsentHangs(t, MAX_LINKS, [], Split(root, SLASH));
    } else {
      assert Hangs(t, names);
    }
    assert [] + names == names;
    ParentsAreReal(t, [], names);
    WalkPlainly(t, MAX_LINKS, [], names, false);
  }

  // ---- listed paths -------------------------------------------------------------------

  /** filepath.Join of a cleaned relative path and an entry's name. */
  function EntryPath(base: string, name: string): string {
    if base == "" then Clean(name) else Clean(base + [SLASH] + name)
  }

  lemma {:induction false} JoinMore(names: seq<string>, name: string)
    requires names != []
    ensures Join(names, SLASH) + [SLASH] + name == Join(names + [name], SLASH)
  {
    if |names| > 1 {
      JoinMore(names[1..], name);
      assert (names + [name])[1..] == names[1..] + [name];
    } else {
      assert (names + [name])[1..] == [name];
    }
  }

  lemma EntryPathIs(names: seq<string>, name: string)
    requires AllSimple(names) && Simple(name)
    ensures EntryPath(Join(names, SLASH), name) == Join(names + [name], SLASH)
  {
    SimplePathIsClean(names + [name]);
    JoinChars(names + [name]);
    JoinChars(names);
    if names == [] {
      assert names + [name] == [name];
    } else {
      JoinMore(names, name);
    }
  }

  lemma ChildIsSafe(t: Nodes, at: Place, names: seq<string>, name: string)
    requires WellFormed(t) && Safe(t, at, names, false) && at + names + [name] in t
    ensures Simple(name)
    ensures Safe(t, at, names + [name], false) <==> !t[at + names + [name]].Link?
  {
    var p, all := at + names + [name], names + [name];
    assert Hangs(t, p);
    assert p[|p| - 1] == name && Parent(p) == at + names;
    assert at + all == p;
    forall k | 0 <= k < |all| ensures IsDir(t, at + all[..k]) {
      assert all[..k] == if k < |names| then names[..k] else names;
    }
  }

  lemma EntryPathIsClean(base: string, names: seq<string>, name: string)
    requires AllSimple(names) && Simple(name) && base == Join(names, SLASH)
    ensures CleanRelative(EntryPath(base, name)) == Ok(EntryPath(base, name))
    ensures Names(EntryPath(base, name)) == names + [name]
  {
    EntryPathIs(names, name);
    SimplePathIsClean(names + [name]);
  }

  /** A clean path to an entry of a safe directory. */
  lemma ChildTarget(t: Nodes, root: string, place: Place, path: string, names: seq<string>, name: string)
    requires WellFormed(t) && RootPlace(t, root) == Some(place) && Safe(t, place, names, false) && place + names + [name] in t
    requires CleanRelative(path) == Ok(path) && Names(path) == names + [name]
    ensures var p := place + names + [name]; Target(t, root, path, false) == if t[p].Link? then None else Some(p)
  {
    ChildIsSafe(t, place, names, name);
    assert place + (names + [name]) == place + names + [name];
  }

  /** Each path that list reports resolves back to its entry; exactly the links among them are refused. */
  lemma ListedPathResolvesBack(t: Nodes, root: string, relative: string, name: string)
    requires WellFormed(t) && Target(t, root, relative, false).Some?
    requires Target(t, root, relative, false).value + [name] in t
    ensures var p := Target(t, root, relative, false).value + [name];
            var path := EntryPath(CleanRelative(relative).value, name);
            Target(t, root, path, false) == if t[p].Link? then None else Some(p)
  {
    var place, cleaned := RootPlace(t, root).value, CleanRelative(relative).value;
    var names := Names(cleaned);
    CleanRelativeIsExact(relative);
    ChildIsSafe(t, place, names, name);
    EntryPathIsClean(cleaned, names, name);
    ChildTarget(t, root, place, EntryPath(cleaned, name), names, name);
  }
}
