/** The file manager's privileged operations on a tree: path resolution one component at a time, and the single
    change each operation makes. */
module FileManager {
  import opened Common
  import opened Paths
  import opened Tree

  /** What os.Lstat says. */
  datatype Info = Info(node: Node) | NotExist | StatError

  function Lstat(t: Nodes, names: seq<string>): Info {
    match Look(t, names, false)
    case At(p, _) => if p in t then Info.Info(t[p]) else StatError
    case Absent(_) => NotExist
    case NoParent => NotExist
    case _ => StatError
  }

  /** Every change lies strictly below a place. */
  ghost predicate OnlyBelow(t: Nodes, t': Nodes, place: Place) {
    forall p :: !(place < p) ==> (p in t <==> p in t') && (p in t ==> t'[p] == t[p])
  }

  predicate HasChildren(t: Nodes, p: Place) {
    exists q :: q in t && q != [] && Parent(q) == p
  }

  lemma StillWellFormed(t: Nodes, p: Place, node: Node)
    requires WellFormed(t) && p != [] && Simple(p[|p| - 1]) && IsDir(t, Parent(p)) && (p in t ==> !t[p].Dir?)
    ensures WellFormed(t[p := node])
  {
    var t' := t[p := node];
    forall q ensures Hangs(t', q) {
      assert Hangs(t, q);
    }
  }

  lemma StillWellFormedWithout(t: Nodes, p: Place)
    requires WellFormed(t) && p != [] && !HasChildren(t, p)
    ensures WellFormed(t - {p})
  {
    forall q ensures Hangs(t - {p}, q) {
      assert Hangs(t, q);
    }
  }

  /** One Lstat of the resolving loop: all components before it are real directories. */
  lemma LstatBelowRoot(t: Nodes, root: string, names: seq<string>, i: nat)
    requires RootPlace(t, root).Some? && AllSimple(names) && i < |names|
    requires forall k :: 0 <= k <= i ==> IsDir(t, RootPlace(t, root).value + names[..k])
    ensures var p := RootPlace(t, root).value + names[..i + 1];
            Lstat(t, RootNames(root) + names[..i + 1]) == if p in t then Info.Info(t[p]) else NotExist
  {
    var prefix := names[..i + 1];
    assert forall k :: 0 <= k <= i ==> prefix[..k] == names[..k];
    LookBelowRoot(t, root, prefix, false);
  }

  /** The last component of an accepted path that does not name a directory, seen from its parent. */
  lemma TargetParent(t: Nodes, root: string, relative: string, mayMiss: bool)
    requires Target(t, root, relative, mayMiss).Some?
    requires var p := Target(t, root, relative, mayMiss).value; !IsDir(t, p) || p != RootPlace(t, root).value
    ensures var place, p := RootPlace(t, root).value, Target(t, root, relative, mayMiss).value;
            place < p && Simple(p[|p| - 1]) && IsDir(t, Parent(p))
  {
    CleanRelativeIsExact(relative);
    var place, names := RootPlace(t, root).value, Names(CleanRelative(relative).value);
    assert names == [] ==> place + names == place;
    var n := |names| - 1;
    var p := place + names;
    assert IsDir(t, place + names[..n]);
    assert Parent(p) == place + names[..n];
    assert p[|p| - 1] == names[n];
  }

  class Disk {
    var tree: Nodes

    ghost predicate Valid()
      reads this
    {
      WellFormed(tree)
    }

    constructor (t: Nodes)
      requires WellFormed(t)
      ensures Valid() && tree == t
    {
      tree := t;
    }

    /** The clean absolute path of a request, by its names, if every component passes. */
    method Resolve(root: string, relative: string, mayMiss: bool) returns (r: Result<seq<string>, string>)
      requires IsAbs(root)
      ensures r.Ok? <==> Target(tree, root, relative, mayMiss).Some?
      ensures r.Ok? ==> r.value == RootNames(root) + Names(CleanRelative(relative).value)
    {
      var start := RootNames(root);
      var rootInfo := Lstat(tree, start);
      if !rootInfo.Info? || !rootInfo.node.Dir? {
        return Err("allowed root is unavailable or unsafe");
      }
      ghost var place := RootPlace(tree, root).value;
      CleanRelativeIsExact(relative);
      var cleaned := CleanRelative(relative);
      if cleaned.Err? {
        return Err(cleaned.error);
      }
      if cleaned.value == "" {
        assert start + Names("") == start;
        return Ok(start);
      }
      var names := Names(cleaned.value);
      r := Components(start, names, mayMiss, root);
    }

    /** The loop over the components of a cleaned path. */
    method Components(start: seq<string>, names: seq<string>, mayMiss: bool, ghost root: string)
      returns (r: Result<seq<string>, string>)
      requires RootPlace(tree, root).Some? && start == RootNames(root) && AllSimple(names) && names != []
      ensures r.Ok? <==> Safe(tree, RootPlace(tree, root).value, names, mayMiss)
      ensures r.Ok? ==> r.value == start + names
    {
      ghost var place := RootPlace(tree, root).value;
      assert place + names[..0] == place;
      var current := start;
      for i := 0 to |names|
        invariant current == start + names[..i]
        invariant i < |names| ==> forall k :: 0 <= k <= i ==> IsDir(tree, place + names[..k])
        invariant i == |names| ==> Safe(tree, place, names, false)
      {
        current := current + [names[i]];
        assert current == start + names[..i + 1];
        LstatBelowRoot(tree, root, names, i);
        var info := Lstat(tree, current);
        assert i == |names| - 1 ==> names[..i + 1] == names;
        if !info.Info? {
          if info.NotExist? && mayMiss && i == |names| - 1 {
            return Ok(current);
          }
          return Err("file path is unavailable");
        }
        if info.node.Link? {
          return Err("symbolic links are not allowed");
        }
        if i < |names| - 1 && !info.node.Dir? {
          return Err("file path parent is not a directory");
        }
      }
      assert current == start + names;
      r := Ok(current);
    }

    /** Delete a file or an empty directory; never the root itself. A failing sync of the parent is reported although the
        entry is gone. */
    method Remove(root: string, relative: string, fails: bool, synced: bool) returns (ok: bool)
      requires Valid() && IsAbs(root)
      modifies this
      ensures Valid()
      ensures var target := Target(old(tree), root, relative, false);
              var done := target.Some? && target.value != RootPlace(old(tree), root).value && !fails
                          && !HasChildren(old(tree), target.value);
              && ok == (done && synced)
              && tree == (if done then old(tree) - {target.value} else old(tree))
              && (done ==> RootPlace(old(tree), root).value < target.value)
      ensures RootPlace(old(tree), root).Some? ==> OnlyBelow(old(tree), tree, RootPlace(old(tree), root).value)
    {
      var target := Resolve(root, relative, false);
      if target.Err? {
        return false;
      }
      AcceptedPathIsPhysical(tree, root, relative, false, false);
      if target.value == RootNames(root) {
        assert Names(CleanRelative(relative).value) == [];
        return false;
      }
      TargetParent(tree, root, relative, false);
      var w := Look(tree, target.value, false);
      if !w.At? || HasChildren(tree, w.place) || fails {
        return false;
      }
      StillWellFormedWithout(tree, w.place);
      tree := tree - {w.place};
      ok := synced;
    }

    /** Make one new directory. When its owner cannot be set it is removed again, which counts as failing here. */
    method Mkdir(root: string, relative: string, fails: bool, synced: bool) returns (ok: bool)
      requires Valid() && IsAbs(root)
      modifies this
      ensures Valid()
      ensures var target := Target(old(tree), root, relative, true);
              var done := target.Some? && target.value !in old(tree) && !fails;
              && ok == (done && synced)
              && tree == (if done then old(tree)[target.value := Dir] else old(tree))
              && (done ==> RootPlace(old(tree), root).value < target.value)
      ensures RootPlace(old(tree), root).Some? ==> OnlyBelow(old(tree), tree, RootPlace(old(tree), root).value)
    {
      var target := Resolve(root, relative, true);
      if target.Err? {
        return false;
      }
      AcceptedPathIsPhysical(tree, root, relative, true, false);
      var w := Look(tree, target.value, false);
      if !w.Absent? || fails {
        return false;
      }
      ghost var p := Target(tree, root, relative, true).value;
      assert w.place == p && p !in tree;
      TargetParent(tree, root, relative, true);
      StillWellFormed(tree, w.place, Dir);
      tree := tree[w.place := Dir];
      ok := synced;
    }

    /** Replace or create one regular file, through a temporary file beside it and a rename. */
    method Write(root: string, relative: string, content: string, fails: bool, synced: bool) returns (ok: bool)
      requires Valid() && IsAbs(root)
      modifies this
      ensures Valid()
      ensures var target := Target(old(tree), root, relative, true);
              var done := target.Some? && (target.value in old(tree) ==> old(tree)[target.value].File?) && !fails;
              && ok == (done && synced)
              && tree == (if done then old(tree)[target.value := File(content)] else old(tree))
              && (done ==> RootPlace(old(tree), root).value < target.value)
      ensures RootPlace(old(tree), root).Some? ==> OnlyBelow(old(tree), tree, RootPlace(old(tree), root).value)
    {
      var target := Resolve(root, relative, true);
      if target.Err? {
        return false;
      }
      AcceptedPathIsPhysical(tree, root, relative, true, true);
      var stat := Look(tree, target.value, true);
      if stat.At? && (stat.place !in tree || !tree[stat.place].File?) {
        return false;
      }
      if fails {
        return false;
      }
      TargetParent(tree, root, relative, true);
      AcceptedPathIsPhysical(tree, root, relative, true, false);
      Rename(target.value, content, Target(tree, root, relative, true).value);
      ok := synced;
    }

    /** Move a finished temporary file to where the names lead. */
    method Rename(names: seq<string>, content: string, ghost p: Place)
      requires Valid() && p != [] && Simple(p[|p| - 1]) && IsDir(tree, Parent(p)) && !IsDir(tree, p)
      requires var w := Look(tree, names, false); (w.At? || w.Absent?) && w.place == p
      modifies this
      ensures Valid() && tree == old(tree)[p := File(content)]
    {
      var w := Look(tree, names, false);
      StillWellFormed(tree, w.place, File(content));
      tree := tree[w.place := File(content)];
    }
  }
}
