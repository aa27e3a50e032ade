/** Relative paths as strings: filepath.Clean, cleanRelativePath, and which paths it accepts. */
module Paths {
  import opened Common
  import opened Text

  const SLASH: char := '/'

  predicate IsAbs(path: string) {
    path != "" && path[0] == SLASH
  }

  /** One component met while cleaning; above the root of an absolute path there is nothing. */
  function Push(stack: seq<string>, part: string, rooted: bool): seq<string> {
    if part == "" || part == "." then stack
    else if part != ".." then stack + [part]
    else if stack != [] && stack[|stack| - 1] != ".." then stack[..|stack| - 1]
    else if rooted then stack
    else stack + [".."]
  }

  function Reduce(parts: seq<string>, rooted: bool): seq<string> {
    if parts == [] then [] else Push(Reduce(parts[..|parts| - 1], rooted), parts[|parts| - 1], rooted)
  }

  /** filepath.Clean on a Unix path. */
  function Clean(path: string): string {
    var names := Reduce(Split(path, SLASH), IsAbs(path));
    if IsAbs(path) then [SLASH] + Join(names, SLASH) else if names == [] then "." else Join(names, SLASH)
  }

  function CleanRelative(value: string): Result<string, string> {
    if '\0' in value || IsAbs(value) then Err("invalid relative file path")
    else
      var cleaned := Clean(value);
      if cleaned == "." then Ok("")
      else if cleaned == ".." || "../" <= cleaned then Err("file path escapes allowed root")
      else Ok(cleaned)
  }

  /** The components of a cleaned relative path. */
  function Names(cleaned: string): seq<string> {
    if cleaned == "" then [] else Split(cleaned, SLASH)
  }

  /** A file name: what a directory entry can be called. */
  predicate Simple(name: string) {
    name != "" && name != "." && name != ".." && SLASH !in name && '\0' !in name
  }

  ghost predicate AllSimple(names: seq<string>) {
    forall k :: 0 <= k < |names| ==> Simple(names[k])
  }

  // ---- which paths stay inside --------------------------------------------------------

  /** How deep a walk along the components ends: names go down, ".." goes up. */
  function Depth(parts: seq<string>): int {
    if parts == [] then 0
    else
      var last := parts[|parts| - 1];
      Depth(parts[..|parts| - 1]) + if last == "" || last == "." then 0 else if last == ".." then -1 else 1
  }

  /** The walk never goes above its start. */
  ghost predicate StaysInside(parts: seq<string>) {
    forall k :: 0 <= k <= |parts| ==> Depth(parts[..k]) >= 0
  }

  lemma StaysInsideGrows(parts: seq<string>, part: string)
    ensures StaysInside(parts + [part]) <==> StaysInside(parts) && Depth(parts + [part]) >= 0
  {
    var all := parts + [part];
    assert all[..|all|] == all;
    forall k | 0 <= k <= |parts| ensures all[..k] == parts[..k] {}
    if StaysInside(all) {
      forall k | 0 <= k <= |parts| ensures Depth(parts[..k]) >= 0 {
        assert Depth(all[..k]) >= 0;
      }
    }
  }

  ghost predicate Reduced(parts: seq<string>, names: seq<string>) {
    if StaysInside(parts) then AllSimple(names) && |names| == Depth(parts) else names != [] && names[0] == ".."
  }

  /** A cleaned relative path starts with ".." exactly when the walk leaves its start. */
  lemma {:induction false} ReduceMeans(parts: seq<string>)
    requires forall k :: 0 <= k < |parts| ==> SLASH !in parts[k] && '\0' !in parts[k]
    ensures Reduced(parts, Reduce(parts, false)) && Free(Reduce(parts, false), SLASH)
  {
    if parts != [] {
      var n := |parts| - 1;
      assert parts[..n] + [parts[n]] == parts;
      ReduceMeans(parts[..n]);
      StaysInsideGrows(parts[..n], parts[n]);
      assert parts[..n][..n] == parts[..n];
      assert StaysInside(parts[..n]) ==> Depth(parts[..n]) >= 0;
    }
  }

  lemma StartsWithDots(s: string)
    ensures Split(s, SLASH)[0] == ".." <==> s == ".." || "../" <= s
  {
    JoinSplit(s, SLASH);
    var parts := Split(s, SLASH);
    if s == ".." {
      SplitOne("..", SLASH);
    } else if "../" <= s {
      SplitSkips("..", s[3..], SLASH);
      assert s == ".." + [SLASH] + s[3..];
    }
    if parts[0] == ".." && |parts| > 1 {
      assert s == ".." + [SLASH] + Join(parts[1..], SLASH);
    }
  }

  lemma {:induction false} ReduceKeepsSimple(names: seq<string>)
    requires AllSimple(names)
    ensures Reduce(names, false) == names
  {
    if names != [] {
      ReduceKeepsSimple(names[..|names| - 1]);
    }
  }

  lemma {:induction false} JoinChars(names: seq<string>)
    requires AllSimple(names)
    ensures '\0' !in Join(names, SLASH)
    ensures names != [] ==> !IsAbs(Join(names, SLASH)) && Join(names, SLASH) != ""
  {
    if |names| > 1 {
      JoinChars(names[1..]);
      assert Join(names, SLASH)[0] == names[0][0];
    }
  }

  /** The path made of simple names is clean: accepted as it is, with those names. */
  lemma SimplePathIsClean(names: seq<string>)
    requires AllSimple(names)
    ensures CleanRelative(Join(names, SLASH)) == Ok(Join(names, SLASH))
    ensures Names(Join(names, SLASH)) == names
  {
    var path := Join(names, SLASH);
    if names == [] {
      SplitOne("", SLASH);
      assert Reduce([""], false) == [] by {
        assert [""][..0] == [];
      }
    } else {
      JoinChars(names);
      SplitJoin(names, SLASH);
      ReduceKeepsSimple(names);
      StartsWithDots(path);
      SplitOne(".", SLASH);
    }
  }

  /** cleanRelativePath accepts exactly the NUL-free relative paths whose walk never goes above the root; what it
      returns consists of simple names, as many as the walk is deep; and cleaning it again changes nothing. */
  lemma CleanRelativeIsExact(value: string)
    ensures CleanRelative(value).Ok? <==> '\0' !in value && !IsAbs(value) && StaysInside(Split(value, SLASH))
    ensures CleanRelative(value).Ok? ==>
              var cleaned := CleanRelative(value).value;
              && AllSimple(Names(cleaned)) && |Names(cleaned)| == Depth(Split(value, SLASH))
              && cleaned == Join(Names(cleaned), SLASH)
              && CleanRelative(cleaned) == Ok(cleaned)
  {
    if '\0' !in value && !IsAbs(value) {
      var parts := Split(value, SLASH);
      JoinSplit(value, SLASH);
      SplitChars(value, SLASH, '\0');
      ReduceMeans(parts);
      var names := Reduce(parts, false);
      StartsWithDots(Join(names, SLASH));
      SplitOne(".", SLASH);
      if StaysInside(parts) {
        SimplePathIsClean(names);
      } else {
        SplitJoin(names, SLASH);
      }
    }
  }

  /** The names of an accepted path. */
  lemma CleanedNames(value: string)
    requires CleanRelative(value).Ok?
    ensures Names(CleanRelative(value).value) == Reduce(Split(value, SLASH), false)
  {
    var parts := Split(value, SLASH);
    CleanRelativeIsExact(value);
    JoinSplit(value, SLASH);
    SplitChars(value, SLASH, '\0');
    ReduceMeans(parts);
    SimplePathIsClean(Reduce(parts, false));
    SplitOne(".", SLASH);
  }

  lemma SplitExample()
    ensures Split("a/../b", SLASH) == ["a", "..", "b"]
  {
    SplitOne("b", SLASH);
    SplitSkips("..", "b", SLASH);
    SplitSkips("a", "../b", SLASH);
    assert ".." + [SLASH] + "b" == "../b" && "a" + [SLASH] + "../b" == "a/../b";
  }

  lemma ReduceExample()
    ensures Reduce(["a", "..", "b"], false) == ["b"]
  {
    assert ["a", "..", "b"][..2] == ["a", ".."] && ["a", ".."][..1] == ["a"] && ["a"][..0] == [];
    assert Reduce(["a"], false) == ["a"];
    assert Reduce(["a", ".."], false) == [];
  }

  /** For one: `a/../b` is accepted, as `b`. */
  lemma DotDotInsideIsAccepted()
    ensures CleanRelative("a/../b") == Ok("b")
  {
    SplitExample();
    ReduceExample();
    assert Clean("a/../b") == "b";
  }
}
