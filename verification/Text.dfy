/** Splitting a string at a separator and joining it again. */
module Text {

  function Split(s: string, sep: char): (parts: seq<string>)
    ensures |parts| > 0
  {
    if s == "" then [""]
    else
      var rest := Split(s[1..], sep);
      if s[0] == sep then [""] + rest else [[s[0]] + rest[0]] + rest[1..]
  }

  function Join(parts: seq<string>, sep: char): string {
    if parts == [] then "" else if |parts| == 1 then parts[0] else parts[0] + [sep] + Join(parts[1..], sep)
  }

  /** Parts that Split can return: none holds the separator. */
  ghost predicate Free(parts: seq<string>, sep: char) {
    forall k :: 0 <= k < |parts| ==> sep !in parts[k]
  }

  lemma {:induction false} JoinSplit(s: string, sep: char)
    ensures Join(Split(s, sep), sep) == s
    ensures Free(Split(s, sep), sep)
  {
    if s != "" {
      JoinSplit(s[1..], sep);
      var rest, parts := Split(s[1..], sep), Split(s, sep);
      if s[0] == sep {
        assert parts[1..] == rest;
        assert s == [sep] + s[1..];
      } else {
        assert parts[1..] == rest[1..];
        assert s == [s[0]] + s[1..];
      }
    }
  }

  /** The parts hold no character that the text does not. */
  lemma {:induction false} SplitChars(s: string, sep: char, c: char)
    requires c !in s
    ensures forall k :: 0 <= k < |Split(s, sep)| ==> c !in Split(s, sep)[k]
  {
    if s != "" {
      SplitChars(s[1..], sep, c);
    }
  }

  /** Part by part a prefix. */
  ghost predicate Within(parts: seq<string>, all: seq<string>) {
    |parts| <= |all| && forall k :: 0 <= k < |parts| ==> parts[k] <= all[k]
  }

  lemma WithinAfterSep(rest: seq<string>, all: seq<string>)
    requires Within(rest, all)
    ensures Within([""] + rest, [""] + all)
  {
  }

  lemma WithinLonger(c: char, rest: seq<string>, all: seq<string>)
    requires rest != [] && Within(rest, all)
    ensures Within([[c] + rest[0]] + rest[1..], [[c] + all[0]] + all[1..])
  {
    var parts, more := [[c] + rest[0]] + rest[1..], [[c] + all[0]] + all[1..];
    forall k | 0 <= k < |parts| ensures parts[k] <= more[k] {
      assert rest[k] <= all[k];
    }
  }

  /** The parts of a prefix are prefixes of the parts. */
  lemma {:induction false} SplitPrefix(s: string, n: nat, sep: char)
    requires n <= |s|
    ensures Within(Split(s[..n], sep), Split(s, sep))
  {
    if n > 0 {
      SplitPrefix(s[1..], n - 1, sep);
      assert s[..n][1..] == s[1..][..n - 1] && s[..n][0] == s[0];
      var rest, all := Split(s[1..][..n - 1], sep), Split(s[1..], sep);
      if s[0] == sep {
        WithinAfterSep(rest, all);
      } else {
        WithinLonger(s[0], rest, all);
      }
    } else {
      assert Split(s[..0], sep) == [""];
    }
  }

  lemma {:induction false} SplitSkips(a: string, b: string, sep: char)
    requires sep !in a
    ensures Split(a + [sep] + b, sep) == [a] + Split(b, sep)
  {
    var s := a + [sep] + b;
    if a == "" {
      assert s[1..] == b;
    } else {
      SplitSkips(a[1..], b, sep);
      assert s[1..] == a[1..] + [sep] + b;
      assert s[0] == a[0] != sep && [a[0]] + a[1..] == a;
    }
  }

  lemma {:induction false} SplitOne(a: string, sep: char)
    requires sep !in a
    ensures Split(a, sep) == [a]
  {
    if a != "" {
      SplitOne(a[1..], sep);
      assert [a[0]] + a[1..] == a;
    }
  }

  lemma {:induction false} SplitJoin(parts: seq<string>, sep: char)
    requires parts != [] && Free(parts, sep)
    ensures Split(Join(parts, sep), sep) == parts
  {
    SplitOne(parts[0], sep);
    if |parts| > 1 {
      SplitJoin(parts[1..], sep);
      SplitSkips(parts[0], Join(parts[1..], sep), sep);
      assert Join(parts, sep) == parts[0] + [sep] + Join(parts[1..], sep);
      assert [parts[0]] + parts[1..] == parts;
    }
  }
}
