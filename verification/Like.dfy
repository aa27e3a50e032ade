/** SQLite's LIKE: '%' matches any run, '_' any one character, letters match in either case. */
module Like {

  function Fold(c: char): char {
    if 'A' <= c <= 'Z' then (c as int + 32) as char else c
  }

  predicate Matches(pattern: string, text: string)
    decreases |pattern| + |text|
  {
    if pattern == [] then text == []
    else if pattern[0] == '%' then
      Matches(pattern[1..], text) || (text != [] && Matches(pattern, text[1..]))
    else
      text != [] && (pattern[0] == '_' || Fold(pattern[0]) == Fold(text[0])) && Matches(pattern[1..], text[1..])
  }

  lemma {:induction false} PercentMatchesAll(text: string)
    ensures Matches("%", text)
  {
    if text == [] {
      assert "%"[1..] == [];
    } else {
      PercentMatchesAll(text[1..]);
    }
  }

  /** A key used as its own LIKE prefix reaches itself and every longer key,
      whatever '%' and '_' it contains. */
  lemma {:induction false} OwnPrefixMatches(key: string, rest: string)
    ensures Matches(key + "%", key + rest)
  {
    if key == [] {
      assert key + "%" == "%" && key + rest == rest;
      PercentMatchesAll(rest);
    } else {
      var p, t := key + "%", key + rest;
      assert p[1..] == key[1..] + "%" && t[1..] == key[1..] + rest;
      OwnPrefixMatches(key[1..], rest);
      if p[0] == '%' {
        // '%' takes the one character it stands for in the text.
        PercentTakesOne(p, t);
      }
    }
  }

  lemma PercentTakesOne(pattern: string, text: string)
    requires pattern != [] && pattern[0] == '%' && text != []
    requires Matches(pattern[1..], text[1..])
    ensures Matches(pattern, text)
  {
    assert Matches(pattern, text[1..]);
  }

  /** The same character, or the same letter of the Latin alphabet. */
  predicate SameLetter(a: char, b: char) {
    || a == b
    || ('A' <= a <= 'Z' && b as int - a as int == 'a' as int - 'A' as int)
    || ('A' <= b <= 'Z' && a as int - b as int == 'a' as int - 'A' as int)
  }

  lemma FoldMeans(a: char, b: char)
    ensures Fold(a) == Fold(b) <==> SameLetter(a, b)
  {
  }

  /** What a pattern without '%' says of the text under it: one character each, '_' for any. */
  predicate Fits(key: string, text: string) {
    |key| <= |text| && forall i :: 0 <= i < |key| ==> key[i] == '_' || SameLetter(key[i], text[i])
  }

  lemma FitsStep(key: string, text: string)
    requires key != []
    ensures Fits(key, text) <==>
              text != [] && (key[0] == '_' || SameLetter(key[0], text[0])) && Fits(key[1..], text[1..])
  {
    if text != [] && Fits(key[1..], text[1..]) && (key[0] == '_' || SameLetter(key[0], text[0])) {
      forall i | 0 <= i < |key| ensures key[i] == '_' || SameLetter(key[i], text[i]) {
        if i > 0 {
          assert key[1..][i - 1] == key[i] && text[1..][i - 1] == text[i];
        }
      }
    }
    if Fits(key, text) {
      forall i | 0 <= i < |key| - 1 ensures key[1..][i] == '_' || SameLetter(key[1..][i], text[1..][i]) {
        assert key[i + 1] == '_' || SameLetter(key[i + 1], text[i + 1]);
      }
    }
  }

  /** Without '%' in the key, LIKE key% matches exactly the texts whose beginning fits the key. */
  lemma {:induction false} PrefixMatches(key: string, text: string)
    requires '%' !in key
    ensures Matches(key + "%", text) <==> Fits(key, text)
  {
    var p := key + "%";
    if key == [] {
      assert p == "%";
      PercentMatchesAll(text);
    } else {
      assert p[0] == key[0] && p[1..] == key[1..] + "%";
      FitsStep(key, text);
      if text != [] {
        FoldMeans(key[0], text[0]);
        PrefixMatches(key[1..], text[1..]);
      }
    }
  }

  /** Without wildcards in the key, LIKE key% is exactly "starts with key, ignoring case". */
  lemma PlainPrefixMatches(key: string, text: string)
    requires '%' !in key && '_' !in key
    ensures Matches(key + "%", text) <==>
              |key| <= |text| && forall i :: 0 <= i < |key| ==> SameLetter(key[i], text[i])
  {
    PrefixMatches(key, text);
  }
}
