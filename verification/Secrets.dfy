/** The secrets file: writing one value into it line by line, and reading the bot token back. A string is a sequence of
    bytes here. */
module Secrets {
  import opened Common
  import opened Text

  const TOKEN_KEY := "MINI_UBUNTU_SERVER_TELEGRAM_BOT_TOKEN"
  const READ_LIMIT: nat := 65536
  const NEWLINE: char := '\n'

  // ---- lines and keys -------------------------------------------------------------------

  /** Where strings.Cut finds the first separator. */
  function KeyOf(line: string): Option<string> {
    var parts := Split(line, '=');
    if |parts| == 1 then None else Some(parts[0])
  }

  function ValueOf(line: string): string
    requires KeyOf(line).Some?
  {
    Join(Split(line, '=')[1..], '=')
  }

  predicate Has(line: string, key: string) {
    KeyOf(line) == Some(key)
  }

  function Assignment(key: string, value: string): string {
    key + "=" + value
  }

  lemma AssignmentHas(key: string, value: string)
    requires '=' !in key
    ensures Has(Assignment(key, value), key) && ValueOf(Assignment(key, value)) == value
  {
    SplitSkips(key, value, '=');
    assert Assignment(key, value) == key + ['='] + value;
    assert Split(Assignment(key, value), '=')[1..] == Split(value, '=');
    JoinSplit(value, '=');
  }

  // ---- the writer -----------------------------------------------------------------------

  function TrimNewline(data: string): string {
    if data != "" && data[|data| - 1] == NEWLINE then data[..|data| - 1] else data
  }

  function LinesOf(data: string): (lines: seq<string>)
    ensures lines != []
  {
    Split(TrimNewline(data), NEWLINE)
  }

  function Content(lines: seq<string>): string {
    Join(lines, NEWLINE) + [NEWLINE]
  }

  function LineAfter(line: string, key: string, value: string): string {
    if Has(line, key) then Assignment(key, value) else line
  }

  function Overwritten(lines: seq<string>, key: string, value: string): seq<string> {
    if lines == [] then []
    else
      var n := |lines| - 1;
      Overwritten(lines[..n], key, value) + [LineAfter(lines[n], key, value)]
  }

  predicate Mentions(lines: seq<string>, key: string) {
    exists k :: 0 <= k < |lines| && Has(lines[k], key)
  }

  function Updated(lines: seq<string>, key: string, value: string): seq<string> {
    Overwritten(lines, key, value) + if Mentions(lines, key) then [] else [Assignment(key, value)]
  }

  function Replaced(data: string, key: string, value: string): string {
    Content(Updated(LinesOf(data), key, value))
  }

  // ---- the reader -----------------------------------------------------------------------

  predicate Space(c: char) {
    c == ' ' || c == '\t' || c == '\n' || c == '\r' || c == 11 as char || c == 12 as char
  }

  function TrimLeft(s: string): string {
    if s != "" && Space(s[0]) then TrimLeft(s[1..]) else s
  }

  function TrimRight(s: string): string {
    if s != "" && Space(s[|s| - 1]) then TrimRight(s[..|s| - 1]) else s
  }

  function TrimSpace(s: string): string {
    TrimRight(TrimLeft(s))
  }

  function DropCR(line: string): string {
    if line != "" && line[|line| - 1] == '\r' then line[..|line| - 1] else line
  }

  /** The at most 64 KiB that are read. */
  function Head(data: string): string {
    if |data| > READ_LIMIT then data[..READ_LIMIT] else data
  }

  /** What the scanner yields: lines without their ends; a single line that fills its whole buffer is too long for it. */
  function Scanned(head: string): seq<string> {
    if |head| == READ_LIMIT && NEWLINE !in head then []
    else
      var lines := Split(head, NEWLINE);
      if lines[|lines| - 1] == "" then lines[..|lines| - 1] else lines
  }

  function FirstValue(lines: seq<string>, key: string): Option<string> {
    if lines == [] then None
    else if Has(DropCR(lines[0]), key) then Some(TrimSpace(ValueOf(DropCR(lines[0]))))
    else FirstValue(lines[1..], key)
  }

  /** TelegramToken: the file's value, or the process environment's when the file has none. */
  function TelegramToken(data: string, environment: string): string {
    FirstValue(Scanned(Head(data)), TOKEN_KEY).GetOr(TrimSpace(environment))
  }

  // ---- tokens ---------------------------------------------------------------------------

  predicate Digit(c: char) {
    '0' <= c <= '9'
  }

  predicate Word(c: char) {
    Digit(c) || 'A' <= c <= 'Z' || 'a' <= c <= 'z' || c == '_' || c == '-'
  }

  /** The token pattern: 6 to 16 digits, a colon, and 30 to 256 word characters. */
  predicate ValidToken(token: string) {
    exists n :: 0 <= n < |token| && ColonAt(token, n)
  }

  predicate ColonAt(token: string, n: nat) {
    && 6 <= n <= 16 && n < |token| && token[n] == ':' && 30 <= |token| - n - 1 <= 256
    && (forall k :: 0 <= k < n ==> Digit(token[k])) && (forall k :: n < k < |token| ==> Word(token[k]))
  }

  /** Which texts with one colon are tokens. */
  lemma TokenPattern(id: string, secret: string)
    requires ':' !in id
    ensures ValidToken(id + ":" + secret) <==>
              && 6 <= |id| <= 16 && (forall k :: 0 <= k < |id| ==> '0' <= id[k] <= '9')
              && 30 <= |secret| <= 256
              && (forall k :: 0 <= k < |secret| ==>
                    || 'A' <= secret[k] <= 'Z' || 'a' <= secret[k] <= 'z' || '0' <= secret[k] <= '9'
                    || secret[k] == '_' || secret[k] == '-')
  {
    var token := id + ":" + secret;
    assert forall k :: 0 <= k < |id| ==> token[k] == id[k];
    assert forall k :: 0 <= k < |secret| ==> token[|id| + 1 + k] == secret[k];
    if ValidToken(token) {
      var n :| 0 <= n < |token| && ColonAt(token, n);
      assert token[|id|] == ':';
    } else {
      assert !ColonAt(token, |id|);
    }
  }

  lemma TokensAreBare(token: string)
    requires ValidToken(token)
    ensures Bare(token) && NEWLINE !in token && |Assignment(TOKEN_KEY, token)| < READ_LIMIT
  {
  }

  // ---- reading what was written -----------------------------------------------------------

  lemma {:induction false} OverwrittenIs(lines: seq<string>, key: string, value: string)
    ensures var out := Overwritten(lines, key, value);
            && |out| == |lines|
            && forall k :: 0 <= k < |lines| ==> out[k] == LineAfter(lines[k], key, value)
  {
    if lines != [] {
      var n := |lines| - 1;
      OverwrittenIs(lines[..n], key, value);
      var out := Overwritten(lines[..n], key, value);
      forall k | 0 <= k < |lines| ensures (out + [LineAfter(lines[n], key, value)])[k] == LineAfter(lines[k], key, value) {
        assert k < n ==> out[k] == LineAfter(lines[..n][k], key, value);
      }
    }
  }

  lemma LinesAreFree(data: string)
    ensures Free(LinesOf(data), NEWLINE)
  {
    JoinSplit(TrimNewline(data), NEWLINE);
  }

  lemma ContentLines(lines: seq<string>)
    requires lines != [] && Free(lines, NEWLINE)
    ensures LinesOf(Content(lines)) == lines
  {
    SplitJoin(lines, NEWLINE);
    assert TrimNewline(Content(lines)) == Join(lines, NEWLINE);
  }

  lemma UpdatedFree(lines: seq<string>, key: string, value: string)
    requires Free(lines, NEWLINE) && NEWLINE !in key && NEWLINE !in value && lines != []
    ensures Free(Updated(lines, key, value), NEWLINE) && Updated(lines, key, value) != []
  {
    OverwrittenIs(lines, key, value);
  }

  /** The file written holds the updated lines. */
  lemma ReplacedLines(data: string, key: string, value: string)
    requires NEWLINE !in key && NEWLINE !in value
    ensures LinesOf(Replaced(data, key, value)) == Updated(LinesOf(data), key, value)
  {
    var lines := LinesOf(data);
    LinesAreFree(data);
    UpdatedFree(lines, key, value);
    ContentLines(Updated(lines, key, value));
  }

  /** After an update every line that sets the key sets it to the value, and some line does. */
  lemma UpdatedSets(lines: seq<string>, key: string, value: string)
    requires '=' !in key
    ensures Sets(Updated(lines, key, value), key, value)
  {
    var out := Updated(lines, key, value);
    OverwrittenIs(lines, key, value);
    AssignmentHas(key, value);
    if Mentions(lines, key) {
      var k :| 0 <= k < |lines| && Has(lines[k], key);
      assert Has(out[k], key);
    } else {
      assert Has(out[|lines|], key);
    }
  }

  /** Lines that do not set the key. */
  function Others(lines: seq<string>, key: string): seq<string> {
    if lines == [] then []
    else
      var n := |lines| - 1;
      if Has(lines[n], key) then Others(lines[..n], key) else Others(lines[..n], key) + [lines[n]]
  }

  lemma {:induction false} OverwritingKeepsOthers(lines: seq<string>, key: string, value: string)
    requires '=' !in key
    ensures Others(Overwritten(lines, key, value), key) == Others(lines, key)
  {
    if lines != [] {
      var n := |lines| - 1;
      OverwritingKeepsOthers(lines[..n], key, value);
      AssignmentHas(key, value);
      assert Overwritten(lines, key, value)[..n] == Overwritten(lines[..n], key, value) by {
        OverwrittenIs(lines[..n], key, value);
      }
      OverwrittenIs(lines, key, value);
    }
  }

  lemma UpdatingKeepsOthers(lines: seq<string>, key: string, value: string)
    requires '=' !in key
    ensures Others(Updated(lines, key, value), key) == Others(lines, key)
  {
    OverwritingKeepsOthers(lines, key, value);
    AssignmentHas(key, value);
    var out := Overwritten(lines, key, value);
    assert (out + [Assignment(key, value)])[..|out|] == out;
    assert out + [] == out;
  }

  /** Every line with another key, and every line that is no assignment, keeps its text and its place among them. */
  lemma WriteKeepsOtherLines(data: string, key: string, value: string)
    requires '=' !in key && NEWLINE !in key && NEWLINE !in value
    ensures Others(LinesOf(Replaced(data, key, value)), key) == Others(LinesOf(data), key)
  {
    ReplacedLines(data, key, value);
    UpdatingKeepsOthers(LinesOf(data), key, value);
  }

  lemma UpdatedTwice(lines: seq<string>, key: string, value: string)
    requires '=' !in key
    ensures Updated(Updated(lines, key, value), key, value) == Updated(lines, key, value)
  {
    var out := Updated(lines, key, value);
    UpdatedSets(lines, key, value);
    OverwrittenIs(out, key, value);
    assert Overwritten(out, key, value) == out;
  }

  /** Writing the same value again changes nothing. */
  lemma WriteIsIdempotent(data: string, key: string, value: string)
    requires '=' !in key && NEWLINE !in key && NEWLINE !in value
    ensures Replaced(Replaced(data, key, value), key, value) == Replaced(data, key, value)
  {
    ReplacedLines(data, key, value);
    UpdatedTwice(LinesOf(data), key, value);
  }

  lemma {:induction false} KeyOfPrefix(a: string, b: string, key: string)
    requires Has(a, key)
    ensures Has(a + b, key)
  {
    JoinSplit(a, '=');
    var parts := Split(a, '=');
    var rest := Join(parts[1..], '=');
    assert a == parts[0] + ['='] + rest;
    SplitSkips(parts[0], rest + b, '=');
    assert a + b == parts[0] + ['='] + (rest + b);
  }

  /** The scanner sees exactly the lines the writer wrote, while the file fits the read limit. */
  lemma ScannedIs(lines: seq<string>)
    requires lines != [] && Free(lines, NEWLINE) && |Content(lines)| <= READ_LIMIT
    ensures Scanned(Head(Content(lines))) == lines
  {
    var data := Content(lines);
    SplitJoin(lines + [""], NEWLINE);
    JoinAppended(lines, "");
    assert data + "" == data;
    assert data[|data| - 1] == NEWLINE;
    assert NEWLINE in data;
  }

  lemma TokenKeyIsPlain()
    ensures '=' !in TOKEN_KEY && NEWLINE !in TOKEN_KEY
  {
  }

  // ---- how much of the file is read -------------------------------------------------------

  /** Where the first line that sets the key ends, its line end excluded. */
  function End(lines: seq<string>, key: string): nat {
    if lines == [] then 0
    else if Has(lines[0], key) then |lines[0]|
    else |lines[0]| + 1 + End(lines[1..], key)
  }

  /** What is read of a value that ends at `end` when only the first n bytes are seen: nothing, its beginning, or all. */
  function ReadAs(value: string, end: nat, n: nat): Option<string>
    requires |value| <= end
  {
    if n < end - |value| then None else if n < end then Some(value[..n - (end - |value|)]) else Some(value)
  }

  predicate Bare(value: string) {
    value != "" && forall k :: 0 <= k < |value| ==> !Space(value[k])
  }

  /** Every line that sets the key sets it to the value, and some line does. */
  ghost predicate Sets(lines: seq<string>, key: string, value: string) {
    Mentions(lines, key) && forall k :: 0 <= k < |lines| && Has(lines[k], key) ==> lines[k] == Assignment(key, value)
  }

  lemma SetsRest(lines: seq<string>, key: string, value: string)
    requires lines != [] && Sets(lines, key, value) && !Has(lines[0], key)
    ensures Sets(lines[1..], key, value)
  {
    var k :| 0 <= k < |lines| && Has(lines[k], key);
    assert Has(lines[1..][k - 1], key);
  }

  lemma {:induction false} EndIsLong(lines: seq<string>, key: string, value: string)
    requires Sets(lines, key, value)
    ensures |key| + 1 + |value| <= End(lines, key) <= |Join(lines, NEWLINE)|
  {
    if !Has(lines[0], key) {
      SetsRest(lines, key, value);
      EndIsLong(lines[1..], key, value);
    }
  }

  /** A line of the key cut short after n bytes. */
  lemma CutLine(key: string, value: string, n: nat)
    requires '=' !in key && Bare(value) && n <= |Assignment(key, value)|
    ensures FirstValue([Assignment(key, value)[..n]], key) == ReadAs(value, |Assignment(key, value)|, n)
  {
    var cut := Assignment(key, value)[..n];
    if n < |key| + 1 {
      assert cut == key[..n];
      KeylessIsNone(cut, key);
    } else {
      var seen := value[..n - |key| - 1];
      assert cut == Assignment(key, seen);
      AssignmentHas(key, seen);
      assert cut[n - 1] == if seen == "" then '=' else seen[|seen| - 1];
      assert DropCR(cut) == cut;
      TrimsNothing(seen);
      assert n == |Assignment(key, value)| ==> seen == value;
    }
  }

  lemma KeylessIsNone(cut: string, key: string)
    requires '=' !in cut
    ensures FirstValue([cut], key).None?
  {
    SplitOne(DropCR(cut), '=');
  }

  lemma TrimsNothing(s: string)
    requires forall k :: 0 <= k < |s| ==> !Space(s[k])
    ensures TrimSpace(s) == s
  {
  }

  /** When the bytes seen end within the first line. */
  lemma ReadWithinFirst(lines: seq<string>, n: nat, key: string, value: string)
    requires lines != [] && Free(lines, NEWLINE) && Sets(lines, key, value) && '=' !in key && Bare(value)
    requires n <= |lines[0]|
    ensures n <= |Join(lines, NEWLINE)| && |value| <= End(lines, key)
    ensures FirstValue(Split(Join(lines, NEWLINE)[..n], NEWLINE), key) == ReadAs(value, End(lines, key), n)
  {
    var first := lines[0];
    EndIsLong(lines, key, value);
    FirstLineCut(lines, n);
    if Has(first, key) {
      CutLine(key, value, n);
    } else {
      SetsRest(lines, key, value);
      EndIsLong(lines[1..], key, value);
      PrefixHasLess(first[..n], first, key);
    }
  }

  /** When the first line is seen whole and sets the key. */
  lemma ReadFirstWhole(lines: seq<string>, n: nat, key: string, value: string)
    requires lines != [] && Free(lines, NEWLINE) && Sets(lines, key, value) && '=' !in key && Bare(value)
    requires |lines[0]| < n <= |Join(lines, NEWLINE)| && Has(lines[0], key)
    ensures |value| <= End(lines, key)
    ensures FirstValue(Split(Join(lines, NEWLINE)[..n], NEWLINE), key) == ReadAs(value, End(lines, key), n)
  {
    var first := lines[0];
    EndIsLong(lines, key, value);
    PastFirstLine(lines, n);
    CutLine(key, value, |first|);
    assert first[..|first|] == first;
  }

  /** What the scanner's lines give of a text of which only the first n bytes are seen. */
  lemma {:induction false} ReadUpTo(lines: seq<string>, n: nat, key: string, value: string)
    requires Free(lines, NEWLINE) && Sets(lines, key, value) && '=' !in key && Bare(value)
    requires n <= |Join(lines, NEWLINE)|
    ensures |value| <= End(lines, key)
    ensures FirstValue(Split(Join(lines, NEWLINE)[..n], NEWLINE), key) == ReadAs(value, End(lines, key), n)
  {
    EndIsLong(lines, key, value);
    var first := lines[0];
    if n <= |first| {
      ReadWithinFirst(lines, n, key, value);
    } else if Has(first, key) {
      ReadFirstWhole(lines, n, key, value);
    } else {
      PastFirstLine(lines, n);
      assert first <= first;
      PrefixHasLess(first, first, key);
      SetsRest(lines, key, value);
      ReadUpTo(lines[1..], n - |first| - 1, key, value);
    }
  }

  lemma FirstLineCut(lines: seq<string>, n: nat)
    requires lines != [] && Free(lines, NEWLINE) && n <= |lines[0]|
    ensures n <= |Join(lines, NEWLINE)| && Split(Join(lines, NEWLINE)[..n], NEWLINE) == [lines[0][..n]]
  {
    assert Join(lines, NEWLINE)[..n] == lines[0][..n];
    SplitOne(lines[0][..n], NEWLINE);
  }

  lemma PastFirstLine(lines: seq<string>, n: nat)
    requires lines != [] && Free(lines, NEWLINE) && |lines[0]| < n <= |Join(lines, NEWLINE)|
    ensures |lines| > 1 && n - |lines[0]| - 1 <= |Join(lines[1..], NEWLINE)|
    ensures Split(Join(lines, NEWLINE)[..n], NEWLINE) ==
            [lines[0]] + Split(Join(lines[1..], NEWLINE)[..n - |lines[0]| - 1], NEWLINE)
  {
    var rest := Join(lines[1..], NEWLINE);
    assert Join(lines, NEWLINE)[..n] == lines[0] + [NEWLINE] + rest[..n - |lines[0]| - 1];
    SplitSkips(lines[0], rest[..n - |lines[0]| - 1], NEWLINE);
  }

  lemma {:induction false} BlankHidesNothing(lines: seq<string>, key: string)
    ensures FirstValue(lines + [""], key) == FirstValue(lines, key)
  {
    if lines == [] {
      KeylessIsNone("", key);
    } else {
      assert (lines + [""])[1..] == lines[1..] + [""];
      BlankHidesNothing(lines[1..], key);
    }
  }

  lemma ScannedLines(head: string, key: string)
    requires |head| == READ_LIMIT ==> NEWLINE in head
    ensures FirstValue(Scanned(head), key) == FirstValue(Split(head, NEWLINE), key)
  {
    var lines := Split(head, NEWLINE);
    if lines[|lines| - 1] == "" {
      BlankHidesNothing(lines[..|lines| - 1], key);
      assert lines[..|lines| - 1] + [""] == lines;
    }
  }

  lemma {:induction false} EndIgnoresBlank(lines: seq<string>, key: string)
    requires Mentions(lines, key)
    ensures End(lines + [""], key) == End(lines, key)
  {
    if !Has(lines[0], key) {
      var k :| 0 <= k < |lines| && Has(lines[k], key);
      assert Has(lines[1..][k - 1], key);
      assert (lines + [""])[1..] == lines[1..] + [""];
      EndIgnoresBlank(lines[1..], key);
    }
  }

  lemma BlankSets(lines: seq<string>, key: string, value: string)
    requires Sets(lines, key, value)
    ensures Sets(lines + [""], key, value)
  {
    var k :| 0 <= k < |lines| && Has(lines[k], key);
    assert Has((lines + [""])[k], key);
    SplitOne("", '=');
  }

  lemma FirstEndSeen(lines: seq<string>)
    requires lines != [] && |lines[0]| < READ_LIMIT
    ensures NEWLINE in Head(Content(lines))
  {
    assert Content(lines)[|lines[0]|] == NEWLINE;
    assert Head(Content(lines))[|lines[0]|] == NEWLINE;
  }

  /** The scanner's one failure: the first line fills the whole limit, so the value cannot begin before it. */
  lemma OverlongFirstLine(lines: seq<string>, key: string, value: string)
    requires lines != [] && Sets(lines, key, value) && |Assignment(key, value)| < READ_LIMIT
    requires var head := Head(Content(lines)); |head| == READ_LIMIT && NEWLINE !in head
    ensures |value| <= End(lines, key) && READ_LIMIT < End(lines, key) - |value|
  {
    var first := lines[0];
    EndIsLong(lines, key, value);
    if |first| < READ_LIMIT {
      FirstEndSeen(lines);
    } else {
      SetsRest(lines, key, value);
      EndIsLong(lines[1..], key, value);
    }
  }

  /** Exactly what is read of a file whose lines set the key to a value. */
  lemma ValueRead(lines: seq<string>, key: string, value: string)
    requires Free(lines, NEWLINE) && Sets(lines, key, value) && '=' !in key && Bare(value)
    requires |Assignment(key, value)| < READ_LIMIT
    ensures |value| <= End(lines, key)
    ensures FirstValue(Scanned(Head(Content(lines))), key) == ReadAs(value, End(lines, key), READ_LIMIT)
  {
    var text := Content(lines);
    var n := if |text| > READ_LIMIT then READ_LIMIT else |text|;
    EndIsLong(lines, key, value);
    assert Head(text) == text[..n];
    if |Head(text)| == READ_LIMIT && NEWLINE !in Head(text) {
      OverlongFirstLine(lines, key, value);
    } else {
      ScannedLines(Head(text), key);
      JoinAppended(lines, "");
      assert text + "" == text;
      BlankSets(lines, key, value);
      EndIgnoresBlank(lines, key);
      ReadUpTo(lines + [""], n, key, value);
    }
  }

  /** Exactly what is read back after a valid token has been written, for every file: the token, the beginning of it, or
      nothing, in which case the environment counts. */
  lemma TokenReadBack(data: string, token: string, environment: string)
    requires ValidToken(token)
    ensures var end := End(Updated(LinesOf(data), TOKEN_KEY, token), TOKEN_KEY);
            && |token| <= end
            && TelegramToken(Replaced(data, TOKEN_KEY, token), environment) ==
                 ReadAs(token, end, READ_LIMIT).GetOr(TrimSpace(environment))
  {
    var lines := Updated(LinesOf(data), TOKEN_KEY, token);
    TokensAreBare(token);
    TokenKeyIsPlain();
    LinesAreFree(data);
    UpdatedFree(LinesOf(data), TOKEN_KEY, token);
    UpdatedSets(LinesOf(data), TOKEN_KEY, token);
    ValueRead(lines, TOKEN_KEY, token);
  }

  /** Unless the environment happens to hold it too, a valid token is read back if and only if the first line that sets it
      ends within the 64 KiB that are read. */
  lemma TokenReadBackIff(data: string, token: string, environment: string)
    requires ValidToken(token) && TrimSpace(environment) != token
    ensures TelegramToken(Replaced(data, TOKEN_KEY, token), environment) == token <==>
              End(Updated(LinesOf(data), TOKEN_KEY, token), TOKEN_KEY) <= 65536
  {
    TokenReadBack(data, token, environment);
  }

  /** Round trip: a valid token written to the file is the one read back, whatever the file held before and whatever
      the environment says, as long as the result fits the 64 KiB that are read. */
  lemma TokenRoundTrip(data: string, token: string, environment: string)
    requires ValidToken(token) && |Replaced(data, TOKEN_KEY, token)| <= 65536
    ensures TelegramToken(Replaced(data, TOKEN_KEY, token), environment) == token
  {
    TokenReadBack(data, token, environment);
    TokenKeyIsPlain();
    EndFits(data, TOKEN_KEY, token);
  }

  lemma EndFits(data: string, key: string, value: string)
    requires '=' !in key
    ensures End(Updated(LinesOf(data), key, value), key) < |Replaced(data, key, value)|
  {
    var lines := Updated(LinesOf(data), key, value);
    UpdatedSets(LinesOf(data), key, value);
    EndIsLong(lines, key, value);
    assert |Content(lines)| == |Join(lines, NEWLINE)| + 1;
  }

  lemma {:induction false} NoValue(lines: seq<string>, key: string)
    requires forall k :: 0 <= k < |lines| ==> !Has(DropCR(lines[k]), key)
    ensures FirstValue(lines, key).None?
  {
    if lines != [] {
      NoValue(lines[1..], key);
    }
  }

  lemma PrefixHasLess(part: string, line: string, key: string)
    requires part <= line && !Has(line, key)
    ensures !Has(DropCR(part), key)
  {
    var short := DropCR(part);
    assert line == short + line[|short|..];
    if Has(short, key) {
      KeyOfPrefix(short, line[|short|..], key);
    }
  }

  /** Scanning the beginning of a text finds no key that no line of the text has. */
  lemma PrefixScansLess(text: string, n: nat, key: string)
    requires n <= READ_LIMIT && n <= |text| && !Mentions(Split(text, NEWLINE), key)
    ensures FirstValue(Scanned(text[..n]), key).None?
  {
    var all, parts := Split(text, NEWLINE), Split(text[..n], NEWLINE);
    SplitPrefix(text, n, NEWLINE);
    forall k | 0 <= k < |parts| ensures !Has(DropCR(parts[k]), key) {
      assert !Has(all[k], key);
      PrefixHasLess(parts[k], all[k], key);
    }
    NoValue(Scanned(text[..n]), key);
  }

  lemma ContentAppended(lines: seq<string>, last: string)
    requires lines != []
    ensures Content(lines + [last]) == Join(lines, NEWLINE) + [NEWLINE] + (last + [NEWLINE])
  {
    JoinAppended(lines, last);
    var body := Join(lines, NEWLINE) + [NEWLINE];
    assert body + last + [NEWLINE] == body + (last + [NEWLINE]);
  }

  lemma UpdatedAppends(lines: seq<string>, key: string, value: string)
    requires !Mentions(lines, key)
    ensures Updated(lines, key, value) == lines + [Assignment(key, value)]
  {
    NothingOverwritten(lines, key, value);
  }

  lemma AppendedText(data: string, key: string, value: string)
    requires !Mentions(LinesOf(data), key)
    ensures Replaced(data, key, value) == TrimNewline(data) + [NEWLINE] + (Assignment(key, value) + [NEWLINE])
  {
    UpdatedAppends(LinesOf(data), key, value);
    ContentAppended(LinesOf(data), Assignment(key, value));
    JoinSplit(TrimNewline(data), NEWLINE);
  }

  lemma {:induction false} NothingOverwritten(lines: seq<string>, key: string, value: string)
    requires !Mentions(lines, key)
    ensures Overwritten(lines, key, value) == lines
  {
    OverwrittenIs(lines, key, value);
  }

  lemma {:induction false} JoinAppended(lines: seq<string>, last: string)
    requires lines != []
    ensures Join(lines + [last], NEWLINE) == Join(lines, NEWLINE) + [NEWLINE] + last
  {
    if |lines| == 1 {
      assert (lines + [last])[1..] == [last];
    } else {
      assert (lines + [last])[1..] == lines[1..] + [last];
      JoinAppended(lines[1..], last);
    }
  }

  lemma {:induction false} NewlineAddsBlank(text: string)
    ensures Split(text + [NEWLINE], NEWLINE) == Split(text, NEWLINE) + [""]
  {
    if text == "" {
      assert (text + [NEWLINE])[1..] == "";
    } else {
      assert (text + [NEWLINE])[1..] == text[1..] + [NEWLINE];
      NewlineAddsBlank(text[1..]);
    }
  }

  /** The limit is real: appended behind the first 64 KiB, the token is never read back. */
  lemma OversizedFileHidesToken(data: string, token: string, environment: string)
    requires !Mentions(LinesOf(data), TOKEN_KEY) && |TrimNewline(data)| + 1 >= 65536
    ensures TelegramToken(Replaced(data, TOKEN_KEY, token), environment) == TrimSpace(environment)
  {
    ValueBehindLimit(data, TOKEN_KEY, token);
  }

  lemma ValueBehindLimit(data: string, key: string, value: string)
    requires !Mentions(LinesOf(data), key) && |TrimNewline(data)| + 1 >= READ_LIMIT && key != ""
    ensures FirstValue(Scanned(Head(Replaced(data, key, value))), key).None?
  {
    var out, text := Replaced(data, key, value), TrimNewline(data) + [NEWLINE];
    AppendedText(data, key, value);
    NewlineAddsBlank(TrimNewline(data));
    assert KeyOf("").None?;
    assert out[..READ_LIMIT] == text[..READ_LIMIT];
    assert Head(out) == out[..READ_LIMIT];
    PrefixScansLess(text, READ_LIMIT, key);
  }

  // ---- lines and blanks, by their characters ------------------------------------------------

  /** A line sets a key exactly if it begins with the key and the sign; the value is all that follows. */
  lemma HasMeans(line: string, key: string)
    requires '=' !in key
    ensures Has(line, key) <==> key + "=" <= line
    ensures Has(line, key) ==> ValueOf(line) == line[|key| + 1..]
  {
    JoinSplit(line, '=');
    var parts := Split(line, '=');
    if Has(line, key) {
      assert line == key + ['='] + Join(parts[1..], '=');
    }
    if key + "=" <= line {
      var rest := line[|key| + 1..];
      assert line == key + ['='] + rest;
      SplitSkips(key, rest, '=');
    }
  }

  /** What the writer leaves, line by line: every line that begins with the key and the sign becomes the assignment, every
      other one stays in its place, and the assignment is added at the end if no line did. */
  lemma ReplacedIs(data: string, key: string, value: string)
    requires '=' !in key && NEWLINE !in key && NEWLINE !in value
    ensures var lines, out := LinesOf(data), LinesOf(Replaced(data, key, value));
            var found := exists k :: 0 <= k < |lines| && key + "=" <= lines[k];
            && |out| == |lines| + (if found then 0 else 1)
            && (forall k :: 0 <= k < |lines| ==> out[k] == if key + "=" <= lines[k] then key + "=" + value else lines[k])
            && (!found ==> out[|lines|] == key + "=" + value)
  {
    var lines := LinesOf(data);
    ReplacedLines(data, key, value);
    OverwrittenIs(lines, key, value);
    forall k | 0 <= k < |lines| ensures Has(lines[k], key) <==> key + "=" <= lines[k] {
      HasMeans(lines[k], key);
    }
  }

  predicate Blank(s: string) {
    forall i :: 0 <= i < |s| ==> Space(s[i])
  }

  /** Neither end is a blank. */
  predicate Tight(s: string) {
    s != "" ==> !Space(s[0]) && !Space(s[|s| - 1])
  }

  lemma {:induction false} TrimLeftSkips(a: string, rest: string)
    requires Blank(a)
    ensures TrimLeft(a + rest) == TrimLeft(rest)
  {
    if a == "" {
      assert a + rest == rest;
    } else {
      assert (a + rest)[1..] == a[1..] + rest;
      TrimLeftSkips(a[1..], rest);
    }
  }

  lemma {:induction false} TrimRightSkips(rest: string, b: string)
    requires Blank(b)
    ensures TrimRight(rest + b) == TrimRight(rest)
  {
    if b == "" {
      assert rest + b == rest;
    } else {
      assert (rest + b)[..|rest + b| - 1] == rest + b[..|b| - 1];
      TrimRightSkips(rest, b[..|b| - 1]);
    }
  }

  /** Trimming takes exactly the blanks at both ends. */
  lemma TrimSpaceIs(a: string, v: string, b: string)
    requires Blank(a) && Blank(b) && Tight(v)
    ensures TrimSpace(a + v + b) == v
  {
    assert a + v + b == a + (v + b);
    TrimLeftSkips(a, v + b);
    if v == "" {
      assert v + b == b == b + "";
      TrimLeftSkips(b, "");
    } else {
      assert (v + b)[0] == v[0];
      TrimRightSkips(v, b);
    }
  }

  /** Only the first line that sets the key counts, and its value without the blanks around it. */
  lemma {:induction false} FirstValueIs(before: seq<string>, a: string, v: string, b: string, after: seq<string>, key: string)
    requires '=' !in key && Blank(a) && Blank(b) && Tight(v)
    requires forall k :: 0 <= k < |before| ==> !Has(DropCR(before[k]), key)
    ensures FirstValue(before + [key + "=" + (a + v + b)] + after, key) == Some(v)
  {
    var line := key + "=" + (a + v + b);
    var lines := before + [line] + after;
    if before == [] {
      assert lines[0] == line;
      LineValueIs(a, v, b, key);
    } else {
      assert lines[0] == before[0] && lines[1..] == before[1..] + [line] + after;
      FirstValueIs(before[1..], a, v, b, after, key);
    }
  }

  lemma LineValueIs(a: string, v: string, b: string, key: string)
    requires '=' !in key && Blank(a) && Blank(b) && Tight(v)
    ensures var line := DropCR(key + "=" + (a + v + b)); Has(line, key) && TrimSpace(ValueOf(line)) == v
  {
    var line, text := key + "=" + (a + v + b), a + v + b;
    var short := DropCR(line);
    HasMeans(short, key);
    if short == line {
      assert line[|key| + 1..] == text;
      TrimSpaceIs(a, v, b);
    } else {
      assert short == key + "=" + text[..|text| - 1];
      assert short[|key| + 1..] == text[..|text| - 1];
      OneBlankLess(a, v, b);
    }
  }

  /** A carriage return at the end that is taken away belongs to the blanks. */
  lemma OneBlankLess(a: string, v: string, b: string)
    requires Blank(a) && Blank(b) && Tight(v) && a + v + b != "" && (a + v + b)[|a + v + b| - 1] == '\r'
    ensures TrimSpace((a + v + b)[..|a + v + b| - 1]) == v
  {
    var text := a + v + b;
    if b != "" {
      assert text[..|text| - 1] == a + v + b[..|b| - 1];
      TrimSpaceIs(a, v, b[..|b| - 1]);
    } else {
      assert text == a + v;
      EndsTight(a, v);
      assert text[..|text| - 1] == a[..|a| - 1] + "" + "";
      TrimSpaceIs(a[..|a| - 1], "", "");
    }
  }

  lemma EndsTight(a: string, v: string)
    requires Tight(v) && a + v != ""
    ensures Space((a + v)[|a + v| - 1]) ==> v == ""
  {
  }

  /** The token read from a file of at most 64 KiB is what the first line that sets it says, without the blanks around it;
      the process environment counts only when no line does, and also without blanks around. */
  lemma TokenIsFirst(before: seq<string>, a: string, v: string, b: string, after: seq<string>, environment: string)
    requires Blank(a) && Blank(b) && Tight(v)
    requires forall k :: 0 <= k < |before| ==> !Has(DropCR(before[k]), TOKEN_KEY)
    requires var lines := before + [TOKEN_KEY + "=" + (a + v + b)] + after;
             Free(lines, NEWLINE) && |Content(lines)| <= 65536
    ensures TelegramToken(Content(before + ["MINI_UBUNTU_SERVER_TELEGRAM_BOT_TOKEN=" + (a + v + b)] + after), environment) == v
  {
    TokenKeyIsPlain();
    assert "MINI_UBUNTU_SERVER_TELEGRAM_BOT_TOKEN=" == TOKEN_KEY + "=";
    ScannedIs(before + [TOKEN_KEY + "=" + (a + v + b)] + after);
    FirstValueIs(before, a, v, b, after, TOKEN_KEY);
  }

  lemma EnvironmentCounts(lines: seq<string>, a: string, v: string, b: string)
    requires Blank(a) && Blank(b) && Tight(v) && lines != [] && Free(lines, NEWLINE) && |Content(lines)| <= 65536
    requires forall k :: 0 <= k < |lines| ==> !Has(DropCR(lines[k]), TOKEN_KEY)
    ensures TelegramToken(Content(lines), a + v + b) == v
  {
    ScannedIs(lines);
    NoValue(lines, TOKEN_KEY);
    TrimSpaceIs(a, v, b);
  }

  // ---- the file ---------------------------------------------------------------------------

  /** At most 512 bytes that are a token, but for blanks around it. */
  predicate Acceptable(input: string) {
    |input| <= 512 && ValidToken(TrimSpace(input))
  }

  class SecretsFile {
    var data: string

    /** The privileged command: the token on its standard input, checked again, into the file. */
    method SetToken(input: string, fails: bool, synced: bool) returns (ok: bool)
      modifies this
      ensures ok <==> Acceptable(input) && !fails && synced
      ensures data == if Acceptable(input) && !fails then Replaced(old(data), TOKEN_KEY, TrimSpace(input)) else old(data)
    {
      if |input| > 512 {
        return false;
      }
      var token := TrimSpace(input);
      if !ValidToken(token) {
        return false;
      }
      ok := ReplaceEnvironmentValue(TOKEN_KEY, token, fails, synced);
    }

    constructor (data: string)
      ensures this.data == data
    {
      this.data := data;
    }

    /** Overwrite every assignment of the key, or append one. A file operation that fails up to the rename leaves the old
        file; a failing sync of the directory is reported although the new one is in place. */
    method ReplaceEnvironmentValue(key: string, value: string, fails: bool, synced: bool) returns (ok: bool)
      modifies this
      ensures ok == (!fails && synced)
      ensures data == if fails then old(data) else Replaced(old(data), key, value)
    {
      var lines := LinesOf(data);
      ghost var before := lines;
      var updated := false;
      for index := 0 to |lines|
        invariant |lines| == |before| && updated == Mentions(before[..index], key)
        invariant lines == Partly(before, index, key, value) && data == old(data)
      {
        PartlyGrows(before, index, key, value);
        if Has(lines[index], key) {
          lines := lines[index := Assignment(key, value)];
          updated := true;
        }
      }
      assert before[..|before|] == before;
      assert lines == Overwritten(before, key, value);
      if !updated {
        lines := lines + [Assignment(key, value)];
      }
      assert lines == Updated(before, key, value);
      if !fails {
        data := Content(lines);
      }
      ok := !fails && synced;
    }
  }

  /** What was given is read back: the value the privileged command has stored is the one the panel then reads, as long as the
      file stays within 64 KiB. */
  lemma StoredTokenIsRead(data: string, input: string, environment: string)
    requires Acceptable(input) && |Replaced(data, TOKEN_KEY, TrimSpace(input))| <= 65536
    ensures TelegramToken(Replaced(data, TOKEN_KEY, TrimSpace(input)), environment) == TrimSpace(input)
  {
    TokenRoundTrip(data, TrimSpace(input), environment);
  }

  /** The lines once the loop has passed some of them. */
  function Partly(lines: seq<string>, index: nat, key: string, value: string): seq<string>
    requires index <= |lines|
  {
    Overwritten(lines[..index], key, value) + lines[index..]
  }

  lemma PartlyGrows(lines: seq<string>, index: nat, key: string, value: string)
    requires index < |lines|
    ensures var now, line := Partly(lines, index, key, value), lines[index];
            && |now| == |lines| && now[index] == line
            && Partly(lines, index + 1, key, value) == (if Has(line, key) then now[index := Assignment(key, value)] else now)
            && (Mentions(lines[..index + 1], key) <==> Mentions(lines[..index], key) || Has(line, key))
  {
    var done, line := lines[..index], lines[index];
    assert lines[..index + 1] == done + [line];
    OverwrittenGrows(done, line, key, value);
    MentionsGrows(done, line, key);
    var before, tail := Overwritten(done, key, value), lines[index + 1..];
    assert lines[index..] == [line] + tail;
    SplitAround(before, line, LineAfter(line, key, value), tail);
  }

  lemma SplitAround(before: seq<string>, x: string, y: string, tail: seq<string>)
    ensures |before + ([x] + tail)| == |before| + 1 + |tail| && (before + ([x] + tail))[|before|] == x
    ensures (before + ([x] + tail))[|before| := y] == before + [y] + tail
  {
  }

  lemma OverwrittenGrows(lines: seq<string>, line: string, key: string, value: string)
    ensures |Overwritten(lines, key, value)| == |lines|
    ensures Overwritten(lines + [line], key, value) ==
            Overwritten(lines, key, value) + [LineAfter(line, key, value)]
  {
    OverwrittenIs(lines, key, value);
    assert (lines + [line])[..|lines|] == lines;
  }

  lemma MentionsGrows(lines: seq<string>, line: string, key: string)
    ensures Mentions(lines + [line], key) <==> Mentions(lines, key) || Has(line, key)
  {
    if Mentions(lines, key) {
      var k :| 0 <= k < |lines| && Has(lines[k], key);
      assert Has((lines + [line])[k], key);
    }
    assert (lines + [line])[|lines|] == line;
  }
}
