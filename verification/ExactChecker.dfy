/** The exact checker: comparing outputs up to trailing blanks, line endings and trailing empty lines. */
module ExactChecker {

  type Text = seq<char>

  // ----- the library calls of `normalize`

  /** `strings.ReplaceAll(s, "\r\n", "\n")`. */
  function ReplaceCrlf(s: Text): Text {
    if s == [] then []
    else if |s| >= 2 && s[0] == '\r' && s[1] == '\n' then ['\n'] + ReplaceCrlf(s[2..])
    else [s[0]] + ReplaceCrlf(s[1..])
  }

  /** `strings.Split(s, "\n")`. */
  function Split(s: Text): (lines: seq<Text>)
    ensures lines != []
  {
    if s == [] then [[]]
    else
      var rest := Split(s[1..]);
      if s[0] == '\n' then [[]] + rest else [[s[0]] + rest[0]] + rest[1..]
  }

  /** `strings.Join(lines, "\n")`. */
  function Join(lines: seq<Text>): Text {
    if lines == [] then []
    else if |lines| == 1 then lines[0]
    else Join(lines[..|lines| - 1]) + ['\n'] + lines[|lines| - 1]
  }

  predicate Blank(c: char) { c == ' ' || c == '\t' }

  /** `strings.TrimRight(line, " \t")`. */
  function TrimBlanks(line: Text): Text {
    if line != [] && Blank(line[|line| - 1]) then TrimBlanks(line[..|line| - 1]) else line
  }

  /** `strings.TrimRight(s, "\n")`. */
  function TrimNewlines(s: Text): Text {
    if s != [] && s[|s| - 1] == '\n' then TrimNewlines(s[..|s| - 1]) else s
  }

  function Trimmed(lines: seq<Text>): (trimmed: seq<Text>)
    ensures |trimmed| == |lines|
  {
    seq(|lines|, i requires 0 <= i < |lines| => TrimBlanks(lines[i]))
  }

  function Normalized(data: Text): Text {
    TrimNewlines(Join(Trimmed(Split(ReplaceCrlf(data)))))
  }

  /** The loop over the lines, in place. */
  method TrimLines(lines: array<Text>)
    modifies lines
    ensures lines[..] == Trimmed(old(lines[..]))
  {
    for i := 0 to lines.Length
      invariant forall k | 0 <= k < i :: lines[k] == TrimBlanks(old(lines[..])[k])
      invariant forall k | i <= k < lines.Length :: lines[k] == old(lines[..])[k]
    {
      lines[i] := TrimBlanks(lines[i]);
    }
  }

  method Normalize(data: Text) returns (text: Text)
    ensures text == Normalized(data)
  {
    var parts := Split(ReplaceCrlf(data));
    var lines := new Text[|parts|](i requires 0 <= i < |parts| => parts[i]);
    assert lines[..] == parts;
    TrimLines(lines);
    text := TrimNewlines(Join(lines[..]));
  }

  // ----- what the comparison means

  /** The lines of a text, each ended by a line feed or by a carriage return and a line feed. */
  function Lines(s: Text): (lines: seq<Text>)
    ensures lines != []
  {
    if s == [] then [[]]
    else if s[0] == '\n' then [[]] + Lines(s[1..])
    else if |s| >= 2 && s[0] == '\r' && s[1] == '\n' then [[]] + Lines(s[2..])
    else
      var rest := Lines(s[1..]);
      [[s[0]] + rest[0]] + rest[1..]
  }

  function DropEmptyTail(lines: seq<Text>): seq<Text> {
    if lines != [] && lines[|lines| - 1] == [] then DropEmptyTail(lines[..|lines| - 1]) else lines
  }

  /** The lines that count: without trailing blanks, and without empty lines at the end. */
  function Content(s: Text): seq<Text> {
    DropEmptyTail(Trimmed(Lines(s)))
  }

  lemma {:induction false} SplitIsLines(s: Text)
    ensures Split(ReplaceCrlf(s)) == Lines(s)
  {
    if s == [] {
    } else if |s| >= 2 && s[0] == '\r' && s[1] == '\n' {
      SplitIsLines(s[2..]);
      assert (['\n'] + ReplaceCrlf(s[2..]))[1..] == ReplaceCrlf(s[2..]);
    } else {
      SplitIsLines(s[1..]);
      assert ([s[0]] + ReplaceCrlf(s[1..]))[1..] == ReplaceCrlf(s[1..]);
    }
  }

  predicate OneLine(line: Text) { '\n' !in line }

  predicate AllOneLine(lines: seq<Text>) { forall i | 0 <= i < |lines| :: OneLine(lines[i]) }

  lemma {:induction false} LinesHaveNoBreaks(s: Text)
    ensures AllOneLine(Split(s))
  {
    if s == [] {
    } else {
      LinesHaveNoBreaks(s[1..]);
    }
  }

  lemma {:induction false} TrimBlanksKeeps(line: Text)
    ensures TrimBlanks(line) <= line && TrimBlanks(TrimBlanks(line)) == TrimBlanks(line)
  {
    if line == [] || !Blank(line[|line| - 1]) {
    } else {
      TrimBlanksKeeps(line[..|line| - 1]);
    }
  }

  lemma TrimmedOneLine(lines: seq<Text>)
    requires AllOneLine(lines)
    ensures AllOneLine(Trimmed(lines))
  {
    forall i | 0 <= i < |lines| ensures OneLine(Trimmed(lines)[i]) {
      assert OneLine(lines[i]);
      TrimBlanksKeeps(lines[i]);
    }
  }

  /** Trimming newlines off the joined lines drops the empty lines at the end. */
  lemma {:induction false} TrimIsDrop(lines: seq<Text>)
    requires AllOneLine(lines)
    ensures TrimNewlines(Join(lines)) == Join(DropEmptyTail(lines))
  {
    if lines == [] {
    } else {
      var front, last := lines[..|lines| - 1], lines[|lines| - 1];
      var joined := Join(lines);
      assert OneLine(last);
      if last == [] {
        TrimIsDrop(front);
        if front != [] {
          assert joined == Join(front) + ['\n'];
          assert joined[..|joined| - 1] == Join(front);
        }
      } else {
        assert joined[|joined| - 1] == last[|last| - 1];
        assert last[|last| - 1] in last;
      }
    }
  }

  lemma {:induction false} SplitJoined(line: Text, rest: Text)
    requires OneLine(line)
    ensures Split(line + ['\n'] + rest) == [line] + Split(rest) && Split(line) == [line]
  {
    if line == [] {
      assert (line + ['\n'] + rest)[1..] == rest;
    } else {
      assert line[0] in line && forall c | c in line[1..] :: c in line;
      assert (line + ['\n'] + rest)[1..] == line[1..] + ['\n'] + rest;
      SplitJoined(line[1..], rest);
      assert line == [line[0]] + line[1..];
    }
  }

  lemma {:induction false} JoinFront(lines: seq<Text>)
    requires |lines| > 1
    ensures Join(lines) == lines[0] + ['\n'] + Join(lines[1..])
  {
    if |lines| == 2 {
    } else {
      var front, last := lines[..|lines| - 1], lines[|lines| - 1];
      JoinFront(front);
      assert front[1..] == lines[1..][..|lines| - 2];
      assert Join(lines[1..]) == Join(front[1..]) + ['\n'] + last;
      assert lines[0] + ['\n'] + Join(front[1..]) + ['\n'] + last == lines[0] + ['\n'] + (Join(front[1..]) + ['\n'] + last);
    }
  }

  lemma {:induction false} SplitJoin(lines: seq<Text>)
    requires lines != [] && AllOneLine(lines)
    ensures Split(Join(lines)) == lines
  {
    assert OneLine(lines[0]);
    if |lines| == 1 {
      SplitJoined(lines[0], []);
    } else {
      JoinFront(lines);
      assert forall i | 0 <= i < |lines| - 1 :: OneLine(lines[1..][i]) by {
        assert forall i | 0 <= i < |lines| - 1 :: lines[1..][i] == lines[i + 1];
      }
      SplitJoin(lines[1..]);
      SplitJoined(lines[0], Join(lines[1..]));
      assert lines == [lines[0]] + lines[1..];
    }
  }

  lemma {:induction false} DropKeeps(lines: seq<Text>)
    ensures DropEmptyTail(lines) <= lines && DropEmptyTail(DropEmptyTail(lines)) == DropEmptyTail(lines)
    ensures var kept := DropEmptyTail(lines); kept != [] ==> kept[|kept| - 1] != []
  {
    if lines == [] || lines[|lines| - 1] != [] {
    } else {
      DropKeeps(lines[..|lines| - 1]);
    }
  }

  lemma ContentShape(s: Text)
    ensures AllOneLine(Content(s)) && Normalized(s) == Join(Content(s))
    ensures Content(s) != [] ==> Content(s)[|Content(s)| - 1] != []
  {
    SplitIsLines(s);
    LinesHaveNoBreaks(ReplaceCrlf(s));
    TrimmedOneLine(Lines(s));
    TrimIsDrop(Trimmed(Lines(s)));
    DropKeeps(Trimmed(Lines(s)));
    var all, kept := Trimmed(Lines(s)), Content(s);
    assert forall i | 0 <= i < |kept| :: kept[i] == all[i];
  }

  lemma JoinOfNone(lines: seq<Text>)
    requires AllOneLine(lines) && lines != [] && lines[|lines| - 1] != []
    ensures Join(lines) != []
  {
  }

  /** For all texts: two outputs are accepted as equal exactly when their content lines agree. */
  lemma AcceptsExactly(a: Text, b: Text)
    ensures Normalized(a) == Normalized(b) <==> Content(a) == Content(b)
  {
    ContentShape(a);
    ContentShape(b);
    var xs, ys := Content(a), Content(b);
    if Join(xs) == Join(ys) {
      if xs == [] {
        if ys != [] {
          JoinOfNone(ys);
        }
      } else if ys == [] {
        JoinOfNone(xs);
      } else {
        SplitJoin(xs);
        SplitJoin(ys);
      }
    }
  }

  datatype CheckResult = CheckResult(status: string, message: string)

  /** `ExactChecker.Check`. */
  method Check(answer: Text, output: Text) returns (r: CheckResult)
    ensures r.status == "AC" <==> Content(answer) == Content(output)
    ensures r == CheckResult("AC", "") || r == CheckResult("WA", "output differs")
  {
    var expected := Normalize(answer);
    var actual := Normalize(output);
    AcceptsExactly(answer, output);
    if expected == actual {
      return CheckResult("AC", "");
    }
    r := CheckResult("WA", "output differs");
  }

  // ----- normalising twice

  predicate HasCrlf(s: Text) {
    exists i | 0 <= i < |s| - 1 :: s[i] == '\r' && s[i + 1] == '\n'
  }

  lemma {:induction false} ReplaceShortens(s: Text)
    ensures |ReplaceCrlf(s)| <= |s|
    ensures if HasCrlf(s) then |ReplaceCrlf(s)| < |s| else ReplaceCrlf(s) == s
  {
    if s == [] {
    } else if |s| >= 2 && s[0] == '\r' && s[1] == '\n' {
      ReplaceShortens(s[2..]);
    } else {
      var rest := s[1..];
      ReplaceShortens(rest);
      assert s == [s[0]] + rest;
      if i :| 0 <= i < |s| - 1 && s[i] == '\r' && s[i + 1] == '\n' {
        assert rest[i - 1] == '\r' && rest[i] == '\n';
      }
      if i :| 0 <= i < |rest| - 1 && rest[i] == '\r' && rest[i + 1] == '\n' {
        assert s[i + 1] == '\r' && s[i + 2] == '\n';
      }
    }
  }

  lemma {:induction false} TrimNewlinesShortens(s: Text)
    ensures TrimNewlines(s) <= s
  {
    if s == [] || s[|s| - 1] != '\n' {
    } else {
      TrimNewlinesShortens(s[..|s| - 1]);
    }
  }

  lemma {:induction false} JoinSplit(s: Text)
    ensures Join(Split(s)) == s
  {
    if s == [] {
    } else {
      var rest := Split(s[1..]);
      JoinSplit(s[1..]);
      SplitFront(s);
      hide Join, Split;
      if s[0] == '\n' {
        JoinFront([[]] + rest);
        assert ([[]] + rest)[1..] == rest;
        assert [] + ['\n'] + s[1..] == s;
      } else {
        JoinGrown(rest, s[0]);
        assert [s[0]] + s[1..] == s;
      }
    }
  }

  lemma SplitFront(s: Text)
    requires s != []
    ensures var rest := Split(s[1..]);
      Split(s) == if s[0] == '\n' then [[]] + rest else [[s[0]] + rest[0]] + rest[1..]
  {
  }

  lemma JoinGrown(rest: seq<Text>, c: char)
    requires rest != []
    ensures Join([[c] + rest[0]] + rest[1..]) == [c] + Join(rest)
  {
    var lines := [[c] + rest[0]] + rest[1..];
    assert lines[1..] == rest[1..];
    if |rest| > 1 {
      JoinFront(lines);
      JoinFront(rest);
      hide Join;
      assert [c] + rest[0] + ['\n'] + Join(rest[1..]) == [c] + (rest[0] + ['\n'] + Join(rest[1..]));
    }
  }

  lemma {:induction false} JoinShortens(a: seq<Text>, b: seq<Text>)
    requires |a| == |b| && forall i | 0 <= i < |a| :: |a[i]| <= |b[i]|
    ensures |Join(a)| <= |Join(b)|
  {
    if |a| <= 1 {
    } else {
      JoinShortens(a[..|a| - 1], b[..|b| - 1]);
    }
  }

  lemma NormalizedShortens(s: Text)
    ensures |Normalized(s)| <= |ReplaceCrlf(s)|
  {
    var lines := Split(ReplaceCrlf(s));
    forall i | 0 <= i < |lines| ensures |Trimmed(lines)[i]| <= |lines[i]| {
      TrimBlanksKeeps(lines[i]);
    }
    JoinShortens(Trimmed(lines), lines);
    JoinSplit(ReplaceCrlf(s));
    TrimNewlinesShortens(Join(Trimmed(lines)));
  }

  lemma ContentTrimmed(s: Text)
    ensures Trimmed(Content(s)) == Content(s) && DropEmptyTail(Content(s)) == Content(s)
  {
    DropKeeps(Trimmed(Lines(s)));
    var all, kept := Trimmed(Lines(s)), Content(s);
    forall i | 0 <= i < |kept| ensures TrimBlanks(kept[i]) == kept[i] {
      assert kept[i] == all[i] == TrimBlanks(Lines(s)[i]);
      TrimBlanksKeeps(Lines(s)[i]);
    }
  }

  /** In terms of the result: normalising again changes it exactly when it holds a carriage return before a line feed. */
  lemma ChangesAgain(s: Text)
    ensures Normalized(Normalized(s)) == Normalized(s) <==> !HasCrlf(Normalized(s))
  {
    var once := Normalized(s);
    ReplaceShortens(once);
    if HasCrlf(once) {
      NormalizedShortens(once);
    } else {
      ContentShape(s);
      ContentTrimmed(s);
      var kept := Content(s);
      if kept != [] {
        SplitJoin(kept);
        TrimIsDrop(kept);
      } else {
        assert Trimmed([[]]) == [[]];
        assert Split([]) == [[]];
        assert Join([[]]) == [];
      }
    }
  }

  predicate EndsInReturn(line: Text) { line != [] && line[|line| - 1] == '\r' }

  /** Some line other than the last ends in a carriage return. */
  predicate InnerReturn(lines: seq<Text>) {
    exists i | 0 <= i < |lines| - 1 :: EndsInReturn(lines[i])
  }

  /** Joined lines hold a carriage return before a line feed where a line other than the last ends in one. */
  lemma {:induction false} JoinedCrlf(lines: seq<Text>)
    requires AllOneLine(lines)
    ensures HasCrlf(Join(lines)) <==> InnerReturn(lines)
  {
    if |lines| == 0 {
    } else if |lines| == 1 {
      assert OneLine(lines[0]);
    } else {
      var front, last := lines[..|lines| - 1], lines[|lines| - 1];
      assert OneLine(last) && forall i | 0 <= i < |front| :: OneLine(front[i]) && front[i] == lines[i];
      JoinedCrlf(front);
      LastOfJoin(front);
      CrlfAcross(Join(front), last);
    }
  }

  lemma LastOfJoin(lines: seq<Text>)
    requires lines != []
    ensures EndsInReturn(Join(lines)) <==> EndsInReturn(lines[|lines| - 1])
  {
  }

  lemma CrlfAcross(a: Text, b: Text)
    requires OneLine(b)
    ensures HasCrlf(a + ['\n'] + b) <==> HasCrlf(a) || EndsInReturn(a)
  {
    var s := a + ['\n'] + b;
    if i :| 0 <= i < |s| - 1 && s[i] == '\r' && s[i + 1] == '\n' {
      if i + 1 < |a| {
        assert a[i] == '\r' && a[i + 1] == '\n';
      }
    }
    if i :| 0 <= i < |a| - 1 && a[i] == '\r' && a[i + 1] == '\n' {
      assert s[i] == '\r' && s[i + 1] == '\n';
    }
    if EndsInReturn(a) {
      assert s[|a| - 1] == '\r' && s[|a|] == '\n';
    }
  }

  /** Which lines are kept: those with something but empty lines at or after them. */
  lemma {:induction false} KeptLines(lines: seq<Text>, i: nat)
    requires i < |lines|
    ensures i < |DropEmptyTail(lines)| <==> exists j | i <= j < |lines| :: lines[j] != []
  {
    if lines[|lines| - 1] == [] {
      var front := lines[..|lines| - 1];
      DropKeeps(front);
      if i < |front| {
        KeptLines(front, i);
        assert forall j | i <= j < |front| :: front[j] == lines[j];
      }
    } else {
      assert lines[|lines| - 1] != [];
    }
  }

  /** The line before the last kept one, or earlier: there is still something after it. */
  lemma {:induction false} KeptBefore(lines: seq<Text>, i: nat)
    requires i < |lines|
    ensures i < |DropEmptyTail(lines)| - 1 <==> exists j | i < j < |lines| :: lines[j] != []
  {
    if i + 1 < |lines| {
      KeptLines(lines, i + 1);
    } else {
      DropKeeps(lines);
    }
  }

  /** Some line ends in a carriage return, trailing blanks aside, and a later line holds more than blanks. */
  predicate StrayReturnIn(lines: seq<Text>) {
    exists i, j | 0 <= i < j < |lines| :: EndsInReturn(TrimBlanks(lines[i])) && TrimBlanks(lines[j]) != []
  }

  /**
   * Normalising is idempotent on a text exactly when none of the text's own lines ends in a carriage
   * return, trailing blanks aside, while a later line holds more than blanks.
   */
  lemma IdempotentExactly(s: Text)
    ensures Normalized(Normalized(s)) == Normalized(s) <==> !StrayReturnIn(Lines(s))
  {
    ChangesAgain(s);
    ContentShape(s);
    JoinedCrlf(Content(s));
    StrayKept(Lines(s));
    hide Normalized, HasCrlf, Join, DropEmptyTail, Trimmed, Lines, StrayReturnIn, InnerReturn, AllOneLine;
  }

  lemma StrayKept(lines: seq<Text>)
    ensures InnerReturn(DropEmptyTail(Trimmed(lines))) <==> StrayReturnIn(lines)
  {
    var all := Trimmed(lines);
    var kept := DropEmptyTail(all);
    DropKeeps(all);
    hide DropEmptyTail, TrimBlanks;
    if InnerReturn(kept) {
      var i :| 0 <= i < |kept| - 1 && EndsInReturn(kept[i]);
      KeptBefore(all, i);
      var j :| i < j < |all| && all[j] != [];
      assert kept[i] == all[i] == TrimBlanks(lines[i]) && all[j] == TrimBlanks(lines[j]);
    }
    if StrayReturnIn(lines) {
      var i, j :| 0 <= i < j < |lines| && EndsInReturn(TrimBlanks(lines[i])) && TrimBlanks(lines[j]) != [];
      assert all[j] != [];
      KeptBefore(all, i);
      assert kept[i] == all[i];
    }
  }

  /** Carriage returns occur only right before a line feed. */
  predicate PairedReturns(s: Text) {
    forall i | 0 <= i < |s| && s[i] == '\r' :: i + 1 < |s| && s[i + 1] == '\n'
  }

  lemma {:induction false} PairsReplaced(s: Text)
    requires PairedReturns(s)
    ensures '\r' !in ReplaceCrlf(s)
  {
    if s == [] {
    } else if |s| >= 2 && s[0] == '\r' && s[1] == '\n' {
      assert forall i | 0 <= i < |s| - 2 :: s[2..][i] == s[i + 2];
      PairsReplaced(s[2..]);
    } else {
      assert forall i | 0 <= i < |s| - 1 :: s[1..][i] == s[i + 1];
      PairsReplaced(s[1..]);
    }
  }

  lemma {:induction false} SplitChars(s: Text, c: char)
    requires c !in s
    ensures forall i | 0 <= i < |Split(s)| :: c !in Split(s)[i]
  {
    if s == [] {
    } else {
      assert s[0] in s && forall x | x in s[1..] :: x in s;
      SplitChars(s[1..], c);
    }
  }

  lemma {:induction false} JoinChars(lines: seq<Text>, c: char)
    requires c != '\n' && forall i | 0 <= i < |lines| :: c !in lines[i]
    ensures c !in Join(lines)
  {
    if |lines| <= 1 {
    } else {
      JoinChars(lines[..|lines| - 1], c);
    }
  }

  /** So for texts whose carriage returns come in such pairs, normalising is idempotent. */
  lemma PairedIdempotent(s: Text)
    requires PairedReturns(s)
    ensures '\r' !in Normalized(s) && Normalized(Normalized(s)) == Normalized(s)
  {
    PairsReplaced(s);
    var lines := Split(ReplaceCrlf(s));
    SplitChars(ReplaceCrlf(s), '\r');
    forall i | 0 <= i < |lines| ensures '\r' !in Trimmed(lines)[i] {
      TrimBlanksKeeps(lines[i]);
    }
    JoinChars(Trimmed(lines), '\r');
    TrimNewlinesShortens(Join(Trimmed(lines)));
    ChangesAgain(s);
  }

  /** A carriage return that is not part of a pair can form one: CR CR LF b becomes CR LF b, then LF b. */
  lemma StrayReturn()
    ensures var s := ['\r', '\r', '\n', 'b'];
      Normalized(s) == ['\r', '\n', 'b'] && Normalized(Normalized(s)) != Normalized(s)
  {
    var s, t: Text := ['\r', '\r', '\n', 'b'], ['\r', '\n', 'b'];
    assert s[1..] == t && t[2..] == ['b'];
    assert ReplaceCrlf(['b']) == ['b'];
    assert ReplaceCrlf(t) == ['\n', 'b'];
    assert ReplaceCrlf(s) == t;
    SplitJoined(['\r'], ['b']);
    SplitJoined(['b'], []);
    assert ['\r'] + ['\n'] + ['b'] == t;
    var lines := [['\r'], ['b']];
    assert Trimmed(lines) == lines;
    JoinFront(lines);
    assert t[0] == '\r' && t[1] == '\n';
    ChangesAgain(s);
    hide Split, ReplaceCrlf;
  }
}
