/** Which differences between two outputs the exact checker overlooks: these, and no others. */
module OutputRules {
  import opened ExactChecker

  predicate Space(c: char) { c == ' ' || c == '\t' }

  predicate Spaces(s: Text) {
    forall i | 0 <= i < |s| :: Space(s[i])
  }

  predicate EndsIn(s: Text, c: char) {
    s != [] && s[|s| - 1] == c
  }

  // ----- lines

  /** The character before the first line. */
  function Grow(c: char, lines: seq<Text>): seq<Text>
    requires lines != []
  {
    [[c] + lines[0]] + lines[1..]
  }

  predicate StartsIn(s: Text, c: char) {
    s != [] && s[0] == c
  }

  lemma LinesFront(c: char, rest: Text)
    ensures c == '\n' ==> Lines([c] + rest) == [[]] + Lines(rest)
    ensures c == '\r' && StartsIn(rest, '\n') ==> Lines([c] + rest) == [[]] + Lines(rest[1..])
    ensures c != '\n' && !(c == '\r' && StartsIn(rest, '\n')) ==> Lines([c] + rest) == Grow(c, Lines(rest))
  {
    var s := [c] + rest;
    assert s[1..] == rest;
    assert rest != [] ==> s[2..] == rest[1..] && s[1] == rest[0];
  }

  lemma GrowConcat(c: char, x: seq<Text>, y: seq<Text>)
    requires x != []
    ensures Grow(c, x + y) == Grow(c, x) + y
  {
    assert (x + y)[1..] == x[1..] + y;
  }

  lemma NoLines()
    ensures Lines([]) == [[]]
  {
  }

  lemma {:induction false} LinesConcat(a: Text, b: Text)
    requires !EndsIn(a, '\r')
    ensures Lines(a + ['\n'] + b) == Lines(a) + Lines(b)
  {
    hide Lines, Grow;
    if a == [] {
      NoLines();
      assert a + ['\n'] + b == ['\n'] + b;
      LinesFront('\n', b);
    } else {
      var rest := a[1..];
      assert a == [a[0]] + rest && a + ['\n'] + b == [a[0]] + (rest + ['\n'] + b);
      LinesFront(a[0], rest);
      LinesFront(a[0], rest + ['\n'] + b);
      if a[0] == '\r' && StartsIn(rest, '\n') {
        assert (rest + ['\n'] + b)[1..] == rest[1..] + ['\n'] + b;
        LinesConcat(rest[1..], b);
        assert [[]] + (Lines(rest[1..]) + Lines(b)) == [[]] + Lines(rest[1..]) + Lines(b);
      } else {
        LinesConcat(rest, b);
        GrowConcat(a[0], Lines(rest), Lines(b));
        assert [[]] + (Lines(rest) + Lines(b)) == [[]] + Lines(rest) + Lines(b);
      }
    }
  }

  lemma {:induction false} LinesConcatReturn(a: Text, b: Text)
    ensures Lines(a + ['\r', '\n'] + b) == Lines(a) + Lines(b)
  {
    hide Lines, Grow;
    if a == [] {
      NoLines();
      assert a + ['\r', '\n'] + b == ['\r'] + (['\n'] + b);
      assert (['\n'] + b)[1..] == b;
      LinesFront('\r', ['\n'] + b);
    } else {
      var rest := a[1..];
      assert a == [a[0]] + rest && a + ['\r', '\n'] + b == [a[0]] + (rest + ['\r', '\n'] + b);
      LinesFront(a[0], rest);
      LinesFront(a[0], rest + ['\r', '\n'] + b);
      if a[0] == '\r' && StartsIn(rest, '\n') {
        assert (rest + ['\r', '\n'] + b)[1..] == rest[1..] + ['\r', '\n'] + b;
        LinesConcatReturn(rest[1..], b);
        assert [[]] + (Lines(rest[1..]) + Lines(b)) == [[]] + Lines(rest[1..]) + Lines(b);
      } else {
        LinesConcatReturn(rest, b);
        GrowConcat(a[0], Lines(rest), Lines(b));
        assert [[]] + (Lines(rest) + Lines(b)) == [[]] + Lines(rest) + Lines(b);
      }
    }
  }

  /** The last line with something after it. */
  function Longer(lines: seq<Text>, more: Text): seq<Text>
    requires lines != []
  {
    lines[..|lines| - 1] + [lines[|lines| - 1] + more]
  }

  lemma LongerGrown(c: char, lines: seq<Text>, more: Text)
    requires lines != []
    ensures Grow(c, Longer(lines, more)) == Longer(Grow(c, lines), more)
    ensures [[]] + Longer(lines, more) == Longer([[]] + lines, more)
  {
    if |lines| == 1 {
      assert [c] + (lines[0] + more) == ([c] + lines[0]) + more;
    }
  }

  /** Blanks after a text lengthen its last line. */
  lemma {:induction false} LinesSpaces(a: Text, blanks: Text)
    requires Spaces(blanks)
    ensures Lines(a + blanks) == Longer(Lines(a), blanks)
  {
    if a == [] {
      assert a + blanks == blanks;
      OnlySpaces(blanks);
    } else {
      var rest := a[1..];
      assert a == [a[0]] + rest && a + blanks == [a[0]] + (rest + blanks);
      assert StartsIn(rest + blanks, '\n') ==> StartsIn(rest, '\n') by {
        assert rest == [] ==> rest + blanks == blanks;
      }
      hide Lines, Grow, Longer, Spaces;
      LinesFront(a[0], rest);
      LinesFront(a[0], rest + blanks);
      if a[0] == '\r' && StartsIn(rest, '\n') {
        assert (rest + blanks)[1..] == rest[1..] + blanks;
        LinesSpaces(rest[1..], blanks);
        LongerGrown(a[0], Lines(rest[1..]), blanks);
      } else {
        LinesSpaces(rest, blanks);
        LongerGrown(a[0], Lines(rest), blanks);
      }
    }
  }

  lemma {:induction false} OnlySpaces(blanks: Text)
    requires Spaces(blanks)
    ensures Lines(blanks) == [blanks]
  {
    if blanks == [] {
    } else {
      assert Space(blanks[0]);
      OnlySpaces(blanks[1..]);
      assert [blanks[0]] + blanks[1..] == blanks;
    }
  }

  lemma {:induction false} TrimSpaces(line: Text, blanks: Text)
    requires Spaces(blanks)
    ensures TrimBlanks(line + blanks) == TrimBlanks(line)
  {
    if blanks == [] {
      assert line + blanks == line;
    } else {
      var n := |blanks| - 1;
      assert Space(blanks[n]);
      assert (line + blanks)[..|line + blanks| - 1] == line + blanks[..n];
      TrimSpaces(line, blanks[..n]);
    }
  }

  lemma TrimmedConcat(x: seq<Text>, y: seq<Text>)
    ensures Trimmed(x + y) == Trimmed(x) + Trimmed(y)
  {
    hide TrimBlanks;
  }

  lemma SpacesTrimmed(a: Text, blanks: Text)
    requires Spaces(blanks)
    ensures Trimmed(Lines(a + blanks)) == Trimmed(Lines(a))
  {
    var lines := Lines(a);
    var n := |lines| - 1;
    hide Lines, TrimBlanks, Spaces;
    LinesSpaces(a, blanks);
    TrimSpaces(lines[n], blanks);
    assert lines == lines[..n] + [lines[n]];
  }

  // ----- what is overlooked

  /** Blanks at the end of a line. */
  lemma TrailingBlanks(a: Text, blanks: Text, b: Text)
    requires Spaces(blanks) && !EndsIn(a, '\r')
    ensures Normalized(a + blanks + ['\n'] + b) == Normalized(a + ['\n'] + b)
    ensures Normalized(a + blanks) == Normalized(a)
  {
    NoReturn(a, blanks);
    LinesConcat(a + blanks, b);
    LinesConcat(a, b);
    TrimmedConcat(Lines(a + blanks), Lines(b));
    TrimmedConcat(Lines(a), Lines(b));
    SpacesTrimmed(a, blanks);
    hide Lines, Trimmed, Normalized, DropEmptyTail, EndsIn, Spaces;
    AcceptsExactly(a + blanks + ['\n'] + b, a + ['\n'] + b);
    AcceptsExactly(a + blanks, a);
  }

  lemma NoReturn(a: Text, blanks: Text)
    requires Spaces(blanks) && !EndsIn(a, '\r')
    ensures !EndsIn(a + blanks, '\r')
  {
    if blanks != [] {
      assert Space(blanks[|blanks| - 1]);
    } else {
      assert a + blanks == a;
    }
  }

  /** A carriage return before the end of a line. */
  lemma LineEndings(a: Text, b: Text)
    requires !EndsIn(a, '\r')
    ensures Normalized(a + ['\r', '\n'] + b) == Normalized(a + ['\n'] + b)
  {
    LinesConcat(a, b);
    LinesConcatReturn(a, b);
    hide Lines, Trimmed, Normalized, DropEmptyTail, EndsIn;
    AcceptsExactly(a + ['\r', '\n'] + b, a + ['\n'] + b);
  }

  /** A line feed at the end of the text. */
  lemma FinalLineFeed(a: Text)
    requires !EndsIn(a, '\r')
    ensures Normalized(a + ['\n']) == Normalized(a)
  {
    LinesConcat(a, []);
    assert a + ['\n'] + [] == a + ['\n'];
    TrimmedConcat(Lines(a), [[]]);
    var kept := Trimmed(Lines(a));
    EmptyTrimmed();
    assert (kept + [[]])[..|kept|] == kept;
    hide Lines, Trimmed, Normalized, EndsIn;
    AcceptsExactly(a + ['\n'], a);
  }

  lemma EmptyTrimmed()
    ensures Trimmed([[]]) == [[]] && Lines([]) == [[]]
  {
  }

  // ----- and nothing else

  /** No carriage return, no blank before the end of a line, no line feed at the end. */
  predicate Tidy(s: Text) {
    && (forall i | 0 <= i < |s| :: s[i] != '\r')
    && (forall i | 0 <= i < |s| && Space(s[i]) :: i + 1 < |s| && s[i + 1] != '\n')
    && !EndsIn(s, '\n')
  }

  /** The same without regard to the end of the text. */
  predicate TidyLines(s: Text) {
    && (forall i | 0 <= i < |s| :: s[i] != '\r')
    && (forall i | 0 <= i < |s| && Space(s[i]) :: i + 1 < |s| && s[i + 1] != '\n')
  }

  lemma {:induction false} NothingReplaced(s: Text)
    requires TidyLines(s)
    ensures ReplaceCrlf(s) == s
  {
    if s == [] {
    } else {
      TidyRest(s);
      assert s[0] != '\r';
      NothingReplaced(s[1..]);
      assert s == [s[0]] + s[1..];
    }
  }

  lemma TidyRest(s: Text)
    requires TidyLines(s) && s != []
    ensures TidyLines(s[1..])
  {
    var rest := s[1..];
    assert forall i | 0 <= i < |rest| :: rest[i] == s[i + 1];
    forall i | 0 <= i < |rest| && Space(rest[i]) ensures i + 1 < |rest| && rest[i + 1] != '\n' {
      assert Space(s[i + 1]) && s[i + 2] != '\n';
    }
  }

  predicate EndsVisible(line: Text) {
    line == [] || !Space(line[|line| - 1])
  }

  lemma {:induction false} TidySplit(s: Text)
    requires TidyLines(s)
    ensures forall i | 0 <= i < |Split(s)| :: EndsVisible(Split(s)[i])
    ensures s != [] && Space(s[0]) ==> Split(s[1..])[0] != []
  {
    if s == [] {
    } else {
      TidyRest(s);
      TidySplit(s[1..]);
      var rest := Split(s[1..]);
      if Space(s[0]) {
        assert s[1..][0] == s[1] && s[1] != '\n';
      }
      assert EndsVisible(rest[0]);
    }
  }

  lemma NothingTrimmed(lines: seq<Text>)
    requires forall i | 0 <= i < |lines| :: EndsVisible(lines[i])
    ensures Trimmed(lines) == lines
  {
    forall i | 0 <= i < |lines| ensures TrimBlanks(lines[i]) == lines[i] {
      assert EndsVisible(lines[i]);
    }
  }

  /** A tidy text is its own normal form, so two tidy outputs are accepted exactly when they are the same. */
  lemma TidyIsNormal(s: Text)
    requires Tidy(s)
    ensures Normalized(s) == s
  {
    assert TidyLines(s);
    NothingReplaced(s);
    TidySplit(s);
    NothingTrimmed(Split(s));
    JoinSplit(s);
    hide Split, Join, Trimmed, ReplaceCrlf;
  }
}
