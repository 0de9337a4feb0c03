/** The string primitives both implementations rely on, each with the rule
    of the language it comes from. A string is a sequence of Unicode code
    points: Go's byte strings are read as their UTF-8 decoding.

    - Go `unicode.IsSpace` (used by `strings.Fields` and `strings.TrimSpace`)
      and Python `str.isspace` (used by `str.split()` and `str.strip()`)
      differ in four control characters, U+001C to U+001F.
    - Go `bufio.Scanner` splits on "\n" only and drops one trailing "\r";
      Python `str.splitlines` breaks on eleven line-boundary characters.
    - `Split` is both Go `strings.Split`/`bytes.Split` and Python
      `str.split(sep)` with a one-character separator. */
module Text {

  // ---------------------------------------------------------------------
  // Character classes

  /** Go's `unicode.IsSpace`. */
  predicate GoIsSpace(c: char) {
    var n := c as int;
    (9 <= n <= 13) || n == 0x20 || n == 0x85 || n == 0xA0 || n == 0x1680
    || (0x2000 <= n <= 0x200A) || n == 0x2028 || n == 0x2029 || n == 0x202F
    || n == 0x205F || n == 0x3000
  }

  /** Python's `str.isspace` on one character: Go's set plus the four
      information separators U+001C to U+001F. */
  predicate PyIsSpace(c: char) {
    GoIsSpace(c) || (0x1C <= c as int <= 0x1F)
  }

  /** The characters Python's `str.splitlines` breaks lines at. */
  predicate PyLineBreak(c: char) {
    var n := c as int;
    (10 <= n <= 13) || (0x1C <= n <= 0x1E) || n == 0x85 || n == 0x2028 || n == 0x2029
  }

  predicate AllSpace(s: string, isSpace: char -> bool) {
    forall i :: 0 <= i < |s| ==> isSpace(s[i])
  }

  predicate NoSpace(s: string, isSpace: char -> bool) {
    forall i :: 0 <= i < |s| ==> !isSpace(s[i])
  }

  // ---------------------------------------------------------------------
  // Trimming and whitespace fields

  /** `s` without its leading white space. */
  function TrimLeft(s: string, isSpace: char -> bool): (r: string)
    ensures |r| <= |s| && r == s[|s| - |r|..]
    ensures AllSpace(s[..|s| - |r|], isSpace)
    ensures r == [] || !isSpace(r[0])
    decreases |s|
  {
    if s != [] && isSpace(s[0]) then TrimLeft(s[1..], isSpace) else s
  }

  /** `s` without its trailing white space. */
  function TrimRight(s: string, isSpace: char -> bool): (r: string)
    ensures |r| <= |s| && r == s[..|r|]
    ensures AllSpace(s[|r|..], isSpace)
    ensures r == [] || !isSpace(r[|r| - 1])
    decreases |s|
  {
    if s != [] && isSpace(s[|s| - 1]) then TrimRight(s[..|s| - 1], isSpace) else s
  }

  /** Go `strings.TrimSpace` and Python `str.strip()`: the infix of `s`
      between its leading and its trailing white space. */
  function TrimSpace(s: string, isSpace: char -> bool): (r: string)
    ensures |r| <= |s|
    ensures r == [] <==> AllSpace(s, isSpace)
    ensures r != [] ==> !isSpace(r[0]) && !isSpace(r[|r| - 1])
  {
    var l := TrimLeft(s, isSpace);
    assert l == [] ==> s[..|s|] == s;
    assert l != [] ==> !AllSpace(s, isSpace) by {
      if l != [] {
        assert s[|s| - |l|] == l[0];
      }
    }
    var r := TrimRight(l, isSpace);
    assert r == [] ==> l[|r|..] == l;
    r
  }

  /** The longest prefix of `s` without white space. */
  function Token(s: string, isSpace: char -> bool): (t: string)
    ensures t <= s && NoSpace(t, isSpace)
    ensures |t| < |s| ==> isSpace(s[|t|])
    ensures s != [] && !isSpace(s[0]) ==> |t| >= 1
    decreases |s|
  {
    if s == [] || isSpace(s[0]) then [] else [s[0]] + Token(s[1..], isSpace)
  }

  /** The first word is the only space-free prefix followed by a space or
      by the end. */
  lemma {:induction false} TokenUnique(s: string, isSpace: char -> bool, n: nat)
    requires n <= |s| && NoSpace(s[..n], isSpace) && (n == |s| || isSpace(s[n]))
    ensures Token(s, isSpace) == s[..n]
    decreases n
  {
    if n == 0 {
      assert s == [] || isSpace(s[0]);
    } else {
      assert s[..n][0] == s[0];
      assert !isSpace(s[0]);
      var t := s[1..];
      var w := t[..n - 1];
      assert w == s[..n][1..];
      assert NoSpace(w, isSpace) by {
        forall i | 0 <= i < |w| ensures !isSpace(w[i]) {
          assert w[i] == s[..n][i + 1];
        }
      }
      assert n - 1 == |t| || t[n - 1] == s[n];
      TokenUnique(t, isSpace, n - 1);
      assert Token(s, isSpace) == [s[0]] + t[..n - 1];
      assert [s[0]] + t[..n - 1] == s[..n];
    }
  }

  /** Go `strings.Fields` and Python `str.split()`: the maximal runs of
      non-space characters, in order. */
  function Fields(s: string, isSpace: char -> bool): (fs: seq<string>)
    ensures forall i :: 0 <= i < |fs| ==> fs[i] != [] && NoSpace(fs[i], isSpace)
    ensures fs == [] <==> AllSpace(s, isSpace)
    decreases |s|
  {
    if s == [] then []
    else if isSpace(s[0]) then Fields(s[1..], isSpace)
    else
      var t := Token(s, isSpace);
      [t] + Fields(s[|t|..], isSpace)
  }

  /** The first field is the leading run of non-space characters once the
      leading white space is skipped. */
  lemma {:induction false} FirstField(s: string, isSpace: char -> bool)
    requires !AllSpace(s, isSpace)
    ensures Fields(s, isSpace)[0] == Token(TrimLeft(s, isSpace), isSpace)
    decreases |s|
  {
    if isSpace(s[0]) {
      assert !AllSpace(s[1..], isSpace) by {
        var i :| 0 <= i < |s| && !isSpace(s[i]);
        assert s[1..][i - 1] == s[i];
      }
      FirstField(s[1..], isSpace);
    }
  }

  /** A string that starts with a non-space character: its first field is
      its first word, which starts with that character. */
  lemma LeadingField(s: string, isSpace: char -> bool)
    requires s != [] && !isSpace(s[0])
    ensures Fields(s, isSpace) != [] && Token(s, isSpace) != []
    ensures Fields(s, isSpace)[0] == Token(s, isSpace) && Token(s, isSpace)[0] == s[0]
  {
    assert !AllSpace(s, isSpace);
    FirstField(s, isSpace);
    assert TrimLeft(s, isSpace) == s;
  }

  // ---------------------------------------------------------------------
  // Prefixes and substrings

  /** Python `str.startswith` with a tuple, or a regular expression
      `^(a|b|c)` of literal alternatives. */
  predicate StartsWithAny(s: string, prefixes: seq<string>) {
    exists k :: 0 <= k < |prefixes| && prefixes[k] <= s
  }

  /** Go `strings.Contains` and Python's `sub in s`. */
  predicate Contains(s: string, sub: string)
    decreases |s|
  {
    sub <= s || (s != [] && Contains(s[1..], sub))
  }

  /** Containing a one-character string is containing that character. */
  lemma {:induction false} ContainsChar(s: string, c: char)
    ensures Contains(s, [c]) <==> c in s
    decreases |s|
  {
    if s != [] {
      ContainsChar(s[1..], c);
      assert s == [s[0]] + s[1..];
    }
  }

  // ---------------------------------------------------------------------
  // Splitting on a one-character separator, and joining

  /** The position of the first `c` in `s`. */
  function IndexOf(s: string, c: char): (i: nat)
    requires c in s
    ensures i < |s| && s[i] == c && c !in s[..i]
    decreases |s|
  {
    if s[0] == c then 0
    else
      var j := IndexOf(s[1..], c);
      assert s[..j + 1] == [s[0]] + s[1..][..j];
      j + 1
  }

  /** Go `strings.Split`/`bytes.Split` and Python `str.split(sep)` for a
      one-character separator: the pieces between the separators, one more
      piece than there are separators. */
  function Split(s: string, sep: char): (parts: seq<string>)
    ensures |parts| == multiset(s)[sep] + 1
    ensures forall i :: 0 <= i < |parts| ==> sep !in parts[i]
    decreases |s|
  {
    if sep !in s then
      assert multiset(s)[sep] == 0;
      [s]
    else
      var i := IndexOf(s, sep);
      assert s == s[..i] + [sep] + s[i + 1..];
      assert multiset(s[..i])[sep] == 0;
      [s[..i]] + Split(s[i + 1..], sep)
  }

  /** Go `strings.Join` and Python `sep.join(xs)`. */
  function Join(xs: seq<string>, sep: string): string
    decreases |xs|
  {
    if xs == [] then "" else if |xs| == 1 then xs[0] else xs[0] + sep + Join(xs[1..], sep)
  }

  /** Splitting at a separator that does not occur before it. */
  lemma SplitAt(a: string, b: string, sep: char)
    requires sep !in a
    ensures Split(a + [sep] + b, sep) == [a] + Split(b, sep)
  {
    var s := a + [sep] + b;
    assert s[..|a|] == a && s[|a|] == sep && s[|a| + 1..] == b;
    var i := IndexOf(s, sep);
    assert i == |a|;
  }

  /** Joining the pieces gives the string back. */
  lemma {:induction false} JoinSplit(s: string, sep: char)
    ensures Join(Split(s, sep), [sep]) == s
    decreases |s|
  {
    if sep in s {
      var i := IndexOf(s, sep);
      var head, tail := s[..i], s[i + 1..];
      var rest := Split(tail, sep);
      assert Split(s, sep) == [head] + rest;
      assert Join([head] + rest, [sep]) == head + [sep] + Join(rest, [sep]) by {
        assert |rest| >= 1;
        assert ([head] + rest)[0] == head && ([head] + rest)[1..] == rest;
      }
      assert Join(rest, [sep]) == tail by {
        JoinSplit(tail, sep);
      }
      assert s == head + [sep] + tail;
    }
  }

  /** Splitting a join of separator-free pieces gives the pieces back. */
  lemma {:induction false} SplitJoin(xs: seq<string>, sep: char)
    requires xs != []
    requires forall i :: 0 <= i < |xs| ==> sep !in xs[i]
    ensures Split(Join(xs, [sep]), sep) == xs
    decreases |xs|
  {
    if |xs| > 1 {
      var rest := xs[1..];
      var joined := Join(rest, [sep]);
      assert Join(xs, [sep]) == xs[0] + [sep] + joined;
      assert Split(joined, sep) == rest by {
        assert forall i :: 0 <= i < |rest| ==> rest[i] == xs[i + 1];
        SplitJoin(rest, sep);
      }
      assert Split(xs[0] + [sep] + joined, sep) == [xs[0]] + Split(joined, sep) by {
        assert sep !in xs[0];
        SplitAt(xs[0], joined, sep);
      }
      HeadRest(xs);
    }
  }

  /** The text before the first `c` (all of `s` when there is none):
      Go `strings.SplitN(s, c, 2)[0]`. */
  function BeforeFirst(s: string, c: char): (r: string)
    ensures r <= s && c !in r
    ensures |r| < |s| ==> s[|r|] == c
    decreases |s|
  {
    if s == [] || s[0] == c then [] else [s[0]] + BeforeFirst(s[1..], c)
  }

  /** `BeforeFirst` is the only prefix without `c` that is followed by `c`
      or by the end of `s`. */
  lemma BeforeFirstUnique(s: string, c: char, n: nat)
    requires n <= |s| && c !in s[..n] && (n == |s| || s[n] == c)
    ensures BeforeFirst(s, c) == s[..n]
  {
  }

  /** A prefix without `c` is kept whole. */
  lemma {:induction false} BeforeFirstAppend(a: string, b: string, c: char)
    requires c !in a
    ensures BeforeFirst(a + b, c) == a + BeforeFirst(b, c)
    decreases |a|
  {
    if a != [] {
      assert (a + b)[1..] == a[1..] + b;
      BeforeFirstAppend(a[1..], b, c);
    } else {
      assert a + b == b;
    }
  }

  /** The first piece of a split is the text before the first separator. */
  lemma SplitHead(s: string, sep: char)
    ensures Split(s, sep)[0] == BeforeFirst(s, sep)
  {
    var b := BeforeFirst(s, sep);
    if |b| < |s| {
      assert s == b + [sep] + s[|b| + 1..];
      SplitAt(b, s[|b| + 1..], sep);
    } else {
      assert b == s;
    }
  }

  // ---------------------------------------------------------------------
  // Lines

  /** The text of `xs` with each element followed by a newline, as
      repeated `WriteString(x + "\n")` or `+= f"...\n"` build it. */
  function Unlines(xs: seq<string>): string
    decreases |xs|
  {
    if xs == [] then "" else xs[0] + "\n" + Unlines(xs[1..])
  }

  predicate NoNewline(s: string) {
    '\n' !in s
  }

  predicate NoNewlines(xs: seq<string>) {
    forall i :: 0 <= i < |xs| ==> NoNewline(xs[i])
  }

  /** A value between two newline-free pieces stays on one line. */
  lemma Wrapped(pre: string, x: string, post: string)
    requires NoNewline(pre) && NoNewline(x) && NoNewline(post)
    ensures NoNewline(pre + x + post)
  {
  }

  lemma NoNewlinesConcat(xs: seq<string>, ys: seq<string>)
    requires NoNewlines(xs) && NoNewlines(ys)
    ensures NoNewlines(xs + ys)
  {
    forall i | 0 <= i < |xs + ys| ensures NoNewline((xs + ys)[i]) {
      if i >= |xs| {
        assert (xs + ys)[i] == ys[i - |xs|];
      }
    }
  }

  lemma {:induction false} UnlinesConcat(xs: seq<string>, ys: seq<string>)
    ensures Unlines(xs + ys) == Unlines(xs) + Unlines(ys)
    decreases |xs|
  {
    if xs == [] {
      assert xs + ys == ys;
    } else {
      assert (xs + ys)[1..] == xs[1..] + ys;
      UnlinesConcat(xs[1..], ys);
    }
  }

  /** Newline-terminated lines followed by an unterminated last line split
      back into exactly those lines. */
  lemma {:induction false} SplitUnlines(xs: seq<string>, last: string)
    requires NoNewlines(xs) && NoNewline(last)
    ensures Split(Unlines(xs) + last, '\n') == xs + [last]
    decreases |xs|
  {
    if xs == [] {
      assert Unlines(xs) + last == last;
    } else {
      var tail := Unlines(xs[1..]) + last;
      NoNewlinesTail(xs);
      assert Split(tail, '\n') == xs[1..] + [last] by {
        SplitUnlines(xs[1..], last);
      }
      assert Split(Unlines(xs) + last, '\n') == [xs[0]] + Split(tail, '\n') by {
        UnlinesCons(xs, last);
        SplitAt(xs[0], tail, '\n');
      }
      ConsTail(xs, last);
    }
  }

  lemma ConsTail<T>(xs: seq<T>, last: T)
    requires xs != []
    ensures [xs[0]] + (xs[1..] + [last]) == xs + [last]
  {
  }

  lemma NoNewlinesTail(xs: seq<string>)
    requires xs != [] && NoNewlines(xs)
    ensures NoNewline(xs[0]) && NoNewlines(xs[1..])
  {
    forall i | 0 <= i < |xs[1..]| ensures NoNewline(xs[1..][i]) {
      assert xs[1..][i] == xs[i + 1];
    }
  }

  lemma UnlinesCons(xs: seq<string>, last: string)
    requires xs != []
    ensures Unlines(xs) + last == xs[0] + ['\n'] + (Unlines(xs[1..]) + last)
  {
  }

  /** Python `"\n".join(xs) + "\n"` terminates every line. */
  lemma {:induction false} JoinLinesTerminated(xs: seq<string>)
    requires xs != []
    ensures Join(xs, "\n") + "\n" == Unlines(xs)
    decreases |xs|
  {
    if |xs| > 1 {
      JoinLinesTerminated(xs[1..]);
    }
  }

  /** Terminated lines followed by one unterminated line are their join. */
  lemma {:induction false} JoinAfterUnlines(xs: seq<string>, last: string)
    ensures Join(xs + [last], "\n") == Unlines(xs) + last
    decreases |xs|
  {
    if xs != [] {
      JoinAfterUnlines(xs[1..], last);
      assert (xs + [last])[1..] == xs[1..] + [last];
    }
  }

  /** One more terminated line. */
  lemma UnlinesSnoc(xs: seq<string>, line: string)
    ensures Unlines(xs + [line]) == Unlines(xs) + line + "\n"
  {
    UnlinesConcat(xs, [line]);
    assert [line][1..] == [];
  }

  /** Text that holds some terminated lines, with one more line and its
      newline written after it, holds one more terminated line. */
  lemma AppendLine(text: string, xs: seq<string>, line: string)
    requires text == Unlines(xs)
    ensures text + line + "\n" == Unlines(xs + [line])
  {
    UnlinesSnoc(xs, line);
  }

  /** The last terminated line. */
  lemma UnlinesLast(xs: seq<string>)
    requires xs != []
    ensures Unlines(xs) == Unlines(xs[..|xs| - 1]) + xs[|xs| - 1] + "\n"
  {
    LastOne(xs);
    UnlinesSnoc(xs[..|xs| - 1], xs[|xs| - 1]);
  }

  /** Terminated lines, then two unterminated ones. */
  lemma JoinLastTwo(xs: seq<string>)
    requires |xs| >= 2
    ensures Join(xs, "\n") == Unlines(xs[..|xs| - 2]) + xs[|xs| - 2] + ("\n" + xs[|xs| - 1])
  {
    var front, next, last := xs[..|xs| - 2], xs[|xs| - 2], xs[|xs| - 1];
    assert Join(xs, "\n") == Unlines(front + [next]) + last by {
      LastTwo(xs);
      JoinAfterUnlines(front + [next], last);
    }
    assert Unlines(front + [next]) == Unlines(front) + next + "\n" by {
      UnlinesSnoc(front, next);
    }
    AppendAssoc(Unlines(front) + next, "\n", last);
  }

  lemma ConsCons<T>(a: T, b: T, xs: seq<T>)
    ensures [a] + ([b] + xs) == [a, b] + xs
  {
  }

  lemma HeadRest<T>(xs: seq<T>)
    requires xs != []
    ensures xs == [xs[0]] + xs[1..]
  {
  }

  lemma LastOne<T>(xs: seq<T>)
    requires xs != []
    ensures xs == xs[..|xs| - 1] + [xs[|xs| - 1]]
  {
  }

  lemma LastTwo<T>(xs: seq<T>)
    requires |xs| >= 2
    ensures xs == (xs[..|xs| - 2] + [xs[|xs| - 2]]) + [xs[|xs| - 1]]
  {
  }

  lemma SeqAssoc<T>(a: seq<T>, b: seq<T>, c: seq<T>)
    ensures a + b + c == a + (b + c)
  {
  }

  lemma AppendAssoc(a: string, b: string, c: string)
    ensures a + b + c == a + (b + c)
  {
  }

  /** Newline-free lines joined by newlines split back into those lines. */
  lemma SplitJoinedLines(xs: seq<string>)
    requires xs != [] && NoNewlines(xs)
    ensures Split(Join(xs, "\n"), '\n') == xs
  {
    SplitJoin(xs, '\n');
  }

  /** Go `bufio.Scanner` with its default `ScanLines`: the lines of `s`
      without their "\n" and without one trailing "\r"; no empty token after
      a final newline, none at all for empty input. */
  function ScanLines(s: string): (lines: seq<string>)
    ensures forall i :: 0 <= i < |lines| ==> NoNewline(lines[i])
    decreases |s|
  {
    if s == [] then []
    else if '\n' !in s then [DropCR(s)]
    else
      var i := IndexOf(s, '\n');
      [DropCR(s[..i])] + ScanLines(s[i + 1..])
  }

  /** One trailing carriage return removed. */
  function DropCR(s: string): (r: string)
    ensures r == s || (s == r + ['\r'])
  {
    if s != [] && s[|s| - 1] == '\r' then s[..|s| - 1] else s
  }

  /** Python `str.splitlines()`: lines ended by any line boundary, where
      "\r\n" counts as one; no empty line after a final boundary. */
  function PySplitLines(s: string): (lines: seq<string>)
    ensures forall i, j :: 0 <= i < |lines| && 0 <= j < |lines[i]| ==> !PyLineBreak(lines[i][j])
    decreases |s|
  {
    if s == [] then []
    else
      var line := LineBody(s);
      if |line| == |s| then [s]
      else
        var next := if s[|line|] == '\r' && |line| + 1 < |s| && s[|line| + 1] == '\n'
                    then |line| + 2 else |line| + 1;
        [line] + PySplitLines(s[next..])
  }

  /** The text of `s` before its first Python line boundary. */
  function LineBody(s: string): (r: string)
    ensures r <= s
    ensures forall j :: 0 <= j < |r| ==> !PyLineBreak(r[j])
    ensures |r| < |s| ==> PyLineBreak(s[|r|])
    decreases |s|
  {
    if s == [] || PyLineBreak(s[0]) then [] else [s[0]] + LineBody(s[1..])
  }

  /** A line without a boundary, then "\n": the line is the text before
      the boundary. */
  lemma {:induction false} LineBodyOfLine(l: string, rest: string)
    requires forall j :: 0 <= j < |l| ==> !PyLineBreak(l[j])
    ensures LineBody(l + "\n" + rest) == l
    decreases |l|
  {
    if l != [] {
      assert (l + "\n" + rest)[1..] == l[1..] + "\n" + rest;
      LineBodyOfLine(l[1..], rest);
    }
  }

  /** `splitlines` reads a line ended by "\n" as one line, then the rest. */
  lemma PySplitLinesCons(l: string, rest: string)
    requires forall j :: 0 <= j < |l| ==> !PyLineBreak(l[j])
    ensures PySplitLines(l + "\n" + rest) == [l] + PySplitLines(rest)
  {
    var s := l + "\n" + rest;
    LineBodyOfLine(l, rest);
    assert s[|l|] == '\n';
    assert s[|l| + 1..] == rest;
  }

  /** The scanner reads a newline-free line ended by "\n" as one token,
      then the rest. */
  lemma ScanLinesCons(l: string, rest: string)
    requires NoNewline(l)
    ensures ScanLines(l + "\n" + rest) == [DropCR(l)] + ScanLines(rest)
  {
    var s := l + "\n" + rest;
    assert s[|l|] == '\n';
    assert IndexOf(s, '\n') == |l|;
    assert s[..|l|] == l;
    assert s[|l| + 1..] == rest;
  }

  /** Lines written one per "\n" and scanned back by `bufio.Scanner` are
      the lines written, as long as none holds a newline or ends in the
      carriage return the scanner drops. */
  lemma {:induction false} ScanLinesUnlines(xs: seq<string>)
    requires forall i :: 0 <= i < |xs| ==> NoNewline(xs[i]) && DropCR(xs[i]) == xs[i]
    ensures ScanLines(Unlines(xs)) == xs
    decreases |xs|
  {
    if xs != [] {
      ScanLinesCons(xs[0], Unlines(xs[1..]));
      ScanLinesUnlines(xs[1..]);
      assert xs == [xs[0]] + xs[1..];
    }
  }

  /** Lines written one per "\n" and read back by `str.splitlines()` are
      the lines written, as long as none holds a Python line boundary. */
  lemma {:induction false} PySplitLinesUnlines(xs: seq<string>)
    requires forall i, j :: 0 <= i < |xs| && 0 <= j < |xs[i]| ==> !PyLineBreak(xs[i][j])
    ensures PySplitLines(Unlines(xs)) == xs
    decreases |xs|
  {
    if xs != [] {
      PySplitLinesCons(xs[0], Unlines(xs[1..]));
      PySplitLinesUnlines(xs[1..]);
      assert xs == [xs[0]] + xs[1..];
    }
  }

  /** Python's `xs[1:]`: all but the first element, empty for an empty list. */
  function Tail<T>(xs: seq<T>): seq<T> {
    if xs == [] then [] else xs[1..]
  }

  // ---------------------------------------------------------------------
  // Repetition and decimal numbers

  /** Go `strings.Repeat(s, n)`. */
  function Repeat(s: string, n: nat): string
    decreases n
  {
    if n == 0 then "" else s + Repeat(s, n - 1)
  }

  /** A one-character string repeated `n` times is `n` copies of it. */
  lemma {:induction false} RepeatChar(c: char, n: nat)
    ensures |Repeat([c], n)| == n
    ensures forall i :: 0 <= i < n ==> Repeat([c], n)[i] == c
    decreases n
  {
    if n > 0 {
      RepeatChar(c, n - 1);
    }
  }

  predicate IsDigit(c: char) {
    '0' <= c <= '9'
  }

  function DigitChar(d: nat): (c: char)
    requires d < 10
    ensures IsDigit(c) && c as int - '0' as int == d
  {
    ('0' as int + d) as char
  }

  /** The number `c - '0'` accumulates, read left to right:
      `v = v*10 + (c - '0')` for every character. For a string of decimal
      digits this is the number the digits denote. */
  function DigitsValue(s: string): int
    decreases |s|
  {
    if s == [] then 0 else DigitsValue(s[..|s| - 1]) * 10 + (s[|s| - 1] as int - '0' as int)
  }

  /** Go `fmt.Sprintf("%d", n)` and Python `str(n)` for a natural number:
      its decimal digits, without leading zeros. */
  function DecimalString(n: nat): (s: string)
    decreases n
  {
    if n < 10 then [DigitChar(n)] else DecimalString(n / 10) + [DigitChar(n % 10)]
  }

  /** A canonical decimal numeral: digits only, no leading zero except in "0". */
  predicate IsCanonicalDecimal(s: string) {
    |s| >= 1 && (forall i :: 0 <= i < |s| ==> IsDigit(s[i])) && (s[0] == '0' ==> s == "0")
  }

  /** `DecimalString(n)` is a canonical numeral that reads back as `n`. */
  lemma {:induction false} DecimalStringValue(n: nat)
    ensures IsCanonicalDecimal(DecimalString(n))
    ensures DigitsValue(DecimalString(n)) == n
    decreases n
  {
    if n >= 10 {
      DecimalStringValue(n / 10);
      var p := DecimalString(n / 10);
      assert p != "0" by {
        assert DigitsValue("0") == 0;
      }
      assert (p + [DigitChar(n % 10)])[..|p|] == p;
      assert (p + [DigitChar(n % 10)])[0] == p[0];
    }
  }

  /** Conversely a canonical numeral is the decimal string of its value. */
  lemma {:induction false} CanonicalDecimalRoundTrip(s: string)
    requires IsCanonicalDecimal(s)
    ensures DigitsValue(s) >= 0 && DecimalString(DigitsValue(s)) == s
    decreases |s|
  {
    if |s| == 1 {
      assert DigitsValue(s) == s[0] as int - '0' as int;
    } else {
      var init := s[..|s| - 1];
      assert init[0] == s[0];
      CanonicalDecimalRoundTrip(init);
      var v := DigitsValue(init);
      var d := s[|s| - 1] as int - '0' as int;
      assert s[0] != '0';
      assert v != 0 by {
        assert DecimalString(0)[0] == '0';
      }
      assert (v * 10 + d) / 10 == v && (v * 10 + d) % 10 == d;
      assert s == init + [s[|s| - 1]];
    }
  }
}
