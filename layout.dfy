/** The pieces both report builders share: the horizontal rule, bullet
    lines, the inline comma-separated list, and the fact that a message
    assembled from newline-free lines splits back into exactly those lines. */
module Layout {
  import opened Text

  /** The rule: forty U+2501 box-drawing characters (a literal in the
      Python script, `strings.Repeat` in the Go program). */
  function Rule(): (r: string)
    ensures |r| == 40 && forall i :: 0 <= i < 40 ==> r[i] == '━'
  {
    seq(40, _ => '━')
  }

  /** The rule is Go's `strings.Repeat("━", 40)`. */
  lemma RuleIsRepeat()
    ensures Rule() == Repeat("━", 40)
  {
    RepeatChar('━', 40);
  }

  /** One bullet line without its newline: two spaces, the prefix, and the
      item in backticks. */
  function Bullet(prefix: string, item: string): string {
    "  " + prefix + "`" + item + "`"
  }

  /** One bullet line per item, in order. */
  function Bullets(items: seq<string>, prefix: string): (ls: seq<string>)
    ensures |ls| == |items|
    ensures forall i :: 0 <= i < |items| ==> ls[i] == Bullet(prefix, items[i])
  {
    seq(|items|, i requires 0 <= i < |items| => Bullet(prefix, items[i]))
  }

  /** The items joined by ", " and wrapped in backticks, on one line. */
  function Inline(items: seq<string>): string {
    "`" + Join(items, ", ") + "`"
  }

  /** The lines `"\n".join(ls) + "\n"` terminates: the lines themselves, or
      one empty line when there are none. */
  function JoinedLines(ls: seq<string>): (r: seq<string>)
    ensures Join(ls, "\n") + "\n" == Unlines(r)
    ensures ls != [] ==> r == ls
  {
    if ls == [] then
      assert Unlines([""]) == "\n";
      [""]
    else
      JoinLinesTerminated(ls);
      ls
  }

  lemma RuleNoNewline()
    ensures NoNewline(Rule())
  {
    assert forall i :: 0 <= i < |Rule()| ==> Rule()[i] != '\n';
  }

  /** A bullet of a newline-free item is one line. */
  lemma BulletsNoNewlines(items: seq<string>, prefix: string)
    requires NoNewlines(items) && NoNewline(prefix)
    ensures NoNewlines(Bullets(items, prefix))
  {
    forall i | 0 <= i < |items| ensures NoNewline(Bullets(items, prefix)[i]) {
      var b := Bullet(prefix, items[i]);
      assert b == "  " + prefix + "`" + items[i] + "`";
      assert forall k :: 0 <= k < |b| ==> b[k] == '\n' ==> false by {
        forall k | 0 <= k < |b| ensures b[k] != '\n' {
          if k < 2 + |prefix| + 1 {
            if 2 <= k < 2 + |prefix| {
              assert b[k] == prefix[k - 2];
            }
          } else if k < 3 + |prefix| + |items[i]| {
            assert b[k] == items[i][k - 3 - |prefix|];
          }
        }
      }
    }
  }

  /** A title line, a run of lines, then more lines. */
  lemma BlockText(title: string, body: seq<string>, rest: seq<string>)
    ensures Unlines([title] + body + rest) == title + "\n" + Unlines(body) + Unlines(rest)
  {
    UnlinesConcat([title] + body, rest);
    UnlinesConcat([title], body);
    assert Unlines([title]) == title + "\n" + Unlines([]);
  }

  /** A title line, a run of lines, then a closing line. */
  lemma ClosedBlock(title: string, body: seq<string>, closing: string)
    ensures Unlines([title] + body + [closing]) == title + "\n" + Unlines(body) + (closing + "\n")
  {
    BlockText(title, body, [closing]);
    assert Unlines([closing]) == closing + "\n" + Unlines([]);
  }

  /** A title, the lines `"\n".join(lines) + "\n"` terminates, and a
      closing line. */
  lemma JoinedBlock(title: string, lines: seq<string>, closing: string)
    requires lines != []
    ensures Unlines([title] + JoinedLines(lines) + [closing]) ==
      title + "\n" + Join(lines, "\n") + "\n" + (closing + "\n")
  {
    ClosedBlock(title, JoinedLines(lines), closing);
  }

  /** Three lines. */
  lemma ThreeLines(a: string, b: string, c: string)
    ensures Unlines([a, b, c]) == a + "\n" + b + "\n" + (c + "\n")
  {
    ClosedBlock(a, [b], c);
    assert [a] + [b] + [c] == [a, b, c];
    assert Unlines([b]) == b + "\n" + Unlines([]);
  }

  /** A message ending in two unterminated lines. */
  lemma JoinLast(xs: seq<string>, last: string, closing: string)
    ensures Join(xs + [last, closing], "\n") == Unlines(xs) + last + ("\n" + closing)
  {
    UnlinesSnoc(xs, last);
    JoinAfterUnlines(xs + [last], closing);
    assert xs + [last] + [closing] == xs + [last, closing];
  }

  lemma DecimalNoNewline(n: nat)
    ensures NoNewline(DecimalString(n))
  {
    DecimalStringValue(n);
    var s := DecimalString(n);
    assert forall k :: 0 <= k < |s| ==> s[k] != '\n';
  }

  lemma InlineNoNewline(items: seq<string>)
    requires NoNewlines(items)
    ensures NoNewline(Inline(items))
  {
    JoinNoNewline(items);
  }

  lemma {:induction false} JoinNoNewline(items: seq<string>)
    requires NoNewlines(items)
    ensures NoNewline(Join(items, ", "))
    decreases |items|
  {
    if |items| > 1 {
      JoinNoNewline(items[1..]);
      assert NoNewline(items[0]);
    } else if |items| == 1 {
      assert NoNewline(items[0]);
    }
  }

  /** A report's lines: nine prefix lines, the available block `avail`, a
      rule, the auto-updated block `upd`, the status and a closing rule. */
  ghost predicate Framed(ls: seq<string>, avail: seq<string>, upd: seq<string>, status: string, rule: string) {
    |ls| == 12 + |avail| + |upd| &&
    (forall i :: 0 <= i < |avail| ==> ls[9 + i] == avail[i]) &&
    ls[9 + |avail|] == rule &&
    (forall j :: 0 <= j < |upd| ==> ls[10 + |avail| + j] == upd[j]) &&
    ls[|ls| - 2] == status && ls[|ls| - 1] == rule
  }

  /** Where each part of a report sits among its lines, when the prefix
      has nine lines. */
  lemma Positions(pre: seq<string>, avail: seq<string>, rule: string, upd: seq<string>, status: string)
    requires |pre| == 9
    ensures Framed(pre + avail + [rule] + upd + [status, rule], avail, upd, status, rule)
  {
    var ls := pre + avail + [rule] + upd + [status, rule];
    assert forall i :: 0 <= i < |avail| ==> ls[9 + i] == avail[i];
    assert forall j :: 0 <= j < |upd| ==> ls[10 + |avail| + j] == upd[j];
  }
}
