/**
 * Line-level comparison of two files, as `difflib.Differ().compare(before, after)`
 * produces it: a sequence of tagged entries, of which only the inserted ones
 * (rendered `"+ line"`) are kept by the pull-request assembly.
 *
 * `Compare` is a longest-common-subsequence stand-in for the library's matcher;
 * the properties the assembly relies on are stated for ANY alignment
 * (`IsAlignment`), which every Differ output is.
 */
module LineDiff {

  /** One entry of the Differ output: `"  "`, `"- "`, `"+ "` and `"? "` lines. */
  datatype DiffEntry =
    | Equal(line: string)
    | Delete(line: string)
    | Insert(line: string)
    | Hint(guide: string)

  /** The "before" file the entries describe: the equal and deleted lines, in order. */
  function BeforeSide(d: seq<DiffEntry>): seq<string>
  {
    if d == [] then []
    else
      match d[0]
      case Equal(l) => [l] + BeforeSide(d[1..])
      case Delete(l) => [l] + BeforeSide(d[1..])
      case _ => BeforeSide(d[1..])
  }

  /** The "after" file the entries describe: the equal and inserted lines, in order. */
  function AfterSide(d: seq<DiffEntry>): seq<string>
  {
    if d == [] then []
    else
      match d[0]
      case Equal(l) => [l] + AfterSide(d[1..])
      case Insert(l) => [l] + AfterSide(d[1..])
      case _ => AfterSide(d[1..])
  }

  /** The inserted lines, in diff order. */
  function Inserted(d: seq<DiffEntry>): seq<string>
  {
    if d == [] then []
    else if d[0].Insert? then [d[0].line] + Inserted(d[1..])
    else Inserted(d[1..])
  }

  /** How many lines the entries match between the two files. */
  function Matched(d: seq<DiffEntry>): nat
  {
    if d == [] then 0 else (if d[0].Equal? then 1 else 0) + Matched(d[1..])
  }

  /** `d` is a line-by-line comparison of `before` with `after` (the contract of `Differ.compare`). */
  ghost predicate IsAlignment(before: seq<string>, after: seq<string>, d: seq<DiffEntry>)
  {
    BeforeSide(d) == before && AfterSide(d) == after
  }

  /**
   * Longest-common-subsequence comparison: equal heads are matched; otherwise the
   * alternative keeping more matches wins. On a tie the head of `after` is
   * inserted, so that the head of `before` stays available for a later match, as
   * the library's matcher prefers the match that comes first in `before`.
   */
  function Compare(before: seq<string>, after: seq<string>): (d: seq<DiffEntry>)
    ensures BeforeSide(d) == before && AfterSide(d) == after
    decreases |before| + |after|
  {
    if before == [] && after == [] then []
    else if before == [] then [Insert(after[0])] + Compare(before, after[1..])
    else if after == [] then [Delete(before[0])] + Compare(before[1..], after)
    else if before[0] == after[0] then [Equal(before[0])] + Compare(before[1..], after[1..])
    else
      var dropOld := Compare(before[1..], after);
      var dropNew := Compare(before, after[1..]);
      if Matched(dropOld) > Matched(dropNew) then [Delete(before[0])] + dropOld
      else [Insert(after[0])] + dropNew
  }

  /** The text line Differ writes for an entry. */
  function Render(e: DiffEntry): string
  {
    match e
    case Equal(l) => "  " + l
    case Delete(l) => "- " + l
    case Insert(l) => "+ " + l
    case Hint(g) => "? " + g
  }

  function RenderAll(d: seq<DiffEntry>): (lines: seq<string>)
    ensures |lines| == |d|
    ensures forall i :: 0 <= i < |d| ==> lines[i] == Render(d[i])
  {
    seq(|d|, i requires 0 <= i < |d| => Render(d[i]))
  }

  /** `[line[2:] for line in diff if line.startswith('+ ')]`. */
  function PlusLines(diff: seq<string>): seq<string>
  {
    if diff == [] then []
    else
      var l := diff[0];
      if |l| >= 2 && l[..2] == "+ " then [l[2..]] + PlusLines(diff[1..])
      else PlusLines(diff[1..])
  }

  /** Keeping the `"+ "` lines of the rendered diff, tag removed, yields exactly the inserted lines. */
  lemma {:induction false} PlusLinesOfRendered(d: seq<DiffEntry>)
    ensures PlusLines(RenderAll(d)) == Inserted(d)
  {
    if d != [] {
      var lines := RenderAll(d);
      assert lines[1..] == RenderAll(d[1..]);
      PlusLinesOfRendered(d[1..]);
      match d[0]
      case Insert(l) =>
        assert lines[0] == "+ " + l && lines[0][..2] == "+ " && lines[0][2..] == l;
      case Equal(l) =>
        assert lines[0][..2] == "  ";
      case Delete(l) =>
        assert lines[0][..2] == "- ";
      case Hint(g) =>
        assert lines[0][..2] == "? ";
    }
  }

  /** `sub` is `s` with some elements left out, order kept. */
  predicate IsSubsequence(sub: seq<string>, s: seq<string>)
    decreases |s|
  {
    sub == [] || (s != [] && ((sub[0] == s[0] && IsSubsequence(sub[1..], s[1..])) || IsSubsequence(sub, s[1..])))
  }

  lemma {:induction false} SubsequenceOfItself(s: seq<string>)
    ensures IsSubsequence(s, s)
  {
    if s != [] {
      SubsequenceOfItself(s[1..]);
    }
  }

  lemma {:induction false} SubsequenceLength(sub: seq<string>, s: seq<string>)
    requires IsSubsequence(sub, s)
    ensures |sub| <= |s|
    decreases |s|
  {
    if sub != [] {
      if sub[0] == s[0] && IsSubsequence(sub[1..], s[1..]) {
        SubsequenceLength(sub[1..], s[1..]);
      } else {
        SubsequenceLength(sub, s[1..]);
      }
    }
  }

  lemma {:induction false} InsertedWithinAfterSide(d: seq<DiffEntry>)
    ensures IsSubsequence(Inserted(d), AfterSide(d))
  {
    if d != [] {
      InsertedWithinAfterSide(d[1..]);
      match d[0]
      case Insert(l) =>
      case Equal(l) =>
        SkipHead(l, Inserted(d[1..]), AfterSide(d[1..]));
      case Delete(l) =>
      case Hint(g) =>
    }
  }

  lemma SkipHead(x: string, sub: seq<string>, s: seq<string>)
    requires IsSubsequence(sub, s)
    ensures IsSubsequence(sub, [x] + s)
  {
    assert ([x] + s)[1..] == s;
  }

  /**
   * Under the Differ contract, the inserted lines are a subsequence of the "after"
   * file, so there are never more of them than it has lines.
   */
  lemma InsertedAreSubsequenceOfAfter(before: seq<string>, after: seq<string>, d: seq<DiffEntry>)
    requires IsAlignment(before, after, d)
    ensures IsSubsequence(Inserted(d), after)
    ensures |Inserted(d)| <= |after|
  {
    InsertedWithinAfterSide(d);
    SubsequenceLength(Inserted(d), after);
  }

  /** Comparing a file with itself inserts nothing. */
  lemma {:induction false} CompareIdentical(s: seq<string>)
    ensures Inserted(Compare(s, s)) == []
  {
    if s != [] {
      CompareIdentical(s[1..]);
    }
  }

  /** Everything in the "after" file is inserted when the "before" file is empty. */
  lemma {:induction false} CompareFromEmpty(after: seq<string>)
    ensures Inserted(Compare([], after)) == after
  {
    if after != [] {
      CompareFromEmpty(after[1..]);
      assert [after[0]] + after[1..] == after;
    }
  }

  /** Nothing is inserted when the "after" file is empty. */
  lemma {:induction false} CompareToEmpty(before: seq<string>)
    ensures Inserted(Compare(before, [])) == []
  {
    if before != [] {
      CompareToEmpty(before[1..]);
    }
  }

  /** One line inserted into the middle of a file is the only inserted line. */
  lemma CompareInsertMiddle()
    ensures Inserted(Compare(["a", "b", "c"], ["a", "x", "b", "c"])) == ["x"]
  {
    CompareIdentical(["b", "c"]);
    assert Compare(["b", "c"], ["b", "c"]) == [Equal("b"), Equal("c")];
    assert Compare(["c"], ["x", "b", "c"]) == [Insert("x"), Insert("b"), Equal("c")] by {
      assert Compare(["c"], ["b", "c"]) == [Insert("b"), Equal("c")] by {
        assert Compare([], ["b", "c"]) == [Insert("b"), Insert("c")];
        assert Compare(["c"], ["c"]) == [Equal("c")];
      }
      assert Compare([], ["x", "b", "c"]) == [Insert("x"), Insert("b"), Insert("c")];
    }
  }

  /**
   * Two swapped lines: the first old line is kept and the line moved in front of
   * it is the only one reported as inserted (`"+ b"`, `"  a"`, `"- b"`).
   */
  lemma CompareSwapped()
    ensures Inserted(Compare(["a", "b"], ["b", "a"])) == ["b"]
  {
    assert Compare(["b"], ["b", "a"]) == [Equal("b"), Insert("a")];
    assert Compare(["a", "b"], ["a"]) == [Equal("a"), Delete("b")];
  }
}
