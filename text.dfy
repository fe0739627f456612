/**
 * The string operations of the Python standard library that the core relies on:
 * `'\n'.join`, `str.split('\n')`, `str.splitlines()`, `str.replace(old, '')`,
 * slicing `s[:n]`, and `str()` of integers and of `None`.
 */
module Text {
  import opened Wrappers

  /** Number of occurrences of character `c` in `s` (`s.count(c)`). */
  function Occurrences(s: string, c: char): nat
  {
    if s == [] then 0 else (if s[0] == c then 1 else 0) + Occurrences(s[1..], c)
  }

  /** `s.split(c)`: the pieces between occurrences of `c`; one piece more than separators. */
  function Split(s: string, c: char): (r: seq<string>)
    ensures |r| == Occurrences(s, c) + 1
    ensures forall i :: 0 <= i < |r| ==> c !in r[i]
  {
    if s == [] then [""]
    else
      var rest := Split(s[1..], c);
      if s[0] == c then [""] + rest
      else [[s[0]] + rest[0]] + rest[1..]
  }

  /** `'\n'.join(parts)`: the parts in order, one newline between neighbours. */
  function JoinLines(parts: seq<string>): (r: string)
    ensures parts == [] ==> r == ""
    ensures parts != [] ==> parts[0] <= r
    ensures Occurrences(r, '\n') == Newlines(parts) + (if parts == [] then 0 else |parts| - 1)
  {
    if |parts| == 0 then ""
    else if |parts| == 1 then parts[0]
    else
      var rest := JoinLines(parts[1..]);
      OccurrencesAppend(parts[0], "\n" + rest, '\n');
      OccurrencesAppend("\n", rest, '\n');
      assert parts[0] + "\n" + rest == parts[0] + ("\n" + rest);
      parts[0] + "\n" + rest
  }

  /** The newlines inside the parts themselves. */
  function Newlines(parts: seq<string>): nat
  {
    if parts == [] then 0 else Occurrences(parts[0], '\n') + Newlines(parts[1..])
  }

  lemma {:induction false} OccurrencesAppend(a: string, b: string, c: char)
    ensures Occurrences(a + b, c) == Occurrences(a, c) + Occurrences(b, c)
  {
    if a != [] {
      OccurrencesAppend(a[1..], b, c);
      assert (a + b)[1..] == a[1..] + b;
    } else {
      assert a + b == b;
    }
  }

  lemma {:induction false} SplitNoSeparator(s: string, c: char)
    requires c !in s
    ensures Split(s, c) == [s]
  {
    if s != [] {
      assert s[0] != c && c !in s[1..];
      SplitNoSeparator(s[1..], c);
      assert [s[0]] + s[1..] == s;
    }
  }

  lemma {:induction false} SplitAtSeparator(x: string, c: char, y: string)
    requires c !in x
    ensures Split(x + [c] + y, c) == [x] + Split(y, c)
  {
    if x == [] {
      assert x + [c] + y == [c] + y;
      assert ([c] + y)[1..] == y;
    } else {
      var s := x + [c] + y;
      assert s[0] == x[0] && s[1..] == x[1..] + [c] + y;
      SplitAtSeparator(x[1..], c, y);
      assert [x[0]] + x[1..] == x;
    }
  }

  /** Round trip: splitting a `'\n'`-joined list of newline-free lines gives the lines back. */
  lemma {:induction false} SplitJoinLines(parts: seq<string>)
    requires parts != []
    requires forall i :: 0 <= i < |parts| ==> '\n' !in parts[i]
    ensures Split(JoinLines(parts), '\n') == parts
  {
    if |parts| == 1 {
      SplitNoSeparator(parts[0], '\n');
    } else {
      SplitJoinLines(parts[1..]);
      SplitAtSeparator(parts[0], '\n', JoinLines(parts[1..]));
      assert parts[0] + "\n" + JoinLines(parts[1..]) == parts[0] + ['\n'] + JoinLines(parts[1..]);
      assert [parts[0]] + parts[1..] == parts;
    }
  }

  /** The line boundaries modelled for `str.splitlines()`: `'\n'` and `'\r'` (and so `"\r\n"`). */
  predicate IsLineBreak(ch: char)
  {
    ch == '\n' || ch == '\r'
  }

  /** Index of the first line break of `s`, or `|s|` when there is none. */
  function LineEnd(s: string): (k: nat)
    ensures k <= |s|
    ensures forall j :: 0 <= j < k ==> !IsLineBreak(s[j])
    ensures k < |s| ==> IsLineBreak(s[k])
  {
    if s == [] || IsLineBreak(s[0]) then 0 else 1 + LineEnd(s[1..])
  }

  /**
   * `s.splitlines()`: the lines of `s` without their terminators; `"\r\n"` is one
   * terminator, and a terminator at the very end does not start another line.
   */
  function SplitLines(s: string): (r: seq<string>)
    ensures s != [] <==> r != []
    ensures forall i :: 0 <= i < |r| ==> forall j :: 0 <= j < |r[i]| ==> !IsLineBreak(r[i][j])
    decreases |s|
  {
    if s == [] then []
    else
      var k := LineEnd(s);
      if k == |s| then [s]
      else
        var next := if s[k] == '\r' && k + 1 < |s| && s[k + 1] == '\n' then k + 2 else k + 1;
        [s[..k]] + SplitLines(s[next..])
  }

  /** For text with `'\n'` line ends only and no trailing one, `splitlines` and `split('\n')` agree. */
  lemma {:induction false} SplitLinesIsSplit(s: string)
    requires s != [] && s[|s| - 1] != '\n'
    requires '\r' !in s
    ensures SplitLines(s) == Split(s, '\n')
    decreases |s|
  {
    var k := LineEnd(s);
    if k == |s| {
      assert '\n' !in s by {
        forall j | 0 <= j < |s| ensures s[j] != '\n' { }
      }
      SplitNoSeparator(s, '\n');
    } else {
      assert s[k] == '\n';
      var x, y := s[..k], s[k + 1..];
      assert s == x + ['\n'] + y;
      assert '\n' !in x by {
        forall j | 0 <= j < |x| ensures x[j] != '\n' { assert x[j] == s[j]; }
      }
      SplitAtSeparator(x, '\n', y);
      assert y != [] && y[|y| - 1] == s[|s| - 1];
      assert '\r' !in y by {
        forall j | 0 <= j < |y| ensures y[j] != '\r' { assert y[j] == s[k + 1 + j]; }
      }
      SplitLinesIsSplit(y);
    }
  }

  /** `s.replace(pat, '')`: every non-overlapping occurrence of `pat`, scanning left to right, removed. */
  function RemoveAll(s: string, pat: string): (r: string)
    requires pat != []
    ensures |r| <= |s|
    decreases |s|
  {
    if |s| < |pat| then s
    else if s[..|pat|] == pat then RemoveAll(s[|pat|..], pat)
    else [s[0]] + RemoveAll(s[1..], pat)
  }

  /** `pat` occurs in `s` starting at index `i`. */
  predicate OccursAt(s: string, pat: string, i: nat)
  {
    i + |pat| <= |s| && s[i..i + |pat|] == pat
  }

  /** Text without any occurrence of `pat` is left as it is. */
  lemma {:induction false} RemoveAllNoOccurrence(s: string, pat: string)
    requires pat != []
    requires forall i: nat :: !OccursAt(s, pat, i)
    ensures RemoveAll(s, pat) == s
    decreases |s|
  {
    if |s| >= |pat| {
      assert !OccursAt(s, pat, 0);
      assert forall i: nat :: !OccursAt(s[1..], pat, i) by {
        forall i: nat ensures !OccursAt(s[1..], pat, i) {
          assert !OccursAt(s, pat, i + 1);
          if i + |pat| <= |s[1..]| {
            assert s[1..][i..i + |pat|] == s[i + 1..i + 1 + |pat|];
          }
        }
      }
      RemoveAllNoOccurrence(s[1..], pat);
    }
  }

  /** A leading occurrence of `pat` is removed. */
  /** A text holding no occurrence is left unchanged. */
  lemma RemoveAllIdentity(s: string, pat: string)
    requires pat != []
    ensures (forall i: nat :: !OccursAt(s, pat, i)) ==> RemoveAll(s, pat) == s
  {
    if forall i: nat :: !OccursAt(s, pat, i) {
      RemoveAllNoOccurrence(s, pat);
    }
  }

  lemma RemoveAllLeading(pat: string, s: string)
    requires pat != []
    ensures RemoveAll(pat + s, pat) == RemoveAll(s, pat)
  {
    assert (pat + s)[..|pat|] == pat;
    assert (pat + s)[|pat|..] == s;
  }

  /** One differing character rules out an occurrence at the start. */
  lemma NoOccurrenceAtStart(s: string, pat: string, j: nat)
    requires j < |pat| && j < |s| && s[j] != pat[j]
    ensures !OccursAt(s, pat, 0)
  {
  }

  /** A character that does not start an occurrence of `pat` is kept. */
  lemma RemoveAllKeepsHead(c: char, s: string, pat: string)
    requires pat != []
    requires !OccursAt([c] + s, pat, 0)
    ensures RemoveAll([c] + s, pat) == [c] + RemoveAll(s, pat)
  {
    assert ([c] + s)[1..] == s;
  }

  lemma OccursAtSuffix(s: string, pat: string, i: nat)
    requires i <= |s|
    ensures OccursAt(s, pat, i) == OccursAt(s[i..], pat, 0)
  {
    if i + |pat| <= |s| {
      assert s[i..][0..|pat|] == s[i..i + |pat|];
    }
  }

  lemma OccursAtShift(c: char, rest: string, pat: string, i: nat)
    ensures OccursAt([c] + rest, pat, i + 1) == OccursAt(rest, pat, i)
  {
    if i + |pat| <= |rest| {
      assert ([c] + rest)[i + 1..i + 1 + |pat|] == rest[i..i + |pat|];
    }
  }

  /** A prefix none of whose positions starts an occurrence of `pat` is kept. */
  lemma {:induction false} RemoveAllKeepsPrefix(x: string, s: string, pat: string)
    requires pat != []
    requires forall i :: 0 <= i < |x| ==> !OccursAt(x + s, pat, i)
    ensures RemoveAll(x + s, pat) == x + RemoveAll(s, pat)
  {
    if x != [] {
      var tail := x[1..];
      var rest := tail + s;
      assert x + s == [x[0]] + rest;
      forall i | 0 <= i < |tail| ensures !OccursAt(rest, pat, i) {
        OccursAtShift(x[0], rest, pat, i);
        assert !OccursAt(x + s, pat, i + 1);
      }
      assert !OccursAt(x + s, pat, 0);
      RemoveAllKeepsHead(x[0], rest, pat);
      RemoveAllKeepsPrefix(tail, s, pat);
      calc {
        RemoveAll(x + s, pat);
        RemoveAll([x[0]] + rest, pat);
        [x[0]] + RemoveAll(rest, pat);
        [x[0]] + (tail + RemoveAll(s, pat));
        { assert [x[0]] + tail == x; }
        x + RemoveAll(s, pat);
      }
    } else {
      assert x + s == s;
    }
  }

  lemma SplitLinesTwoLines()
    ensures SplitLines("l1\nl2") == ["l1", "l2"]
  {
    var s := "l1\nl2";
    assert LineEnd("") == 0;
    assert LineEnd("2") == 1;
    assert LineEnd("l2") == 2;
    assert s[1..] == "1\nl2" && s[2..] == "\nl2";
    assert LineEnd("\nl2") == 0;
    assert LineEnd("1\nl2") == 1;
    assert LineEnd(s) == 2;
    assert s[..2] == "l1" && s[3..] == "l2";
    assert SplitLines("l2") == ["l2"];
  }

  /** `s[:n]`. */
  function Take(s: string, n: nat): (r: string)
    ensures |r| == if |s| < n then |s| else n
    ensures r <= s
  {
    if |s| < n then s else s[..n]
  }

  function DigitChar(d: nat): char
    requires d < 10
  {
    "0123456789"[d]
  }

  /** `str(n)` for a natural number. */
  function NatToString(n: nat): (r: string)
    ensures r != []
    decreases n
  {
    if n < 10 then [DigitChar(n)] else NatToString(n / 10) + [DigitChar(n % 10)]
  }

  /** `str(i)` for an integer. */
  function IntToString(i: int): string
  {
    if i < 0 then "-" + NatToString(-i) else NatToString(i)
  }

  /** `str(x)` for a value that is a string or `None`. */
  function StrOrNone(x: Option<string>): string
  {
    match x
    case Some(s) => s
    case None => "None"
  }

  /** `str(x)` for a value that is an integer or `None`. */
  function IntOrNone(x: Option<int>): string
  {
    match x
    case Some(i) => IntToString(i)
    case None => "None"
  }
}
