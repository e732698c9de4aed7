/** The handful of Python string operations the ledger formatter relies on. */
module Text {

  /** `n` copies of the character `c`. */
  function Repeat(c: char, n: nat): (s: string)
    ensures |s| == n
    ensures forall i :: 0 <= i < |s| ==> s[i] == c
  {
    if n == 0 then "" else [c] + Repeat(c, n - 1)
  }

  /** Python's `n * " "`: empty when `n` is zero or negative. */
  function Spaces(n: int): (s: string)
    ensures |s| == if n <= 0 then 0 else n
    ensures forall i :: 0 <= i < |s| ==> s[i] == ' '
    ensures '\n' !in s
  {
    if n <= 0 then "" else Repeat(' ', n)
  }

  predicate StartsWith(s: string, prefix: string)
  {
    |prefix| <= |s| && s[..|prefix|] == prefix
  }

  predicate EndsWith(s: string, suffix: string)
  {
    |suffix| <= |s| && s[|s| - |suffix|..] == suffix
  }

  /** Python's `s.replace(".", ",")`: every full stop becomes a comma, nothing else moves. */
  function DecimalComma(s: string): (r: string)
    ensures |r| == |s|
    ensures forall i :: 0 <= i < |s| ==> r[i] == (if s[i] == '.' then ',' else s[i])
    ensures '.' !in r
    ensures '\n' in r <==> '\n' in s
  {
    if |s| == 0 then ""
    else [if s[0] == '.' then ',' else s[0]] + DecimalComma(s[1..])
  }

  /** Every line followed by a newline, as the formatter appends `"...\n"` piece by piece. */
  function Unlines(lines: seq<string>): string
  {
    if |lines| == 0 then "" else lines[0] + "\n" + Unlines(lines[1..])
  }

  /** Python's `"\n".join(lines)`. */
  function Join(lines: seq<string>): string
  {
    if |lines| == 0 then ""
    else if |lines| == 1 then lines[0]
    else lines[0] + "\n" + Join(lines[1..])
  }

  predicate SingleLines(lines: seq<string>)
  {
    forall i :: 0 <= i < |lines| ==> '\n' !in lines[i]
  }

  /** Position of the first newline of `s`. */
  function FirstNewline(s: string): (i: nat)
    requires '\n' in s
    ensures i < |s| && s[i] == '\n'
    ensures '\n' !in s[..i]
  {
    if s[0] == '\n' then 0
    else
      assert s == [s[0]] + s[1..];
      var j := FirstNewline(s[1..]);
      assert s[..j + 1] == [s[0]] + s[1..][..j];
      j + 1
  }

  /** Python's `s.split("\n")`: the newline-free pieces of `s`, at least one. */
  function SplitLines(s: string): (parts: seq<string>)
    ensures |parts| >= 1
    ensures SingleLines(parts)
    decreases |s|
  {
    if '\n' !in s then [s]
    else
      var i := FirstNewline(s);
      [s[..i]] + SplitLines(s[i + 1..])
  }

  /** Joining the pieces of a split gives the text back. */
  lemma {:induction false} JoinSplit(s: string)
    ensures Join(SplitLines(s)) == s
    decreases |s|
  {
    if '\n' in s {
      var i := FirstNewline(s);
      var rest := SplitLines(s[i + 1..]);
      JoinSplit(s[i + 1..]);
      assert s == s[..i] + "\n" + s[i + 1..];
      assert ([s[..i]] + rest)[1..] == rest;
    }
  }

  /** Splitting a line, its newline and any text after it yields the line first. */
  lemma SplitAfterLine(w: string, t: string)
    requires '\n' !in w
    ensures SplitLines(w + "\n" + t) == [w] + SplitLines(t)
  {
    var s := w + "\n" + t;
    assert s[|w|] == '\n';
    var i := FirstNewline(s);
    assert forall k :: 0 <= k < |w| ==> s[k] != '\n';
    assert forall k :: 0 <= k < i ==> s[..i][k] != '\n';
    assert i == |w|;
    assert s[..i] == w;
    assert s[i + 1..] == t;
  }

  /** Joining newline-free lines and splitting the result gives the lines back. */
  lemma {:induction false} SplitJoin(lines: seq<string>)
    requires |lines| >= 1
    requires SingleLines(lines)
    ensures SplitLines(Join(lines)) == lines
  {
    if |lines| > 1 {
      SplitJoin(lines[1..]);
      SplitAfterLine(lines[0], Join(lines[1..]));
      assert lines == [lines[0]] + lines[1..];
    }
  }

  /** Newline-terminated lines followed by a last, unterminated one form a join. */
  lemma {:induction false} UnlinesThenLast(lines: seq<string>, last: string)
    ensures Unlines(lines) + last == Join(lines + [last])
  {
    if |lines| == 0 {
      assert lines + [last] == [last];
    } else {
      UnlinesThenLast(lines[1..], last);
      assert (lines + [last])[1..] == lines[1..] + [last];
    }
  }

  lemma {:induction false} UnlinesAppend(a: seq<string>, b: seq<string>)
    ensures Unlines(a + b) == Unlines(a) + Unlines(b)
  {
    if |a| == 0 {
      assert a + b == b;
    } else {
      var ab := a + b;
      assert ab[0] == a[0] && ab[1..] == a[1..] + b;
      calc {
        Unlines(ab);
        ab[0] + "\n" + Unlines(ab[1..]);
        a[0] + "\n" + Unlines(a[1..] + b);
        { UnlinesAppend(a[1..], b); }
        a[0] + "\n" + (Unlines(a[1..]) + Unlines(b));
        (a[0] + "\n" + Unlines(a[1..])) + Unlines(b);
      }
    }
  }
}
