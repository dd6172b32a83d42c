/** Character classes and string vocabulary shared by the grammar and the renderer.
    Strings are `seq<char>`; the grammar only ever distinguishes ASCII characters. */
module Text {

  /** `\n` or `\r`: the characters at which nom's line parsers stop. */
  predicate IsLineEndChar(c: char) {
    c == '\n' || c == '\r'
  }

  predicate IsLowerAscii(c: char) {
    'a' <= c <= 'z'
  }

  /** The whitespace set of nom's `multispace1`. */
  predicate IsSpace(c: char) {
    c == ' ' || c == '\t' || c == '\r' || c == '\n'
  }

  /** Text that fits on one line: no line terminator inside. */
  predicate IsLineText(s: string) {
    forall k :: 0 <= k < |s| ==> !IsLineEndChar(s[k])
  }

  predicate StartsWith(s: string, prefix: string) {
    |prefix| <= |s| && s[..|prefix|] == prefix
  }

  predicate EndsWith(s: string, suffix: string) {
    |suffix| <= |s| && s[|s| - |suffix|..] == suffix
  }

  lemma LineTextAppend(a: string, b: string)
    requires IsLineText(a) && IsLineText(b)
    ensures IsLineText(a + b)
  {
    assert forall k :: 0 <= k < |a + b| ==> (a + b)[k] == if k < |a| then a[k] else b[k - |a|];
  }

  /** `i` is `prefix`, then a line ending (`"\n"` or `"\r\n"`), then `rest`. */
  predicate LineThen(i: string, prefix: string, rest: string) {
    i == prefix + "\n" + rest || i == prefix + "\r\n" + rest
  }

  /** A line ending at the front of `t` carries over to any text placed before it. */
  lemma LineThenShift(i: string, v: string, t: string, rest: string)
    requires i == v + t && LineThen(t, "", rest)
    ensures LineThen(i, v, rest)
  {
    if t == "" + "\n" + rest {
      assert t == "\n" + rest;
      assert i == v + "\n" + rest;
    } else {
      assert t == "\r\n" + rest;
      assert i == v + "\r\n" + rest;
    }
  }

  /** A blank line: nothing, then a line ending. */
  lemma BlankLine(t: string, s: string)
    requires t == "\n" + s
    ensures LineThen(t, "", s)
  {
    assert t == "" + "\n" + s;
  }

  /** `i` begins with the complete line `s`; `rest` follows its line ending. */
  predicate LineSplit(i: string, s: string, rest: string) {
    IsLineText(s) && LineThen(i, s, rest)
  }

  /** `rest` is what is left of `i` after some prefix of it. */
  predicate SuffixOf(rest: string, i: string) {
    |rest| <= |i| && i[|i| - |rest|..] == rest
  }

  /** `rest` is what is left of `i` after a non-empty prefix of it. */
  predicate Consumed(i: string, rest: string) {
    |rest| < |i| && SuffixOf(rest, i)
  }

  lemma SuffixOfConcat(i: string, p: string, rest: string)
    requires i == p + rest
    ensures SuffixOf(rest, i)
  {
    assert i[|p|..] == rest;
  }

  lemma SuffixOfTrans(a: string, b: string, c: string)
    requires SuffixOf(b, a) && SuffixOf(c, b)
    ensures SuffixOf(c, a)
  {
    assert a[|a| - |c|..] == a[|a| - |b|..][|b| - |c|..];
  }

  lemma ConsumedTrans(a: string, b: string, c: string)
    requires Consumed(a, b) && SuffixOf(c, b)
    ensures Consumed(a, c)
  {
    SuffixOfTrans(a, b, c);
  }

  lemma LineThenConsumed(i: string, p: string, rest: string)
    requires LineThen(i, p, rest)
    ensures Consumed(i, rest)
  {
    if i == p + "\n" + rest {
      SuffixOfConcat(i, p + "\n", rest);
    } else {
      SuffixOfConcat(i, p + "\r\n", rest);
    }
  }

  /** Text placed before a line ending's prefix joins that prefix. */
  lemma LineThenPrefix(i: string, m: string, t: string, s: string, rest: string)
    requires i == m + t && LineThen(t, s, rest)
    ensures LineThen(i, m + s, rest)
  {
    if t == s + "\n" + rest {
      assert i == (m + s) + "\n" + rest;
    } else {
      assert i == (m + s) + "\r\n" + rest;
    }
  }

  /** A line after a marker is a line that starts with the marker. */
  lemma LineSplitPrefix(i: string, marker: string, t: string, s: string, rest: string)
    requires i == marker + t && IsLineText(marker) && LineSplit(t, s, rest)
    ensures LineSplit(i, marker + s, rest)
  {
    if t == s + "\n" + rest {
      assert i == (marker + s) + "\n" + rest;
    } else {
      assert i == (marker + s) + "\r\n" + rest;
    }
  }

  /** A line that starts with a marker is the marker followed by a shorter line. */
  lemma LineSplitAfter(i: string, line: string, rest: string, m: string)
    requires LineSplit(i, line, rest) && StartsWith(line, m)
    ensures i == m + i[|m|..] && LineSplit(i[|m|..], line[|m|..], rest)
  {
    var t := line[|m|..];
    assert line == m + t;
    if i == line + "\n" + rest {
      assert i == m + (t + "\n" + rest);
      assert i[|m|..] == t + "\n" + rest;
    } else {
      assert i == m + (t + "\r\n" + rest);
      assert i[|m|..] == t + "\r\n" + rest;
    }
  }

  lemma LineSplitFirst(i: string, s: string, rest: string)
    requires LineSplit(i, s, rest) && |s| > 0
    ensures |i| > 0 && i[0] == s[0]
  {
    if i == s + "\n" + rest {
      assert i == s + ("\n" + rest);
    } else {
      assert i == s + ("\r\n" + rest);
    }
  }

  /** `i` begins with at least one complete line. */
  ghost predicate HasLine(i: string) {
    exists s, rest :: LineSplit(i, s, rest)
  }

  lemma LineSplitNotLonger(i: string, s: string, rest: string, s': string, rest': string)
    requires LineSplit(i, s, rest) && LineSplit(i, s', rest')
    ensures |s| <= |s'|
  {
    assert IsLineEndChar(i[|s'|]);
    assert forall k :: 0 <= k < |s| ==> i[k] == s[k];
  }

  /** A line split determines its line and its rest: the line ends at the first terminator. */
  lemma LineSplitUnique(i: string, s: string, rest: string, s': string, rest': string)
    requires LineSplit(i, s, rest) && LineSplit(i, s', rest')
    ensures s == s' && rest == rest'
  {
    LineSplitNotLonger(i, s, rest, s', rest');
    LineSplitNotLonger(i, s', rest', s, rest);
    assert s == i[..|s|] == s';
    if i == s + "\n" + rest {
      assert i[|s|] == '\n';
      assert i == s' + "\n" + rest';
      assert rest == i[|s| + 1..] == rest';
    } else {
      assert i[|s|] == '\r';
      assert i == s' + "\r\n" + rest';
      assert rest == i[|s| + 2..] == rest';
    }
  }

  /** Rust's `join`: the pieces with `sep` between consecutive ones. */
  function Join(xs: seq<string>, sep: string): string {
    if |xs| == 0 then ""
    else if |xs| == 1 then xs[0]
    else xs[0] + sep + Join(xs[1..], sep)
  }

  /** Rust's `split(c)`: the maximal `c`-free pieces, always at least one. */
  function Split(s: string, c: char): (r: seq<string>)
    ensures |r| >= 1
  {
    if |s| == 0 then [""]
    else
      var tail := Split(s[1..], c);
      if s[0] == c then [""] + tail else [[s[0]] + tail[0]] + tail[1..]
  }

  predicate Avoids(s: string, c: char) {
    forall k :: 0 <= k < |s| ==> s[k] != c
  }

  lemma {:induction false} SplitAfterPiece(a: string, c: char, b: string)
    requires Avoids(a, c)
    ensures Split(a + [c] + b, c) == [a] + Split(b, c)
  {
    if |a| == 0 {
      assert a + [c] + b == [c] + b;
      assert ([c] + b)[1..] == b;
    } else {
      assert (a + [c] + b)[1..] == a[1..] + [c] + b;
      SplitAfterPiece(a[1..], c, b);
      assert [a[0]] + a[1..] == a;
    }
  }

  lemma {:induction false} SplitPiece(a: string, c: char)
    requires Avoids(a, c)
    ensures Split(a, c) == [a]
  {
    if |a| > 0 {
      SplitPiece(a[1..], c);
      assert [a[0]] + a[1..] == a;
    }
  }

  /** Splitting undoes joining when no piece contains the separator. */
  lemma {:induction false} SplitJoin(xs: seq<string>, c: char)
    requires |xs| >= 1
    requires forall j :: 0 <= j < |xs| ==> Avoids(xs[j], c)
    ensures Split(Join(xs, [c]), c) == xs
  {
    if |xs| == 1 {
      SplitPiece(xs[0], c);
    } else {
      SplitJoin(xs[1..], c);
      SplitAfterPiece(xs[0], c, Join(xs[1..], [c]));
      assert [xs[0]] + xs[1..] == xs;
    }
  }

  /** Joining two non-empty lists is joining their joins. */
  lemma {:induction false} JoinAppend(xs: seq<string>, ys: seq<string>, sep: string)
    requires |xs| >= 1 && |ys| >= 1
    ensures Join(xs + ys, sep) == Join(xs, sep) + sep + Join(ys, sep)
  {
    if |xs| == 1 {
      assert (xs + ys)[1..] == ys;
    } else {
      assert (xs + ys)[1..] == xs[1..] + ys;
      JoinAppend(xs[1..], ys, sep);
    }
  }

  /** `a` occurs somewhere inside `b`. */
  ghost predicate IsInfix(a: string, b: string) {
    exists k :: 0 <= k <= |b| && StartsWith(b[k..], a)
  }
}
