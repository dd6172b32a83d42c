/** The slice of the nom parser-combinator library that the grammar uses, for complete
    (non-streaming) `&str` input. A parser maps the remaining input to a `PResult`. */
module Nom {
  import opened Text

  datatype Parsed<T> = Parsed(value: T, rest: string)

  /** Outcome of a parser: success with a value and the unconsumed input; a recoverable
      error (nom's `Err::Error`), after which `alt`, `opt`, `many0` and `separated_list0`
      try something else; or a failure (nom's `Err::Failure`, raised by `cut`), which
      every combinator passes straight up. Error context trails are not modelled. */
  datatype PResult<T> = Ok(value: T, rest: string) | Err | Fail {

    predicate IsFailure() {
      !Ok?
    }

    function PropagateFailure<U>(): PResult<U>
      requires !Ok?
    {
      if Err? then Err else Fail
    }

    function Extract(): Parsed<T>
      requires Ok?
    {
      Parsed(value, rest)
    }
  }

  /** Length of the longest prefix of `i` whose characters all satisfy `p`. */
  function Span(i: string, p: char -> bool): (n: nat)
    ensures n <= |i|
    ensures forall k :: 0 <= k < n ==> p(i[k])
    ensures n == |i| || !p(i[n])
  {
    if i == [] || !p(i[0]) then 0 else 1 + Span(i[1..], p)
  }

  /** Maximal munch has exactly one answer. */
  lemma SpanUnique(i: string, p: char -> bool, m: nat)
    requires m <= |i|
    requires forall k :: 0 <= k < m ==> p(i[k])
    requires m == |i| || !p(i[m])
    ensures Span(i, p) == m
  {
  }

  /** nom's `take_while1`: an error unless at least one character satisfies `p`. */
  function TakeWhile1(i: string, p: char -> bool): (r: PResult<string>)
    ensures !r.Fail?
    ensures r.Ok? <==> |i| > 0 && p(i[0])
    ensures r.Ok? ==> r.value + r.rest == i && |r.value| > 0
    ensures r.Ok? ==> (forall k :: 0 <= k < |r.value| ==> p(r.value[k])) && (r.rest == [] || !p(r.rest[0]))
  {
    var n := Span(i, p);
    if n == 0 then Err else Ok(i[..n], i[n..])
  }

  /** nom's `tag`: the literal `t` at the front of the input. */
  function Tag(t: string, i: string): (r: PResult<string>)
    ensures !r.Fail?
    ensures r.Ok? <==> StartsWith(i, t)
    ensures r.Ok? ==> r.value == t && i == t + r.rest
  {
    if |t| <= |i| && i[..|t|] == t then Ok(t, i[|t|..]) else Err
  }

  /** nom's `char`. */
  function Char(c: char, i: string): (r: PResult<string>)
    ensures !r.Fail?
    ensures r.Ok? <==> |i| > 0 && i[0] == c
    ensures r.Ok? ==> i == [c] + r.rest
  {
    Tag([c], i)
  }

  /** nom's `line_ending`: `"\n"` or `"\r\n"`. */
  function LineEnding(i: string): (r: PResult<string>)
    ensures !r.Fail?
    ensures r.Ok? <==> StartsWith(i, "\n") || StartsWith(i, "\r\n")
    ensures r.Ok? ==> (r.value == "\n" || r.value == "\r\n") && i == r.value + r.rest
    ensures r.Ok? ==> LineThen(i, "", r.rest)
  {
    if StartsWith(i, "\n") then Ok("\n", i[1..])
    else if StartsWith(i, "\r\n") then Ok("\r\n", i[2..])
    else Err
  }

  predicate NotLineEndChar(c: char) {
    !IsLineEndChar(c)
  }

  /** nom's `not_line_ending`: everything up to the first `\n` or `\r`, possibly nothing.
      nom also reports an error when that `\r` is not followed by `\n`; every use in the
      grammar is followed by `line_ending`, which then fails the same way, so the model
      leaves that case to `LineEnding` and this parser always succeeds. */
  function NotLineEnding(i: string): (r: Parsed<string>)
    ensures r.value + r.rest == i && IsLineText(r.value)
    ensures r.rest == [] || IsLineEndChar(r.rest[0])
  {
    var n := Span(i, NotLineEndChar);
    Parsed(i[..n], i[n..])
  }

  /** nom's `multispace1`. */
  function MultiSpace1(i: string): (r: PResult<string>)
    ensures !r.Fail?
    ensures r.Ok? <==> |i| > 0 && IsSpace(i[0])
    ensures r.Ok? ==> r.value + r.rest == i && |r.value| > 0
    ensures r.Ok? ==> (forall k :: 0 <= k < |r.value| ==> IsSpace(r.value[k])) && (r.rest == [] || !IsSpace(r.rest[0]))
  {
    TakeWhile1(i, IsSpace)
  }

  /** nom's `cut`: a recoverable error becomes a failure. */
  function Cut<T>(r: PResult<T>): PResult<T> {
    if r.Err? then Fail else r
  }

  /** One step of nom's `alt`: fall back to `b` only on a recoverable error. */
  function Alt<T>(a: PResult<T>, b: PResult<T>): PResult<T> {
    if a.Err? then b else a
  }
}
