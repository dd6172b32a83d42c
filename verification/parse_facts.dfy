/** What each line parser accepts, stated on the line it reads: for every input that
    starts with a complete line, the parser's outcome is fixed by that line alone. */
module ParseFacts {
  import opened Text
  import opened Nom
  import opened Data
  import opened Parse

  // ---------------------------------------------------------------------------
  // Line kinds, as the block parser tries them
  // ---------------------------------------------------------------------------

  predicate IsForcedLine(line: string) {
    StartsWith(line, "> ")
  }

  predicate IsToLine(line: string) {
    IsShout(line) && EndsWith(line, "TO:")
  }

  predicate IsLyricLine(line: string) {
    StartsWith(line, "~")
  }

  predicate IsSceneLine(line: string) {
    StartsWith(line, "INT. ") || StartsWith(line, "EXT. ")
  }

  /** A line that none of the single-line block alternatives claims. */
  predicate IsPlainLine(line: string) {
    !IsForcedLine(line) && !IsToLine(line) && !IsLyricLine(line) && !IsSceneLine(line)
  }

  /** `i` starts with `(x)` for some `x`. */
  ghost predicate OpensParenthetical(i: string) {
    exists x, after :: ParenShape(i, x, after)
  }

  // ---------------------------------------------------------------------------
  // Single lines
  // ---------------------------------------------------------------------------

  lemma NotLineEndingOn(i: string, line: string, rest: string)
    requires LineSplit(i, line, rest)
    ensures NotLineEnding(i) == Parsed(line, i[|line|..])
    ensures LineThen(i[|line|..], "", rest)
  {
    assert forall k :: 0 <= k < |line| ==> i[k] == line[k];
    assert IsLineEndChar(i[|line|]);
    SpanUnique(i, NotLineEndChar, |line|);
    assert i[..|line|] == line;
    if i == line + "\n" + rest {
      assert i[|line|..] == "\n" + rest;
    } else {
      assert i[|line|..] == "\r\n" + rest;
    }
  }

  /** `some_line` reads exactly the first line. */
  lemma SomeLineOn(i: string, line: string, rest: string)
    requires LineSplit(i, line, rest)
    ensures SomeLine(i) == Ok(line, rest)
  {
    NotLineEndingOn(i, line, rest);
  }

  /** `some_line` succeeds exactly on input that holds a complete line. */
  lemma SomeLineIff(i: string)
    ensures SomeLine(i).Ok? <==> HasLine(i)
    ensures SomeLine(i).Err? <==> !HasLine(i)
  {
    if HasLine(i) {
      var line, rest :| LineSplit(i, line, rest);
      SomeLineOn(i, line, rest);
    }
  }

  /** An action is the whole first line, whatever it holds. */
  lemma ActionOn(i: string, line: string, rest: string)
    requires LineSplit(i, line, rest)
    ensures Parse.Action(i) == Ok(Line.Action(line), rest)
  {
    SomeLineOn(i, line, rest);
  }

  /** Dialogue is the whole first line, whatever it holds. */
  lemma DialogueOn(i: string, line: string, rest: string)
    requires LineSplit(i, line, rest)
    ensures Parse.Dialogue(i) == Ok(Line.Dialogue(line), rest)
  {
    SomeLineOn(i, line, rest);
  }

  /** `(x)` is read up to the first `)`, across line breaks if need be. */
  lemma InParensOn(i: string, x: string, rest: string)
    requires ParenShape(i, x, rest)
    ensures InParens(i) == Ok(x, rest)
  {
    var t := i[1..];
    assert t == x + ")" + rest;
    assert forall k :: 0 <= k < |x| ==> t[k] == x[k] && x[k] != ')';
    assert t[|x|] == ')';
    SpanUnique(t, NotCloseParen, |x|);
    assert t[..|x|] == x;
    assert t[|x|..] == ")" + rest;
  }

  lemma LineEndingOn(t: string, rest: string)
    requires LineThen(t, "", rest)
    ensures LineEnding(t).Ok? && LineEnding(t).rest == rest
  {
    if t == "" + "\n" + rest {
      assert t == "\n" + rest;
      assert t[1..] == rest;
    } else {
      assert t == "\r\n" + rest;
      assert t[0] == '\r' && t[..2] == "\r\n";
      assert t[2..] == rest;
    }
  }

  /** A parenthetical line: `(x)`, a line break, then `rest`. */
  lemma ParenLine(i: string, x: string, rest: string)
    requires i == "(" + x + ")\n" + rest && |x| > 0 && Avoids(x, ')')
    ensures ParenShape(i, x, "\n" + rest) && LineThen("\n" + rest, "", rest)
  {
    assert i == "(" + x + ")" + ("\n" + rest);
  }

  lemma ParentheticalOn(i: string, x: string, after: string, rest: string)
    requires ParenShape(i, x, after) && LineThen(after, "", rest)
    ensures Parse.Parenthetical(i) == Ok(Line.Parenthetical(x), rest)
  {
    InParensOn(i, x, after);
    LineEndingOn(after, rest);
  }

  /** Once `(x)` is read, no line ending after it is a failure that stops the whole parse. */
  lemma ParentheticalCut(i: string, x: string, after: string)
    requires ParenShape(i, x, after) && !StartsWithLineEnding(after)
    ensures Parse.Parenthetical(i).Fail?
  {
    InParensOn(i, x, after);
  }

  /** A parenthetical fails exactly when `(x)` is not followed by a line ending. */
  lemma ParentheticalFailIff(i: string)
    ensures Parse.Parenthetical(i).Fail? <==> exists x, after :: ParenShape(i, x, after) && !StartsWithLineEnding(after)
  {
    if exists x, after :: ParenShape(i, x, after) && !StartsWithLineEnding(after) {
      var x, after :| ParenShape(i, x, after) && !StartsWithLineEnding(after);
      ParentheticalCut(i, x, after);
    }
  }

  lemma ShoutLineAccepts(i: string, line: string, rest: string)
    requires LineSplit(i, line, rest) && IsShout(line)
    ensures ShoutLine(i) == Ok(line, rest)
  {
    assert forall k :: 0 <= k < |line| ==> i[k] == line[k];
    assert IsLineEndChar(i[|line|]);
    SpanUnique(i, NoLowerChar, |line|);
    assert i[..|line|] == line;
    NotLineEndingOn(i, line, rest);
    LineEndingOn(i[|line|..], rest);
  }

  lemma ShoutLineRejects(i: string, line: string, rest: string)
    requires LineSplit(i, line, rest) && !IsShout(line)
    ensures ShoutLine(i).Err?
  {
    if |line| == 0 {
      assert IsLineEndChar(i[0]);
    } else {
      var n := Span(i, NoLowerChar);
      var k :| 0 <= k < |line| && !NoLowerChar(line[k]);
      assert i[k] == line[k];
      assert n <= k;
      assert i[n] == line[n];
      assert IsLowerAscii(i[n]);
      if n > 0 {
        assert NoLower(i).rest == i[n..];
      }
    }
  }

  /** A line without lower-case letters is read whole by `terminated(no_lower, line_ending)`;
      any other line is an error, since `no_lower` stops before its first lower-case letter. */
  lemma ShoutLineOn(i: string, line: string, rest: string)
    requires LineSplit(i, line, rest)
    ensures ShoutLine(i).Ok? <==> IsShout(line)
    ensures IsShout(line) ==> ShoutLine(i) == Ok(line, rest)
  {
    if IsShout(line) {
      ShoutLineAccepts(i, line, rest);
    } else {
      ShoutLineRejects(i, line, rest);
    }
  }

  /** A speaker is any line without lower-case letters; the name loses a trailing `" ^"` and
      the line is dual when it ends in `^`, with or without the space. */
  lemma SpeakerOn(i: string, line: string, rest: string)
    requires LineSplit(i, line, rest)
    ensures Parse.Speaker(i).Ok? <==> IsShout(line)
    ensures IsShout(line) ==> Parse.Speaker(i).rest == rest && SpeakerOf(line, Parse.Speaker(i).value)
  {
    ShoutLineOn(i, line, rest);
  }

  /** A shouted line with no `^` at its end: a plain speaker named by the whole line. */
  lemma PlainSpeakerOn(i: string, line: string, rest: string)
    requires LineSplit(i, line, rest) && IsShout(line) && line[|line| - 1] != '^'
    ensures Parse.Speaker(i) == Ok(Line.Speaker(line, false), rest)
  {
    SpeakerOn(i, line, rest);
    assert !EndsWith(line, " ^");
  }

  /** A shouted line ending in `" ^"`: a dual speaker named by what precedes the marker. */
  lemma DualSpacedSpeakerOn(i: string, name: string, rest: string)
    requires LineSplit(i, name + " ^", rest) && IsShout(name + " ^")
    ensures Parse.Speaker(i) == Ok(Line.Speaker(name, true), rest)
  {
    var line := name + " ^";
    SpeakerOn(i, line, rest);
    assert line[|line| - 2..] == " ^";
    assert line[..|line| - 2] == name;
  }

  lemma TransitionToOn(i: string, line: string, rest: string)
    requires LineSplit(i, line, rest)
    ensures TransitionTo(i) == if IsToLine(line) then Ok(Line.Transition(line), rest) else Err
  {
    ShoutLineOn(i, line, rest);
  }

  lemma TransitionForcedShape(i: string, line: string, rest: string)
    requires LineSplit(i, line, rest)
    ensures TransitionForced(i).Ok? ==> IsForcedLine(line)
  {
    var r := TransitionForced(i);
    if r.Ok? {
      LineSplitUnique(i, line, rest, "> " + r.value.text, r.rest);
      assert ("> " + r.value.text)[..2] == "> ";
    }
  }

  /** A forced transition is a line starting with `"> "`; the marker is dropped. */
  lemma TransitionForcedOn(i: string, line: string, rest: string)
    requires LineSplit(i, line, rest)
    ensures TransitionForced(i) == if IsForcedLine(line) then Ok(Line.Transition(line[2..]), rest) else Err
  {
    TransitionForcedShape(i, line, rest);
    if IsForcedLine(line) {
      LineSplitAfter(i, line, rest, "> ");
      SomeLineOn(i[2..], line[2..], rest);
    }
  }

  lemma LyricShape(i: string, line: string, rest: string)
    requires LineSplit(i, line, rest)
    ensures Parse.Lyric(i).Ok? ==> IsLyricLine(line)
  {
    var r := Parse.Lyric(i);
    if r.Ok? {
      LineSplitUnique(i, line, rest, "~" + r.value.text, r.rest);
      assert ("~" + r.value.text)[..1] == "~";
    }
  }

  /** A lyric is a line starting with `~`; the tilde is dropped. */
  lemma LyricOn(i: string, line: string, rest: string)
    requires LineSplit(i, line, rest)
    ensures Parse.Lyric(i) == if IsLyricLine(line) then Ok(Line.Lyric(line[1..]), rest) else Err
  {
    LyricShape(i, line, rest);
    if IsLyricLine(line) {
      LineSplitAfter(i, line, rest, "~");
      SomeLineOn(i[1..], line[1..], rest);
    }
  }

  lemma SceneShape(i: string, line: string, rest: string)
    requires LineSplit(i, line, rest)
    ensures Parse.Scene(i).Ok? ==> IsSceneLine(line)
  {
    var r := Parse.Scene(i);
    if r.Ok? {
      LineSplitUnique(i, line, rest, r.value.text, r.rest);
    }
  }

  lemma SceneOfKind(i: string, kind: string, t: string, desc: string, rest: string)
    requires kind == "INT" || kind == "EXT"
    requires i == kind + ". " + t && LineSplit(t, desc, rest)
    ensures Parse.Scene(i) == Ok(Line.Scene(kind + ". " + desc), rest)
  {
    assert i == kind + (". " + t);
    NotLineEndingOn(t, desc, rest);
    LineEndingOn(t[|desc|..], rest);
  }

  lemma SceneAccepts(i: string, line: string, rest: string)
    requires LineSplit(i, line, rest) && IsSceneLine(line)
    ensures Parse.Scene(i) == Ok(Line.Scene(line), rest)
  {
    var kind := line[..3];
    assert line[..5] == kind + ". ";
    LineSplitAfter(i, line, rest, kind + ". ");
    SceneOfKind(i, kind, i[5..], line[5..], rest);
    assert kind + ". " + line[5..] == line;
  }

  /** A scene heading is a line starting with `INT. ` or `EXT. `, kept whole. */
  lemma SceneOn(i: string, line: string, rest: string)
    requires LineSplit(i, line, rest)
    ensures Parse.Scene(i) == if IsSceneLine(line) then Ok(Line.Scene(line), rest) else Err
  {
    SceneShape(i, line, rest);
    if IsSceneLine(line) {
      SceneAccepts(i, line, rest);
    }
  }
}
