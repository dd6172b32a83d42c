/** What `block` makes of the input, stated on its first line (and, for a speaker, the
    line after it). Together the lemmas cover every input: a forced transition, a `TO:`
    transition, a lyric, a scene heading, a speaker block, the parenthetical failure, an
    action, or no complete line at all. */
module BlockFacts {
  import opened Text
  import opened Nom
  import opened Data
  import opened Parse
  import opened ParseFacts

  /** On a plain line the four single-line alternatives all report errors. */
  lemma PlainLineSkipsSingles(i: string, line: string, rest: string)
    requires LineSplit(i, line, rest) && IsPlainLine(line)
    ensures TransitionForced(i).Err? && TransitionTo(i).Err?
    ensures Parse.Lyric(i).Err? && Parse.Scene(i).Err?
  {
    TransitionForcedOn(i, line, rest);
    TransitionToOn(i, line, rest);
    LyricOn(i, line, rest);
    SceneOn(i, line, rest);
  }

  /** On a plain line `block` comes down to its speaker alternatives and the action. */
  lemma BlockOnPlain(i: string, line: string, rest: string)
    requires LineSplit(i, line, rest) && IsPlainLine(line)
    ensures Block(i) == if !SpdBlock(i).Err? then SpdBlock(i) else if !SdBlock(i).Err? then SdBlock(i)
                        else Singleton(Parse.Action(i))
  {
    PlainLineSkipsSingles(i, line, rest);
  }

  /** A parenthetical that does not report an error started with `(x)`. */
  lemma ParentheticalNeedsParens(i: string)
    ensures !Parse.Parenthetical(i).Err? ==> OpensParenthetical(i)
  {
    var inner := InParens(i);
    if inner.Ok? {
      assert ParenShape(i, inner.value, inner.rest);
    }
  }

  /** Only text that opens with `(` can hold a parenthetical. */
  lemma OpensParentheticalStarts(i: string)
    ensures OpensParenthetical(i) ==> |i| > 0 && i[0] == '('
  {
    if OpensParenthetical(i) {
      var x, after :| ParenShape(i, x, after);
      assert i == "(" + x + ")" + after;
    }
  }

  /** A line starting with `"> "` is a forced transition, before anything else is tried. */
  lemma BlockForcedLine(i: string, line: string, rest: string)
    requires LineSplit(i, line, rest) && IsForcedLine(line)
    ensures Block(i) == Ok([Line.Transition(line[2..])], rest)
  {
    TransitionForcedOn(i, line, rest);
  }

  /** A line without lower-case letters that ends in `TO:` is a transition, even though it
      also has the shape of a speaker. */
  lemma BlockToLine(i: string, line: string, rest: string)
    requires LineSplit(i, line, rest) && !IsForcedLine(line) && IsToLine(line)
    ensures Block(i) == Ok([Line.Transition(line)], rest)
  {
    TransitionForcedOn(i, line, rest);
    TransitionToOn(i, line, rest);
  }

  lemma BlockLyricLine(i: string, line: string, rest: string)
    requires LineSplit(i, line, rest) && !IsToLine(line) && IsLyricLine(line)
    ensures Block(i) == Ok([Line.Lyric(line[1..])], rest)
  {
    assert line[0] == '~';
    TransitionForcedOn(i, line, rest);
    TransitionToOn(i, line, rest);
    LyricOn(i, line, rest);
  }

  lemma BlockSceneLine(i: string, line: string, rest: string)
    requires LineSplit(i, line, rest) && !IsToLine(line) && IsSceneLine(line)
    ensures Block(i) == Ok([Line.Scene(line)], rest)
  {
    assert line[0] == line[..5][0];
    TransitionForcedOn(i, line, rest);
    TransitionToOn(i, line, rest);
    LyricOn(i, line, rest);
    SceneOn(i, line, rest);
  }

  /** A speaker line, then `(x)` and a line ending, then a line: a three-line block. */
  lemma BlockSpeakerParenDialogue(i: string, line: string, r1: string, x: string, after: string,
                                  r2: string, d: string, r3: string)
    requires LineSplit(i, line, r1) && IsPlainLine(line) && IsShout(line)
    requires ParenShape(r1, x, after) && LineThen(after, "", r2) && LineSplit(r2, d, r3)
    ensures Block(i).Ok? && Block(i).rest == r3 && |Block(i).value| == 3
    ensures SpeakerOf(line, Block(i).value[0])
    ensures Block(i).value[1] == Line.Parenthetical(x) && Block(i).value[2] == Line.Dialogue(d)
  {
    BlockOnPlain(i, line, r1);
    SpeakerOn(i, line, r1);
    ParentheticalOn(r1, x, after, r2);
    DialogueOn(r2, d, r3);
  }

  /** A speaker line, then `(x)` with no line ending after it: the parse fails, and no
      other alternative is tried. */
  lemma BlockSpeakerCut(i: string, line: string, r1: string, x: string, after: string)
    requires LineSplit(i, line, r1) && IsPlainLine(line) && IsShout(line)
    requires ParenShape(r1, x, after) && !StartsWithLineEnding(after)
    ensures Block(i).Fail?
  {
    BlockOnPlain(i, line, r1);
    SpeakerOn(i, line, r1);
    ParentheticalCut(r1, x, after);
  }

  /** A speaker line, then a line that does not start with `(x)`: a two-line block. */
  lemma BlockSpeakerDialogue(i: string, line: string, r1: string, d: string, r2: string)
    requires LineSplit(i, line, r1) && IsPlainLine(line) && IsShout(line)
    requires !OpensParenthetical(r1) && LineSplit(r1, d, r2)
    ensures Block(i).Ok? && Block(i).rest == r2 && |Block(i).value| == 2
    ensures SpeakerOf(line, Block(i).value[0]) && Block(i).value[1] == Line.Dialogue(d)
  {
    BlockOnPlain(i, line, r1);
    SpeakerOn(i, line, r1);
    ParentheticalNeedsParens(r1);
    DialogueOn(r1, d, r2);
  }

  /** `speaker`, `(x)` with its line ending, a dialogue line: the three-line block. */
  lemma SpdBlockOn(i: string, line: string, r1: string, x: string, after: string,
                   r2: string, d: string, r3: string)
    requires LineSplit(i, line, r1) && IsShout(line) && line[|line| - 1] != '^'
    requires ParenShape(r1, x, after) && LineThen(after, "", r2) && LineSplit(r2, d, r3)
    ensures SpdBlock(i) == Ok([Line.Speaker(line, false), Line.Parenthetical(x), Line.Dialogue(d)], r3)
  {
    PlainSpeakerOn(i, line, r1);
    ParentheticalOn(r1, x, after, r2);
    DialogueOn(r2, d, r3);
  }

  /** `speaker` and a dialogue line: the two-line block. */
  lemma SdBlockOn(i: string, line: string, r1: string, d: string, r2: string)
    requires LineSplit(i, line, r1) && IsShout(line) && line[|line| - 1] != '^' && LineSplit(r1, d, r2)
    ensures SdBlock(i) == Ok([Line.Speaker(line, false), Line.Dialogue(d)], r2)
  {
    PlainSpeakerOn(i, line, r1);
    DialogueOn(r1, d, r2);
  }

  /** The same as a block, when no parenthetical follows the speaker line. */
  lemma BlockPlainSpeakerDialogue(i: string, line: string, r1: string, d: string, r2: string)
    requires LineSplit(i, line, r1) && IsPlainLine(line) && IsShout(line) && line[|line| - 1] != '^'
    requires |r1| > 0 && r1[0] != '(' && LineSplit(r1, d, r2)
    ensures Block(i) == Ok([Line.Speaker(line, false), Line.Dialogue(d)], r2)
  {
    BlockOnPlain(i, line, r1);
    OpensParentheticalStarts(r1);
    ParentheticalNeedsParens(r1);
    SpeakerOn(i, line, r1);
    SdBlockOn(i, line, r1, d, r2);
  }

  /** The same three-line block with the speaker's name and flag spelled out. */
  lemma BlockPlainSpeakerParenDialogue(i: string, line: string, r1: string, x: string, after: string,
                                       r2: string, d: string, r3: string)
    requires LineSplit(i, line, r1) && IsPlainLine(line) && IsShout(line) && line[|line| - 1] != '^'
    requires ParenShape(r1, x, after) && LineThen(after, "", r2) && LineSplit(r2, d, r3)
    ensures Block(i) == Ok([Line.Speaker(line, false), Line.Parenthetical(x), Line.Dialogue(d)], r3)
  {
    BlockOnPlain(i, line, r1);
    SpdBlockOn(i, line, r1, x, after, r2, d, r3);
  }

  /** A speaker line, then `(x)` and a line ending with nothing complete after: the
      three-line block is abandoned and the parenthetical's first line becomes dialogue. */
  lemma BlockSpeakerParenAsDialogue(i: string, line: string, r1: string, x: string, after: string,
                                    r2: string, d: string, r3: string)
    requires LineSplit(i, line, r1) && IsPlainLine(line) && IsShout(line)
    requires ParenShape(r1, x, after) && LineThen(after, "", r2) && !HasLine(r2)
    requires LineSplit(r1, d, r3)
    ensures Block(i).Ok? && Block(i).rest == r3 && |Block(i).value| == 2
    ensures SpeakerOf(line, Block(i).value[0]) && Block(i).value[1] == Line.Dialogue(d)
  {
    BlockOnPlain(i, line, r1);
    SpeakerOn(i, line, r1);
    SpdWithoutDialogue(i, r1, x, after, r2);
    DialogueOn(r1, d, r3);
  }

  lemma SpdWithoutDialogue(i: string, r1: string, x: string, after: string, r2: string)
    requires Parse.Speaker(i).Ok? && Parse.Speaker(i).rest == r1
    requires ParenShape(r1, x, after) && LineThen(after, "", r2) && !HasLine(r2)
    ensures SpdBlock(i).Err?
  {
    ParentheticalOn(r1, x, after, r2);
    SomeLineIff(r2);
  }

  /** Any other line is an action: here, one with a lower-case letter (or an empty line). */
  lemma BlockAction(i: string, line: string, rest: string)
    requires LineSplit(i, line, rest) && IsPlainLine(line) && !IsShout(line)
    ensures Block(i) == Ok([Line.Action(line)], rest)
  {
    BlockOnPlain(i, line, rest);
    SpeakerOn(i, line, rest);
    ActionOn(i, line, rest);
  }

  /** A speaker line with nothing complete after it is an action as well. */
  lemma BlockLoneSpeaker(i: string, line: string, rest: string)
    requires LineSplit(i, line, rest) && IsPlainLine(line) && IsShout(line)
    requires !HasLine(rest) && !OpensParenthetical(rest)
    ensures Block(i) == Ok([Line.Action(line)], rest)
  {
    BlockOnPlain(i, line, rest);
    SpeakerOn(i, line, rest);
    ParentheticalNeedsParens(rest);
    SomeLineIff(rest);
    ActionOn(i, line, rest);
  }

  /** Whatever `block` does besides reporting an error, it does on a complete line. */
  lemma BlockNeedsLine(i: string)
    ensures !Block(i).Err? ==> HasLine(i)
  {
    var forced := TransitionForced(i);
    var to := TransitionTo(i);
    var lyric := Parse.Lyric(i);
    var scene := Parse.Scene(i);
    var speaker := Parse.Speaker(i);
    var action := Parse.Action(i);
    if forced.Ok? {
      assert LineSplit(i, "> " + forced.value.text, forced.rest);
    } else if to.Ok? {
      assert LineSplit(i, to.value.text, to.rest);
    } else if lyric.Ok? {
      assert LineSplit(i, "~" + lyric.value.text, lyric.rest);
    } else if scene.Ok? {
      assert LineSplit(i, scene.value.text, scene.rest);
    } else if speaker.Ok? {
      var s :| LineSplit(i, s, speaker.rest) && IsShout(s);
    } else if action.Ok? {
      assert LineSplit(i, action.value.text, action.rest);
    }
  }

  /** Once `action` reads a line, `block` does not report an error. */
  lemma BlockOk(i: string)
    requires Parse.Action(i).Ok?
    ensures !Block(i).Err?
  {
    if TransitionForced(i).Err? && TransitionTo(i).Err? && Parse.Lyric(i).Err? && Parse.Scene(i).Err?
       && SpdBlock(i).Err? && SdBlock(i).Err? {
      assert Block(i) == Singleton(Parse.Action(i));
    }
  }

  /** `block` reports an error exactly when the input holds no complete line. */
  lemma BlockErrIff(i: string)
    ensures Block(i).Err? <==> !HasLine(i)
  {
    BlockNeedsLine(i);
    if HasLine(i) {
      var line, rest :| LineSplit(i, line, rest);
      ActionOn(i, line, rest);
      BlockOk(i);
    }
  }
}
