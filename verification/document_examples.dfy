/** The longer document test of the parser: six blocks separated by blank lines. Each
    block is read by its own lemma, and the document lemma chains them. The suffixes of
    the input that remain after each block (`t2` … `t6`) and after each blank line
    (`s2` … `s6`) are named by the preconditions. */
module DocumentExamples {
  import opened Text
  import opened Nom
  import opened Data
  import opened Parse
  import opened ParseFacts
  import opened BlockFacts
  import opened DocFacts
  import opened Scenarios

  /** The opening scene heading: not a title-page item, not a line ending, a one-line block. */
  lemma PublicLibraryOpens(text: string, rest: string)
    requires text == "INT. Public library\n" + rest
    ensures TitlepageItem(text).Err? && !StartsWithLineEnding(text)
    ensures Block(text) == Ok([Line.Scene("INT. Public library")], rest)
  {
    var s := "INT. Public library";
    PublicLibraryText(text, rest);
    assert s[0] == s[..5][0];
    LineSplitFirst(text, s, rest);
    StartsWithLineEndingChar(text);
    TitlepageItemNoColon(text, s, rest);
    BlockSceneLine(text, s, rest);
  }

  lemma LightsUpBlock(i: string, a: string, rest: string)
    requires a == "Lights up on a table, " + "totally empty except for a book." && i == a + "\n" + rest
    ensures Block(i) == Ok([Line.Action(a)], rest)
  {
    LightsUpText(a + "\n", a);
    BlockAction(i, a, rest);
  }

  lemma LibrarianBlockText(i: string, r1: string, r2: string, rest: string)
    requires r2 == "Is anyone there?\n" + rest && r1 == "(scared)\n" + r2
    requires i == "LIBRARIAN\n(scared)\nIs anyone there?\n" + rest
    ensures i == "LIBRARIAN\n" + r1
  {
  }

  lemma LibrarianBlock(i: string, rest: string)
    requires i == "LIBRARIAN\n(scared)\nIs anyone there?\n" + rest
    ensures Block(i) == Ok([Line.Speaker("LIBRARIAN", false), Line.Parenthetical("scared"),
                            Line.Dialogue("Is anyone there?")], rest)
  {
    var r2 := "Is anyone there?\n" + rest;
    var r1 := "(scared)\n" + r2;
    LibrarianBlockText(i, r1, r2, rest);
    LibrarianText(i, r1);
    assert "LIBRARIAN"[0] == 'L' && IsShout("LIBRARIAN") && !IsSceneLine("LIBRARIAN");
    assert !EndsWith("LIBRARIAN", "TO:");
    assert r1 == "(" + "scared" + ")\n" + r2;
    ParenLine(r1, "scared", r2);
    assert r2 == "Is anyone there?" + "\n" + rest;
    BlockPlainSpeakerParenDialogue(i, "LIBRARIAN", r1, "scared", "\n" + r2, r2, "Is anyone there?", rest);
  }

  lemma CutToBlock(i: string, rest: string)
    requires i == "CUT TO:\n" + rest
    ensures Block(i) == Ok([Line.Transition("CUT TO:")], rest)
  {
    var line := "CUT TO:";
    assert i == line + "\n" + rest;
    assert line[0] == 'C';
    assert IsShout(line) && EndsWith(line, "TO:") && !IsForcedLine(line);
    BlockToLine(i, line, rest);
  }

  lemma YogaRetreatBlock(i: string, rest: string)
    requires i == "EXT. YOGA RETREAT\n" + rest
    ensures Block(i) == Ok([Line.Scene("EXT. YOGA RETREAT")], rest)
  {
    var line := "EXT. YOGA RETREAT";
    assert i == line + "\n" + rest;
    assert line[|line| - 3..] == "EAT";
    assert IsLineText(line) && IsSceneLine(line) && !IsToLine(line);
    BlockSceneLine(i, line, rest);
  }

  lemma FadeOutBlock(i: string)
    requires i == "> Fade out\n"
    ensures Block(i) == Ok([Line.Transition("Fade out")], "")
  {
    var line := "> Fade out";
    assert i == line + "\n" + "";
    assert IsLineText(line) && IsForcedLine(line) && line[2..] == "Fade out";
    BlockForcedLine(i, line, "");
  }

  /** A cost helper: the lines of six blocks of sizes 1, 1, 3, 1, 1, 1, in order. */
  lemma SixBlocksInOrder(b1: seq<Line>, b2: seq<Line>, b3: seq<Line>, b4: seq<Line>, b5: seq<Line>, b6: seq<Line>)
    requires |b1| == 1 && |b2| == 1 && |b3| == 3 && |b4| == 1 && |b5| == 1 && |b6| == 1
    ensures b1 + b2 + b3 + b4 + b5 + b6 == [b1[0], b2[0], b3[0], b3[1], b3[2], b4[0], b5[0], b6[0]]
  {
  }

  /** The small document test: scene, action, a speaker with a parenthetical and dialogue,
      a `TO:` transition, a scene and a forced transition, all read, nothing left over. */
  lemma DocumentSmallExample(text: string, a: string, t2: string, s2: string, t3: string, s3: string,
                             t4: string, s4: string, t5: string, s5: string, t6: string, s6: string)
    requires s6 == "> Fade out\n" && t6 == "\n" + s6
    requires s5 == "EXT. YOGA RETREAT\n" + t6 && t5 == "\n" + s5
    requires s4 == "CUT TO:\n" + t5 && t4 == "\n" + s4
    requires s3 == "LIBRARIAN\n(scared)\nIs anyone there?\n" + t4 && t3 == "\n" + s3
    requires a == "Lights up on a table, " + "totally empty except for a book."
    requires s2 == a + "\n" + t3 && t2 == "\n" + s2
    requires text == "INT. Public library\n" + t2
    ensures ParseDocument(text)
         == Ok(Document([Line.Scene("INT. Public library"), Line.Action(a),
                         Line.Speaker("LIBRARIAN", false), Line.Parenthetical("scared"),
                         Line.Dialogue("Is anyone there?"), Line.Transition("CUT TO:"),
                         Line.Scene("EXT. YOGA RETREAT"), Line.Transition("Fade out")], DefaultTitlePage), "")
  {
    PublicLibraryOpens(text, t2);
    LightsUpBlock(s2, a, t3);
    LibrarianBlock(s3, t4);
    CutToBlock(s4, t5);
    YogaRetreatBlock(s5, t6);
    FadeOutBlock(s6);
    BlankLine(t2, s2);
    BlankLine(t3, s3);
    BlankLine(t4, s4);
    BlankLine(t5, s5);
    BlankLine(t6, s6);
    var b1, b2 := [Line.Scene("INT. Public library")], [Line.Action(a)];
    var b3 := [Line.Speaker("LIBRARIAN", false), Line.Parenthetical("scared"), Line.Dialogue("Is anyone there?")];
    var b4, b5, b6 := [Line.Transition("CUT TO:")], [Line.Scene("EXT. YOGA RETREAT")], [Line.Transition("Fade out")];
    DocumentOfSixBlocks(text, b1, t2, s2, b2, t3, s3, b3, t4, s4, b4, t5, s5, b5, t6, s6, b6);
    SixBlocksInOrder(b1, b2, b3, b4, b5, b6);
  }
}
