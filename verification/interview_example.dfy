/** The document test with a title page: a `Title` item, a blank line, then four blocks
    separated by blank lines. The title page is read by its own lemma, each block by its
    own, and the document lemma for input that opens with a title page chains them. Long
    lines are written in pieces: the solver does not index into long string literals. */
module InterviewExample {
  import opened Text
  import opened Nom
  import opened Data
  import opened Parse
  import opened ParseFacts
  import opened BlockFacts
  import opened DocFacts

  lemma InterviewTitleText(i: string, t: string, v: string, rest: string)
    requires v == "Stephen King Interview" && t == v + "\n" + rest && i == "Title:\n    " + t
    ensures IsKey("Title") && IsBlank("\n    ") && i == "Title" + ":" + "\n    " + t
    ensures LineSplit(t, v, rest) && |v| > 0 && !IsSpace(v[0])
  {
  }

  lemma InterviewTitleLine(i: string, v: string, rest: string)
    requires v == "Stephen King Interview" && i == "Title:\n    Stephen King Interview\n" + rest
    ensures i == "Title:\n    " + v + "\n" + rest
  {
  }

  /** The value starts on the line after the key. */
  lemma InterviewTitleItem(i: string, rest: string)
    requires i == "Title:\n    Stephen King Interview\n" + rest
    ensures TitlepageItem(i) == Ok(("Title", "Stephen King Interview"), rest)
  {
    var v := "Stephen King Interview";
    InterviewTitleLine(i, v, rest);
    var t := v + "\n" + rest;
    assert i == "Title:\n    " + t;
    InterviewTitleText(i, t, v, rest);
    TitlepageItemOn(i, "Title", "\n    ", t, v, rest);
  }

  /** The title page is the one item: a blank line is not an item. */
  lemma InterviewTitleItems(text: string, t0: string, s1: string)
    requires t0 == "\n" + s1 && text == "Title:\n    Stephen King Interview\n" + t0
    ensures TitlepageItems(text) == Ok([("Title", "Stephen King Interview")] + [], t0)
    ensures LineThen(t0, "", s1)
  {
    InterviewTitleItem(text, t0);
    BlankLineNotItem(t0, s1);
    TitlepageItemsOne(text, ("Title", "Stephen King Interview"), t0);
  }

  /** A `Title` item sets the title and nothing else. */
  lemma InterviewTitlePage(items: seq<(string, string)>)
    requires items == [("Title", "Stephen King Interview")] + []
    ensures TitlePageOf(items) == TitlePage(None, Some("Stephen King Interview"), [])
  {
    assert items[..0] == [];
    assert TitlePageOf(items[..0]) == DefaultTitlePage;
  }

  /** A cost helper: the heading, in pieces. */
  lemma TvShowLine(line: string)
    requires line == "INT. Set of some morning TV show."
    ensures IsLineText(line) && IsSceneLine(line) && !IsToLine(line)
  {
    LineTextAppend("INT. Set of some ", "morning TV show.");
    assert line == "INT. Set of some " + "morning TV show.";
    assert line[..5] == "INT. ";
    assert IsLowerAscii(line[6]);
  }

  lemma TvShowBlock(i: string, rest: string)
    requires i == "INT. Set of some morning TV show.\n" + rest
    ensures Block(i) == Ok([Line.Scene("INT. Set of some morning TV show.")], rest)
  {
    var line := "INT. Set of some morning TV show.";
    assert i == line + "\n" + rest;
    TvShowLine(line);
    BlockSceneLine(i, line, rest);
  }

  /** A cost helper: the first two pieces of the first dialogue line. */
  lemma WelcomeOpening(a: string)
    requires a == "Welcome back to In Conversation, " + "I'm your host Pauline Rogers and "
    ensures IsLineText(a)
  {
    LineTextAppend("Welcome back to In Conversation, ", "I'm your host Pauline Rogers and ");
  }

  /** A cost helper: the last three pieces of the first dialogue line. */
  lemma WelcomeClosing(c: string)
    requires c == "today we're talking to renowned " + "horror writer Stephen King. "
                  + "Great to have you here, Stephen."
    ensures IsLineText(c)
  {
    LineTextAppend("today we're talking to renowned ", "horror writer Stephen King. ");
    LineTextAppend("today we're talking to renowned " + "horror writer Stephen King. ",
                   "Great to have you here, Stephen.");
  }

  /** A cost helper: the first dialogue line, in pieces. */
  lemma WelcomeLine(w: string)
    requires w == "Welcome back to In Conversation, " + "I'm your host Pauline Rogers and "
                  + "today we're talking to renowned " + "horror writer Stephen King. "
                  + "Great to have you here, Stephen."
    ensures IsLineText(w)
  {
    var a := "Welcome back to In Conversation, " + "I'm your host Pauline Rogers and ";
    var c := "today we're talking to renowned " + "horror writer Stephen King. "
             + "Great to have you here, Stephen.";
    WelcomeOpening(a);
    WelcomeClosing(c);
    assert w == a + c;
    LineTextAppend(a, c);
  }

  lemma PaulineParenText(i: string, w: string, r1: string, r2: string, rest: string)
    requires r2 == w + "\n" + rest && r1 == "(cheerily)\n" + r2
    requires i == "PAULINE\n(cheerily)\n" + w + "\n" + rest
    ensures i == "PAULINE" + "\n" + r1 && r1 == "(" + "cheerily" + ")\n" + r2
  {
  }

  /** Speaker, parenthetical and a long dialogue line: one three-element block. */
  lemma PaulineParenBlock(i: string, w: string, rest: string)
    requires w == "Welcome back to In Conversation, " + "I'm your host Pauline Rogers and "
                  + "today we're talking to renowned " + "horror writer Stephen King. "
                  + "Great to have you here, Stephen."
    requires i == "PAULINE\n(cheerily)\n" + w + "\n" + rest
    ensures Block(i) == Ok([Line.Speaker("PAULINE", false), Line.Parenthetical("cheerily"),
                            Line.Dialogue(w)], rest)
  {
    WelcomeLine(w);
    var r2 := w + "\n" + rest;
    var r1 := "(cheerily)\n" + r2;
    PaulineParenText(i, w, r1, r2, rest);
    var name := "PAULINE";
    assert name[0] == 'P' && IsShout(name) && !IsSceneLine(name) && !EndsWith(name, "TO:");
    assert Avoids("cheerily", ')');
    ParenLine(r1, "cheerily", r2);
    BlockPlainSpeakerParenDialogue(i, name, r1, "cheerily", "\n" + r2, r2, w, rest);
  }

  /** A cost helper: the speaker's name is a plain, non-dual speaker line. */
  lemma StephenKingName(name: string)
    requires name == "STEPHEN KING"
    ensures IsLineText(name) && IsPlainLine(name) && IsShout(name) && name[|name| - 1] != '^'
  {
    assert name[0] == 'S' && IsShout(name) && !IsSceneLine(name) && !EndsWith(name, "TO:");
  }

  /** A cost helper: the reply, in pieces. */
  lemma ThanksLine(d: string)
    requires d == "Thanks for having me, Pauline."
    ensures IsLineText(d) && d[0] == 'T'
  {
    LineTextAppend("Thanks for having ", "me, Pauline.");
    assert d == "Thanks for having " + "me, Pauline.";
  }

  lemma StephenKingText(i: string, name: string, d: string, r1: string, rest: string)
    requires name == "STEPHEN KING" && d == "Thanks for having me, Pauline." && r1 == d + "\n" + rest
    requires i == "STEPHEN KING\nThanks for having me, Pauline.\n" + rest
    ensures i == name + "\n" + r1
  {
  }

  lemma StephenKingBlock(i: string, rest: string)
    requires i == "STEPHEN KING\nThanks for having me, Pauline.\n" + rest
    ensures Block(i) == Ok([Line.Speaker("STEPHEN KING", false),
                            Line.Dialogue("Thanks for having me, Pauline.")], rest)
  {
    var name, d := "STEPHEN KING", "Thanks for having me, Pauline.";
    var r1 := d + "\n" + rest;
    StephenKingText(i, name, d, r1, rest);
    StephenKingName(name);
    ThanksLine(d);
    assert LineSplit(r1, d, rest) && r1[0] == d[0];
    BlockPlainSpeakerDialogue(i, name, r1, d, rest);
  }

  /** A cost helper: the last dialogue line, in pieces. */
  lemma PleasureLine(p: string)
    requires p == "My pleasure. Now, I'm sure you get " + "asked this all the time, but, "
                  + "where do you get your ideas from?"
    ensures IsLineText(p) && p[0] == 'M'
  {
    LineTextAppend("My pleasure. Now, I'm sure you get ", "asked this all the time, but, ");
    var a := "My pleasure. Now, I'm sure you get " + "asked this all the time, but, ";
    LineTextAppend(a, "where do you get your ideas from?");
  }

  lemma PaulineBlock(i: string, p: string)
    requires p == "My pleasure. Now, I'm sure you get " + "asked this all the time, but, "
                  + "where do you get your ideas from?"
    requires i == "PAULINE\n" + p + "\n"
    ensures Block(i) == Ok([Line.Speaker("PAULINE", false), Line.Dialogue(p)], "")
  {
    PleasureLine(p);
    var name := "PAULINE";
    var r1 := p + "\n" + "";
    assert i == name + "\n" + r1;
    assert name[0] == 'P' && IsShout(name) && !IsSceneLine(name) && !EndsWith(name, "TO:");
    assert IsLineText(name) && r1[0] == 'M';
    BlockPlainSpeakerDialogue(i, name, r1, p, "");
  }

  /** A cost helper: the lines of four blocks of sizes 1, 3, 2, 2, in order. */
  lemma FourBlocksInOrder(b1: seq<Line>, b2: seq<Line>, b3: seq<Line>, b4: seq<Line>)
    requires |b1| == 1 && |b2| == 3 && |b3| == 2 && |b4| == 2
    ensures b1 + b2 + b3 + b4 == [b1[0], b2[0], b2[1], b2[2], b3[0], b3[1], b4[0], b4[1]]
  {
  }

  /** The document test with a title page: the title is set, the author and other items
      stay empty, and the eight lines of the four blocks follow in order, nothing left over. */
  lemma DocumentInterviewExample(text: string, t0: string, s1: string, t2: string, s2: string,
                                 w: string, t3: string, s3: string, t4: string, s4: string, p: string)
    requires p == "My pleasure. Now, I'm sure you get " + "asked this all the time, but, "
                  + "where do you get your ideas from?"
    requires s4 == "PAULINE\n" + p + "\n" && t4 == "\n" + s4
    requires s3 == "STEPHEN KING\nThanks for having me, Pauline.\n" + t4 && t3 == "\n" + s3
    requires w == "Welcome back to In Conversation, " + "I'm your host Pauline Rogers and "
                  + "today we're talking to renowned " + "horror writer Stephen King. "
                  + "Great to have you here, Stephen."
    requires s2 == "PAULINE\n(cheerily)\n" + w + "\n" + t3 && t2 == "\n" + s2
    requires s1 == "INT. Set of some morning TV show.\n" + t2 && t0 == "\n" + s1
    requires text == "Title:\n    Stephen King Interview\n" + t0
    ensures ParseDocument(text)
         == Ok(Document([Line.Scene("INT. Set of some morning TV show."),
                         Line.Speaker("PAULINE", false), Line.Parenthetical("cheerily"), Line.Dialogue(w),
                         Line.Speaker("STEPHEN KING", false), Line.Dialogue("Thanks for having me, Pauline."),
                         Line.Speaker("PAULINE", false), Line.Dialogue(p)],
                        TitlePage(None, Some("Stephen King Interview"), [])), "")
  {
    InterviewTitleItems(text, t0, s1);
    var items := [("Title", "Stephen King Interview")] + [];
    InterviewTitlePage(items);
    TvShowBlock(s1, t2);
    PaulineParenBlock(s2, w, t3);
    StephenKingBlock(s3, t4);
    PaulineBlock(s4, p);
    BlankLine(t2, s2);
    BlankLine(t3, s3);
    BlankLine(t4, s4);
    var b1 := [Line.Scene("INT. Set of some morning TV show.")];
    var b2 := [Line.Speaker("PAULINE", false), Line.Parenthetical("cheerily"), Line.Dialogue(w)];
    var b3 := [Line.Speaker("STEPHEN KING", false), Line.Dialogue("Thanks for having me, Pauline.")];
    var b4 := [Line.Speaker("PAULINE", false), Line.Dialogue(p)];
    DocumentOfFourBlocksAfterTitlePage(text, items, t0, s1, b1, t2, s2, b2, t3, s3, b3, t4, s4, b4);
    FourBlocksInOrder(b1, b2, b3, b4);
  }
}
