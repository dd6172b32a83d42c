/** Worked inputs: the examples the parser's own unit tests use, and a few that show its
    edges, each proved from the general lemmas. The input is a parameter fixed by the
    precondition, so that the proofs go through the lemmas rather than by unfolding. */
module Scenarios {
  import opened Text
  import opened Nom
  import opened Data
  import opened Parse
  import opened ParseFacts
  import opened BlockFacts
  import opened DocFacts

  /** `strip_suffix(" ^", ...)` removes the marker when present and nothing otherwise. */
  lemma StripSuffixExamples(a: string, b: string)
    requires a == "Adam ^" && b == "Adam"
    ensures StripSuffix(" ^", a) == "Adam"
    ensures StripSuffix(" ^", b) == "Adam"
  {
    assert EndsWith(a, " ^");
    assert a[..4] == "Adam";
    assert b[2..] == "am";
  }

  lemma TitleItemText(i: string, t: string, v: string, rest: string)
    requires v == "MUPPET TREASURE ISLAND" && t == v + "\n" + rest && i == "Title: " + t
    ensures IsKey("Title") && IsBlank(" ") && i == "Title" + ":" + " " + t
    ensures LineSplit(t, v, rest) && |v| > 0 && !IsSpace(v[0])
  {
  }

  lemma AuthorItemText(i: string, t: string, v: string, rest: string)
    requires v == "Jerry Juhl" && t == v + "\n" + rest && i == "Author:\n    " + t
    ensures IsKey("Author") && IsBlank("\n    ") && i == "Author" + ":" + "\n    " + t
    ensures LineSplit(t, v, rest) && |v| > 0 && !IsSpace(v[0])
  {
  }

  lemma PagesItemText(i: string, t: string, v: string)
    requires v == "223" && t == v + "\n" && i == "Pages:\n    " + t
    ensures IsKey("Pages") && IsBlank("\n    ") && i == "Pages" + ":" + "\n    " + t
    ensures LineSplit(t, v, "") && |v| > 0 && !IsSpace(v[0])
  {
    assert t == v + "\n" + "";
  }

  lemma TitleLineText(i: string, v: string, rest: string)
    requires v == "MUPPET TREASURE ISLAND" && i == "Title: MUPPET TREASURE ISLAND\n" + rest
    ensures i == "Title: " + v + "\n" + rest
  {
  }

  lemma TitleItemExample(i: string, rest: string)
    requires i == "Title: MUPPET TREASURE ISLAND\n" + rest
    ensures TitlepageItem(i) == Ok(("Title", "MUPPET TREASURE ISLAND"), rest)
  {
    var v := "MUPPET TREASURE ISLAND";
    TitleLineText(i, v, rest);
    var t := v + "\n" + rest;
    assert i == "Title: " + t;
    TitleItemText(i, t, v, rest);
    TitlepageItemOn(i, "Title", " ", t, v, rest);
  }

  /** A value may start on the line after its key. */
  lemma AuthorLineText(i: string, v: string, rest: string)
    requires v == "Jerry Juhl" && i == "Author:\n    Jerry Juhl\n" + rest
    ensures i == "Author:\n    " + v + "\n" + rest
  {
  }

  lemma AuthorItemExample(i: string, rest: string)
    requires i == "Author:\n    Jerry Juhl\n" + rest
    ensures TitlepageItem(i) == Ok(("Author", "Jerry Juhl"), rest)
  {
    var v := "Jerry Juhl";
    AuthorLineText(i, v, rest);
    var t := v + "\n" + rest;
    assert i == "Author:\n    " + t;
    AuthorItemText(i, t, v, rest);
    TitlepageItemOn(i, "Author", "\n    ", t, v, rest);
  }

  lemma PagesItemExample(i: string)
    requires i == "Pages:\n    223\n"
    ensures TitlepageItem(i) == Ok(("Pages", "223"), "")
  {
    var v := "223";
    var t := v + "\n";
    PagesItemText(i, t, v);
    TitlepageItemOn(i, "Pages", "\n    ", t, v, "");
  }

  /** The title page those items build: the title and author are taken out, the page count
      stays among the other items. */
  lemma TitlePageOfExample(a: (string, string), b: (string, string), c: (string, string))
    requires a == ("Title", "MUPPET TREASURE ISLAND") && b == ("Author", "Jerry Juhl") && c == ("Pages", "223")
    ensures TitlePageOf([a] + ([b] + ([c] + [])))
         == TitlePage(Some("Jerry Juhl"), Some("MUPPET TREASURE ISLAND"), [("Pages", "223")])
  {
    assert [a] + ([b] + ([c] + [])) == [] + [a] + [b] + [c];
    TitlePageOfSnoc([], a);
    TitlePageOfSnoc([] + [a], b);
    TitlePageOfSnoc([] + [a] + [b], c);
  }

  /** The title-page test: three items, nothing left over. */
  lemma TitlepageExample(i: string, i2: string, i3: string)
    requires i3 == "Pages:\n    223\n"
    requires i2 == "Author:\n    Jerry Juhl\n" + i3
    requires i == "Title: MUPPET TREASURE ISLAND\n" + i2
    ensures Titlepage(i) == Ok(TitlePage(Some("Jerry Juhl"), Some("MUPPET TREASURE ISLAND"), [("Pages", "223")]), "")
  {
    var a, b, c := ("Title", "MUPPET TREASURE ISLAND"), ("Author", "Jerry Juhl"), ("Pages", "223");
    TitleItemExample(i, i2);
    AuthorItemExample(i2, i3);
    PagesItemExample(i3);
    TitlepageItemsThree(i, a, i2, b, i3, c);
    TitlepageOn(i, [a] + ([b] + ([c] + [])), "");
    TitlePageOfExample(a, b, c);
  }

  lemma NoLowerExample(i: string)
    requires i == "ADAM CHALMERS"
    ensures NoLower(i) == Ok("ADAM CHALMERS", "")
  {
    assert IsShout(i);
    SpanUnique(i, NoLowerChar, |i|);
    assert i[..|i|] == i && i[|i|..] == "";
  }

  lemma SpeakerExampleLine(i: string, line: string, rest: string)
    requires line == "MRS. THOMPSON" && i == line + "\n" + rest
    ensures LineSplit(i, line, rest) && IsShout(line)
    ensures !EndsWith(line, " ^") && line[|line| - 1] != '^'
  {
    assert line[|line| - 2..] == "ON";
  }

  /** The speaker test: the input is the speaker line followed by its dialogue line. */
  lemma SpeakerExample(i: string, rest: string)
    requires rest == "What really caused the fall of Rome?\n" && i == "MRS. THOMPSON\n" + rest
    ensures Parse.Speaker(i) == Ok(Line.Speaker("MRS. THOMPSON", false), rest)
  {
    var line := "MRS. THOMPSON";
    assert i == line + "\n" + rest;
    SpeakerExampleLine(i, line, rest);
    SpeakerOn(i, line, rest);
  }

  /** A speaker line ending in `^` without the space is dual, and keeps its `^`. */
  lemma DualSpeakerWithoutSpace(i: string)
    requires i == "BOB^\n"
    ensures Parse.Speaker(i) == Ok(Line.Speaker("BOB^", true), "")
  {
    var line := "BOB^";
    assert i == line + "\n" + "";
    assert IsShout(line);
    SpeakerOn(i, line, "");
    assert line[2..] == "B^";
  }

  lemma DualSpeakerWithSpace(i: string)
    requires i == "BOB ^\n"
    ensures Parse.Speaker(i) == Ok(Line.Speaker("BOB", true), "")
  {
    assert "BOB ^" == "BOB" + " ^";
    assert i == "BOB" + " ^" + "\n" + "";
    assert IsShout("BOB" + " ^");
    DualSpacedSpeakerOn(i, "BOB", "");
  }

  lemma TransitionExample(i: string)
    requires i == "FADE TO:\n"
    ensures TransitionTo(i) == Ok(Line.Transition("FADE TO:"), "")
  {
    var line := "FADE TO:";
    assert i == line + "\n" + "";
    assert IsShout(line) && EndsWith(line, "TO:");
    TransitionToOn(i, line, "");
  }

  lemma ForcedTransitionExampleLine(i: string, line: string)
    requires i == "> Burn to white.\n" && line == "> Burn to white."
    ensures LineSplit(i, line, "") && IsForcedLine(line) && line[2..] == "Burn to white."
  {
    assert i == line + "\n" + "";
  }

  lemma ForcedTransitionExample(i: string)
    requires i == "> Burn to white.\n"
    ensures TransitionForced(i) == Ok(Line.Transition("Burn to white."), "")
  {
    var line := "> Burn to white.";
    ForcedTransitionExampleLine(i, line);
    TransitionForcedOn(i, line, "");
  }

  lemma IntSceneExample(i: string)
    requires i == "INT. Michael's house\n"
    ensures Parse.Scene(i) == Ok(Line.Scene("INT. Michael's house"), "")
  {
    var line := "INT. Michael's house";
    assert i == line + "\n" + "";
    assert IsLineText(line) && IsSceneLine(line);
    SceneOn(i, line, "");
  }

  lemma ExtSceneExample(i: string)
    requires i == "EXT. Michael's garden\n"
    ensures Parse.Scene(i) == Ok(Line.Scene("EXT. Michael's garden"), "")
  {
    var line := "EXT. Michael's garden";
    assert i == line + "\n" + "";
    assert IsLineText(line) && IsSceneLine(line);
    SceneOn(i, line, "");
  }

  lemma LyricExampleLine(i: string, line: string)
    requires i == "~For he is an Englishman!\n" && line == "~For he is an Englishman!"
    ensures LineSplit(i, line, "") && IsLyricLine(line) && line[1..] == "For he is an Englishman!"
  {
    assert i == line + "\n" + "";
  }

  lemma LyricExample(i: string)
    requires i == "~For he is an Englishman!\n"
    ensures Parse.Lyric(i) == Ok(Line.Lyric("For he is an Englishman!"), "")
  {
    var line := "~For he is an Englishman!";
    LyricExampleLine(i, line);
    LyricOn(i, line, "");
  }

  lemma ActionExample(i: string)
    requires i == "MICHAEL drops the plate.\n"
    ensures Parse.Action(i) == Ok(Line.Action("MICHAEL drops the plate."), "")
  {
    var line := "MICHAEL drops the plate.";
    assert i == line + "\n" + "";
    assert IsLineText(line);
    ActionOn(i, line, "");
  }

  lemma SomeLineExample(i: string)
    requires i == "MICHAEL drops the glass\n"
    ensures SomeLine(i) == Ok("MICHAEL drops the glass", "")
  {
    var line := "MICHAEL drops the glass";
    assert i == line + "\n" + "";
    assert IsLineText(line);
    SomeLineOn(i, line, "");
  }

  lemma InParensExample(i: string)
    requires i == "(gasping)"
    ensures InParens(i) == Ok("gasping", "")
  {
    assert ParenShape(i, "gasping", "");
    InParensOn(i, "gasping", "");
  }

  lemma ParentheticalExample(i: string)
    requires i == "(gasping)\n"
    ensures Parse.Parenthetical(i) == Ok(Line.Parenthetical("gasping"), "")
  {
    assert ParenShape(i, "gasping", "\n");
    ParentheticalOn(i, "gasping", "\n", "");
  }

  /** `(gasping)` at the very end, with no line ending: a failure, not an error. */
  lemma ParentheticalWithoutLineEnding(i: string)
    requires i == "(gasping)"
    ensures Parse.Parenthetical(i).Fail?
  {
    assert ParenShape(i, "gasping", "");
    ParentheticalCut(i, "gasping", "");
  }

  lemma LibrarianText(i: string, r1: string)
    requires i == "LIBRARIAN\n" + r1
    ensures LineSplit(i, "LIBRARIAN", r1) && IsShout("LIBRARIAN") && "LIBRARIAN"[8] != '^'
  {
    assert i == "LIBRARIAN" + "\n" + r1;
  }

  lemma AnyoneThereText(i: string)
    requires i == "Is anyone there?\n"
    ensures LineSplit(i, "Is anyone there?", "")
  {
    assert i == "Is anyone there?" + "\n" + "";
  }

  /** The speaker-dialogue test: a two-line block. */
  lemma SdBlockExample(i: string, rest: string)
    requires rest == "Is anyone there?\n" && i == "LIBRARIAN\n" + rest
    ensures SdBlock(i) == Ok([Line.Speaker("LIBRARIAN", false), Line.Dialogue("Is anyone there?")], "")
  {
    LibrarianText(i, rest);
    AnyoneThereText(rest);
    SdBlockOn(i, "LIBRARIAN", rest, "Is anyone there?", "");
  }

  /** The speaker-parenthetical-dialogue test: a three-line block. */
  lemma SpdBlockExample(i: string, r1: string, r2: string)
    requires r2 == "Is anyone there?\n" && r1 == "(scared)\n" + r2 && i == "LIBRARIAN\n" + r1
    ensures SpdBlock(i) == Ok([Line.Speaker("LIBRARIAN", false), Line.Parenthetical("scared"),
                               Line.Dialogue("Is anyone there?")], "")
  {
    LibrarianText(i, r1);
    assert r1 == "(" + "scared" + ")\n" + r2;
    ParenLine(r1, "scared", r2);
    AnyoneThereText(r2);
    SpdBlockOn(i, "LIBRARIAN", r1, "scared", "\n" + r2, r2, "Is anyone there?", "");
  }

  lemma PublicLibraryText(text: string, r1: string)
    requires text == "INT. Public library\n" + r1
    ensures LineSplit(text, "INT. Public library", r1) && IsSceneLine("INT. Public library")
    ensures !IsToLine("INT. Public library") && Avoids("INT. Public library", ':')
  {
    var s := "INT. Public library";
    assert text == s + "\n" + r1;
    assert IsLowerAscii(s[6]);
    assert IsLineText(s) && IsSceneLine(s) && !IsShout(s) && Avoids(s, ':');
  }

  /** The action line of the smallest document test, written in two pieces: the solver
      does not index into string literals this long. */
  lemma LightsUpText(r2: string, a: string)
    requires a == "Lights up on a table, " + "totally empty except for a book." && r2 == a + "\n"
    ensures LineSplit(r2, a, "") && IsPlainLine(a) && !IsShout(a)
  {
    assert r2 == a + "\n" + "";
    LineTextAppend("Lights up on a table, ", "totally empty except for a book.");
    assert a[0] == 'L' && IsLowerAscii(a[1]);
  }

  /** The smallest document test: a scene heading, a blank line, an action. The blank line
      is the separator between the two blocks. */
  lemma DocumentTinyExample(text: string, r1: string, r2: string, a: string)
    requires a == "Lights up on a table, " + "totally empty except for a book."
    requires r2 == a + "\n" && r1 == "\n" + r2 && text == "INT. Public library\n" + r1
    ensures ParseDocument(text) == Ok(Document([Line.Scene("INT. Public library"), Line.Action(a)], DefaultTitlePage), "")
  {
    PublicLibraryText(text, r1);
    LightsUpText(r2, a);
    assert r1 == "" + "\n" + r2;
    DocumentSceneThenAction(text, "INT. Public library", r1, r2, a, "");
  }

  /** Two lines with no blank line between them: the first is an action, and the parse
      stops there, since blocks are separated by line endings. */
  lemma DocumentStopsWithoutSeparator(text: string, rest: string)
    requires rest == "World\n" && text == "Hello\n" + rest
    ensures ParseDocument(text) == Ok(Document([Line.Action("Hello")], DefaultTitlePage), rest)
  {
    HelloText(text, rest);
    DocumentAction(text, "Hello", rest);
  }

  lemma HelloText(text: string, rest: string)
    requires rest == "World\n" && text == "Hello\n" + rest
    ensures LineSplit(text, "Hello", rest) && IsPlainLine("Hello") && !IsShout("Hello")
    ensures Avoids("Hello", ':') && !StartsWithLineEnding(rest)
  {
    var s := "Hello";
    assert text == s + "\n" + rest;
    assert IsLowerAscii(s[1]);
    assert IsLineText(s) && IsPlainLine(s) && !IsShout(s) && Avoids(s, ':');
    assert rest[0] == 'W';
    StartsWithLineEndingChar(rest);
  }

  lemma KaneText(text: string, r1: string)
    requires text == "KANE\n" + r1
    ensures LineSplit(text, "KANE", r1) && IsPlainLine("KANE") && IsShout("KANE")
    ensures "KANE"[3] != '^' && Avoids("KANE", ':')
  {
    var s := "KANE";
    assert text == s + "\n" + r1;
    assert IsShout(s) && IsPlainLine(s) && Avoids(s, ':');
  }

  lemma FirstThingText(r1: string, d: string)
    requires d == "First thing I'm going to do when we " + "get back is eat some decent food."
    requires r1 == d + "\n"
    ensures |r1| > 0 && r1[0] != '(' && LineSplit(r1, d, "")
  {
    assert r1 == d + "\n" + "";
    LineTextAppend("First thing I'm going to do when we ", "get back is eat some decent food.");
    assert r1[0] == 'F';
  }

  /** The document from the parser's own usage example: one speaker block. */
  lemma DocumentKaneExample(text: string, d: string)
    requires d == "First thing I'm going to do when we " + "get back is eat some decent food."
    requires text == "KANE\n" + d + "\n"
    ensures ParseDocument(text)
         == Ok(Document([Line.Speaker("KANE", false), Line.Dialogue(d)], DefaultTitlePage), "")
  {
    var r1 := d + "\n";
    assert text == "KANE\n" + r1;
    KaneText(text, r1);
    FirstThingText(r1, d);
    DocumentSpeakerDialogue(text, "KANE", r1, d, "");
  }
}
