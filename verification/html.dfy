/** The HTML renderer: one `<p>` fragment per line, a title-page section, and the body
    that puts them together. Payload text is inserted verbatim, with no escaping. */
module Html {
  import opened Text
  import opened Data

  const ParaOpen := "<p class='"
  const ParaMid := "'>"
  const ParaClose := "</p>"
  const PageBreak := "<p class='page-break'></p>"

  /** `<p class='c'>x</p>`: the paragraph every line becomes. */
  function Paragraph(c: string, x: string): string {
    ParaOpen + c + ParaMid + x + ParaClose
  }

  /** The class a line's paragraph carries. A transition is styled as a parenthetical and
      a lyric gets a class of its own: the renderer's line mapping names neither. */
  function ClassOf(l: Line): string {
    match l
    case Scene(_) => "scene"
    case Action(_) => "action"
    case Dialogue(_) => "dialogue"
    case Speaker(_, _) => "speaker"
    case Parenthetical(_) => "parenthetical"
    case Transition(_) => "parenthetical"
    case Lyric(_) => "lyric"
  }

  /** The text a line shows: its payload, in parentheses for a parenthetical or a transition.
      A speaker shows its name; whether it is dual is not shown. */
  function Shown(l: Line): string {
    match l
    case Speaker(name, _) => name
    case Parenthetical(t) => "(" + t + ")"
    case Transition(t) => "(" + t + ")"
    case _ => l.text
  }

  /** `line_to_html`: one fixed paragraph per variant. The ensures only restates the
      renderer's case table, split into `ClassOf` and `Shown`; `ReadLineToHtml` is the
      check on it, reading the class and the shown text back out of the fragment. */
  function LineToHtml(l: Line): (r: string)
    ensures r == Paragraph(ClassOf(l), Shown(l))
  {
    match l
    case Scene(s) => Paragraph("scene", s)
    case Action(s) => Paragraph("action", s)
    case Dialogue(s) => Paragraph("dialogue", s)
    case Speaker(name, _) => Paragraph("speaker", name)
    case Parenthetical(s) => Paragraph("parenthetical", "(" + s + ")")
    case Transition(s) => Paragraph("parenthetical", "(" + s + ")")
    case Lyric(s) => Paragraph("lyric", s)
  }

  /** The first index of `c` in `s`, if any. */
  function IndexOf(s: string, c: char): (r: Option<nat>)
    ensures r.Some? ==> r.value < |s| && s[r.value] == c && Avoids(s[..r.value], c)
    ensures r.None? <==> Avoids(s, c)
  {
    if |s| == 0 then None
    else if s[0] == c then Some(0)
    else
      var k := IndexOf(s[1..], c);
      if k.None? then None
      else
        assert s[..k.value + 1] == [s[0]] + s[1..][..k.value];
        Some(k.value + 1)
  }

  lemma {:induction false} IndexOfAfter(a: string, c: char, b: string)
    requires Avoids(a, c)
    ensures IndexOf(a + [c] + b, c) == Some(|a|)
  {
    if |a| > 0 {
      assert (a + [c] + b)[1..] == a[1..] + [c] + b;
      IndexOfAfter(a[1..], c, b);
    }
  }

  /** Reads a paragraph back: the class up to the first quote after `<p class='`, and the
      text between the `'>` after it and the final `</p>`. */
  function ReadParagraph(r: string): (o: Option<(string, string)>)
    ensures o.Some? ==> r == Paragraph(o.value.0, o.value.1)
  {
    if !StartsWith(r, ParaOpen) then None
    else
      var t := r[|ParaOpen|..];
      var k := IndexOf(t, '\'');
      if k.None? then None
      else
        var u := t[k.value..];
        if |u| < 6 || u[..2] != ParaMid || u[|u| - 4..] != ParaClose then None
        else
          ReadParagraphShape(r, t, k.value, u);
          Some((t[..k.value], u[2..|u| - 4]))
  }

  lemma ReadParagraphShape(r: string, t: string, k: nat, u: string)
    requires StartsWith(r, ParaOpen) && t == r[|ParaOpen|..] && k <= |t| && u == t[k..]
    requires |u| >= 6 && u[..2] == ParaMid && u[|u| - 4..] == ParaClose
    ensures r == Paragraph(t[..k], u[2..|u| - 4])
  {
    assert r == ParaOpen + t;
    assert t == t[..k] + u;
    assert u == ParaMid + u[2..|u| - 4] + ParaClose;
  }

  /** A class name never contains a quote. */
  lemma ClassAvoidsQuote(l: Line)
    ensures Avoids(ClassOf(l), '\'')
  {
  }

  /** Reading back a paragraph whose class has no quote gives its class and its text. */
  lemma ReadParagraphOf(c: string, x: string)
    requires Avoids(c, '\'')
    ensures ReadParagraph(Paragraph(c, x)) == Some((c, x))
  {
    var v := ">" + x + ParaClose;
    ParagraphAfterOpen(c, x);
    IndexOfAfter(c, '\'', v);
    ParagraphAfterClass(c, x);
    ParagraphEnds(x);
  }

  lemma ParagraphAfterOpen(c: string, x: string)
    ensures StartsWith(Paragraph(c, x), ParaOpen)
    ensures Paragraph(c, x)[|ParaOpen|..] == c + ['\''] + (">" + x + ParaClose)
  {
    assert ParaMid == ['\''] + ">";
    assert Paragraph(c, x) == ParaOpen + (c + ['\''] + (">" + x + ParaClose));
  }

  lemma ParagraphAfterClass(c: string, x: string)
    ensures (c + ['\''] + (">" + x + ParaClose))[..|c|] == c
    ensures (c + ['\''] + (">" + x + ParaClose))[|c|..] == ParaMid + x + ParaClose
  {
    assert ParaMid == ['\''] + ">";
  }

  lemma ParagraphEnds(x: string)
    ensures var u := ParaMid + x + ParaClose;
      |u| >= 6 && u[..2] == ParaMid && u[|u| - 4..] == ParaClose && u[2..|u| - 4] == x
  {
  }

  /** Reading a fragment back recovers the line's class and the text it shows. */
  lemma ReadLineToHtml(l: Line)
    ensures ReadParagraph(LineToHtml(l)) == Some((ClassOf(l), Shown(l)))
  {
    ClassAvoidsQuote(l);
    ReadParagraphOf(ClassOf(l), Shown(l));
  }

  /** Two lines render alike exactly when they have the same class and show the same text. */
  lemma LineToHtmlSame(a: Line, b: Line)
    ensures LineToHtml(a) == LineToHtml(b) <==> ClassOf(a) == ClassOf(b) && Shown(a) == Shown(b)
  {
    ReadLineToHtml(a);
    ReadLineToHtml(b);
  }

  /** A transition renders exactly like a parenthetical with the same text, and the dual
      mark of a speaker does not show. */
  lemma RenderingForgets(t: string, name: string)
    ensures LineToHtml(Transition(t)) == LineToHtml(Parenthetical(t))
    ensures LineToHtml(Speaker(name, true)) == LineToHtml(Speaker(name, false))
  {
    LineToHtmlSame(Transition(t), Parenthetical(t));
    LineToHtmlSame(Speaker(name, true), Speaker(name, false));
  }

  /** Apart from those, the fragment determines the line. */
  lemma LineToHtmlInjective(a: Line, b: Line)
    requires !a.Transition? && !b.Transition? && !a.Speaker? && !b.Speaker?
    requires LineToHtml(a) == LineToHtml(b)
    ensures a == b
  {
    LineToHtmlSame(a, b);
    if a.Parenthetical? {
      assert ("(" + a.text + ")")[1..|a.text| + 1] == a.text;
      assert ("(" + b.text + ")")[1..|b.text| + 1] == b.text;
    }
  }

  const TitleOpen := "<h1 class='metadata'>"
  const TitleClose := "</h1>"
  const AuthorOpen := "<h3 class='metadata'>By "
  const AuthorClose := "</h3>"
  const OtherOpen := "<h5>"
  const OtherSep := ": "

  function OrElse(o: Option<string>, fallback: string): string {
    if o.Some? then o.value else fallback
  }

  function TitleHtml(m: TitlePage): string {
    TitleOpen + OrElse(m.title, "Untitled") + TitleClose
  }

  function AuthorHtml(m: TitlePage): string {
    AuthorOpen + OrElse(m.author, "Author unknown") + AuthorClose
  }

  /** One `other` item: a heading with no closing tag. */
  function OtherHtml(kv: (string, string)): string {
    OtherOpen + kv.0 + OtherSep + kv.1
  }

  function OthersHtml(other: seq<(string, string)>): (r: seq<string>)
    ensures |r| == |other|
    ensures forall j :: 0 <= j < |other| ==> r[j] == OtherHtml(other[j])
  {
    if |other| == 0 then [] else [OtherHtml(other[0])] + OthersHtml(other[1..])
  }

  /** `metadata_to_html`: title, author, the other items joined by line endings, and the
      page break, each followed by a line ending. */
  function MetadataToHtml(m: TitlePage): (r: string)
    ensures r == Join(MetadataLines(m), "\n")
  {
    SectionJoin(m);
    TitleHtml(m) + "\n" + AuthorHtml(m) + "\n" + Join(OthersHtml(m.other), "\n") + "\n" + PageBreak + "\n"
  }

  /** The lines of the title-page section, one per element; with no other items their
      joined text is the empty line between author and page break. */
  function MetadataLines(m: TitlePage): seq<string> {
    [TitleHtml(m), AuthorHtml(m)]
      + (if |m.other| == 0 then [""] else OthersHtml(m.other))
      + [PageBreak, ""]
  }

  /** No value of the title page holds a line ending. */
  predicate OneLineTitlePage(m: TitlePage) {
    && (m.title.Some? ==> Avoids(m.title.value, '\n'))
    && (m.author.Some? ==> Avoids(m.author.value, '\n'))
    && forall j :: 0 <= j < |m.other| ==> Avoids(m.other[j].0, '\n') && Avoids(m.other[j].1, '\n')
  }

  lemma AvoidsConcat(a: string, b: string, c: char)
    requires Avoids(a, c) && Avoids(b, c)
    ensures Avoids(a + b, c)
  {
    assert forall k :: 0 <= k < |a + b| ==> (a + b)[k] == if k < |a| then a[k] else b[k - |a|];
  }

  lemma AvoidsWrap(p: string, x: string, q: string, c: char)
    requires Avoids(p, c) && Avoids(x, c) && Avoids(q, c)
    ensures Avoids(p + x + q, c)
  {
    AvoidsConcat(p, x, c);
    AvoidsConcat(p + x, q, c);
  }

  lemma TitleOneLine(m: TitlePage)
    requires OneLineTitlePage(m)
    ensures Avoids(TitleHtml(m), '\n')
  {
    assert Avoids(TitleOpen, '\n') && Avoids(TitleClose, '\n') && Avoids("Untitled", '\n');
    AvoidsWrap(TitleOpen, OrElse(m.title, "Untitled"), TitleClose, '\n');
  }

  lemma AuthorOneLine(m: TitlePage)
    requires OneLineTitlePage(m)
    ensures Avoids(AuthorHtml(m), '\n')
  {
    assert Avoids(AuthorOpen, '\n') && Avoids(AuthorClose, '\n') && Avoids("Author unknown", '\n');
    AvoidsWrap(AuthorOpen, OrElse(m.author, "Author unknown"), AuthorClose, '\n');
  }

  lemma OtherOneLine(kv: (string, string))
    requires Avoids(kv.0, '\n') && Avoids(kv.1, '\n')
    ensures Avoids(OtherHtml(kv), '\n')
  {
    assert Avoids(OtherOpen, '\n') && Avoids(OtherSep, '\n');
    AvoidsWrap(OtherOpen, kv.0, OtherSep, '\n');
    AvoidsConcat(OtherOpen + kv.0 + OtherSep, kv.1, '\n');
  }

  lemma MetadataLinesAvoid(m: TitlePage)
    requires OneLineTitlePage(m)
    ensures forall j :: 0 <= j < |MetadataLines(m)| ==> Avoids(MetadataLines(m)[j], '\n')
  {
    TitleOneLine(m);
    AuthorOneLine(m);
    forall j | 0 <= j < |m.other|
      ensures Avoids(OtherHtml(m.other[j]), '\n')
    {
      OtherOneLine(m.other[j]);
    }
    assert Avoids(PageBreak, '\n');
  }

  /** The section's text is its lines joined by line endings. */
  lemma SectionJoin(m: TitlePage)
    ensures TitleHtml(m) + "\n" + AuthorHtml(m) + "\n" + Join(OthersHtml(m.other), "\n") + "\n" + PageBreak + "\n"
         == Join(MetadataLines(m), "\n")
  {
    var o := Join(OthersHtml(m.other), "\n");
    var others := if |m.other| == 0 then [""] else OthersHtml(m.other);
    assert Join(others, "\n") == o;
    var tail := [PageBreak, ""];
    assert Join(tail, "\n") == PageBreak + "\n" + "";
    JoinAppend(others, tail, "\n");
    var head := [TitleHtml(m), AuthorHtml(m)];
    assert Join(head, "\n") == TitleHtml(m) + "\n" + AuthorHtml(m);
    JoinAppend(head, others + tail, "\n");
    assert MetadataLines(m) == head + (others + tail);
    SectionAssoc(TitleHtml(m), AuthorHtml(m), o, PageBreak);
  }

  lemma SectionAssoc(t: string, a: string, o: string, pb: string)
    ensures t + "\n" + a + "\n" + (o + "\n" + (pb + "\n" + "")) == t + "\n" + a + "\n" + o + "\n" + pb + "\n"
  {
  }

  /** Reading the section line by line gives title, author, each other item (or one empty
      line when there are none), the page break, and the empty text after the last line
      ending. */
  lemma MetadataSplit(m: TitlePage)
    requires OneLineTitlePage(m)
    ensures Split(MetadataToHtml(m), '\n') == MetadataLines(m)
  {
    MetadataLinesAvoid(m);
    SplitJoin(MetadataLines(m), '\n');
  }

  /** The title and author fall back to fixed text when the title page lacks them, and
      show the page's own value otherwise. */
  lemma MetadataFallbacks(m: TitlePage)
    ensures m.title.None? ==> TitleHtml(m) == TitleOpen + "Untitled" + TitleClose
    ensures m.author.None? ==> AuthorHtml(m) == AuthorOpen + "Author unknown" + AuthorClose
    ensures m.title.Some? ==> IsInfix(m.title.value, TitleHtml(m))
    ensures m.author.Some? ==> IsInfix(m.author.value, AuthorHtml(m))
  {
    if m.title.Some? {
      InfixOfWrap(TitleOpen, m.title.value, TitleClose);
    }
    if m.author.Some? {
      InfixOfWrap(AuthorOpen, m.author.value, AuthorClose);
    }
  }

  lemma InfixOfWrap(p: string, x: string, q: string)
    ensures IsInfix(x, p + x + q)
  {
    assert (p + x + q)[|p|..] == x + q;
    assert StartsWith((p + x + q)[|p|..], x);
  }

  function Fragments(lines: seq<Line>): (r: seq<string>)
    ensures |r| == |lines|
    ensures forall j :: 0 <= j < |lines| ==> r[j] == LineToHtml(lines[j])
  {
    if |lines| == 0 then [] else [LineToHtml(lines[0])] + Fragments(lines[1..])
  }

  /** The title-page section of the body: present exactly when the title page is not the
      default one. */
  function Header(d: Document): string {
    if d.titlepage == DefaultTitlePage then "" else MetadataToHtml(d.titlepage)
  }

  /** The body of `to_html`: the title-page section, a line ending, then one fragment per
      document line joined by line endings. */
  function BodyHtml(d: Document): (r: string)
    ensures OneLineTitlePage(d.titlepage) && OneLineLines(d.lines) ==> Split(r, '\n') == BodyLines(d)
  {
    BodySplit(d);
    Header(d) + "\n" + Join(Fragments(d.lines), "\n")
  }

  /** No line of the document shows a line ending. */
  predicate OneLineLines(lines: seq<Line>) {
    forall j :: 0 <= j < |lines| ==> Avoids(Shown(lines[j]), '\n')
  }

  lemma LineToHtmlOneLine(l: Line)
    requires Avoids(Shown(l), '\n')
    ensures Avoids(LineToHtml(l), '\n')
  {
    assert Avoids(ParaOpen, '\n') && Avoids(ParaMid, '\n') && Avoids(ParaClose, '\n');
    assert LineToHtml(l) == Paragraph(ClassOf(l), Shown(l));
    AvoidsWrap(ParaOpen, ClassOf(l), ParaMid, '\n');
    AvoidsWrap(ParaOpen + ClassOf(l) + ParaMid, Shown(l), ParaClose, '\n');
  }

  lemma FragmentsAvoid(lines: seq<Line>)
    requires OneLineLines(lines)
    ensures forall j :: 0 <= j < |Fragments(lines)| ==> Avoids(Fragments(lines)[j], '\n')
  {
    forall j | 0 <= j < |lines|
      ensures Avoids(LineToHtml(lines[j]), '\n')
    {
      LineToHtmlOneLine(lines[j]);
    }
  }

  /** The lines of the body, read back: the section's lines (or one empty line without a
      title page), then one fragment per document line in order (or one empty line when
      there are none). */
  function BodyLines(d: Document): seq<string> {
    (if d.titlepage == DefaultTitlePage then [""] else MetadataLines(d.titlepage))
      + (if |d.lines| == 0 then [""] else Fragments(d.lines))
  }

  lemma {:induction false} SplitAppendLines(xs: seq<string>, rest: string)
    requires |xs| >= 1 && forall j :: 0 <= j < |xs| ==> Avoids(xs[j], '\n')
    ensures Split(Join(xs, "\n") + "\n" + rest, '\n') == xs + Split(rest, '\n')
  {
    if |xs| == 1 {
      assert Join(xs, "\n") + "\n" + rest == xs[0] + ['\n'] + rest;
      SplitAfterPiece(xs[0], '\n', rest);
    } else {
      var tail := Join(xs[1..], "\n") + "\n" + rest;
      SplitAppendLines(xs[1..], rest);
      JoinThenLine(xs, rest);
      SplitAfterPiece(xs[0], '\n', tail);
      ConsTail(xs, Split(rest, '\n'));
    }
  }

  lemma JoinThenLine(xs: seq<string>, rest: string)
    requires |xs| >= 2
    ensures Join(xs, "\n") + "\n" + rest == xs[0] + ['\n'] + (Join(xs[1..], "\n") + "\n" + rest)
  {
  }

  lemma ConsTail(xs: seq<string>, ys: seq<string>)
    requires |xs| >= 1
    ensures [xs[0]] + (xs[1..] + ys) == xs + ys
  {
    assert [xs[0]] + xs[1..] == xs;
  }

  /** With one-line values, splitting the body at line endings yields the title-page
      section's lines and then exactly one fragment per document line, in document order. */
  lemma BodySplit(d: Document)
    ensures OneLineTitlePage(d.titlepage) && OneLineLines(d.lines)
        ==> Split(Header(d) + "\n" + Join(Fragments(d.lines), "\n"), '\n') == BodyLines(d)
  {
    if OneLineTitlePage(d.titlepage) && OneLineLines(d.lines) {
      BodySplitOneLine(d);
    }
  }

  lemma BodySplitOneLine(d: Document)
    requires OneLineTitlePage(d.titlepage) && OneLineLines(d.lines)
    ensures Split(Header(d) + "\n" + Join(Fragments(d.lines), "\n"), '\n') == BodyLines(d)
  {
    var frags := if |d.lines| == 0 then [""] else Fragments(d.lines);
    assert Join(frags, "\n") == Join(Fragments(d.lines), "\n");
    FragmentsAvoid(d.lines);
    SplitJoin(frags, '\n');
    var head := if d.titlepage == DefaultTitlePage then [""] else MetadataLines(d.titlepage);
    if d.titlepage != DefaultTitlePage {
      MetadataLinesAvoid(d.titlepage);
    }
    assert Header(d) == Join(head, "\n");
    SplitAppendLines(head, Join(frags, "\n"));
  }
}
