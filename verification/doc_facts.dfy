/** What `titlepage_item`, `titlepage` and `document` make of their input. */
module DocFacts {
  import opened Text
  import opened Nom
  import opened Data
  import opened Parse
  import opened ParseFacts
  import opened BlockFacts

  lemma KeyOn(i: string, key: string, after: string)
    requires IsKey(key) && i == key + ":" + after
    ensures TitlepageVal(i) == Ok(key, ":" + after)
  {
    assert forall k :: 0 <= k < |key| ==> i[k] == key[k];
    assert i[|key|] == ':';
    SpanUnique(i, KeyChar, |key|);
    assert i[..|key|] == key;
    assert i[|key|..] == ":" + after;
  }

  lemma BlankOn(i: string, ws: string, t: string)
    requires IsBlank(ws) && i == ws + t && |t| > 0 && !IsSpace(t[0])
    ensures MultiSpace1(i) == Ok(ws, t)
  {
    assert forall k :: 0 <= k < |ws| ==> i[k] == ws[k];
    assert i[|ws|] == t[0];
    SpanUnique(i, IsSpace, |ws|);
    assert i[..|ws|] == ws;
    assert i[|ws|..] == t;
  }

  /** `key:`, whitespace that may span lines, then a value line that does not start with
      whitespace: one title-page item. */
  lemma TitlepageItemOn(i: string, key: string, ws: string, t: string, val: string, rest: string)
    requires IsKey(key) && IsBlank(ws) && i == key + ":" + ws + t
    requires LineSplit(t, val, rest) && |val| > 0 && !IsSpace(val[0])
    ensures TitlepageItem(i) == Ok((key, val), rest)
  {
    var u := ws + t;
    assert i == key + ":" + u;
    KeyOn(i, key, u);
    ColonOn(u);
    LineSplitFirst(t, val, rest);
    BlankOn(u, ws, t);
    SomeLineOn(t, val, rest);
  }

  lemma ColonOn(u: string)
    ensures Char(':', ":" + u) == Ok(":", u)
  {
    assert (":" + u)[1..] == u;
  }

  /** One item, then the rest of the loop: the item heads the list. */
  lemma TitlepageItemsStep(i: string, item: (string, string), r: string,
                           more: seq<(string, string)>, last: string)
    requires TitlepageItem(i) == Ok(item, r) && TitlepageItems(r) == Ok(more, last)
    ensures TitlepageItems(i) == Ok([item] + more, last)
  {
  }

  /** Three items and then the end of the input: the loop collects all three. */
  lemma TitlepageItemsThree(i: string, a: (string, string), i2: string, b: (string, string),
                            i3: string, c: (string, string))
    requires TitlepageItem(i) == Ok(a, i2) && TitlepageItem(i2) == Ok(b, i3)
    requires TitlepageItem(i3) == Ok(c, "")
    ensures TitlepageItems(i) == Ok([a] + ([b] + ([c] + [])), "")
  {
    assert TitlepageItems("") == Ok([], "");
    TitlepageItemsStep(i3, c, "", [], "");
    TitlepageItemsStep(i2, b, i3, [c] + [], "");
    TitlepageItemsStep(i, a, i2, [b] + ([c] + []), "");
  }

  /** The title page of a run of items is built from those items. */
  lemma TitlepageOn(i: string, items: seq<(string, string)>, rest: string)
    requires TitlepageItems(i) == Ok(items, rest)
    ensures Titlepage(i) == Ok(TitlePageOf(items), rest)
  {
  }

  /** Building the title page adds the items one at a time, in order. */
  lemma TitlePageOfSnoc(items: seq<(string, string)>, item: (string, string))
    ensures TitlePageOf(items + [item]) == AddItem(TitlePageOf(items), item)
  {
    var all := items + [item];
    assert all[..|all| - 1] == items && all[|all| - 1] == item;
  }

  /** A first line without a colon is never a title-page item. */
  lemma TitlepageItemNoColon(i: string, line: string, rest: string)
    requires LineSplit(i, line, rest) && Avoids(line, ':')
    ensures TitlepageItem(i).Err?
  {
    assert forall k :: 0 <= k < |line| ==> i[k] == line[k];
    assert IsLineEndChar(i[|line|]);
    if |line| > 0 {
      SpanUnique(i, KeyChar, |line|);
      assert TitlepageVal(i).rest == i[|line|..];
    }
  }

  /** The block loop stops where no line ending follows. */
  lemma MoreBlocksStop(i: string)
    requires !StartsWithLineEnding(i)
    ensures MoreBlocks(i) == Ok([], i)
  {
  }

  /** A line ending and then a block: the block joins the list, and the loop goes on after it. */
  lemma MoreBlocksStep(i: string, t: string, b: seq<Line>, r: string, more: seq<seq<Line>>, last: string)
    requires LineThen(i, "", t) && Block(t) == Ok(b, r) && MoreBlocks(r) == Ok(more, last)
    ensures MoreBlocks(i) == Ok([b] + more, last)
  {
    LineEndingOn(i, t);
  }

  /** A first block, then the loop: the separated list starts with that block. */
  lemma BlocksStep(i: string, b: seq<Line>, r: string, more: seq<seq<Line>>, last: string)
    requires Block(i) == Ok(b, r) && MoreBlocks(r) == Ok(more, last)
    ensures Blocks(i) == Ok([b] + more, last)
  {
  }

  /** A line ending with no block after it stays unread: the separator is given back. */
  lemma MoreBlocksGivesBackSeparator(i: string, t: string)
    requires LineThen(i, "", t) && !HasLine(t)
    ensures MoreBlocks(i) == Ok([], i)
  {
    LineEndingOn(i, t);
    BlockErrIff(t);
  }

  /** Without a title page or a leading line ending, the document is its blocks, in order. */
  lemma DocumentWithoutTitlePage(text: string, bs: seq<seq<Line>>, rest: string)
    requires TitlepageItem(text).Err? && !StartsWithLineEnding(text) && Blocks(text) == Ok(bs, rest)
    ensures ParseDocument(text) == Ok(Document(Flatten(bs), DefaultTitlePage), rest)
  {
    assert Titlepage(text) == Ok(DefaultTitlePage, text);
  }

  /** A line ending and then a last block: the loop reads just that block. */
  lemma MoreBlocksOne(r1: string, t: string, b: seq<Line>, rest: string)
    requires LineThen(r1, "", t) && Block(t) == Ok(b, rest) && !StartsWithLineEnding(rest)
    ensures MoreBlocks(r1) == Ok([b] + [], rest)
  {
    MoreBlocksStop(rest);
    MoreBlocksStep(r1, t, b, rest, [], rest);
  }

  /** Two blocks with one line ending between them, and no line ending after the second. */
  lemma BlocksTwo(text: string, b1: seq<Line>, r1: string, t: string, b2: seq<Line>, rest: string)
    requires Block(text) == Ok(b1, r1) && LineThen(r1, "", t)
    requires Block(t) == Ok(b2, rest) && !StartsWithLineEnding(rest)
    ensures Blocks(text) == Ok([b1] + ([b2] + []), rest)
  {
    MoreBlocksOne(r1, t, b2, rest);
    BlocksStep(text, b1, r1, [b2] + [], rest);
  }

  /** A document that is a single block: its lines are that block's lines. */
  lemma DocumentOfOneBlock(text: string, b: seq<Line>, rest: string)
    requires TitlepageItem(text).Err? && !StartsWithLineEnding(text)
    requires Block(text) == Ok(b, rest) && !StartsWithLineEnding(rest)
    ensures ParseDocument(text) == Ok(Document(b, DefaultTitlePage), rest)
  {
    MoreBlocksStop(rest);
    BlocksStep(text, b, rest, [], rest);
    DocumentWithoutTitlePage(text, [b] + [], rest);
    FlattenOne(b);
  }

  /** A document of two blocks with one line ending between them: the two blocks' lines,
      in order. */
  lemma DocumentOfTwoBlocks(text: string, b1: seq<Line>, r1: string, t: string, b2: seq<Line>, rest: string)
    requires TitlepageItem(text).Err? && !StartsWithLineEnding(text)
    requires Block(text) == Ok(b1, r1) && LineThen(r1, "", t)
    requires Block(t) == Ok(b2, rest) && !StartsWithLineEnding(rest)
    ensures ParseDocument(text) == Ok(Document(b1 + b2, DefaultTitlePage), rest)
  {
    BlocksTwo(text, b1, r1, t, b2, rest);
    DocumentWithoutTitlePage(text, [b1] + ([b2] + []), rest);
    FlattenTwo(b1, b2);
  }

  /** Two one-line blocks with one line ending between them. */
  lemma DocumentOfTwoLines(text: string, l1: Line, r1: string, t: string, l2: Line, rest: string)
    requires TitlepageItem(text).Err? && !StartsWithLineEnding(text)
    requires Block(text) == Ok([l1], r1) && LineThen(r1, "", t)
    requires Block(t) == Ok([l2], rest) && !StartsWithLineEnding(rest)
    ensures ParseDocument(text) == Ok(Document([l1, l2], DefaultTitlePage), rest)
  {
    DocumentOfTwoBlocks(text, [l1], r1, t, [l2], rest);
    Pair(l1, l2);
  }

  /** A cost helper: the solver proves this sequence identity cheaply on its own. */
  lemma Pair(l1: Line, l2: Line)
    ensures [l1] + [l2] == [l1, l2]
  {
  }


  /** An action line with no line ending after it: the document of that one line. */
  lemma DocumentAction(text: string, line: string, rest: string)
    requires LineSplit(text, line, rest) && IsPlainLine(line) && !IsShout(line) && |line| > 0
    requires Avoids(line, ':') && !StartsWithLineEnding(rest)
    ensures ParseDocument(text) == Ok(Document([Line.Action(line)], DefaultTitlePage), rest)
  {
    LineSplitFirst(text, line, rest);
    StartsWithLineEndingChar(text);
    TitlepageItemNoColon(text, line, rest);
    BlockAction(text, line, rest);
    DocumentOfOneBlock(text, [Line.Action(line)], rest);
  }

  /** A scene heading, one line ending, an action line: the document of those two lines. */
  lemma DocumentSceneThenAction(text: string, s: string, r1: string, t: string, a: string, rest: string)
    requires LineSplit(text, s, r1) && IsSceneLine(s) && !IsToLine(s) && Avoids(s, ':')
    requires LineThen(r1, "", t) && LineSplit(t, a, rest) && IsPlainLine(a) && !IsShout(a)
    requires !StartsWithLineEnding(rest)
    ensures ParseDocument(text) == Ok(Document([Line.Scene(s), Line.Action(a)], DefaultTitlePage), rest)
  {
    assert s[0] == s[..5][0];
    LineSplitFirst(text, s, r1);
    StartsWithLineEndingChar(text);
    TitlepageItemNoColon(text, s, r1);
    BlockSceneLine(text, s, r1);
    BlockAction(t, a, rest);
    DocumentOfTwoLines(text, Line.Scene(s), r1, t, Line.Action(a), rest);
  }

  /** A speaker line with no `^` and a line of dialogue: the document of that one block. */
  lemma DocumentSpeakerDialogue(text: string, s: string, r1: string, d: string, rest: string)
    requires LineSplit(text, s, r1) && IsPlainLine(s) && IsShout(s) && s[|s| - 1] != '^' && Avoids(s, ':')
    requires |r1| > 0 && r1[0] != '(' && LineSplit(r1, d, rest) && !StartsWithLineEnding(rest)
    ensures ParseDocument(text) == Ok(Document([Line.Speaker(s, false), Line.Dialogue(d)], DefaultTitlePage), rest)
  {
    LineSplitFirst(text, s, r1);
    StartsWithLineEndingChar(text);
    TitlepageItemNoColon(text, s, r1);
    BlockPlainSpeakerDialogue(text, s, r1, d, rest);
    DocumentOfOneBlock(text, [Line.Speaker(s, false), Line.Dialogue(d)], rest);
  }

  /** A cost helper: flattening one block. */
  lemma FlattenOne(b: seq<Line>)
    ensures Flatten([b] + []) == b
  {
    assert [b] + [] == [b];
    assert [b][1..] == [];
    assert b + [] == b;
  }

  /** A cost helper: flattening two blocks. */
  lemma FlattenTwo(b1: seq<Line>, b2: seq<Line>)
    ensures Flatten([b1] + ([b2] + [])) == b1 + b2
  {
    assert [b1] + ([b2] + []) == [b1, b2];
    assert [b1, b2][1..] == [b2] + [];
    FlattenOne(b2);
  }

  /** A cost helper: flattening a block in front of others. */
  lemma FlattenCons(b: seq<Line>, bs: seq<seq<Line>>)
    ensures Flatten([b] + bs) == b + Flatten(bs)
  {
    assert ([b] + bs)[1..] == bs;
  }

  /** A cost helper: flattening six blocks, one step at a time. */
  lemma {:induction false} FlattenSix(b1: seq<Line>, b2: seq<Line>, b3: seq<Line>,
                                      b4: seq<Line>, b5: seq<Line>, b6: seq<Line>)
    ensures Flatten([b1] + ([b2] + ([b3] + ([b4] + ([b5] + ([b6] + []))))))
         == b1 + b2 + b3 + b4 + b5 + b6
  {
    FlattenOne(b6);
    FlattenCons(b5, [b6] + []);
    FlattenCons(b4, [b5] + ([b6] + []));
    FlattenCons(b3, [b4] + ([b5] + ([b6] + [])));
    FlattenCons(b2, [b3] + ([b4] + ([b5] + ([b6] + []))));
    FlattenCons(b1, [b2] + ([b3] + ([b4] + ([b5] + ([b6] + [])))));
  }

  /** Five blocks, each after a line ending, the last one ending the input. */
  lemma MoreBlocksFive(t2: string, s2: string, b2: seq<Line>, t3: string, s3: string, b3: seq<Line>,
                       t4: string, s4: string, b4: seq<Line>, t5: string, s5: string, b5: seq<Line>,
                       t6: string, s6: string, b6: seq<Line>)
    requires LineThen(t2, "", s2) && Block(s2) == Ok(b2, t3)
    requires LineThen(t3, "", s3) && Block(s3) == Ok(b3, t4)
    requires LineThen(t4, "", s4) && Block(s4) == Ok(b4, t5)
    requires LineThen(t5, "", s5) && Block(s5) == Ok(b5, t6)
    requires LineThen(t6, "", s6) && Block(s6) == Ok(b6, "")
    ensures MoreBlocks(t2) == Ok([b2] + ([b3] + ([b4] + ([b5] + ([b6] + [])))), "")
  {
    MoreBlocksOne(t6, s6, b6, "");
    MoreBlocksStep(t5, s5, b5, t6, [b6] + [], "");
    MoreBlocksStep(t4, s4, b4, t5, [b5] + ([b6] + []), "");
    MoreBlocksStep(t3, s3, b3, t4, [b4] + ([b5] + ([b6] + [])), "");
    MoreBlocksStep(t2, s2, b2, t3, [b3] + ([b4] + ([b5] + ([b6] + []))), "");
  }

  /** A document of six blocks separated by single blank lines, with no title page: its
      lines are the blocks' lines in order, and the whole input is read. */
  lemma DocumentOfSixBlocks(text: string, b1: seq<Line>, t2: string, s2: string, b2: seq<Line>,
                            t3: string, s3: string, b3: seq<Line>, t4: string, s4: string, b4: seq<Line>,
                            t5: string, s5: string, b5: seq<Line>, t6: string, s6: string, b6: seq<Line>)
    requires TitlepageItem(text).Err? && !StartsWithLineEnding(text) && Block(text) == Ok(b1, t2)
    requires LineThen(t2, "", s2) && Block(s2) == Ok(b2, t3)
    requires LineThen(t3, "", s3) && Block(s3) == Ok(b3, t4)
    requires LineThen(t4, "", s4) && Block(s4) == Ok(b4, t5)
    requires LineThen(t5, "", s5) && Block(s5) == Ok(b5, t6)
    requires LineThen(t6, "", s6) && Block(s6) == Ok(b6, "")
    ensures ParseDocument(text) == Ok(Document(b1 + b2 + b3 + b4 + b5 + b6, DefaultTitlePage), "")
  {
    var more := [b2] + ([b3] + ([b4] + ([b5] + ([b6] + []))));
    MoreBlocksFive(t2, s2, b2, t3, s3, b3, t4, s4, b4, t5, s5, b5, t6, s6, b6);
    BlocksStep(text, b1, t2, more, "");
    DocumentWithoutTitlePage(text, [b1] + more, "");
    FlattenSix(b1, b2, b3, b4, b5, b6);
  }

  /** A title page, one line ending, then blocks: the document holds the title page built
      from the items read and the flattened blocks after the line ending. */
  lemma DocumentAfterTitlePage(text: string, items: seq<(string, string)>, r1: string, body: string,
                               bs: seq<seq<Line>>, rest: string)
    requires TitlepageItems(text) == Ok(items, r1) && LineThen(r1, "", body) && Blocks(body) == Ok(bs, rest)
    ensures ParseDocument(text) == Ok(Document(Flatten(bs), TitlePageOf(items)), rest)
  {
    LineEndingOn(r1, body);
    TitlepageOn(text, items, r1);
  }

  /** A title page followed directly by blocks, with no line ending between: the blocks
      start right after the last item. */
  lemma DocumentRightAfterTitlePage(text: string, items: seq<(string, string)>, r1: string,
                                    bs: seq<seq<Line>>, rest: string)
    requires TitlepageItems(text) == Ok(items, r1) && !StartsWithLineEnding(r1) && Blocks(r1) == Ok(bs, rest)
    ensures ParseDocument(text) == Ok(Document(Flatten(bs), TitlePageOf(items)), rest)
  {
    TitlepageOn(text, items, r1);
  }

  /** A blank line is never a title-page item. */
  lemma BlankLineNotItem(t: string, s: string)
    requires t == "\n" + s
    ensures TitlepageItem(t).Err? && LineThen(t, "", s)
  {
    assert t == "" + "\n" + s;
    TitlepageItemNoColon(t, "", s);
  }

  /** One item and then text that is not an item: the title page holds that one item. */
  lemma TitlepageItemsOne(i: string, item: (string, string), r: string)
    requires TitlepageItem(i) == Ok(item, r) && TitlepageItem(r).Err?
    ensures TitlepageItems(i) == Ok([item] + [], r)
  {
    assert TitlepageItems(r) == Ok([], r);
    TitlepageItemsStep(i, item, r, [], r);
  }

  /** A title page, a line ending, then four blocks separated by single line endings that
      read the input to its end: the lines are the four blocks' lines in order. */
  lemma DocumentOfFourBlocksAfterTitlePage(text: string, items: seq<(string, string)>, t0: string,
                                           s1: string, b1: seq<Line>, t2: string, s2: string, b2: seq<Line>,
                                           t3: string, s3: string, b3: seq<Line>, t4: string, s4: string, b4: seq<Line>)
    requires TitlepageItems(text) == Ok(items, t0) && LineThen(t0, "", s1)
    requires Block(s1) == Ok(b1, t2)
    requires LineThen(t2, "", s2) && Block(s2) == Ok(b2, t3)
    requires LineThen(t3, "", s3) && Block(s3) == Ok(b3, t4)
    requires LineThen(t4, "", s4) && Block(s4) == Ok(b4, "")
    ensures ParseDocument(text) == Ok(Document(b1 + b2 + b3 + b4, TitlePageOf(items)), "")
  {
    BlocksFour(s1, b1, t2, s2, b2, t3, s3, b3, t4, s4, b4);
    DocumentAfterTitlePage(text, items, t0, s1, [b1] + ([b2] + ([b3] + ([b4] + []))), "");
    FlattenFour(b1, b2, b3, b4);
  }

  /** Four blocks separated by single line endings, with the input read to its end. */
  lemma BlocksFour(s1: string, b1: seq<Line>, t2: string, s2: string, b2: seq<Line>,
                   t3: string, s3: string, b3: seq<Line>, t4: string, s4: string, b4: seq<Line>)
    requires Block(s1) == Ok(b1, t2)
    requires LineThen(t2, "", s2) && Block(s2) == Ok(b2, t3)
    requires LineThen(t3, "", s3) && Block(s3) == Ok(b3, t4)
    requires LineThen(t4, "", s4) && Block(s4) == Ok(b4, "")
    ensures Blocks(s1) == Ok([b1] + ([b2] + ([b3] + ([b4] + []))), "")
  {
    MoreBlocksOne(t4, s4, b4, "");
    MoreBlocksStep(t3, s3, b3, t4, [b4] + [], "");
    MoreBlocksStep(t2, s2, b2, t3, [b3] + ([b4] + []), "");
    BlocksStep(s1, b1, t2, [b2] + ([b3] + ([b4] + [])), "");
  }

  /** A cost helper: flattening four blocks, one step at a time. */
  lemma {:induction false} FlattenFour(b1: seq<Line>, b2: seq<Line>, b3: seq<Line>, b4: seq<Line>)
    ensures Flatten([b1] + ([b2] + ([b3] + ([b4] + [])))) == b1 + b2 + b3 + b4
  {
    FlattenOne(b4);
    FlattenCons(b3, [b4] + []);
    FlattenCons(b2, [b3] + ([b4] + []));
    FlattenCons(b1, [b2] + ([b3] + ([b4] + [])));
  }

  /** Without a title page, one line ending at the very start is skipped: `titlepage` is
      followed by an optional line ending even when it reads no item. */
  lemma DocumentSkipsOneLeadingLineEnding(t: string)
    requires TitlepageItem(t).Err? && !StartsWithLineEnding(t)
    ensures ParseDocument("\n" + t) == ParseDocument(t)
  {
    var i := "\n" + t;
    assert i[0] == '\n' && i[1..] == t;
    assert TitlepageItem(i).Err?;
    assert Titlepage(i) == Ok(DefaultTitlePage, i);
    assert LineEnding(i) == Ok("\n", t);
    assert Titlepage(t) == Ok(DefaultTitlePage, t);
    assert LineEnding(t).Err?;
  }

  /** `t`, a suffix of `i`, starts with a speaker line followed by an opening `(` whose
      line ending is missing: the `cut` inside `parenthetical` fires there. */
  ghost predicate CutAt(i: string, t: string) {
    SuffixOf(t, i) && Parse.Speaker(t).Ok? && Parse.Parenthetical(Parse.Speaker(t).rest).Fail?
  }

  /** The block loop fails only because some later block hits the parenthetical cut. */
  lemma {:induction false} MoreBlocksFailCause(i: string)
    decreases |i|
    ensures MoreBlocks(i).Fail? ==> exists t :: CutAt(i, t)
  {
    var sep := LineEnding(i);
    if sep.Ok? {
      var next := sep.rest;
      SuffixOfConcat(i, sep.value, next);
      var block := Block(next);
      if block.Fail? {
        assert CutAt(i, next);
      } else if block.Ok? && MoreBlocks(block.rest).Fail? {
        MoreBlocksFailCause(block.rest);
        var t :| CutAt(block.rest, t);
        SuffixOfTrans(next, block.rest, t);
        SuffixOfTrans(i, next, t);
        assert CutAt(i, t);
      }
    }
  }

  /** The same for the whole list of blocks, the first one included. */
  lemma BlocksFailCause(i: string)
    ensures Blocks(i).Fail? ==> exists t :: CutAt(i, t)
  {
    var block := Block(i);
    if block.Fail? {
      assert CutAt(i, i);
    } else if block.Ok? && MoreBlocks(block.rest).Fail? {
      MoreBlocksFailCause(block.rest);
      var t :| CutAt(block.rest, t);
      SuffixOfTrans(i, block.rest, t);
      assert CutAt(i, t);
    }
  }

  /** A document fails to parse only at a parenthetical cut: every other input gives a
      document, possibly leaving text unread. */
  lemma DocumentFailCause(text: string)
    ensures ParseDocument(text).Fail? ==> exists t :: CutAt(text, t)
  {
    var tp := Titlepage(text);
    var sep := LineEnding(tp.rest);
    var body := if sep.Ok? then sep.rest else tp.rest;
    SuffixOfBody(text, tp.rest, body);
    if ParseDocument(text).Fail? {
      BlocksFailCause(body);
      var t :| CutAt(body, t);
      SuffixOfTrans(text, body, t);
      assert CutAt(text, t);
    }
  }

  /** A cut in a later block is not backtracked over: it aborts the whole block loop,
      where an ordinary error would end the list. */
  lemma CutInLaterBlock(i: string, t: string)
    requires LineThen(i, "", t) && Block(t).Fail?
    ensures MoreBlocks(i).Fail?
  {
    LineEndingOn(i, t);
  }

  /** A cut in the second block of a document without a title page aborts the document. */
  lemma DocumentFailsOnLaterCut(text: string, b: seq<Line>, r: string, t: string)
    requires TitlepageItem(text).Err? && !StartsWithLineEnding(text)
    requires Block(text) == Ok(b, r) && LineThen(r, "", t) && Block(t).Fail?
    ensures ParseDocument(text).Fail?
  {
    CutInLaterBlock(r, t);
    assert Titlepage(text) == Ok(DefaultTitlePage, text);
  }
}
