/** The screenplay grammar: line classifiers, the block assembler, the title-page parser
    and the document parser. Each parser mirrors the nom combinator expression of the
    Rust function of the same name and returns `Ok(value, rest)`, `Err` or `Fail`. */
module Parse {
  import opened Text
  import opened Nom
  import opened Data

  // ---------------------------------------------------------------------------
  // Line shapes
  // ---------------------------------------------------------------------------

  /** A character `no_lower` accepts: anything but ASCII a-z, `\n` and `\r`. */
  predicate NoLowerChar(c: char) {
    !IsLowerAscii(c) && !IsLineEndChar(c)
  }

  predicate AllNoLower(s: string) {
    forall k :: 0 <= k < |s| ==> NoLowerChar(s[k])
  }

  /** A non-empty line without lower-case letters: the shape of a speaker. */
  predicate IsShout(s: string) {
    |s| > 0 && AllNoLower(s)
  }

  /** The speaker built from line `s`: dual exactly when `s` ends with `^`, and the name
      is `s` without a trailing `" ^"` when there is one. */
  predicate SpeakerOf(s: string, l: Line) {
    && |s| > 0
    && l.Speaker?
    && (l.isDual <==> s[|s| - 1] == '^')
    && l.name == (if EndsWith(s, " ^") then s[..|s| - 2] else s)
  }

  /** `i` starts with `(x)` where `x` is non-empty and has no `)`; `rest` follows. */
  predicate ParenShape(i: string, x: string, rest: string) {
    |x| > 0 && Avoids(x, ')') && i == "(" + x + ")" + rest
  }

  predicate StartsWithLineEnding(i: string) {
    StartsWith(i, "\n") || StartsWith(i, "\r\n")
  }

  lemma StartsWithLineEndingChar(i: string)
    ensures StartsWithLineEnding(i) ==> |i| > 0 && IsLineEndChar(i[0])
  {
    if StartsWith(i, "\n") {
      assert i[0] == i[..1][0];
    } else if StartsWith(i, "\r\n") {
      assert i[0] == i[..2][0];
    }
  }

  // ---------------------------------------------------------------------------
  // Line classifiers
  // ---------------------------------------------------------------------------

  /** `no_lower`: the maximal non-empty run of characters that are not a-z, `\n`, `\r`. */
  function NoLower(i: string): (r: PResult<string>)
    ensures !r.Fail?
    ensures r.Ok? <==> |i| > 0 && NoLowerChar(i[0])
    ensures r.Ok? ==> i == r.value + r.rest && IsShout(r.value)
    ensures r.Ok? ==> r.rest == [] || !NoLowerChar(r.rest[0])
  {
    TakeWhile1(i, NoLowerChar)
  }

  /** `some_line`: a line of any text up to and including its line ending. */
  function SomeLine(i: string): (r: PResult<string>)
    ensures !r.Fail?
    ensures r.Ok? ==> LineSplit(i, r.value, r.rest) && Consumed(i, r.rest)
  {
    var text := NotLineEnding(i);
    var eol :- LineEnding(text.rest);
    LineThenShift(i, text.value, text.rest, eol.rest);
    LineThenConsumed(i, text.value, eol.rest);
    Ok(text.value, eol.rest)
  }

  /** `action`: any complete line is an action. */
  function Action(i: string): (r: PResult<Line>)
    ensures !r.Fail?
    ensures r.Ok? ==> r.value.Action? && LineSplit(i, r.value.text, r.rest) && Consumed(i, r.rest)
  {
    var line :- SomeLine(i);
    Ok(Line.Action(line.value), line.rest)
  }

  /** `dialogue`: any complete line is dialogue (used only inside a block). Its parser,
      `terminated(not_line_ending, line_ending)`, is `some_line` spelled out. */
  function Dialogue(i: string): (r: PResult<Line>)
    ensures !r.Fail?
    ensures r.Ok? ==> r.value.Dialogue? && LineSplit(i, r.value.text, r.rest) && Consumed(i, r.rest)
  {
    var line :- SomeLine(i);
    Ok(Line.Dialogue(line.value), line.rest)
  }

  predicate NotCloseParen(c: char) {
    c != ')'
  }

  /** `in_parens`: `(x)` gives `x`; `x` is `is_not(")")`, so it may span lines. */
  function InParens(i: string): (r: PResult<string>)
    ensures !r.Fail?
    ensures r.Ok? ==> ParenShape(i, r.value, r.rest)
  {
    var open :- Char('(', i);
    var inner :- TakeWhile1(open.rest, NotCloseParen);
    var close :- Char(')', inner.rest);
    assert forall k :: 0 <= k < |inner.value| ==> inner.value[k] != ')';
    assert i == "(" + inner.value + ")" + close.rest;
    Ok(inner.value, close.rest)
  }

  /** `parenthetical`: `in_parens` then a line ending under `cut`. Once `(x)` has been
      read, a missing line ending is a failure, not an error. */
  function Parenthetical(i: string): (r: PResult<Line>)
    ensures r.Ok? ==> r.value.Parenthetical? && LineThen(i, "(" + r.value.text + ")", r.rest)
    ensures r.Ok? ==> |r.value.text| > 0 && Avoids(r.value.text, ')') && Consumed(i, r.rest)
    ensures r.Fail? ==> exists x, rest :: ParenShape(i, x, rest) && !StartsWithLineEnding(rest)
  {
    var inner :- InParens(i);
    var eol :- Cut(LineEnding(inner.rest));
    assert i == "(" + inner.value + ")" + inner.rest;
    LineThenShift(i, "(" + inner.value + ")", inner.rest, eol.rest);
    LineThenConsumed(i, "(" + inner.value + ")", eol.rest);
    Ok(Line.Parenthetical(inner.value), eol.rest)
  }

  /** `terminated(no_lower, line_ending)`, shared by `speaker` and `transition_to`. */
  function ShoutLine(i: string): (r: PResult<string>)
    ensures !r.Fail?
    ensures r.Ok? ==> LineSplit(i, r.value, r.rest) && IsShout(r.value) && Consumed(i, r.rest)
  {
    var text :- NoLower(i);
    var eol :- LineEnding(text.rest);
    LineThenShift(i, text.value, text.rest, eol.rest);
    LineThenConsumed(i, text.value, eol.rest);
    Ok(text.value, eol.rest)
  }

  /** Rust's `strip_suffix` helper: drop `suffix` from the end of `s` when it is there. */
  function StripSuffix(suffix: string, s: string): (r: string)
    ensures EndsWith(s, suffix) ==> r + suffix == s
    ensures !EndsWith(s, suffix) ==> r == s
  {
    if EndsWith(s, suffix) then s[..|s| - |suffix|] else s
  }

  /** `speaker`: a line with no lower-case letters. */
  function Speaker(i: string): (r: PResult<Line>)
    ensures !r.Fail?
    ensures r.Ok? ==> exists s :: LineSplit(i, s, r.rest) && IsShout(s) && SpeakerOf(s, r.value)
    ensures r.Ok? ==> Consumed(i, r.rest)
  {
    var line :- ShoutLine(i);
    var s := line.value;
    assert StripSuffix(" ^", s) == if EndsWith(s, " ^") then s[..|s| - 2] else s;
    Ok(Line.Speaker(StripSuffix(" ^", s), EndsWith(s, "^")), line.rest)
  }

  /** `transition_to`: a line with no lower-case letters that ends in `TO:`. */
  function TransitionTo(i: string): (r: PResult<Line>)
    ensures !r.Fail?
    ensures r.Ok? ==> r.value.Transition? && LineSplit(i, r.value.text, r.rest)
    ensures r.Ok? ==> IsShout(r.value.text) && EndsWith(r.value.text, "TO:") && Consumed(i, r.rest)
  {
    var line :- ShoutLine(i);
    if EndsWith(line.value, "TO:") then Ok(Line.Transition(line.value), line.rest) else Err
  }

  /** `transition_forced`: `"> "` then a line of any case; the marker is dropped. */
  function TransitionForced(i: string): (r: PResult<Line>)
    ensures !r.Fail?
    ensures r.Ok? ==> r.value.Transition? && LineSplit(i, "> " + r.value.text, r.rest) && Consumed(i, r.rest)
  {
    var marker := Tag("> ", i);
    if !marker.Ok? then Err else
    var line := SomeLine(marker.rest);
    if !line.Ok? then Err else
    LineSplitPrefix(i, "> ", marker.rest, line.value, line.rest);
    LineThenConsumed(i, "> " + line.value, line.rest);
    Ok(Line.Transition(line.value), line.rest)
  }

  /** `alt((tag("INT"), tag("EXT")))`. */
  function SceneType(i: string): (r: PResult<string>)
    ensures !r.Fail?
    ensures r.Ok? <==> StartsWith(i, "INT") || StartsWith(i, "EXT")
    ensures r.Ok? ==> (r.value == "INT" || r.value == "EXT") && i == r.value + r.rest
  {
    Alt(Tag("INT", i), Tag("EXT", i))
  }

  lemma SceneLineShape(i: string, kind: string, after: string, desc: string, eol: string, rest: string)
    requires kind == "INT" || kind == "EXT"
    requires i == kind + (". " + after) && after == desc + eol
    requires IsLineText(desc) && LineThen(eol, "", rest)
    ensures LineSplit(i, kind + ". " + desc, rest) && Consumed(i, rest)
    ensures StartsWith(kind + ". " + desc, "INT. ") || StartsWith(kind + ". " + desc, "EXT. ")
  {
    var head := kind + ". ";
    var text := head + desc;
    assert i == text + eol;
    assert text[..|head|] == head;
    LineThenShift(i, text, eol, rest);
    LineThenConsumed(i, text, rest);
  }

  /** `scene`: `INT` or `EXT`, then `". "`, then the rest of the line. */
  function Scene(i: string): (r: PResult<Line>)
    ensures !r.Fail?
    ensures r.Ok? ==> r.value.Scene? && LineSplit(i, r.value.text, r.rest)
    ensures r.Ok? ==> StartsWith(r.value.text, "INT. ") || StartsWith(r.value.text, "EXT. ")
    ensures r.Ok? ==> Consumed(i, r.rest)
  {
    var kind :- SceneType(i);
    var dot :- Tag(". ", kind.rest);
    var desc := NotLineEnding(dot.rest);
    var eol :- LineEnding(desc.rest);
    var text := kind.value + ". " + desc.value;
    SceneLineShape(i, kind.value, dot.rest, desc.value, desc.rest, eol.rest);
    Ok(Line.Scene(text), eol.rest)
  }

  /** `lyric`: `~` then a line of any case; the tilde is dropped. */
  function Lyric(i: string): (r: PResult<Line>)
    ensures !r.Fail?
    ensures r.Ok? ==> r.value.Lyric? && LineSplit(i, "~" + r.value.text, r.rest) && Consumed(i, r.rest)
  {
    var tilde := Char('~', i);
    if !tilde.Ok? then Err else
    var line := SomeLine(tilde.rest);
    if !line.Ok? then Err else
    LineSplitPrefix(i, "~", tilde.rest, line.value, line.rest);
    LineThenConsumed(i, "~" + line.value, line.rest);
    Ok(Line.Lyric(line.value), line.rest)
  }

  // ---------------------------------------------------------------------------
  // Blocks
  // ---------------------------------------------------------------------------

  /** The shapes a block can have. */
  predicate WellFormedBlock(b: seq<Line>) {
    || (|b| == 1 && (b[0].Transition? || b[0].Lyric? || b[0].Scene? || b[0].Action?))
    || (|b| == 2 && b[0].Speaker? && b[1].Dialogue?)
    || (|b| == 3 && b[0].Speaker? && b[1].Parenthetical? && b[2].Dialogue?)
  }

  predicate AllWellFormed(bs: seq<seq<Line>>) {
    forall j :: 0 <= j < |bs| ==> WellFormedBlock(bs[j])
  }

  lemma AllWellFormedCons(b: seq<Line>, bs: seq<seq<Line>>)
    requires WellFormedBlock(b) && AllWellFormed(bs)
    ensures AllWellFormed([b] + bs)
  {
    forall j | 0 <= j < |[b] + bs|
      ensures WellFormedBlock(([b] + bs)[j])
    {
      if j > 0 {
        assert ([b] + bs)[j] == bs[j - 1];
      }
    }
  }

  function Singleton(p: PResult<Line>): (r: PResult<seq<Line>>)
    ensures r.Ok? <==> p.Ok?
    ensures r.Fail? <==> p.Fail?
    ensures r.Ok? ==> r.value == [p.value] && r.rest == p.rest
  {
    match p
    case Ok(line, rest) => Ok([line], rest)
    case Err => Err
    case Fail => Fail
  }

  /** `sd_block`: a speaker, then dialogue. */
  function SdBlock(i: string): (r: PResult<seq<Line>>)
    ensures !r.Fail?
    ensures r.Ok? ==> |r.value| == 2 && r.value[0].Speaker? && r.value[1].Dialogue?
    ensures r.Ok? ==> Consumed(i, r.rest)
    ensures r.Ok? ==> Speaker(i).Ok?
  {
    var speaker := Speaker(i);
    if !speaker.Ok? then Err else
    var dialogue := Dialogue(speaker.rest);
    if !dialogue.Ok? then Err else
    ConsumedTrans(i, speaker.rest, dialogue.rest);
    Ok([speaker.value, dialogue.value], dialogue.rest)
  }

  /** `spd_block`: a speaker, a parenthetical, then dialogue. */
  function SpdBlock(i: string): (r: PResult<seq<Line>>)
    ensures r.Ok? ==> |r.value| == 3 && r.value[0].Speaker? && r.value[1].Parenthetical? && r.value[2].Dialogue?
    ensures r.Ok? ==> Consumed(i, r.rest)
    ensures r.Ok? ==> Speaker(i).Ok?
    ensures r.Fail? ==> Speaker(i).Ok? && Parenthetical(Speaker(i).rest).Fail?
  {
    var speaker := Speaker(i);
    if !speaker.Ok? then Err else
    var paren := Parenthetical(speaker.rest);
    if paren.Fail? then Fail else
    if !paren.Ok? then Err else
    var dialogue := Dialogue(paren.rest);
    if !dialogue.Ok? then Err else
    ConsumedTrans(i, speaker.rest, paren.rest);
    ConsumedTrans(i, paren.rest, dialogue.rest);
    Ok([speaker.value, paren.value, dialogue.value], dialogue.rest)
  }

  /** `block`: the first alternative that does not report an error, in the fixed order
      forced transition, `TO:` transition, lyric, scene, speaker-parenthetical-dialogue,
      speaker-dialogue, action. The cut inside `spd_block` is the only failure. */
  function Block(i: string): (r: PResult<seq<Line>>)
    ensures r.Ok? ==> WellFormedBlock(r.value) && Consumed(i, r.rest)
    ensures r.Fail? ==> SpdBlock(i).Fail?
  {
    var forced := TransitionForced(i);
    if !forced.Err? then Singleton(forced) else
    var to := TransitionTo(i);
    if !to.Err? then Singleton(to) else
    var lyric := Lyric(i);
    if !lyric.Err? then Singleton(lyric) else
    var scene := Scene(i);
    if !scene.Err? then Singleton(scene) else
    var spd := SpdBlock(i);
    if !spd.Err? then spd else
    var sd := SdBlock(i);
    if !sd.Err? then sd else
    Singleton(Action(i))
  }

  /** After a separated list stops at `rest`: no separator follows, or no block after it. */
  predicate ListStopsAt(rest: string) {
    var sep := LineEnding(rest);
    sep.Err? || Block(sep.rest).Err?
  }

  /** The separator-then-block loop of `separated_list0(line_ending, block)`. When a
      separator is read but no block follows, the separator is left unconsumed. */
  function MoreBlocks(i: string): (r: PResult<seq<seq<Line>>>)
    decreases |i|
    ensures !r.Err?
    ensures r.Ok? ==> SuffixOf(r.rest, i)
    ensures r.Ok? ==> AllWellFormed(r.value)
    ensures r.Ok? ==> ListStopsAt(r.rest)
  {
    match LineEnding(i)
    case Ok(sep, next) =>
      (match Block(next)
       case Ok(b, rest) =>
         (match MoreBlocks(rest)
          case Ok(more, last) =>
            SuffixOfConcat(i, sep, next);
            SuffixOfTrans(next, rest, last);
            SuffixOfTrans(i, next, last);
            AllWellFormedCons(b, more);
            Ok([b] + more, last)
          case _ => Fail)
       case Err => Ok([], i)
       case Fail => Fail)
    case _ => Ok([], i)
  }

  /** `separated_list0(line_ending, block)`: never an error; an error of the first block
      gives the empty list. */
  function Blocks(i: string): (r: PResult<seq<seq<Line>>>)
    ensures !r.Err?
    ensures r.Ok? ==> SuffixOf(r.rest, i)
    ensures r.Ok? ==> AllWellFormed(r.value)
    ensures r.Ok? ==> (r.value == [] && r.rest == i && Block(i).Err?) || ListStopsAt(r.rest)
  {
    match Block(i)
    case Ok(b, rest) =>
      (match MoreBlocks(rest)
       case Ok(more, last) =>
         SuffixOfTrans(i, rest, last);
         AllWellFormedCons(b, more);
         Ok([b] + more, last)
       case _ => Fail)
    case Err => Ok([], i)
    case Fail => Fail
  }

  function Flatten(bs: seq<seq<Line>>): (r: seq<Line>)
    ensures forall j, k :: 0 <= j < |bs| && 0 <= k < |bs[j]| ==> bs[j][k] in r
    ensures forall l :: l in r ==> exists j :: 0 <= j < |bs| && l in bs[j]
  {
    if |bs| == 0 then [] else
    var more := Flatten(bs[1..]);
    assert forall j :: 1 <= j < |bs| ==> bs[j] == bs[1..][j - 1];
    bs[0] + more
  }

  // ---------------------------------------------------------------------------
  // Title page
  // ---------------------------------------------------------------------------

  /** A character of a title-page key: anything but `\n`, `\r` and `:`. */
  predicate KeyChar(c: char) {
    c != '\n' && c != '\r' && c != ':'
  }

  predicate IsKey(s: string) {
    |s| > 0 && forall k :: 0 <= k < |s| ==> KeyChar(s[k])
  }

  predicate IsBlank(ws: string) {
    |ws| > 0 && forall k :: 0 <= k < |ws| ==> IsSpace(ws[k])
  }

  /** `i` holds the item `key:` + whitespace `ws` + the line `val`, followed by `rest`. */
  predicate ItemShape(i: string, key: string, ws: string, val: string, rest: string) {
    IsKey(key) && IsBlank(ws) && IsLineText(val) && LineThen(i, key + ":" + ws + val, rest)
  }

  /** `i` holds the item `key: val`, with some whitespace after the colon, then `rest`. */
  ghost predicate IsItem(i: string, key: string, val: string, rest: string) {
    exists ws :: ItemShape(i, key, ws, val, rest)
  }

  /** `titlepage_val`: the maximal non-empty run of key characters. */
  function TitlepageVal(i: string): (r: PResult<string>)
    ensures !r.Fail?
    ensures r.Ok? <==> |i| > 0 && KeyChar(i[0])
    ensures r.Ok? ==> i == r.value + r.rest && IsKey(r.value)
    ensures r.Ok? ==> r.rest == [] || !KeyChar(r.rest[0])
  {
    TakeWhile1(i, KeyChar)
  }

  lemma ItemShapeOf(i: string, key: string, afterKey: string, afterColon: string, ws: string, afterWs: string,
                    val: string, rest: string)
    requires IsKey(key) && IsBlank(ws)
    requires i == key + afterKey && afterKey == [':'] + afterColon && afterColon == ws + afterWs
    requires LineSplit(afterWs, val, rest)
    ensures IsItem(i, key, val, rest) && Consumed(i, rest)
  {
    assert i == key + ":" + ws + afterWs;
    LineThenPrefix(i, key + ":" + ws, afterWs, val, rest);
    assert (key + ":" + ws) + val == key + ":" + ws + val;
    LineThenConsumed(i, key + ":" + ws + val, rest);
    assert ItemShape(i, key, ws, val, rest);
  }

  /** `titlepage_item`: key, `:`, whitespace (line breaks included), then a value line. */
  function TitlepageItem(i: string): (r: PResult<(string, string)>)
    ensures !r.Fail?
    ensures r.Ok? ==> IsItem(i, r.value.0, r.value.1, r.rest)
    ensures r.Ok? ==> Consumed(i, r.rest)
  {
    var key := TitlepageVal(i);
    if !key.Ok? then Err else
    var colon := Char(':', key.rest);
    if !colon.Ok? then Err else
    var ws := MultiSpace1(colon.rest);
    if !ws.Ok? then Err else
    var val := SomeLine(ws.rest);
    if !val.Ok? then Err else
    ItemShapeOf(i, key.value, key.rest, colon.rest, ws.value, ws.rest, val.value, val.rest);
    Ok((key.value, val.value), val.rest)
  }

  /** `many0(titlepage_item)`: the items read greedily until one does not match. */
  function TitlepageItems(i: string): (r: PResult<seq<(string, string)>>)
    decreases |i|
    ensures r.Ok?
    ensures SuffixOf(r.rest, i)
    ensures TitlepageItem(r.rest).Err?
    ensures r.value == [] <==> TitlepageItem(i).Err?
  {
    var item := TitlepageItem(i);
    if !item.Ok? then Ok([], i) else
    var more := TitlepageItems(item.rest);
    SuffixOfTrans(i, item.rest, more.rest);
    Ok([item.value] + more.value, more.rest)
  }

  /** `v` is the value of the last item with key `key`. */
  ghost predicate IsLastValue(items: seq<(string, string)>, key: string, v: string) {
    exists j :: 0 <= j < |items| && items[j] == (key, v) && forall k :: j < k < |items| ==> items[k].0 != key
  }

  /** `o` is what a title page records for `key`: the last value given, or none. */
  ghost predicate RecordsKey(items: seq<(string, string)>, key: string, o: Option<string>) {
    match o
    case None => forall j :: 0 <= j < |items| ==> items[j].0 != key
    case Some(v) => IsLastValue(items, key, v)
  }

  predicate IsReservedKey(key: string) {
    key == "Title" || key == "Author"
  }

  /** The items whose key is neither `Title` nor `Author`, in order. */
  function Others(items: seq<(string, string)>): seq<(string, string)> {
    if |items| == 0 then []
    else (if IsReservedKey(items[0].0) then [] else [items[0]]) + Others(items[1..])
  }

  lemma {:induction false} OthersAppend(items: seq<(string, string)>, item: (string, string))
    ensures Others(items + [item]) == Others(items) + (if IsReservedKey(item.0) then [] else [item])
  {
    if |items| > 0 {
      assert (items + [item])[1..] == items[1..] + [item];
      OthersAppend(items[1..], item);
    }
  }

  /** Reading one more item: the record for `key` becomes that item's value when the
      item has that key, and stays as it was otherwise. */
  lemma RecordsKeyStep(init: seq<(string, string)>, last: (string, string), key: string, o: Option<string>)
    requires RecordsKey(init, key, o)
    ensures RecordsKey(init + [last], key, if last.0 == key then Some(last.1) else o)
  {
    var items := init + [last];
    if last.0 == key {
      assert items[|init|] == (key, last.1);
    } else {
      match o
      case None =>
        assert forall j :: 0 <= j < |items| ==> items[j].0 != key by {
          forall j | 0 <= j < |items| ensures items[j].0 != key {
            if j < |init| { assert items[j] == init[j]; }
          }
        }
      case Some(v) =>
        var j :| 0 <= j < |init| && init[j] == (key, v) && forall k :: j < k < |init| ==> init[k].0 != key;
        assert items[j] == (key, v);
        assert forall k :: j < k < |items| ==> items[k].0 != key by {
          forall k | j < k < |items| ensures items[k].0 != key {
            if k < |init| { assert items[k] == init[k]; }
          }
        }
    }
  }

  /** One iteration of the loop that builds the title page from its items. */
  function AddItem(m: TitlePage, item: (string, string)): (r: TitlePage)
    ensures r.title == if item.0 == "Title" then Some(item.1) else m.title
    ensures r.author == if item.0 == "Author" then Some(item.1) else m.author
    ensures r.other == m.other + (if IsReservedKey(item.0) then [] else [item])
  {
    if item.0 == "Title" then m.(title := Some(item.1))
    else if item.0 == "Author" then m.(author := Some(item.1))
    else m.(other := m.other + [item])
  }

  /** The title page built from the items: the last `Title` and `Author` values win,
      every other item is kept in order. */
  function TitlePageOf(items: seq<(string, string)>): (m: TitlePage)
    decreases |items|
    ensures RecordsKey(items, "Title", m.title)
    ensures RecordsKey(items, "Author", m.author)
    ensures m.other == Others(items)
  {
    if |items| == 0 then DefaultTitlePage
    else
      var init := items[..|items| - 1];
      var last := items[|items| - 1];
      var m := TitlePageOf(init);
      assert items == init + [last];
      RecordsKeyStep(init, last, "Title", m.title);
      RecordsKeyStep(init, last, "Author", m.author);
      OthersAppend(init, last);
      AddItem(m, last)
  }

  /** `titlepage`: never an error; with no item it is the default title page. */
  function Titlepage(i: string): (r: PResult<TitlePage>)
    ensures r.Ok?
    ensures SuffixOf(r.rest, i)
    ensures TitlepageItem(r.rest).Err?
    ensures TitlepageItem(i).Err? ==> r == Ok(DefaultTitlePage, i)
    ensures RecordsKey(TitlepageItems(i).value, "Title", r.value.title)
    ensures RecordsKey(TitlepageItems(i).value, "Author", r.value.author)
    ensures r.value.other == Others(TitlepageItems(i).value)
  {
    var items := TitlepageItems(i);
    Ok(TitlePageOf(items.value), items.rest)
  }

  // ---------------------------------------------------------------------------
  // Document
  // ---------------------------------------------------------------------------

  /** Where a line sits next to its neighbours: dialogue only right after a speaker or
      after a parenthetical that follows a speaker; a parenthetical only between a
      speaker and dialogue; a speaker always followed by dialogue or a parenthetical. */
  predicate Placed(ls: seq<Line>, j: int)
    requires 0 <= j < |ls|
  {
    && (ls[j].Dialogue? ==>
          (j >= 1 && ls[j - 1].Speaker?) || (j >= 2 && ls[j - 1].Parenthetical? && ls[j - 2].Speaker?))
    && (ls[j].Parenthetical? ==> j >= 1 && ls[j - 1].Speaker? && j + 1 < |ls| && ls[j + 1].Dialogue?)
    && (ls[j].Speaker? ==> j + 1 < |ls| && (ls[j + 1].Dialogue? || ls[j + 1].Parenthetical?))
  }

  predicate GroupedLines(ls: seq<Line>) {
    forall j :: 0 <= j < |ls| ==> Placed(ls, j)
  }

  lemma GroupedBlock(b: seq<Line>)
    requires WellFormedBlock(b)
    ensures GroupedLines(b)
  {
    forall j | 0 <= j < |b|
      ensures Placed(b, j)
    {
    }
  }

  lemma GroupedAppend(a: seq<Line>, b: seq<Line>)
    requires GroupedLines(a) && GroupedLines(b)
    requires |b| == 0 || (!b[0].Dialogue? && !b[0].Parenthetical?)
    ensures GroupedLines(a + b)
  {
    var ab := a + b;
    forall j | 0 <= j < |ab|
      ensures Placed(ab, j)
    {
      if j < |a| {
        assert Placed(a, j);
      } else {
        assert Placed(b, j - |a|);
      }
    }
  }

  lemma {:induction false} GroupedFlatten(bs: seq<seq<Line>>)
    requires AllWellFormed(bs)
    ensures GroupedLines(Flatten(bs))
  {
    if |bs| > 0 {
      GroupedBlock(bs[0]);
      GroupedFlatten(bs[1..]);
      GroupedAppend(bs[0], Flatten(bs[1..]));
    }
  }

  lemma SuffixOfBody(text: string, afterTp: string, body: string)
    requires SuffixOf(afterTp, text)
    requires body == afterTp || LineThen(afterTp, "", body)
    ensures SuffixOf(body, text)
  {
    if body != afterTp {
      LineThenConsumed(afterTp, "", body);
      SuffixOfTrans(text, afterTp, body);
    }
  }

  /** `document` (exported as `parse_document`): an optional title page and an optional
      line ending, then blocks separated by line endings, flattened in order. Text that
      cannot be parsed is left as the remainder; the only way to get no document is the
      parenthetical cut (`DocFacts.DocumentFailCause`). */
  function ParseDocument(text: string): (r: PResult<Document>)
    ensures !r.Err?
    ensures r.Ok? ==> SuffixOf(r.rest, text)
    ensures r.Ok? ==> GroupedLines(r.value.lines)
    ensures r.Ok? && TitlepageItem(text).Err? ==> r.value.titlepage == DefaultTitlePage
    ensures r.Ok? ==> RecordsKey(TitlepageItems(text).value, "Title", r.value.titlepage.title)
    ensures r.Ok? ==> RecordsKey(TitlepageItems(text).value, "Author", r.value.titlepage.author)
    ensures r.Ok? ==> r.value.titlepage.other == Others(TitlepageItems(text).value)
  {
    var tp := Titlepage(text);
    var sep := LineEnding(tp.rest);
    var body := if sep.Ok? then sep.rest else tp.rest;
    SuffixOfBody(text, tp.rest, body);
    DocumentOf(tp.value, body)
  }

  /** The screenplay part of `document`: the blocks of `body`, flattened, under `titlepage`. */
  function DocumentOf(titlepage: TitlePage, body: string): (r: PResult<Document>)
    ensures !r.Err?
    ensures r.Ok? ==> SuffixOf(r.rest, body) && r.value.titlepage == titlepage
    ensures r.Ok? ==> GroupedLines(r.value.lines)
  {
    match Blocks(body)
    case Ok(bs, rest) =>
      GroupedFlatten(bs);
      Ok(Document(Flatten(bs), titlepage), rest)
    case _ => Fail
  }
}
