# fountain-rs in Dafny

A model of the core of fountain-rs. This Rust library reads Fountain, a plain-text
screenplay markup, into a typed document. It also renders that document to HTML.

The core has four parts, and each becomes a module here.

- **The grammar** (`fountain/src/parse.rs`). These are nom parser combinators that classify
  each line. A line can be a scene heading, action, dialogue, speaker, parenthetical,
  transition or lyric. Lines are grouped into blocks, the blocks are separated by blank
  lines, and an optional key/value title page may come first.
  - `Nom` models the combinators the grammar uses, with nom's three outcomes: success with
    the unconsumed rest, a recoverable error, and an unrecoverable failure raised by `cut`.
  - `Parse` holds one function per parser of the source.
  - `ParseFacts`, `BlockFacts` and `DocFacts` characterise what each parser accepts, in
    terms of the shape of the input line.
  - `Scenarios` works the unit tests of `parse.rs` through those characterisations.
  - `DocumentExamples` works the small document test of `parse.rs` block by block.
  - `InterviewExample` does the same for the document test that opens with a title page.
- **The data model** (`fountain/src/data.rs`, with the shapes `parse.rs` actually builds).
  This is `Data`: `Line`, `TitlePage` and `Document`.
- **The renderer** (`fountain/src/html.rs`). This is `Html`: one paragraph per line, the
  title-page section, and the body of the page. Reading a fragment back recovers its
  class and text, and splitting the body at line endings recovers its lines.
- **Index scans** (`fountain/src/utils.rs`). This is `Utils`: `position_before` and
  `position_after`, each with a characterisation of its result and uniqueness of that
  result.

Strings are `seq<char>`. A parser's result `Ok(value, rest)` carries the unconsumed rest
of the input, as nom's `IResult` does.

Behaviour of the code worth noting:

- A line `BOB^` parses as a dual speaker named `BOB^`. `is_dual` tests for a trailing
  `^`, but only the two-character suffix ` ^` is stripped from the name.
- `block` tries the lyric parser between typed transitions and scene headings.
- A no-lowercase line followed by neither a complete line nor a parenthesised text does
  not become a speaker. Both speaker blocks need a following line, so the line falls
  through to action (`BlockFacts.BlockLoneSpeaker`). Followed by `(x)` without a line
  ending, the block fails through the `cut` (`BlockFacts.BlockSpeakerCut`).
- That `cut` is the only way to get no document at all, and it aborts the document
  wherever the block stands (`DocFacts.DocumentFailCause`, `DocFacts.CutInLaterBlock`).

## Model

| member | source | states |
|---|---|---|
| Parse.NoLower | fountain/src/parse.rs:14-19 | never fails; succeeds exactly when the first character is neither lowercase ASCII nor a line terminator; takes the maximal such run, so the rest is empty or starts with a stopping character |
| Parse.SomeLine | fountain/src/parse.rs:33-37 | on success the input is the returned line, then `\n` or `\r\n`, then the rest, and some input is consumed |
| ParseFacts.SomeLineOn | fountain/src/parse.rs:33-37 | on any input that begins with a complete line, `some_line` returns exactly that line and what follows its line ending |
| ParseFacts.SomeLineIff | fountain/src/parse.rs:33-37 | `some_line` succeeds if and only if the input holds a complete line, and errors otherwise |
| Parse.Action | fountain/src/parse.rs:24-30 | a success is an `Action` whose text is the first line of the input |
| ParseFacts.ActionOn | fountain/src/parse.rs:24-30 | any complete first line is accepted as action, with the rest after its line ending |
| Parse.Dialogue | fountain/src/parse.rs:41-47 | a success is a `Dialogue` whose text is the first line of the input |
| ParseFacts.DialogueOn | fountain/src/parse.rs:41-47 | any complete first line is accepted as dialogue |
| Parse.InParens | fountain/src/parse.rs:61-65 | never fails; on success the input is `(`, then a non-empty text free of `)`, then `)`, then the rest |
| ParseFacts.InParensOn | fountain/src/parse.rs:61-65 | every input of that shape yields its inner text and the rest |
| Parse.Parenthetical | fountain/src/parse.rs:51-58 | a success is `(x)` followed by a line ending, with x non-empty and free of `)`; a failure happens only when a parenthesised text is not followed by a line ending |
| ParseFacts.ParentheticalOn | fountain/src/parse.rs:51-58 | a parenthesised text followed by a line ending is accepted, and the rest is what follows the line ending |
| ParseFacts.ParentheticalCut | fountain/src/parse.rs:54 | a parenthesised text with no line ending after it is an unrecoverable failure (`cut`), not an error |
| ParseFacts.ParentheticalFailIff | fountain/src/parse.rs:51-58 | failure happens if and only if the input starts with a parenthesised text that has no line ending after it |
| Parse.StripSuffix | fountain/src/parse.rs:243-249 | when the string ends with the suffix, the result followed by the suffix is the string; otherwise the string is unchanged |
| Parse.ShoutLine | fountain/src/parse.rs:74 | never fails; a success is a complete first line without lowercase letters, read together with its line ending |
| Parse.Speaker | fountain/src/parse.rs:71-79 | a success comes from a complete first line without lowercase letters; its name is that line with ` ^` stripped, and it is dual exactly when the line ends in `^` |
| ParseFacts.SpeakerOn | fountain/src/parse.rs:71-79 | on a complete first line, `speaker` succeeds if and only if the line has no lowercase letters, and the result is built from that line |
| ParseFacts.PlainSpeakerOn | fountain/src/parse.rs:71-79 | a no-lowercase line not ending in `^` is a non-dual speaker named by the whole line |
| ParseFacts.DualSpacedSpeakerOn | fountain/src/parse.rs:71-79 | a no-lowercase line `NAME ^` is a dual speaker named `NAME` |
| Parse.TransitionTo | fountain/src/parse.rs:83-91 | a success is a `Transition` holding the whole first line, which has no lowercase letters and ends in `TO:` |
| ParseFacts.TransitionToOn | fountain/src/parse.rs:83-91 | on a complete first line, the result is that transition if the line has no lowercase letters and ends in `TO:`, and an error otherwise |
| Parse.TransitionForced | fountain/src/parse.rs:95-101 | a success is a `Transition` whose text is the first line after the `> ` marker |
| ParseFacts.TransitionForcedOn | fountain/src/parse.rs:95-101 | on a complete first line, the result is that transition if the line starts with `> `, in any case, and an error otherwise |
| Parse.SceneType | fountain/src/parse.rs:109 | never fails; succeeds exactly when the input starts with `INT` or `EXT`, and yields that kind followed by the rest |
| Parse.Scene | fountain/src/parse.rs:106-114 | a success is a `Scene` whose text is the whole first line, which starts with `INT. ` or `EXT. ` |
| ParseFacts.SceneOn | fountain/src/parse.rs:106-114 | on a complete first line, the result is a scene with that line if it starts with `INT. ` or `EXT. `, and an error otherwise |
| ParseFacts.SceneOfKind | fountain/src/parse.rs:109-112 | the heading text is the scene kind, then `. `, then the description |
| Parse.Lyric | fountain/src/parse.rs:120-125 | a success is a `Lyric` whose text is the first line after the `~` |
| ParseFacts.LyricOn | fountain/src/parse.rs:120-125 | on a complete first line, the result is a lyric with the text after `~` if the line starts with `~`, and an error otherwise |
| Parse.SdBlock | fountain/src/parse.rs:228-233 | never fails; a success is a speaker then a dialogue line, and the speaker parser succeeds on the same input |
| BlockFacts.SdBlockOn | fountain/src/parse.rs:228-233 | a plain speaker line followed by any complete line gives exactly that speaker and that dialogue |
| Parse.SpdBlock | fountain/src/parse.rs:236-241 | a success is speaker, parenthetical, dialogue; a failure happens only when the speaker matched and the parenthetical was cut |
| BlockFacts.SpdBlockOn | fountain/src/parse.rs:236-241 | speaker line, parenthetical line and dialogue line give exactly those three elements |
| BlockFacts.SpdWithoutDialogue | fountain/src/parse.rs:236-241 | a speaker and a parenthetical with no complete line after them is a recoverable error |
| Parse.Singleton | fountain/src/parse.rs:211-217 | a parsed line becomes a one-line block with the same rest; an error stays an error and a cut stays a failure |
| Parse.Block | fountain/src/parse.rs:205-220 | a success is well formed (one single element, or speaker with optional parenthetical then dialogue) and consumes input; a failure only comes from the speaker-parenthetical-dialogue branch |
| BlockFacts.BlockOnPlain | fountain/src/parse.rs:205-220 | on a line that no single-element parser accepts, `block` tries the two speaker blocks, then action, in that order |
| BlockFacts.PlainLineSkipsSingles | fountain/src/parse.rs:211-214 | a plain line is refused by all four single-element parsers |
| BlockFacts.BlockForcedLine | fountain/src/parse.rs:211 | a `> ` line is a single forced transition, ahead of every other parser |
| BlockFacts.BlockToLine | fountain/src/parse.rs:212 | a no-lowercase line ending in `TO:` is a single transition |
| BlockFacts.BlockLyricLine | fountain/src/parse.rs:213 | a `~` line that is not a transition is a single lyric |
| BlockFacts.BlockSceneLine | fountain/src/parse.rs:214 | an `INT. `/`EXT. ` line that is not a transition is a single scene heading |
| BlockFacts.BlockSpeakerParenDialogue | fountain/src/parse.rs:215 | a speaker line, a parenthetical line and a dialogue line form one three-element block |
| BlockFacts.BlockSpeakerCut | fountain/src/parse.rs:215 | a speaker followed by a parenthetical without a line ending makes the whole block fail, with no fallback to action |
| BlockFacts.BlockSpeakerDialogue | fountain/src/parse.rs:216 | a speaker line followed by a line that does not open a parenthetical forms a speaker-dialogue block |
| BlockFacts.BlockPlainSpeakerDialogue | fountain/src/parse.rs:216 | the same block, with the speaker's name and flag spelled out |
| BlockFacts.BlockSpeakerParenAsDialogue | fountain/src/parse.rs:215-216 | when no dialogue follows a parenthetical, the parenthetical line itself becomes the dialogue of a speaker-dialogue block |
| BlockFacts.BlockAction | fountain/src/parse.rs:217 | a plain line containing lowercase letters is a single action |
| BlockFacts.BlockLoneSpeaker | fountain/src/parse.rs:215-217 | a no-lowercase line followed by neither a complete line nor a parenthesised text is action, not a speaker |
| BlockFacts.BlockErrIff | fountain/src/parse.rs:205-220 | `block` errors if and only if the input holds no complete line |
| Parse.MoreBlocks | fountain/src/parse.rs:189 | the separator-then-block loop never errors, keeps the rest a suffix of its input, yields well-formed blocks, and stops where no further separator-then-block follows |
| DocFacts.MoreBlocksGivesBackSeparator | fountain/src/parse.rs:189 | a trailing line ending with no block after it is left unconsumed |
| Parse.Blocks | fountain/src/parse.rs:189 | `separated_list0` never errors and yields well-formed blocks; either the first block errors and nothing is consumed, or the list stops where no separator-then-block follows |
| DocFacts.BlocksTwo | fountain/src/parse.rs:189 | two blocks separated by one line ending, then no further separator, give exactly those two blocks |
| DocFacts.MoreBlocksFailCause | fountain/src/parse.rs:189 | the separated loop fails only where some suffix of its input starts with a speaker whose parenthetical is cut |
| DocFacts.BlocksFailCause | fountain/src/parse.rs:189 | the list of blocks fails only where some suffix of its input starts with a speaker whose parenthetical is cut |
| DocFacts.CutInLaterBlock | fountain/src/parse.rs:189 | a cut in a block after a separator is not backtracked: the whole loop fails instead of ending the list |
| Parse.Flatten | fountain/src/parse.rs:193 | every line of every block is in the document's lines, and every line there comes from some block |
| Parse.GroupedFlatten | fountain/src/parse.rs:193 | flattening well-formed blocks keeps every dialogue and parenthetical attached to the speaker or parenthetical before it |
| Parse.TitlepageVal | fountain/src/parse.rs:126-132 | never fails; succeeds exactly when the first character is a key character (not `\n`, `\r` or `:`), and takes the maximal run of them |
| DocFacts.KeyOn | fountain/src/parse.rs:126-132 | a key followed by `:` reads as exactly that key |
| Parse.TitlepageItem | fountain/src/parse.rs:137-144 | a success is `key:`, one or more whitespace characters, then the value line, and consumes input |
| DocFacts.TitlepageItemOn | fountain/src/parse.rs:137-144 | every input of that shape whose value starts with a non-space character yields exactly that key and value |
| DocFacts.TitlepageItemNoColon | fountain/src/parse.rs:137-144 | a first line without a colon is never an item |
| Parse.TitlepageItems | fountain/src/parse.rs:150 | `many0` never errors; it stops only where no further item parses, and it is empty exactly when the first item errors |
| Parse.AddItem | fountain/src/parse.rs:152-157 | a `Title` item sets the title and an `Author` item the author; any other item is appended to the other items; nothing else changes |
| Parse.OthersAppend | fountain/src/parse.rs:152-157 | adding an item adds it to the other items exactly when its key is neither `Title` nor `Author` |
| Parse.RecordsKeyStep | fountain/src/parse.rs:153-155 | after one more item, the recorded value of a key is that item's value if the key matches, and unchanged otherwise |
| Parse.TitlePageOf | fountain/src/parse.rs:150-160 | the title and author are the values of the last `Title` and `Author` items, or none; the other items are all remaining items, in order |
| Parse.Titlepage | fountain/src/parse.rs:147-161 | never errors; stops where no further item parses; without a first item it is the default title page and consumes nothing; the title and author are the last `Title` and `Author` values read, and the other items are all remaining items read, in order |
| Parse.ParseDocument | fountain/src/parse.rs:184-199 | never errors; the rest is a suffix of the input; dialogue and parentheticals stay grouped under their speaker; without a title-page item the title page is the default; the title and author are the last `Title` and `Author` values among the items read at the start, and the other items are the remaining ones, in order |
| DocFacts.DocumentFailCause | fountain/src/parse.rs:184-199 | parsing fails only where some suffix of the input starts with a speaker whose parenthetical is cut; every other input gives a document |
| DocFacts.DocumentFailsOnLaterCut | fountain/src/parse.rs:184-199 | without a title page, a cut in the second block makes the whole document fail |
| Parse.DocumentOf | fountain/src/parse.rs:187-198 | the document keeps the given title page and grouped lines, and leaves a suffix of the body |
| DocFacts.DocumentAfterTitlePage | fountain/src/parse.rs:184-199 | a title page, one line ending, then blocks: the document holds the title page built from the items read and the flattened blocks after the line ending, with the blocks' rest |
| DocFacts.DocumentRightAfterTitlePage | fountain/src/parse.rs:184-199 | a title page followed directly by blocks: the blocks start right after the last item |
| DocFacts.DocumentWithoutTitlePage | fountain/src/parse.rs:184-199 | without a title page, the document's lines are the flattened blocks of the input |
| DocFacts.DocumentSkipsOneLeadingLineEnding | fountain/src/parse.rs:188 | with no title page, one leading line ending is consumed by the optional line ending after the title page |
| DocFacts.DocumentOfTwoBlocks | fountain/src/parse.rs:184-199 | two separated blocks give a document whose lines are the first block's lines then the second's |
| DocFacts.DocumentSceneThenAction | fountain/src/parse.rs:184-199 | a scene line, a blank line and an action line give exactly those two lines |
| DocFacts.DocumentSpeakerDialogue | fountain/src/parse.rs:184-199 | a speaker line followed by a dialogue line give exactly a speaker and its dialogue |
| DocFacts.DocumentOfSixBlocks | fountain/src/parse.rs:184-199 | six blocks separated by single line endings give their lines in order, and the whole input is read |
| DocFacts.DocumentAction | fountain/src/parse.rs:184-199 | a lone action line is a document with that one line |
| Scenarios.StripSuffixExamples | fountain/src/parse.rs:256-260 | `Adam ^` and `Adam` both strip to `Adam` |
| Scenarios.TitlepageExample | fountain/src/parse.rs:262-279 | the three-item title page yields title, author and one other item, with nothing left over |
| Scenarios.NoLowerExample | fountain/src/parse.rs:281-287 | `ADAM CHALMERS` is read whole |
| Scenarios.SpeakerExample | fountain/src/parse.rs:289-301 | `MRS. THOMPSON` is a non-dual speaker, and the dialogue line is left over |
| Scenarios.DualSpeakerWithoutSpace | fountain/src/parse.rs:71-79 | `BOB^` is a dual speaker whose name keeps the caret |
| Scenarios.DualSpeakerWithSpace | fountain/src/parse.rs:71-79 | `BOB ^` is a dual speaker named `BOB` |
| Scenarios.TransitionExample | fountain/src/parse.rs:303-309 | `FADE TO:` is a transition |
| Scenarios.ForcedTransitionExample | fountain/src/parse.rs:311-317 | `> Burn to white.` is the transition `Burn to white.` |
| Scenarios.IntSceneExample | fountain/src/parse.rs:319-325 | an `INT.` heading parses whole |
| Scenarios.ExtSceneExample | fountain/src/parse.rs:327-333 | an `EXT.` heading parses whole |
| Scenarios.LyricExample | fountain/src/parse.rs:335-341 | the `~` line is a lyric without the tilde |
| Scenarios.ActionExample | fountain/src/parse.rs:343-349 | the line is an action |
| Scenarios.SomeLineExample | fountain/src/parse.rs:351-357 | the line is read without its line ending |
| Scenarios.InParensExample | fountain/src/parse.rs:359-364 | `(gasping)` yields `gasping` |
| Scenarios.SdBlockExample | fountain/src/parse.rs:366-378 | `LIBRARIAN` and its line form a speaker-dialogue block |
| Scenarios.SpdBlockExample | fountain/src/parse.rs:380-393 | `LIBRARIAN`, `(scared)` and its line form a speaker-parenthetical-dialogue block |
| Scenarios.ParentheticalExample | fountain/src/parse.rs:395-401 | `(gasping)` followed by a line ending is a parenthetical |
| Scenarios.ParentheticalWithoutLineEnding | fountain/src/parse.rs:51-58 | `(gasping)` at the end of input fails through the cut |
| Scenarios.DocumentTinyExample | fountain/src/parse.rs:403-415 | the scene, blank line and action give a document of exactly two lines |
| InterviewExample.DocumentInterviewExample | fountain/src/parse.rs:475-517 | the document with a title page gives the title `Stephen King Interview`, no author and no other items, then exactly its scene and three speaker blocks in order, with nothing left over |
| DocumentExamples.DocumentSmallExample | fountain/src/parse.rs:417-454 | the small document gives exactly its scene, action, speaker, parenthetical, dialogue, transition, scene and forced transition, with nothing left over |
| Scenarios.DocumentStopsWithoutSeparator | fountain/src/parse.rs:184-199 | two consecutive action lines with no blank line between them stop after the first; the second is left over |
| Scenarios.DocumentKaneExample | fountain/src/parse.rs:165-183 | the `KANE` example gives exactly a speaker and its dialogue, with nothing left over |
| Html.LineToHtml | fountain/src/html.rs:3-11 | each line is one paragraph whose class is given by the line's kind and whose content is the text the line shows |
| Html.ReadLineToHtml | fountain/src/html.rs:3-11 | reading a line's fragment back gives the line's class and the text it shows |
| Html.LineToHtmlSame | fountain/src/html.rs:3-11 | two lines render alike if and only if they have the same class and show the same text |
| Html.RenderingForgets | fountain/src/html.rs:3-11 | a transition renders like a parenthetical, and the dual flag does not show |
| Html.LineToHtmlInjective | fountain/src/html.rs:3-11 | except for transitions and speakers, the fragment determines the line |
| Html.ReadParagraphOf | fountain/src/html.rs:3-11 | a paragraph whose class has no quote reads back as its class and content |
| Html.MetadataToHtml | fountain/src/html.rs:13-35 | the title-page section is title, author, the other items (or one empty line) and the page break, each followed by a line ending |
| Html.MetadataSplit | fountain/src/html.rs:13-35 | with one-line values, splitting the section at line endings gives exactly those lines |
| Html.MetadataFallbacks | fountain/src/html.rs:14-21 | a missing title or author shows `Untitled` or `Author unknown`; a present one appears inside its heading |
| Html.OthersHtml | fountain/src/html.rs:22-26 | one `<h5>key: value` heading per other item, in order |
| Html.Fragments | fountain/src/html.rs:39 | one fragment per line, in order |
| Html.BodyHtml | fountain/src/html.rs:38-58 | with one-line values, splitting the body at line endings gives the section's lines (or one empty line), then each line's fragment (or one empty line) |
| Utils.PositionBefore | fountain/src/utils.rs:1-6 | the result is the greatest index below `end` that satisfies the predicate, and none exactly when no such index exists |
| Utils.PositionAfter | fountain/src/utils.rs:8-18 | the result is the least index above `start` that satisfies the predicate, and none exactly when no such index exists |
| Utils.PositionBeforeUnique | fountain/src/utils.rs:1-6 | any index with that characterisation is the result |
| Utils.PositionAfterUnique | fountain/src/utils.rs:8-18 | any index with that characterisation is the result |
| Utils.BeforeThenAfter | fountain/src/utils.rs:1-18 | after the last match before `end`, the next match is at `end` or later |
| Utils.PositionExamples | fountain/src/utils.rs:24-34 | over `0..10`, the last odd value before 5 is at 3 and the first even value after 6 is at 8 |

## Left out

- The command-line tool, the WebAssembly bindings, the web worker and the frontend: they only do I/O around the core.
- `lib.rs`: it only re-exports the parser and renderer.
- The stylesheet and the HTML shell of `to_html`. `BodyHtml` models the text after `<body>` and its line ending, and before the line ending and indentation that precede `</body>`: the title-page section, a line ending, then the joined fragments.
- nom's error payloads (`VerboseError`, contexts): only the three outcomes are modelled.
- A lone `\r` not followed by `\n`: nom's `not_line_ending` errors on it. Here the line stops there and the following `line_ending` errors, which gives the same error outcome for every parser of the grammar.
- The progress guards of `many0` and `separated_list0`: every item and separator consumes input, so the guards never fire.
- Unicode case: lowercase means ASCII `a`-`z`, as the source's character list says.
- The dual-dialogue bracketing pass: the renderer in `html.rs` has no such pass. Only its index scans from `utils.rs` are modelled.
- The document test `test_alien` of `parse.rs`: it is not restated as an example. It checks only that four lines come out, from a scene, an action and a speaker-dialogue block, which are the shapes `DocumentSmallExample` and `DocumentKaneExample` go through.
- `data.rs` and `html.rs` describe an older shape than the one `parse.rs` builds. There, `Speaker` is a plain string, there is no `Transition` or `Lyric`, and a `Metadata` record sits where the title page is. The model uses the shapes `parse.rs` builds.
- Html.LineToHtml: `html.rs` has no case for `Transition` or `Lyric`. The model styles a transition as a parenthetical and gives a lyric the class `lyric`. A speaker shows its name only.
- Html.BodyHtml: `html.rs` treats the metadata as optional. The model shows the title-page section exactly when the title page is not the default one.
- Html.BodyHtml: a parenthetical may span lines, because `is_not(")")` stops only at `)`. A title-page value may not span lines. The line-by-line reading is therefore stated only for documents whose lines and values hold no line ending.
- Utils.PositionAfter: `start + 1` cannot overflow here. In Rust it overflows for `start == usize::MAX`, which no slice index reaches.
- Utils.PositionBefore: requires `end` to be at most the length. The source indexes every position below `end` and would panic past the end.
