/** The screenplay document model: the typed lines the grammar produces, the title page
    and the document that holds both. Equality on all three is structural, as the derived
    `PartialEq` of the Rust types is. */
module Data {

  datatype Option<T> = None | Some(value: T)

  /** One screenplay element. Every variant carries its text; a speaker also records
      whether its line was marked for dual (simultaneous) dialogue. */
  datatype Line =
    | Scene(text: string)
    | Action(text: string)
    | Dialogue(text: string)
    | Speaker(name: string, isDual: bool)
    | Parenthetical(text: string)
    | Transition(text: string)
    | Lyric(text: string)

  /** The key-value header at the start of a screenplay. `other` keeps every other item
      in input order, duplicates included. */
  datatype TitlePage = TitlePage(author: Option<string>, title: Option<string>, other: seq<(string, string)>)

  /** `TitlePage::default()`: no author, no title, no other items. */
  const DefaultTitlePage := TitlePage(None, None, [])

  datatype Document = Document(lines: seq<Line>, titlepage: TitlePage)
}
