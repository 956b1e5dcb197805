/**
  * The component's state: the store's formula plus the component-local
  * input text, suggestion visibility, selected tag, edit session and last
  * result, and the collaborators the handlers consult.
  */
module Widget {
  import opened Optional
  import opened Tokens

  /** The tag edit session: no tag is being edited, or tag `index` is, with
      the editor's current text in `buffer`. */
  datatype Session = Idle | Editing(index: nat, buffer: string)

  datatype State = State(
    formula: seq<Token>,
    input: string,
    showSuggestions: bool,
    selected: Option<nat>,
    session: Session,
    result: Option<real>)

  /** Before any interaction: nothing typed, nothing selected, no result. */
  const Initial: State := State([], "", false, None, Idle, None)

  /** What two successive `Date.now().toString()` calls return within one
      handler; they may or may not be equal. */
  datatype Stamps = Stamps(first: string, second: string)

  /** The collaborators: `parseFloat` and the store's `calculateResult`. */
  datatype Ctx = Ctx(parse: Parser, calculate: seq<Token> -> Option<real>)
}
