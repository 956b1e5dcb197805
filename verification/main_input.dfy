/**
  * The main text input: typing, and the keys `handleKeyDown` reacts to.
  */
module MainInput {
  import opened Optional
  import opened Tokens
  import opened Store
  import opened Suggest
  import opened Widget

  /** `handleInputChange`: the text is taken as typed and suggestions are
      shown exactly when it is non-empty. */
  function InputChange(s: State, text: string): (r: State)
    ensures r.input == text
    ensures r.showSuggestions <==> |text| > 0
    ensures r.formula == s.formula && r.session == s.session && r.selected == s.selected
    ensures r.result == s.result
  {
    s.(input := text, showSuggestions := text != "")
  }

  /** The suggestions the component offers for its current input. */
  function Offered(s: State, fetched: seq<Token>): (r: seq<Token>)
    ensures forall t :: t in r <==> t in Available(s.input, fetched) && Matches(t, s.input)
    ensures !FetchEnabled(s.input) ==> r == []
  {
    Filter(Available(s.input, fetched), s.input)
  }

  /** Turning pending input text into a token: the shared step of the
      operator keys, Enter and `evaluateFormula`. Empty input adds nothing. */
  function Flush(s: State, id: string, parse: Parser): (r: State)
    ensures s.input == "" ==> r == s
    ensures s.input != "" ==> r.formula == s.formula + [Derive(id, s.input, parse)]
    ensures r.input == ""
    ensures r.showSuggestions == s.showSuggestions && r.session == s.session
    ensures r.selected == s.selected && r.result == s.result
  {
    if s.input != "" then
      s.(formula := Append(s.formula, Derive(id, s.input, parse)), input := "")
    else s
  }

  /** Backspace in an empty input drops the last token; otherwise the key
      only edits the text, which arrives as an `InputChange`. */
  function Backspace(s: State): (r: State)
    ensures s.input == "" && |s.formula| > 0 ==> r == s.(formula := s.formula[..|s.formula| - 1])
    ensures s.input != "" || |s.formula| == 0 ==> r == s
  {
    if s.input == "" && |s.formula| > 0 then
      s.(formula := RemoveAt(s.formula, |s.formula| - 1))
    else s
  }

  /** An operator key: pending text becomes a token first, then the operator
      token is added. Suggestion visibility is left as it was. */
  function OperatorKey(s: State, key: string, now: Stamps, parse: Parser): (r: State)
    requires key in Operators
    ensures s.input != "" ==> |r.formula| == |s.formula| + 2
    ensures s.input != "" ==> r.formula[|s.formula|] == Derive(now.first, s.input, parse)
    ensures s.input == "" ==> |r.formula| == |s.formula| + 1
    ensures r.formula[..|s.formula|] == s.formula
    ensures r.formula[|r.formula| - 1] == OperatorToken(now.second, key)
    ensures r.input == "" && r.showSuggestions == s.showSuggestions
    ensures r.session == s.session && r.selected == s.selected && r.result == s.result
  {
    var f := Flush(s, now.first, parse);
    f.(formula := Append(f.formula, OperatorToken(now.second, key)))
  }

  /** `handleSelectSuggestion`: the chosen candidate is added as it is. */
  function SelectSuggestion(s: State, v: Token): (r: State)
    ensures r.formula == s.formula + [v]
    ensures r.input == "" && !r.showSuggestions
    ensures r.session == s.session && r.selected == s.selected && r.result == s.result
  {
    s.(formula := Append(s.formula, v), input := "", showSuggestions := false)
  }

  /** `evaluateFormula`: flush pending text, then evaluate the formula the
      flush produced. */
  function Evaluate(s: State, id: string, ctx: Ctx): (r: State)
    ensures s.input == "" ==> r.formula == s.formula
    ensures s.input != "" ==> r.formula == s.formula + [Derive(id, s.input, ctx.parse)]
    ensures r.result == ctx.calculate(r.formula)
    ensures r.input == "" && r.showSuggestions == s.showSuggestions
    ensures r.session == s.session && r.selected == s.selected
  {
    var f := Flush(s, id, ctx.parse);
    f.(result := ctx.calculate(f.formula))
  }

  /** Enter: with text, exactly one token is added -- the first offered
      suggestion when the list is showing and non-empty, the derived token
      otherwise -- and the input is cleared and hidden. Without text, Enter
      evaluates. */
  function Enter(s: State, now: Stamps, offered: seq<Token>, ctx: Ctx): (r: State)
    ensures s.input != "" ==> |r.formula| == |s.formula| + 1 && r.formula[..|s.formula|] == s.formula
    ensures s.input != "" && s.showSuggestions && |offered| > 0 ==> r.formula[|s.formula|] == offered[0]
    ensures s.input != "" && !(s.showSuggestions && |offered| > 0) ==>
              r.formula[|s.formula|] == Derive(now.first, s.input, ctx.parse)
    ensures s.input != "" ==> r.input == "" && !r.showSuggestions && r.result == s.result
    ensures s.input == "" ==> r.formula == s.formula && r.result == ctx.calculate(s.formula)
    ensures s.input == "" ==> r == Evaluate(s, now.first, ctx)
    ensures s.input == "" ==> r.input == s.input && r.showSuggestions == s.showSuggestions
    ensures r.session == s.session && r.selected == s.selected
  {
    if s.input != "" then
      var added :=
        if s.showSuggestions && |offered| > 0 then SelectSuggestion(s, offered[0])
        else Flush(s, now.first, ctx.parse);
      added.(input := "", showSuggestions := false)
    else
      Evaluate(s, now.first, ctx)
  }

  /** Tab takes the first offered suggestion when the list is showing, which
      also hides the list. */
  function Tab(s: State, offered: seq<Token>): (r: State)
    ensures s.showSuggestions && |offered| > 0 ==> r == SelectSuggestion(s, offered[0])
    ensures s.showSuggestions && |offered| > 0 ==>
              r.formula == s.formula + [offered[0]] && r.input == "" && !r.showSuggestions
    ensures !(s.showSuggestions && |offered| > 0) ==> r == s
  {
    if s.showSuggestions && |offered| > 0 then SelectSuggestion(s, offered[0]) else s
  }

  /** `handleKeyDown`. The source tests the keys in a row of independent
      `if`s; they name disjoint keys (and Enter's two cases split on the
      input), so at most one fires and a chain of `else if`s is the same. */
  function KeyDown(s: State, key: string, now: Stamps, fetched: seq<Token>, ctx: Ctx): (r: State)
    ensures key !in Operators && key !in ["Backspace", "Enter", "Tab", "="] ==> r == s
    ensures r.session == s.session && r.selected == s.selected
  {
    if key == "Backspace" then Backspace(s)
    else if key in Operators then OperatorKey(s, key, now, ctx.parse)
    else if key == "Enter" then Enter(s, now, Offered(s, fetched), ctx)
    else if key == "Tab" then Tab(s, Offered(s, fetched))
    else if key == "=" then Evaluate(s, now.first, ctx)
    else s
  }
}
