# FormulaInput, modelled in Dafny

This project models the keystroke-driven formula builder of `components/FormulaInput.tsx`.
The builder keeps a formula as a sequence of tokens ("tags"). A token is a number, a custom
variable or an operator. The user types into a text input: operator keys, Enter, Tab and `=`
turn the typed text into tokens, Backspace removes the last token, and autocomplete suggestions
are filtered from a catalogue. Tags can be selected, edited in place, replaced and removed (the
table view's remove button is the exception, see "## Findings").
Editing a tag is a small session: open it, change the text, then commit or cancel.

The component is modelled as an immutable `State` record (`widget.dfy`) with one pure function
per handler:

- `tokens.dfy` holds the token record and the derivation rule.
- `store.dfy` holds the store's three mutations.
- `suggest.dfy` holds the catalogue query's enabling rule and the suggestion filter.
- `main_input.dfy` holds the main input's handlers.
- `editing.dfy` holds the tag and edit-session handlers.
- `machine.dfy` ties them together as `Step(state, event)` and `Run(state, events)`, with the
  properties that span several events.

Modelling assumptions:

- The formula store is not part of this model. `addVariable`, `removeVariable` and
  `replaceVariable` are taken to be sequence append, remove-at-index and update-at-index. An index
  outside the formula leaves it unchanged.
- `parseFloat` followed by `isNaN` is a parameter `parse: string -> Option<real>`, where `None`
  stands for NaN. The store's `calculateResult` is a parameter too. It is applied to the formula
  after the pending text has been added, which assumes the store reads its own current state.
- `Date.now().toString()` ids are carried by the events that create tokens. Two ids taken in one
  handler may or may not be equal.
- The catalogue response is an input of every event (`Tick.fetched`). When the query is disabled
  (empty input, or input that is exactly an operator symbol) the component holds no candidates,
  because that key is never fetched.
- Handlers read the state as of the last render. The model assumes a render between any two
  events, with one exception. A `focus()` call inside a handler blurs the tag editor. The
  editor's `onBlur` then runs `finishEditing` at once, with the values of that same render:
  - After `finishEditing` (line 201) this repeats the same replacement, which changes nothing
    (`Store.ReplaceIdempotent`).
  - After `cancelEditing` (line 208) it commits the buffer that was meant to be discarded. This is
    recorded under "## Findings".
- The key tests in `handleKeyDown` are separate `if`s. They name disjoint keys, so they are
  modelled as one `if`/`else if` chain.

Behaviours of the code worth knowing:

- A token's category does not always follow from its name. Text that is exactly `+` (pasted, since
  typing `+` is intercepted) becomes a custom token named `+`, and so does any of the seven operator
  symbols (`Machine.PastedOperatorIsCustom`).
- Ids are clock readings, not guaranteed unique.
- `startEditing` does not commit a pending edit of another tag. The commit comes from the editor's
  blur, its check button, the outside-mousedown listener or `handleTagClick`.
- Committing an edit keeps the tag's `id` (the spread in `finishEditing`). Replacing a tag with a
  suggestion takes the suggestion's `id`.
- Opening a tag and committing it without typing (Enter, blur, the check button) rebuilds it from
  its name by the derivation rule. A catalogue variable whose name does not parse loses its
  category and value: it becomes a custom tag worth 0 (`Machine.OpenCommitRebuilds`,
  `Machine.OpenCommitResetsCatalogueTag`).
- Clicking a tag toggles its selection. Clicking it twice clears the selection of any other tag
  (`Machine.ClickTwice`).
- An operator key clears the input but leaves `showSuggestions` set. Nothing is offered for empty
  input, so this is invisible (`Machine.NoSuggestionWithoutQuery`).

## Model

| member | source | states |
|---|---|---|
| Tokens.Derive | components/FormulaInput.tsx:89-97 | the flushed token's name is the raw text; it is a number exactly when parsing succeeds, carrying the parsed value, and otherwise custom with value 0 |
| Tokens.OperatorToken | components/FormulaInput.tsx:101-107 | an operator key's token has the key as its name and as its value, category operator |
| Tokens.Label | components/FormulaInput.tsx:25 | a category's string is the catalogue label for `Other` and one of `number`, `custom`, `operator` exactly for the component's own categories; the source's test `category === 'operator'` (line 169) holds exactly for `Operator` |
| Tokens.LabelInjective | components/FormulaInput.tsx:25 | two categories have the same label string exactly when they are equal, so each of the source's labels has one encoding |
| Tokens.DerivedTokenShape | components/FormulaInput.tsx:95-96 | text-derived tokens are never operators and re-deriving them from their name reproduces them |
| Store.Append | components/FormulaInput.tsx:34 | assumed `addVariable`: length grows by one, earlier tokens are kept, the new token is last |
| Store.RemoveAt | components/FormulaInput.tsx:35 | assumed `removeVariable`: exactly the token at the index goes and later ones shift down; an index past the end changes nothing |
| Store.ReplaceAt | components/FormulaInput.tsx:36 | assumed `replaceVariable`: length kept, only the index changes; an index past the end changes nothing |
| Store.RemoveLastUndoesAppend | components/FormulaInput.tsx:81 | removing the last token undoes appending it |
| Store.RemoveLastIsPrefix | components/FormulaInput.tsx:81 | removing at `length - 1` leaves exactly the earlier tokens |
| Store.ReplaceIdempotent | components/FormulaInput.tsx:193-198 | committing the same edit twice from one snapshot (blur plus click) equals committing once |
| Suggest.IncludesSearch | components/FormulaInput.tsx:65 | the position-by-position search answers true exactly when the needle occurs in the text |
| Suggest.Available | components/FormulaInput.tsx:60 | the query runs only for non-empty input that is not exactly an operator symbol; otherwise no candidates are held |
| Suggest.Filter | components/FormulaInput.tsx:64-66 | the filtered list contains exactly the candidates whose lower-cased name contains the lower-cased input, is no longer than the candidates, and is all of them for empty input |
| Suggest.FilterSelects | components/FormulaInput.tsx:64-66 | the filtered list is the candidates at strictly increasing positions, and a position is taken exactly when its candidate matches: a stable filter |
| Suggest.FilterIgnoresQueryCase | components/FormulaInput.tsx:65 | the filter depends only on the lower-cased query: filtering by it gives the same list |
| Suggest.FilterSnoc | components/FormulaInput.tsx:64-66 | one more candidate extends the filtered list by that candidate exactly when it matches |
| Suggest.FilteredSuggestions | components/FormulaInput.tsx:64-66 | the one-candidate-at-a-time loop computes the stable filter, and its result holds exactly the matching candidates |
| MainInput.InputChange | components/FormulaInput.tsx:68-75 | the input becomes the typed text; suggestions are shown exactly when it is non-empty; formula, session, selection and result are kept |
| Machine.TypingTwiceKeepsLast | components/FormulaInput.tsx:68-75 | of two input changes only the second counts, and clearing the input hides the suggestions |
| MainInput.Offered | components/FormulaInput.tsx:60-66 | the offered suggestions are exactly the held candidates that match the input, and none when the query is disabled |
| MainInput.Flush | components/FormulaInput.tsx:87-98 | non-empty text is appended as its derived token and the input is cleared; empty text changes nothing |
| MainInput.Backspace | components/FormulaInput.tsx:79-82 | with empty input and a non-empty formula exactly the last token goes; otherwise nothing changes |
| MainInput.OperatorKey | components/FormulaInput.tsx:85-108 | with text, the derived token and then the operator token are appended (length + 2); without text only the operator (length + 1); earlier tokens kept; input cleared |
| MainInput.SelectSuggestion | components/FormulaInput.tsx:146-151 | the chosen suggestion is appended as it is; input cleared and suggestions hidden |
| MainInput.Enter | components/FormulaInput.tsx:110-131 | with text, exactly one token is appended (the first offered suggestion when shown, otherwise the derived token), input cleared and hidden; without text Enter is the "=" evaluation: the formula, input and suggestion visibility are kept and only the result is set; session and selection are always kept |
| MainInput.Tab | components/FormulaInput.tsx:133-137 | when suggestions are shown and non-empty, Tab is selecting the first one: it is appended, the input cleared, the list hidden, session, selection and result kept; otherwise nothing changes |
| MainInput.Evaluate | components/FormulaInput.tsx:211-226 | pending text is flushed by the derivation rule and the result is the evaluator applied to the flushed formula |
| MainInput.KeyDown | components/FormulaInput.tsx:77-144 | a key other than an operator, Backspace, Enter, Tab or `=` changes nothing; no key touches the selection or the edit session |
| Editing.StartEditing | components/FormulaInput.tsx:167-178 | an operator tag is never opened; any other tag opens with its own name as the text, formula untouched |
| Editing.EditChange | components/FormulaInput.tsx:288 | typing in the editor changes only the buffer of the open session |
| Editing.FinishEditing | components/FormulaInput.tsx:190-203 | the edited tag is rebuilt from the buffer by the derivation rule keeping its id, every other tag and the length stay, and the session ends; input, suggestion visibility, selection and result are kept; with no session nothing changes |
| Editing.CancelEditing | components/FormulaInput.tsx:205-207 | the intended cancel: the session ends and nothing else changes (formula, input, suggestion visibility, selection and result kept) |
| Editing.CancelAsWritten | components/FormulaInput.tsx:205-209 | Escape as the code runs it: the focus call's blur commits the buffer from the pre-cancel values, so the edited tag becomes the buffer's derived token; other tags and the length stay; the session ends; input, suggestion visibility, selection and result are kept |
| Editing.EscapeCommitsBuffer | components/FormulaInput.tsx:208 | after typing a new text, Escape as written changes the formula, where the intended cancel does not |
| Editing.EditorKey | components/FormulaInput.tsx:180-188 | Enter in the editor is exactly the commit, Escape exactly the intended cancel (only the session ends), other keys change nothing |
| Editing.TagClick | components/FormulaInput.tsx:158-165 | a pending edit of another tag is committed first, so afterwards only the clicked tag can be in edit mode; the selection toggles on the clicked tag; input, suggestion visibility and result are kept |
| Editing.ReplaceTag | components/FormulaInput.tsx:153-156 | only the tag at the index is replaced, by the suggestion itself, and the selection is cleared; session, input, suggestion visibility and result are kept |
| Editing.RemoveTag | components/FormulaInput.tsx:228-231 | the intended remove, as the formula view's buttons (lines 326, 347) run it: exactly the tag at the index goes and every other field is kept; an index past the end changes nothing |
| Editing.TableRemoveAsWritten | components/FormulaInput.tsx:461 | the table view's remove button as written: `stopPropagation` on `{}` throws before the store is called (line 229), so no field changes and the formula is one tag longer than `RemoveTag` would leave it |
| Editing.TableRemoveKeepsTag | components/FormulaInput.tsx:229-230 | for every existing tag, the table's button leaves it in the formula, where the intended remove takes it out |
| Machine.Step | components/FormulaInput.tsx:77-231 | main-input events leave the selection and the edit session alone; opening a tag and typing in its editor never change the formula |
| Machine.FlushSitesAgree | components/FormulaInput.tsx:85-143 | an operator key, Enter without a suggestion, `=` and the "=" button append the same token from the same text |
| Machine.NoSuggestionWithoutQuery | components/FormulaInput.tsx:60 | with empty input, or input that is exactly an operator symbol, nothing is offered and Tab changes nothing |
| Machine.PastedOperatorIsCustom | components/FormulaInput.tsx:118-126 | any of the seven operator symbols put into the input as text and entered becomes a custom token with that symbol as its name (when it does not parse as a number) |
| Machine.EnterThenBackspace | components/FormulaInput.tsx:79-131 | Enter on typed text followed by Backspace restores the formula |
| Machine.BackspacesDrain | components/FormulaInput.tsx:79-82 | with empty input, n Backspaces remove exactly the last n tokens, and presses beyond the length are no-ops |
| Machine.TypingKeepsFormula | components/FormulaInput.tsx:288 | any number of editor changes keep the formula and the edited index, and the buffer ends as the last text |
| Machine.CancelDiscardsEdits | components/FormulaInput.tsx:205-207 | with the intended cancel: open, any typing, then Escape leaves the formula unchanged and no tag in edit mode |
| Machine.TypingIdle | components/FormulaInput.tsx:288 | with no open session, editor changes change nothing |
| Machine.EditRoundTrip | components/FormulaInput.tsx:190-198 | open, type any number of texts (none included), Enter: the tag becomes the derived token of the final text, or of its own name when nothing was typed, with its id kept (a number exactly when that text parses); no other tag moves |
| Machine.OpenCommitUnchanged | components/FormulaInput.tsx:167-198 | opening a tag and committing without typing leaves the formula unchanged when the tag is what derivation makes of its name |
| Machine.OpenCommitRebuilds | components/FormulaInput.tsx:167-198 | otherwise opening and committing without typing replaces the tag by the derived token of its name, and the formula changes |
| Machine.OpenCommitResetsCatalogueTag | components/FormulaInput.tsx:190-198 | a catalogue variable worth 42 named `revenue` becomes a custom tag worth 0 when opened and committed untouched |
| Machine.ClickTwice | components/FormulaInput.tsx:164 | two clicks on a tag restore the selection when that tag or none was selected, and clear a selection of another tag |
| Machine.StepKeepsShape | components/FormulaInput.tsx:101-107 | provided the catalogue, picked and replacing tokens are well shaped, one event keeps every operator token one of the operator keys, carrying it as its value |
| Machine.FromInitialWellShaped | components/FormulaInput.tsx:29 | provided the catalogue, picked and replacing tokens are well shaped, every operator token in any formula reachable from the empty component is one of the operator keys |
| Machine.RunKeepsShape | components/FormulaInput.tsx:29 | from a formula whose tokens are already well shaped, across any sequence of events with well-shaped catalogue, picked and replacing tokens, every operator token is one of the seven operator keys with the key as its value |

## Left out

- `app/page.tsx`: static layout and text, with no logic.
- `calculateResult`: the store that evaluates the formula is not part of this model. It is an opaque parameter; no precedence, parenthesis or error rules are modelled.
- The catalogue fetch (lines 53-59) is network I/O. Its response is an arbitrary input of each event.
- `parseFloat`: abstract. Prefix parsing, `Infinity`, `-0` and IEEE behaviour are not modelled.
- Token ids are opaque. Nothing about their uniqueness is stated.
- Focus handling, `preventDefault`, the `setTimeout` around focusing the editor and the focus effect (lines 233-238) are DOM plumbing. The exception is the blur that the `focus()` calls at lines 201 and 208 cause in the tag editor, whose commit is modelled (see the assumptions above and "## Findings"). The outside-mousedown listener (lines 241-254) is kept only as its effect, the `Confirm` event, which commits.
- Rendering (lines 256-475) is left out, including the `slice(0, 7)` and `slice(0, 5)` display caps. A picked or replacing suggestion is any token the event carries. The formula/table view switch is left out too.
- Stale closures: a commit repeated from the same render is not a separate event. `Store.ReplaceIdempotent` shows that repeating the replacement after Enter, the check button, a click outside or a tag click changes nothing. After Escape the repeat is not harmless: it is `Editing.CancelAsWritten`, listed under "## Findings".
- Suggest.Filter: case folding covers ASCII `A`-`Z` only, not the full Unicode mapping of `toLowerCase`.
- Editing.FinishEditing: when the edited index no longer exists (a tag was removed while editing), the source spreads `undefined` into an id-less token for the store. The model assumes the store ignores an out-of-range replace.
- Machine.Step: opening a tag at an index past the end of the formula is a no-op, where the source throws at `formula[index].category` (lines 168-169). The indices come from the rendered list, so the UI cannot produce such an event.

## Findings

| source | as written | input that shows it | evidently intended | confidence | as-written member | corrected member |
|---|---|---|---|---|---|---|
| components/FormulaInput.tsx:205-209 | `cancelEditing` calls `inputRef.current?.focus()` while the tag editor has focus; the editor blurs and its `onBlur={finishEditing}` (line 290) runs with the pre-cancel index and buffer, so the typed buffer is committed | open tag 0 named `x`, type `y` in the editor, press Escape: tag 0 is renamed `y` (`Editing.EscapeCommitsBuffer`) | Escape discards the buffer and leaves the formula unchanged | medium, not executed (relies on React running the nested blur handler before re-rendering) | Editing.CancelAsWritten | Editing.CancelEditing |
| components/FormulaInput.tsx:461 | the table view's remove button calls `handleRemoveVariable(index, {} as React.MouseEvent)`; `e.stopPropagation()` (line 229) is not a function on `{}` and throws a TypeError before `removeVariable` (line 230) | switch to the table view and press the remove button of row 0: the formula keeps all its tags (`Editing.TableRemoveKeepsTag`) | the row's tag is removed, as the formula view's buttons do | high, not executed | Editing.TableRemoveAsWritten | Editing.RemoveTag |
