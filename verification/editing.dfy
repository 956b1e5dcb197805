/**
  * Tags: selecting, editing in place, replacing and removing them.
  */
module Editing {
  import opened Optional
  import opened Tokens
  import opened Store
  import opened Widget

  /** `startEditing`: operators are never opened; any other tag opens with
      its name as the editor's text. The index comes from the rendered list,
      so it is within the formula. A pending edit of another tag is not
      committed here: blur and the outside-click listener do that. */
  function StartEditing(s: State, i: nat): (r: State)
    requires i < |s.formula|
    ensures s.formula[i].category == Operator ==> r == s
    ensures s.formula[i].category != Operator ==> r == s.(session := Editing(i, s.formula[i].name))
  {
    if s.formula[i].category != Operator then
      s.(session := Editing(i, s.formula[i].name))
    else s
  }

  /** The editor's `onChange`: only the buffer changes. */
  function EditChange(s: State, text: string): (r: State)
    ensures s.session.Editing? ==> r == s.(session := Editing(s.session.index, text))
    ensures s.session.Idle? ==> r == s
  {
    match s.session
    case Editing(i, _) => s.(session := Editing(i, text))
    case Idle => s
  }

  /** `finishEditing`: the tag being edited is rebuilt from the buffer by
      the derivation rule, keeping its `id`; every other tag, and the
      length, stay; the session ends. Without a session it does nothing. */
  function FinishEditing(s: State, parse: Parser): (r: State)
    ensures s.session.Idle? ==> r == s
    ensures s.session.Editing? ==> r.session == Idle && |r.formula| == |s.formula|
    ensures s.session.Editing? ==>
              forall k :: 0 <= k < |s.formula| && k != s.session.index ==> r.formula[k] == s.formula[k]
    ensures s.session.Editing? && s.session.index < |s.formula| ==>
              var i := s.session.index;
              && r.formula[i] == Derive(s.formula[i].id, s.session.buffer, parse)
              && r.formula[i].id == s.formula[i].id
              && r.formula[i].name == s.session.buffer
    ensures r.input == s.input && r.selected == s.selected && r.result == s.result
    ensures r.showSuggestions == s.showSuggestions
  {
    match s.session
    case Idle => s
    case Editing(i, buffer) =>
      var f :=
        if i < |s.formula| then ReplaceAt(s.formula, i, Derive(s.formula[i].id, buffer, parse))
        else s.formula;
      s.(formula := f, session := Idle)
  }

  /** `cancelEditing`: the buffer is dropped and the formula kept. */
  function CancelEditing(s: State): (r: State)
    ensures r.formula == s.formula && r.session == Idle
    ensures r.input == s.input && r.selected == s.selected
    ensures r.showSuggestions == s.showSuggestions && r.result == s.result
  {
    s.(session := Idle)
  }

  /** Escape as the code runs it. `cancelEditing` ends the session, but its
      `focus()` call moves focus from the editor to the main input, and the
      editor's `onBlur` runs `finishEditing` at once with the values of the
      render in which Escape was pressed: the session still open, the buffer
      still typed. So the buffer is committed after all. */
  function CancelAsWritten(s: State, parse: Parser): (r: State)
    ensures r.session == Idle && |r.formula| == |s.formula|
    ensures s.session.Editing? && s.session.index < |s.formula| ==>
              r.formula[s.session.index] == Derive(s.formula[s.session.index].id, s.session.buffer, parse)
    ensures s.session.Editing? ==>
              forall k :: 0 <= k < |s.formula| && k != s.session.index ==> r.formula[k] == s.formula[k]
    ensures r.input == s.input && r.selected == s.selected
    ensures r.showSuggestions == s.showSuggestions && r.result == s.result
  {
    var cancelled := CancelEditing(s);
    var blurred := FinishEditing(s, parse);
    cancelled.(formula := blurred.formula)
  }

  /** Escape after typing a new text keeps that text: the tag's name changes,
      where a cancel should leave the formula as it was. */
  lemma EscapeCommitsBuffer(s: State, parse: Parser)
    requires s.session.Editing? && s.session.index < |s.formula|
    requires s.session.buffer != s.formula[s.session.index].name
    ensures CancelAsWritten(s, parse).formula != s.formula
    ensures CancelAsWritten(s, parse).formula != CancelEditing(s).formula
  {
    var i := s.session.index;
    assert CancelAsWritten(s, parse).formula[i].name == s.session.buffer;
  }

  /** `handleEditingKeyDown`: Enter commits, Escape cancels. Escape uses the
      intended `CancelEditing`; `CancelAsWritten` records what the code does. */
  function EditorKey(s: State, key: string, parse: Parser): (r: State)
    ensures key == "Enter" ==> r == FinishEditing(s, parse)
    ensures key == "Escape" ==> r == CancelEditing(s)
    ensures key == "Escape" ==> r.formula == s.formula && r.session == Idle
    ensures key != "Enter" && key != "Escape" ==> r == s
  {
    if key == "Enter" then FinishEditing(s, parse)
    else if key == "Escape" then CancelEditing(s)
    else s
  }

  /** `handleTagClick`: a pending edit of a different tag is committed
      first; then the selection toggles on the clicked tag. */
  function TagClick(s: State, i: nat, parse: Parser): (r: State)
    ensures s.session.Editing? && s.session.index != i ==>
              r.formula == FinishEditing(s, parse).formula && r.session == Idle
    ensures !(s.session.Editing? && s.session.index != i) ==>
              r.formula == s.formula && r.session == s.session
    ensures r.session.Editing? ==> r.session == s.session && r.session.index == i
    ensures s.selected == Some(i) ==> r.selected == None
    ensures s.selected != Some(i) ==> r.selected == Some(i)
    ensures r.input == s.input && r.showSuggestions == s.showSuggestions && r.result == s.result
  {
    var f := if s.session.Editing? && s.session.index != i then FinishEditing(s, parse) else s;
    f.(selected := if s.selected == Some(i) then None else Some(i))
  }

  /** `handleReplaceVariable`: the chosen suggestion takes the tag's place,
      `id` included, and the selection is cleared. */
  function ReplaceTag(s: State, i: nat, v: Token): (r: State)
    ensures |r.formula| == |s.formula| && r.selected == None
    ensures i < |s.formula| ==> r.formula[i] == v
    ensures forall k :: 0 <= k < |s.formula| && k != i ==> r.formula[k] == s.formula[k]
    ensures r.session == s.session && r.input == s.input
    ensures r.showSuggestions == s.showSuggestions && r.result == s.result
  {
    s.(formula := ReplaceAt(s.formula, i, v), selected := None)
  }

  /** `handleRemoveVariable`: the tag at `i` goes; nothing else changes. */
  function RemoveTag(s: State, i: nat): (r: State)
    ensures i < |s.formula| ==> |r.formula| == |s.formula| - 1
    ensures i < |s.formula| ==> r.formula == s.formula[..i] + s.formula[i + 1..]
    ensures i >= |s.formula| ==> r == s
    ensures r.session == s.session && r.input == s.input && r.selected == s.selected
    ensures r.showSuggestions == s.showSuggestions && r.result == s.result
  {
    s.(formula := RemoveAt(s.formula, i))
  }

  /** The table view's remove button as the code runs it: it passes `{}` in
      place of the mouse event, so `e.stopPropagation()` throws a TypeError
      before the store is called, and no state changes. `RemoveTag` is what
      the button evidently means to do. */
  function TableRemoveAsWritten(s: State, i: nat): (r: State)
    ensures r.formula == s.formula && r.session == s.session && r.selected == s.selected
    ensures r.input == s.input && r.showSuggestions == s.showSuggestions && r.result == s.result
    ensures i < |s.formula| ==> |r.formula| == |RemoveTag(s, i).formula| + 1
  {
    s
  }

  /** For every tag that exists, the table's remove button leaves it in the
      formula, where the formula view's remove buttons take it out. */
  lemma TableRemoveKeepsTag(s: State, i: nat)
    requires i < |s.formula|
    ensures TableRemoveAsWritten(s, i).formula != RemoveTag(s, i).formula
    ensures s.formula[i] in TableRemoveAsWritten(s, i).formula
  {
  }
}
