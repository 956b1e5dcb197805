/**
  * The component as one state machine: every user action is an event, and a
  * run applies events in order.
  */
module Machine {
  import opened Optional
  import opened Tokens
  import opened Store
  import opened Suggest
  import opened Widget
  import opened MainInput
  import opened Editing

  datatype Event =
    | Type(text: string)               // main input onChange
    | Key(key: string, now: Stamps)    // main input onKeyDown
    | Pick(v: Token)                   // click on an offered suggestion
    | Calculate(now: Stamps)           // the "=" button
    | ClickTag(index: nat)             // click on a tag
    | Edit(index: nat)                 // pencil button, "Edit" menu item, table edit button
    | TypeInEditor(text: string)       // editor onChange
    | EditorKeyDown(key: string)       // editor onKeyDown
    | Confirm                          // editor blur, its check button, or a mousedown outside it
    | Replace(index: nat, v: Token)    // "Replace with" menu item
    | Remove(index: nat)               // x button and "Remove" menu item in the formula view

  /** An event together with the candidates the catalogue query holds when
      it happens. */
  datatype Tick = Tick(event: Event, fetched: seq<Token>)

  /** The handler an event reaches. Main-input events never touch the
      selection or the edit session; opening a tag and typing in its editor
      never change the formula. */
  function Step(s: State, t: Tick, ctx: Ctx): (r: State)
    ensures t.event.Type? || t.event.Key? || t.event.Pick? || t.event.Calculate? ==>
              r.session == s.session && r.selected == s.selected
    ensures t.event.Edit? || t.event.TypeInEditor? ==> r.formula == s.formula
    ensures t.event.Remove? || t.event.Replace? ==> r.session == s.session
  {
    match t.event
    case Type(text) => InputChange(s, text)
    case Key(key, now) => KeyDown(s, key, now, t.fetched, ctx)
    case Pick(v) => SelectSuggestion(s, v)
    case Calculate(now) => Evaluate(s, now.first, ctx)
    case ClickTag(i) => TagClick(s, i, ctx.parse)
    // An index past the end makes `formula[index].category` throw before any
    // state is set.
    case Edit(i) => if i < |s.formula| then StartEditing(s, i) else s
    case TypeInEditor(text) => EditChange(s, text)
    case EditorKeyDown(key) => EditorKey(s, key, ctx.parse)
    case Confirm => FinishEditing(s, ctx.parse)
    case Replace(i, v) => ReplaceTag(s, i, v)
    case Remove(i) => RemoveTag(s, i)
  }

  function Run(s: State, ticks: seq<Tick>, ctx: Ctx): State
    decreases |ticks|
  {
    if ticks == [] then s else Run(Step(s, ticks[0], ctx), ticks[1..], ctx)
  }

  /** Running two batches of events is running the first, then the second. */
  lemma {:induction false} RunAppend(s: State, a: seq<Tick>, b: seq<Tick>, ctx: Ctx)
    ensures Run(s, a + b, ctx) == Run(Run(s, a, ctx), b, ctx)
    decreases |a|
  {
    if a == [] {
      assert a + b == b;
    } else {
      assert (a + b)[1..] == a[1..] + b;
      RunAppend(Step(s, a[0], ctx), a[1..], b, ctx);
    }
  }

  /** Typing replaces the whole input text: of two changes only the second
      counts, and clearing the input hides the suggestions again. */
  lemma TypingTwiceKeepsLast(s: State, a: string, b: string, ctx: Ctx)
    ensures Run(s, [Tick(Type(a), []), Tick(Type(b), [])], ctx) == Step(s, Tick(Type(b), []), ctx)
    ensures !Run(s, [Tick(Type(a), []), Tick(Type(""), [])], ctx).showSuggestions
  {
    var s1 := Step(s, Tick(Type(a), []), ctx);
    assert Run(s1, [Tick(Type(b), [])], ctx) == Step(s1, Tick(Type(b), []), ctx);
    assert Run(s1, [Tick(Type(""), [])], ctx) == Step(s1, Tick(Type(""), []), ctx);
  }

  // ---------------------------------------------------------------------
  // One rule at every flush site

  /** An operator key, Enter with no suggestion taken, `=` and the "="
      button all turn the same pending text into the same token. */
  lemma FlushSitesAgree(s: State, op: string, now: Stamps, fetched: seq<Token>, ctx: Ctx)
    requires s.input != "" && op in Operators
    requires !(s.showSuggestions && |Offered(s, fetched)| > 0)
    ensures var t := Derive(now.first, s.input, ctx.parse);
      && Step(s, Tick(Key(op, now), fetched), ctx).formula[|s.formula|] == t
      && Step(s, Tick(Key("Enter", now), fetched), ctx).formula == s.formula + [t]
      && Step(s, Tick(Key("=", now), fetched), ctx).formula == s.formula + [t]
      && Step(s, Tick(Calculate(now), fetched), ctx).formula == s.formula + [t]
  {
    assert Step(s, Tick(Key(op, now), fetched), ctx) == OperatorKey(s, op, now, ctx.parse);
    assert Step(s, Tick(Key("Enter", now), fetched), ctx) == Enter(s, now, Offered(s, fetched), ctx);
    assert Step(s, Tick(Key("=", now), fetched), ctx) == Evaluate(s, now.first, ctx);
  }

  /** With the input empty, or exactly an operator symbol (pasted, since
      typing one is intercepted), nothing is offered, so Tab does nothing. */
  lemma NoSuggestionWithoutQuery(s: State, now: Stamps, fetched: seq<Token>, ctx: Ctx)
    requires s.input == "" || s.input in Operators
    ensures Offered(s, fetched) == []
    ensures Step(s, Tick(Key("Tab", now), fetched), ctx) == s
  {
  }

  /** Any operator symbol pasted into the input and followed by Enter becomes
      a custom token carrying that symbol as its name: the category does not
      follow from the name. */
  lemma PastedOperatorIsCustom(s: State, op: string, now: Stamps, fetched: seq<Token>, ctx: Ctx)
    requires op in Operators && ctx.parse(op) == None
    ensures var r := Run(s, [Tick(Type(op), fetched), Tick(Key("Enter", now), fetched)], ctx);
      && r.formula == s.formula + [Token(now.first, op, Custom, Num(0.0))]
      && r.input == ""
  {
    var s1 := Step(s, Tick(Type(op), fetched), ctx);
    assert Offered(s1, fetched) == [];
    assert Run(s1, [Tick(Key("Enter", now), fetched)], ctx)
        == Step(s1, Tick(Key("Enter", now), fetched), ctx);
  }

  // ---------------------------------------------------------------------
  // Backspace

  /** `n` presses of Backspace. */
  function Backspaces(n: nat, now: Stamps): (r: seq<Tick>)
    ensures |r| == n
  {
    if n == 0 then [] else [Tick(Key("Backspace", now), [])] + Backspaces(n - 1, now)
  }

  /** Enter on typed text followed by Backspace gives back the formula it
      started from. */
  lemma EnterThenBackspace(s: State, now: Stamps, fetched: seq<Token>, ctx: Ctx)
    requires s.input != ""
    ensures Run(s, [Tick(Key("Enter", now), fetched), Tick(Key("Backspace", now), fetched)], ctx).formula
         == s.formula
  {
    var s1 := Step(s, Tick(Key("Enter", now), fetched), ctx);
    assert s1.formula[..|s.formula|] == s.formula;
    assert Run(s1, [Tick(Key("Backspace", now), fetched)], ctx)
        == Step(s1, Tick(Key("Backspace", now), fetched), ctx);
  }

  /** With nothing typed, `n` Backspaces remove exactly the last `n` tokens;
      presses beyond the formula's length change nothing. */
  lemma {:induction false} BackspacesDrain(s: State, n: nat, now: Stamps, ctx: Ctx)
    requires s.input == ""
    ensures var r := Run(s, Backspaces(n, now), ctx);
      && r.formula == s.formula[..if n <= |s.formula| then |s.formula| - n else 0]
      && r.input == "" && r.session == s.session
    decreases n
  {
    if n > 0 {
      var s1 := Step(s, Tick(Key("Backspace", now), []), ctx);
      assert Backspaces(n, now)[1..] == Backspaces(n - 1, now);
      BackspacesDrain(s1, n - 1, now, ctx);
      if |s.formula| > 0 {
        assert s1.formula == s.formula[..|s.formula| - 1];
      }
    }
  }

  // ---------------------------------------------------------------------
  // The edit session

  /** The editor's text changing once per entry of `texts`. */
  function Typing(texts: seq<string>): (r: seq<Tick>)
    ensures |r| == |texts|
  {
    if texts == [] then [] else [Tick(TypeInEditor(texts[0]), [])] + Typing(texts[1..])
  }

  /** Typing in the editor changes only the buffer, which ends as the last
      text typed; the tag being edited stays the same. */
  lemma {:induction false} TypingKeepsFormula(s: State, texts: seq<string>, ctx: Ctx)
    requires s.session.Editing?
    ensures var r := Run(s, Typing(texts), ctx);
      && r.formula == s.formula
      && r.session == Editing(s.session.index,
                              if texts == [] then s.session.buffer else texts[|texts| - 1])
    decreases |texts|
  {
    if texts != [] {
      var s1 := Step(s, Tick(TypeInEditor(texts[0]), []), ctx);
      assert Typing(texts)[1..] == Typing(texts[1..]);
      TypingKeepsFormula(s1, texts[1..], ctx);
    }
  }

  /** Opening a tag, typing anything, then Escape: the formula is as it was
      and no tag is being edited. */
  lemma CancelDiscardsEdits(s: State, i: nat, texts: seq<string>, ctx: Ctx)
    requires i < |s.formula|
    ensures Run(s, EditThenKey(i, texts, "Escape"), ctx).formula == s.formula
    ensures Run(s, EditThenKey(i, texts, "Escape"), ctx).session == Idle
  {
    var start := [Tick(Edit(i), [])];
    var esc := [Tick(EditorKeyDown("Escape"), [])];
    RunAppend(s, start + Typing(texts), esc, ctx);
    RunAppend(s, start, Typing(texts), ctx);
    var s1 := Run(s, start, ctx);
    assert s1 == Step(s, start[0], ctx);
    if s1.session.Editing? {
      TypingKeepsFormula(s1, texts, ctx);
    } else {
      TypingIdle(s1, texts, ctx);
    }
    var s2 := Run(s1, Typing(texts), ctx);
    assert Run(s2, esc, ctx) == Step(s2, esc[0], ctx);
  }

  /** Without a session, typing in the editor changes nothing. */
  lemma {:induction false} TypingIdle(s: State, texts: seq<string>, ctx: Ctx)
    requires s.session.Idle?
    ensures Run(s, Typing(texts), ctx) == s
    decreases |texts|
  {
    if texts != [] {
      assert Typing(texts)[1..] == Typing(texts[1..]);
      TypingIdle(s, texts[1..], ctx);
    }
  }

  /** Opening tag `i`, typing `texts` in its editor, then pressing `key`. */
  function EditThenKey(i: nat, texts: seq<string>, key: string): (r: seq<Tick>)
    ensures |r| == |texts| + 2
  {
    [Tick(Edit(i), [])] + Typing(texts) + [Tick(EditorKeyDown(key), [])]
  }

  /** Opening a non-operator tag, typing (possibly nothing), then Enter: that
      tag, and only it, is rebuilt by the derivation rule from the final
      text -- its own name when nothing was typed -- so it is a number
      exactly when that text parses, and it keeps its id. */
  lemma EditRoundTrip(s: State, i: nat, texts: seq<string>, ctx: Ctx)
    requires i < |s.formula| && s.formula[i].category != Operator
    ensures Run(s, EditThenKey(i, texts, "Enter"), ctx).session == Idle
    ensures Run(s, EditThenKey(i, texts, "Enter"), ctx).formula
         == ReplaceAt(s.formula, i, Derive(s.formula[i].id,
                                           if texts == [] then s.formula[i].name else texts[|texts| - 1],
                                           ctx.parse))
  {
    var start := [Tick(Edit(i), [])];
    var enter := [Tick(EditorKeyDown("Enter"), [])];
    RunAppend(s, start + Typing(texts), enter, ctx);
    RunAppend(s, start, Typing(texts), ctx);
    var s1 := Run(s, start, ctx);
    assert s1 == Step(s, start[0], ctx);
    TypingKeepsFormula(s1, texts, ctx);
    var s2 := Run(s1, Typing(texts), ctx);
    assert Run(s2, enter, ctx) == Step(s2, enter[0], ctx);
  }

  /** Opening a tag and committing it unchanged leaves the formula as it
      was, whenever the tag is what the derivation rule makes of its name. */
  lemma OpenCommitUnchanged(s: State, i: nat, ctx: Ctx)
    requires i < |s.formula| && Consistent(s.formula[i], ctx.parse)
    ensures Run(s, [Tick(Edit(i), []), Tick(Confirm, [])], ctx).formula == s.formula
  {
    var s1 := Step(s, Tick(Edit(i), []), ctx);
    assert Run(s1, [Tick(Confirm, [])], ctx) == Step(s1, Tick(Confirm, []), ctx);
    assert Step(s1, Tick(Confirm, []), ctx).formula == s.formula[i := s.formula[i]];
  }

  /** Opening a non-operator tag and committing without typing rebuilds it
      from its name. A tag that derivation would not make of its name -- a
      catalogue variable with its own category or value -- is reset to a
      number or a custom tag worth 0: the formula changes. */
  lemma OpenCommitRebuilds(s: State, i: nat, ctx: Ctx)
    requires i < |s.formula| && s.formula[i].category != Operator
    requires !Consistent(s.formula[i], ctx.parse)
    ensures Run(s, [Tick(Edit(i), []), Tick(Confirm, [])], ctx).formula
         == ReplaceAt(s.formula, i, Derive(s.formula[i].id, s.formula[i].name, ctx.parse))
    ensures Run(s, [Tick(Edit(i), []), Tick(Confirm, [])], ctx).formula != s.formula
  {
    var s1 := Step(s, Tick(Edit(i), []), ctx);
    assert Run(s1, [Tick(Confirm, [])], ctx) == Step(s1, Tick(Confirm, []), ctx);
    var r := Step(s1, Tick(Confirm, []), ctx);
    assert r.formula[i] != s.formula[i];
  }

  /** A catalogue variable worth 42 whose name does not parse becomes a
      custom tag worth 0 when opened and committed untouched. */
  lemma OpenCommitResetsCatalogueTag(ctx: Ctx)
    requires ctx.parse("revenue") == None
    ensures var v := Token("7", "revenue", Other("variable"), Num(42.0));
      var s := State([v], "", false, None, Idle, None);
      Run(s, [Tick(Edit(0), []), Tick(Confirm, [])], ctx).formula
        == [Token("7", "revenue", Custom, Num(0.0))]
  {
    var v := Token("7", "revenue", Other("variable"), Num(42.0));
    var s := State([v], "", false, None, Idle, None);
    OpenCommitRebuilds(s, 0, ctx);
  }

  // ---------------------------------------------------------------------
  // Selection

  /** Clicking the same tag twice gives the selection back when that tag or
      none was selected, and clears a selection of another tag; only the
      clicked tag can still be in edit mode. */
  lemma ClickTwice(s: State, i: nat, ctx: Ctx)
    ensures var r := Run(s, [Tick(ClickTag(i), []), Tick(ClickTag(i), [])], ctx);
      s.selected == Some(i) || s.selected == None ==> r.selected == s.selected
    ensures var r := Run(s, [Tick(ClickTag(i), []), Tick(ClickTag(i), [])], ctx);
      s.selected.Some? && s.selected != Some(i) ==> r.selected == None
    ensures var r := Run(s, [Tick(ClickTag(i), []), Tick(ClickTag(i), [])], ctx);
      r.session.Editing? ==> r.session == s.session && r.session.index == i
  {
    var s1 := Step(s, Tick(ClickTag(i), []), ctx);
    assert Run(s1, [Tick(ClickTag(i), [])], ctx) == Step(s1, Tick(ClickTag(i), []), ctx);
  }

  // ---------------------------------------------------------------------
  // A run-long invariant

  ghost predicate AllWellShaped(f: seq<Token>) {
    forall k :: 0 <= k < |f| ==> WellShaped(f[k])
  }

  /** Every token an event can bring in from outside is well shaped. */
  ghost predicate TickWellShaped(t: Tick) {
    && AllWellShaped(t.fetched)
    && (t.event.Pick? ==> WellShaped(t.event.v))
    && (t.event.Replace? ==> WellShaped(t.event.v))
  }

  lemma AppendKeepsShape(f: seq<Token>, t: Token)
    requires AllWellShaped(f) && WellShaped(t)
    ensures AllWellShaped(f + [t])
  {
    assert forall k :: 0 <= k < |f| ==> (f + [t])[k] == f[k];
  }

  /** Flushing pending text adds a derived token, never an operator. */
  lemma FlushKeepsShape(s: State, id: string, parse: Parser)
    requires AllWellShaped(s.formula)
    ensures AllWellShaped(Flush(s, id, parse).formula)
  {
    if s.input != "" {
      DerivedTokenShape(id, s.input, parse);
      AppendKeepsShape(s.formula, Derive(id, s.input, parse));
    }
  }

  /** Committing an edit puts a derived token in place of the edited one. */
  lemma FinishKeepsShape(s: State, parse: Parser)
    requires AllWellShaped(s.formula)
    ensures AllWellShaped(FinishEditing(s, parse).formula)
  {
    if s.session.Editing? && s.session.index < |s.formula| {
      DerivedTokenShape(s.formula[s.session.index].id, s.session.buffer, parse);
    }
  }

  /** A key in the main input adds only derived tokens, operator tokens and
      candidates the catalogue supplied. */
  lemma KeyKeepsShape(s: State, key: string, now: Stamps, fetched: seq<Token>, ctx: Ctx)
    requires AllWellShaped(s.formula) && AllWellShaped(fetched)
    ensures AllWellShaped(KeyDown(s, key, now, fetched, ctx).formula)
  {
    var o := Offered(s, fetched);
    if key == "Backspace" {
      var r := Backspace(s);
      assert forall k :: 0 <= k < |r.formula| ==> r.formula[k] == s.formula[k];
    } else if key in Operators {
      FlushKeepsShape(s, now.first, ctx.parse);
      AppendKeepsShape(Flush(s, now.first, ctx.parse).formula, OperatorToken(now.second, key));
    } else if ((key == "Enter" && s.input != "") || key == "Tab") && s.showSuggestions && |o| > 0 {
      assert o[0] in fetched;
      AppendKeepsShape(s.formula, o[0]);
    } else {
      FlushKeepsShape(s, now.first, ctx.parse);
    }
  }

  /** One event keeps every operator token one of the operator keys. */
  lemma StepKeepsShape(s: State, t: Tick, ctx: Ctx)
    requires AllWellShaped(s.formula) && TickWellShaped(t)
    ensures AllWellShaped(Step(s, t, ctx).formula)
  {
    match t.event
    case Key(key, now) => KeyKeepsShape(s, key, now, t.fetched, ctx);
    case Pick(v) => AppendKeepsShape(s.formula, v);
    case Calculate(now) => FlushKeepsShape(s, now.first, ctx.parse);
    case ClickTag(i) => FinishKeepsShape(s, ctx.parse);
    case EditorKeyDown(_) => FinishKeepsShape(s, ctx.parse);
    case Confirm => FinishKeepsShape(s, ctx.parse);
    case Remove(i) =>
      var r := Step(s, t, ctx);
      assert forall k :: 0 <= k < |r.formula| ==> r.formula[k] in s.formula;
    case _ =>
  }

  /** However the user proceeds, as long as the catalogue only supplies well
      shaped tokens, every operator token in the formula is one of the
      operator keys and carries it as its value. */
  lemma {:induction false} RunKeepsShape(s: State, ticks: seq<Tick>, ctx: Ctx)
    requires AllWellShaped(s.formula)
    requires forall k :: 0 <= k < |ticks| ==> TickWellShaped(ticks[k])
    ensures AllWellShaped(Run(s, ticks, ctx).formula)
    decreases |ticks|
  {
    if ticks != [] {
      StepKeepsShape(s, ticks[0], ctx);
      RunKeepsShape(Step(s, ticks[0], ctx), ticks[1..], ctx);
    }
  }

  /** From the empty component, whatever the user does, every operator token
      is one of the operator keys, provided the catalogue supplies well
      shaped tokens. */
  lemma FromInitialWellShaped(ticks: seq<Tick>, ctx: Ctx)
    requires forall k :: 0 <= k < |ticks| ==> TickWellShaped(ticks[k])
    ensures AllWellShaped(Run(Initial, ticks, ctx).formula)
  {
    RunKeepsShape(Initial, ticks, ctx);
  }
}
