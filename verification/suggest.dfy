/**
  * Autocomplete: when the catalogue is queried, and which of the returned
  * candidates are offered for the text typed so far.
  */
module Suggest {
  import opened Tokens

  /** `toLowerCase` on one character (ASCII letters only). */
  function LowerChar(c: char): char {
    if 'A' <= c <= 'Z' then (c as int + 32) as char else c
  }

  function Lower(s: string): (r: string)
    ensures |r| == |s|
    ensures forall i :: 0 <= i < |s| ==> r[i] == LowerChar(s[i])
  {
    seq(|s|, i requires 0 <= i < |s| => LowerChar(s[i]))
  }

  /** Lower-casing twice is lower-casing once. */
  lemma LowerIdempotent(s: string)
    ensures Lower(Lower(s)) == Lower(s)
  {
  }

  /** `needle` sits in `hay` starting at position `k`. */
  predicate OccursAt(hay: string, needle: string, k: nat) {
    k + |needle| <= |hay| && hay[k..k + |needle|] == needle
  }

  /** `String.prototype.includes`. */
  predicate Includes(hay: string, needle: string) {
    exists k: nat :: k <= |hay| && OccursAt(hay, needle, k)
  }

  /** The empty text is included in every text. */
  lemma IncludesEmpty(hay: string)
    ensures Includes(hay, "")
  {
    assert OccursAt(hay, "", 0);
  }

  /** The search `includes` performs: try every start position in turn. */
  method IncludesSearch(hay: string, needle: string) returns (found: bool)
    ensures found <==> Includes(hay, needle)
  {
    if |needle| > |hay| {
      return false;
    }
    var k := 0;
    while k <= |hay| - |needle|
      invariant k <= |hay| - |needle| + 1
      invariant forall j: nat :: j < k ==> !OccursAt(hay, needle, j)
    {
      if hay[k..k + |needle|] == needle {
        assert OccursAt(hay, needle, k);
        return true;
      }
      k := k + 1;
    }
    found := false;
  }

  /** A candidate is offered when its lower-cased name contains the
      lower-cased query. */
  predicate Matches(t: Token, query: string) {
    Includes(Lower(t.name), Lower(query))
  }

  /** `query` is fetched only when `enabled` holds: the input is non-empty and
      is not exactly one of the operator symbols. */
  predicate FetchEnabled(input: string) {
    |input| > 0 && input !in Operators
  }

  /** The candidates the component holds for `input`. A disabled query has
      never been fetched for its key, so its data is the empty default;
      otherwise the candidates are whatever the catalogue last returned for
      that key, which may still be empty while loading. */
  function Available(input: string, fetched: seq<Token>): (r: seq<Token>)
    ensures FetchEnabled(input) ==> r == fetched
    ensures !FetchEnabled(input) ==> r == []
  {
    if FetchEnabled(input) then fetched else []
  }

  /** `filteredSuggestions`: a stable, case-insensitive substring filter. */
  function Filter(cands: seq<Token>, query: string): (r: seq<Token>)
    ensures |r| <= |cands|
    ensures forall t :: t in r ==> t in cands && Matches(t, query)
    ensures forall t :: t in cands && Matches(t, query) ==> t in r
    ensures query == "" ==> r == cands
  {
    if cands == [] then []
    else
      IncludesEmpty(Lower(cands[0].name));
      if Matches(cands[0], query) then [cands[0]] + Filter(cands[1..], query)
      else Filter(cands[1..], query)
  }

  /** `r` holds the candidates at positions `idx`. */
  ghost predicate PicksAt(cands: seq<Token>, r: seq<Token>, idx: seq<nat>) {
    && |idx| == |r|
    && (forall k :: 0 <= k < |idx| ==> idx[k] < |cands| && r[k] == cands[idx[k]])
  }

  ghost predicate Increasing(idx: seq<nat>) {
    forall k, l :: 0 <= k < l < |idx| ==> idx[k] < idx[l]
  }

  /** A position is in `idx` exactly when its candidate matches. */
  ghost predicate MarksMatches(cands: seq<Token>, query: string, idx: seq<nat>) {
    forall j :: 0 <= j < |cands| ==> (Matches(cands[j], query) <==> j in idx)
  }

  /** `r` is the candidates at the increasing positions `idx`, and a position
      is in `idx` exactly when its candidate matches. */
  ghost predicate Selects(cands: seq<Token>, query: string, r: seq<Token>, idx: seq<nat>) {
    PicksAt(cands, r, idx) && Increasing(idx) && MarksMatches(cands, query, idx)
  }

  /** Every position moved one place to the right. */
  function Shift(idx: seq<nat>): (r: seq<nat>)
    ensures |r| == |idx|
    ensures forall k :: 0 <= k < |idx| ==> r[k] == idx[k] + 1
  {
    seq(|idx|, k requires 0 <= k < |idx| => idx[k] + 1)
  }

  /** Shifting never produces position 0, and position `j + 1` is shifted in
      exactly when `j` was there before. */
  lemma ShiftMembers(idx: seq<nat>)
    ensures 0 !in Shift(idx)
    ensures forall j: nat :: j + 1 in Shift(idx) <==> j in idx
  {
    var sh := Shift(idx);
    forall j: nat
      ensures j + 1 in sh <==> j in idx
    {
      if j + 1 in sh {
        var k :| 0 <= k < |sh| && sh[k] == j + 1;
        assert idx[k] == j;
      }
      if j in idx {
        var k :| 0 <= k < |idx| && idx[k] == j;
        assert sh[k] == j + 1;
      }
    }
  }

  lemma PicksCons(cands: seq<Token>, r: seq<Token>, idx: seq<nat>)
    requires |cands| > 0 && PicksAt(cands[1..], r, idx)
    ensures PicksAt(cands, r, Shift(idx))
    ensures PicksAt(cands, [cands[0]] + r, [0] + Shift(idx))
  {
    var sh := Shift(idx);
    forall k | 0 <= k < |sh|
      ensures sh[k] < |cands| && r[k] == cands[sh[k]]
    {
      assert cands[1..][idx[k]] == cands[idx[k] + 1];
    }
    var full := [0] + sh;
    forall k | 1 <= k < |full|
      ensures full[k] < |cands| && ([cands[0]] + r)[k] == cands[full[k]]
    {
      assert full[k] == sh[k - 1];
    }
  }

  lemma IncreasingCons(idx: seq<nat>)
    requires Increasing(idx)
    ensures Increasing(Shift(idx)) && Increasing([0] + Shift(idx))
  {
    var full := [0] + Shift(idx);
    forall k, l | 0 <= k < l < |full|
      ensures full[k] < full[l]
    {
      if k > 0 {
        assert full[k] == idx[k - 1] + 1 && full[l] == idx[l - 1] + 1;
      }
    }
  }

  lemma MarksCons(cands: seq<Token>, query: string, idx: seq<nat>)
    requires |cands| > 0 && MarksMatches(cands[1..], query, idx)
    ensures Matches(cands[0], query) ==> MarksMatches(cands, query, [0] + Shift(idx))
    ensures !Matches(cands[0], query) ==> MarksMatches(cands, query, Shift(idx))
  {
    ShiftMembers(idx);
    forall j | 1 <= j < |cands|
      ensures Matches(cands[j], query) <==> j in Shift(idx)
    {
      assert cands[j] == cands[1..][j - 1];
      assert j == (j - 1) + 1;
    }
  }

  /** The filtered list is exactly the matching candidates, each once, in
      their original relative order. */
  lemma {:induction false} FilterSelects(cands: seq<Token>, query: string)
    ensures exists idx :: Selects(cands, query, Filter(cands, query), idx)
    decreases |cands|
  {
    if cands == [] {
      assert Selects(cands, query, Filter(cands, query), []);
    } else {
      FilterSelects(cands[1..], query);
      var rest :| Selects(cands[1..], query, Filter(cands[1..], query), rest);
      PicksCons(cands, Filter(cands[1..], query), rest);
      IncreasingCons(rest);
      MarksCons(cands, query, rest);
      if Matches(cands[0], query) {
        assert Selects(cands, query, Filter(cands, query), [0] + Shift(rest));
      } else {
        assert Selects(cands, query, Filter(cands, query), Shift(rest));
      }
    }
  }

  /** Only the lower-cased query matters: filtering by the lower-cased query
      gives the same list. */
  lemma {:induction false} FilterIgnoresQueryCase(cands: seq<Token>, query: string)
    ensures Filter(cands, Lower(query)) == Filter(cands, query)
    decreases |cands|
  {
    LowerIdempotent(query);
    if cands != [] {
      assert Matches(cands[0], Lower(query)) == Matches(cands[0], query);
      FilterIgnoresQueryCase(cands[1..], query);
    }
  }

  /** Filtering a list that grows by one candidate extends the result by that
      candidate exactly when it matches. */
  lemma {:induction false} FilterSnoc(cands: seq<Token>, t: Token, query: string)
    ensures Filter(cands + [t], query)
         == Filter(cands, query) + (if Matches(t, query) then [t] else [])
    decreases |cands|
  {
    if cands == [] {
      assert cands + [t] == [t];
    } else {
      assert (cands + [t])[1..] == cands[1..] + [t];
      FilterSnoc(cands[1..], t, query);
    }
  }

  /** `suggestions.filter(item => item.name.toLowerCase().includes(...))`,
      one candidate at a time. */
  method FilteredSuggestions(cands: seq<Token>, query: string) returns (r: seq<Token>)
    ensures r == Filter(cands, query)
    ensures forall t :: t in r <==> t in cands && Matches(t, query)
  {
    var q := Lower(query);
    r := [];
    var i := 0;
    while i < |cands|
      invariant i <= |cands|
      invariant r == Filter(cands[..i], query)
    {
      var keep := IncludesSearch(Lower(cands[i].name), q);
      assert cands[..i + 1] == cands[..i] + [cands[i]];
      FilterSnoc(cands[..i], cands[i], query);
      if keep {
        r := r + [cands[i]];
      }
      i := i + 1;
    }
    assert cands[..i] == cands;
  }
}
