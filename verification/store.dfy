/**
  * The formula store's three mutations. The store itself is not part of this
  * model; these are the semantics assumed for `addVariable`,
  * `removeVariable` and `replaceVariable`: append, remove at an index and
  * update at an index, an index outside the formula leaving it unchanged.
  */
module Store {
  import opened Tokens

  /** `addVariable`: the token goes to the end, the rest is untouched. */
  function Append(f: seq<Token>, t: Token): (r: seq<Token>)
    ensures |r| == |f| + 1
    ensures r[..|f|] == f && r[|f|] == t
  {
    f + [t]
  }

  /** `removeVariable`: exactly the token at `i` goes, later ones shift down. */
  function RemoveAt(f: seq<Token>, i: nat): (r: seq<Token>)
    ensures i < |f| ==> |r| == |f| - 1
    ensures i < |f| ==> forall k :: 0 <= k < i ==> r[k] == f[k]
    ensures i < |f| ==> forall k :: i <= k < |r| ==> r[k] == f[k + 1]
    ensures i >= |f| ==> r == f
  {
    if i < |f| then f[..i] + f[i + 1..] else f
  }

  /** `replaceVariable`: only position `i` changes. */
  function ReplaceAt(f: seq<Token>, i: nat, t: Token): (r: seq<Token>)
    ensures |r| == |f|
    ensures forall k :: 0 <= k < |f| && k != i ==> r[k] == f[k]
    ensures i < |f| ==> r[i] == t
  {
    if i < |f| then f[i := t] else f
  }

  /** Removing the last token undoes appending it. */
  lemma RemoveLastUndoesAppend(f: seq<Token>, t: Token)
    ensures RemoveAt(Append(f, t), |f|) == f
  {
  }

  /** Removing the last token leaves exactly the earlier ones. */
  lemma RemoveLastIsPrefix(f: seq<Token>)
    requires |f| > 0
    ensures RemoveAt(f, |f| - 1) == f[..|f| - 1]
  {
  }

  /** Replacing twice with the same token is replacing once, so a second
      commit from the same snapshot changes nothing. */
  lemma ReplaceIdempotent(f: seq<Token>, i: nat, t: Token)
    ensures ReplaceAt(ReplaceAt(f, i, t), i, t) == ReplaceAt(f, i, t)
  {
  }
}
