/** The dynamic-truncation step of prepare_input_for_apc: when the left and
    right contexts together have more words than the budget left over by the
    aspect, words are dropped from the start of the left context or from the
    end of the right context, whichever side is longer (the right side on a
    tie). */
module Truncation {
  import opened Common
  import opened Strings

  /** Python's ws[k:] for an int k (a negative k counts from the end). */
  function SliceFrom(ws: seq<string>, k: int): (r: seq<string>)
    ensures |r| == if k >= 0 then Max(|ws| - k, 0) else Min(-k, |ws|)
    ensures r == ws[|ws| - |r|..]
  {
    if k >= 0 then ws[Min(k, |ws|)..] else ws[Max(|ws| + k, 0)..]
  }

  /** Python's ws[:k] for an int k (a negative k counts from the end). */
  function SliceTo(ws: seq<string>, k: int): (r: seq<string>)
    ensures |r| == if k >= 0 then Min(k, |ws|) else Max(|ws| + k, 0)
    ensures r == ws[..|r|]
  {
    if k >= 0 then ws[..Min(k, |ws|)] else ws[..Max(|ws| + k, 0)]
  }

  /** The word lists kept on the two sides. */
  datatype Sides = Sides(left: seq<string>, right: seq<string>)

  /** The truncation as written: text_left[cut_len:] on the left, and
      text_right[:len(text_right) - cut_len] on the right, whose stop index is
      negative once cut_len exceeds the right side's length. Like the intended
      version it trims only the longer side, and never lengthens it. */
  function TruncateWordsAsWritten(budget: int, left: seq<string>, right: seq<string>): (r: Sides)
    ensures |left| + |right| <= budget ==> r == Sides(left, right)
    ensures |left| > |right| ==> r.right == right
    ensures |left| <= |right| ==> r.left == left
    ensures |r.left| <= |left| && |r.right| <= |right|
  {
    if budget < |left| + |right| then
      var cut := |left| + |right| - budget;
      if |left| > |right| then Sides(SliceFrom(left, cut), right)
      else Sides(left, SliceTo(right, |right| - cut))
    else Sides(left, right)
  }

  /** The truncation as intended: drop the first cut words on the left, or the
      last cut words on the right (all of them when the side is shorter). */
  function TruncateWords(budget: int, left: seq<string>, right: seq<string>): Sides {
    if budget < |left| + |right| then
      var cut := |left| + |right| - budget;
      if |left| > |right| then Sides(left[Min(cut, |left|)..], right)
      else Sides(left, right[..Max(|right| - cut, 0)])
    else Sides(left, right)
  }

  /** Properties of the truncation: nothing changes within the budget; past
      it the longer side loses its first (left) or last (right) words, the
      other side is untouched, and the new total is the budget or, when the
      trimmed side runs out, the untouched side's length. */
  lemma TruncateWordsSpec(budget: int, left: seq<string>, right: seq<string>)
    ensures var r := TruncateWords(budget, left, right);
      && (|left| + |right| <= budget ==> r == Sides(left, right))
      && (|left| + |right| > budget && |left| > |right| ==>
            && r.right == right
            && left == left[..|left| - |r.left|] + r.left
            && |r.left| + |r.right| == Max(budget, |right|))
      && (|left| + |right| > budget && |left| <= |right| ==>
            && r.left == left
            && right == r.right + right[|r.right|..]
            && |r.left| + |r.right| == Max(budget, |left|))
  {
  }

  /** When the trimmed side has at least cut words the new total is exactly
      the budget, and the code as written agrees with the intended version. */
  lemma TruncateFitsBudget(budget: int, left: seq<string>, right: seq<string>)
    requires budget < |left| + |right|
    requires var cut := |left| + |right| - budget;
      if |left| > |right| then cut <= |left| else cut <= |right|
    ensures var r := TruncateWords(budget, left, right);
      |r.left| + |r.right| == budget
    ensures TruncateWordsAsWritten(budget, left, right) == TruncateWords(budget, left, right)
  {
  }

  /** The code as written still drops words only from the start of the left
      side and from the end of the right side: what it keeps is a suffix of
      the left words and a prefix of the right words. */
  lemma AsWrittenKeepsEnds(budget: int, left: seq<string>, right: seq<string>)
    ensures var r := TruncateWordsAsWritten(budget, left, right);
      && |r.left| <= |left| && left == left[..|left| - |r.left|] + r.left
      && |r.right| <= |right| && right == r.right + right[|r.right|..]
  {
  }

  /** The left side never suffers from the slice: a cut longer than the left
      side empties it in both versions. */
  lemma LeftTrimAgrees(budget: int, left: seq<string>, right: seq<string>)
    requires |left| > |right|
    ensures TruncateWordsAsWritten(budget, left, right).left == TruncateWords(budget, left, right).left
  {
  }

  /** Counterexample to the right-side slice: a budget of 1, two words on the
      left and three on the right give cut_len 4, so text_right[:-1] keeps
      two words where dropping the last four should keep none. */
  lemma RightTrimOvershoot()
    ensures TruncateWordsAsWritten(1, ["l1", "l2"], ["r1", "r2", "r3"]) == Sides(["l1", "l2"], ["r1", "r2"])
    ensures TruncateWords(1, ["l1", "l2"], ["r1", "r2", "r3"]) == Sides(["l1", "l2"], [])
  {
    var right: seq<string> := ["r1", "r2", "r3"];
    assert SliceTo(right, -1) == right[..2];
    assert right[..2] == ["r1", "r2"];
  }

  /** The contexts that prepare_input_for_apc goes on with. */
  datatype Contexts = Contexts(textLeft: string, textRight: string)

  /** The kept words of each side joined with single spaces. */
  function Rejoin(r: Sides): Contexts {
    Contexts(Join(r.left), Join(r.right))
  }

  /** The words the dynamic_truncate branch as written keeps of the two
      texts: both split on single spaces and trimmed to max_seq_len minus
      the aspect's word count with the slices of the code. */
  function KeptAsWritten(maxSeqLen: int, textLeft: string, textRight: string, aspect: string): Sides {
    TruncateWordsAsWritten(maxSeqLen - |Split(aspect)|, Split(textLeft), Split(textRight))
  }

  /** The same with the corrected right-side slice. */
  function Kept(maxSeqLen: int, textLeft: string, textRight: string, aspect: string): Sides {
    TruncateWords(maxSeqLen - |Split(aspect)|, Split(textLeft), Split(textRight))
  }

  /** The dynamic_truncate branch on whole strings, as written: the kept
      words joined with single spaces. Without the option the texts are used
      as they are. */
  function DynamicTruncateAsWritten(dynamicTruncate: bool, maxSeqLen: int, textLeft: string,
                                    textRight: string, aspect: string): Contexts
  {
    if dynamicTruncate then Rejoin(KeptAsWritten(maxSeqLen, textLeft, textRight, aspect))
    else Contexts(textLeft, textRight)
  }

  /** The same branch with the corrected right-side slice. */
  function DynamicTruncate(dynamicTruncate: bool, maxSeqLen: int, textLeft: string,
                           textRight: string, aspect: string): Contexts
  {
    if dynamicTruncate then Rejoin(Kept(maxSeqLen, textLeft, textRight, aspect))
    else Contexts(textLeft, textRight)
  }

  /** Re-joining the split words loses nothing in the code as written: within
      the budget the texts come back unchanged, and past it the untouched side
      is unchanged. */
  lemma DynamicTruncateAsWrittenKeepsText(dynamicTruncate: bool, maxSeqLen: int, textLeft: string,
                                          textRight: string, aspect: string)
    ensures var L, R := |Split(textLeft)|, |Split(textRight)|;
      var r := DynamicTruncateAsWritten(dynamicTruncate, maxSeqLen, textLeft, textRight, aspect);
      && (!dynamicTruncate || L + R <= maxSeqLen - |Split(aspect)| ==> r == Contexts(textLeft, textRight))
      && (L > R ==> r.textRight == textRight)
      && (L <= R ==> r.textLeft == textLeft)
  {
    JoinSplit(textLeft);
    JoinSplit(textRight);
  }

  /** The same for the corrected version. */
  lemma DynamicTruncateKeepsText(dynamicTruncate: bool, maxSeqLen: int, textLeft: string,
                                 textRight: string, aspect: string)
    ensures var L, R := |Split(textLeft)|, |Split(textRight)|;
      var r := DynamicTruncate(dynamicTruncate, maxSeqLen, textLeft, textRight, aspect);
      && (!dynamicTruncate || L + R <= maxSeqLen - |Split(aspect)| ==> r == Contexts(textLeft, textRight))
      && (L > R ==> r.textRight == textRight)
      && (L <= R ==> r.textLeft == textLeft)
  {
    JoinSplit(textLeft);
    JoinSplit(textRight);
  }

  /** In the code as written, the text of a side that keeps some words splits
      back into the kept words. */
  lemma DynamicTruncateAsWrittenWords(maxSeqLen: int, textLeft: string, textRight: string, aspect: string)
    ensures SplitsBack(DynamicTruncateAsWritten(true, maxSeqLen, textLeft, textRight, aspect).textLeft,
                       KeptAsWritten(maxSeqLen, textLeft, textRight, aspect).left)
    ensures SplitsBack(DynamicTruncateAsWritten(true, maxSeqLen, textLeft, textRight, aspect).textRight,
                       KeptAsWritten(maxSeqLen, textLeft, textRight, aspect).right)
  {
    var r := KeptAsWritten(maxSeqLen, textLeft, textRight, aspect);
    var c := DynamicTruncateAsWritten(true, maxSeqLen, textLeft, textRight, aspect);
    assert c == Rejoin(r);
    AsWrittenSidesRejoin(maxSeqLen - |Split(aspect)|, textLeft, textRight, r, c);
  }

  /** The words the code as written keeps of two texts, joined again, split
      back into themselves when non-empty. */
  lemma AsWrittenSidesRejoin(budget: int, textLeft: string, textRight: string, r: Sides, c: Contexts)
    requires r == TruncateWordsAsWritten(budget, Split(textLeft), Split(textRight))
    requires c == Rejoin(r)
    ensures SplitsBack(c.textLeft, r.left) && SplitsBack(c.textRight, r.right)
  {
    SplitHasNoSpaces(textLeft);
    SplitHasNoSpaces(textRight);
    AsWrittenKeepsEnds(budget, Split(textLeft), Split(textRight));
    KeptSidesRejoin(Split(textLeft), Split(textRight), r);
  }

  /** The same for the corrected version. */
  lemma DynamicTruncateWords(maxSeqLen: int, textLeft: string, textRight: string, aspect: string)
    ensures SplitsBack(DynamicTruncate(true, maxSeqLen, textLeft, textRight, aspect).textLeft,
                       Kept(maxSeqLen, textLeft, textRight, aspect).left)
    ensures SplitsBack(DynamicTruncate(true, maxSeqLen, textLeft, textRight, aspect).textRight,
                       Kept(maxSeqLen, textLeft, textRight, aspect).right)
  {
    var r := Kept(maxSeqLen, textLeft, textRight, aspect);
    var c := DynamicTruncate(true, maxSeqLen, textLeft, textRight, aspect);
    assert c == Rejoin(r);
    TruncatedSidesRejoin(maxSeqLen - |Split(aspect)|, textLeft, textRight, r, c);
  }

  /** The words the corrected version keeps of two texts, joined again, split
      back into themselves when non-empty. */
  lemma TruncatedSidesRejoin(budget: int, textLeft: string, textRight: string, r: Sides, c: Contexts)
    requires r == TruncateWords(budget, Split(textLeft), Split(textRight))
    requires c == Rejoin(r)
    ensures SplitsBack(c.textLeft, r.left) && SplitsBack(c.textRight, r.right)
  {
    SplitHasNoSpaces(textLeft);
    SplitHasNoSpaces(textRight);
    TruncateWordsSpec(budget, Split(textLeft), Split(textRight));
    KeptSidesRejoin(Split(textLeft), Split(textRight), r);
  }

  /** On strings the overshoot shows as well: with max_seq_len 2 and a
      one-word aspect, "l1 l2" / "r1 r2 r3" keeps "r1 r2" on the right, where
      the corrected slice keeps nothing. */
  lemma DynamicTruncateOvershoot()
    ensures DynamicTruncateAsWritten(true, 2, "l1 l2", "r1 r2 r3", "a") == Contexts("l1 l2", "r1 r2")
    ensures DynamicTruncate(true, 2, "l1 l2", "r1 r2 r3", "a") == Contexts("l1 l2", "")
  {
    ExampleSplits();
    RightTrimOvershoot();
    assert KeptAsWritten(2, "l1 l2", "r1 r2 r3", "a") == Sides(["l1", "l2"], ["r1", "r2"]);
    assert Kept(2, "l1 l2", "r1 r2 r3", "a") == Sides(["l1", "l2"], []);
    ExampleRejoins();
  }

  /** How the kept words of the overshoot example join. */
  lemma ExampleRejoins()
    ensures Rejoin(Sides(["l1", "l2"], ["r1", "r2"])) == Contexts("l1 l2", "r1 r2")
    ensures Rejoin(Sides(["l1", "l2"], [])) == Contexts("l1 l2", "")
  {
    assert Join(["l1", "l2"]) == "l1 l2";
    assert Join(["r1", "r2"]) == "r1 r2";
  }

  /** How the texts of the overshoot example split. */
  lemma ExampleSplits()
    ensures Split("a") == ["a"]
    ensures Split("l1 l2") == ["l1", "l2"]
    ensures Split("r1 r2 r3") == ["r1", "r2", "r3"]
  {
    var left: seq<string>, right: seq<string> := ["l1", "l2"], ["r1", "r2", "r3"];
    assert Join(["a"]) == "a";
    assert Join(left) == "l1 l2";
    assert Join(right) == "r1 r2 r3";
    SplitJoin(["a"]);
    SplitJoin(left);
    SplitJoin(right);
  }

  /** A suffix of space-free left words and a prefix of space-free right
      words, each joined again, split back into themselves when non-empty. */
  lemma KeptSidesRejoin(left: seq<string>, right: seq<string>, r: Sides)
    requires Words(left) && Words(right)
    requires |r.left| <= |left| && left == left[..|left| - |r.left|] + r.left
    requires |r.right| <= |right| && right == r.right + right[|r.right|..]
    ensures SplitsBack(Join(r.left), r.left) && SplitsBack(Join(r.right), r.right)
  {
    KeptWordsRejoin(left, |left| - |r.left|, |left|);
    assert left[|left| - |r.left|..|left|] == r.left;
    KeptWordsRejoin(right, 0, |r.right|);
    assert right[0..|r.right|] == r.right;
  }

  /** A non-empty run of space-free words, joined, splits back into those
      words. */
  lemma KeptWordsRejoin(ws: seq<string>, i: nat, j: nat)
    requires i <= j <= |ws|
    requires Words(ws)
    ensures i < j ==> Split(Join(ws[i..j])) == ws[i..j]
  {
    if i < j {
      var kept := ws[i..j];
      assert forall k :: 0 <= k < |kept| ==> kept[k] == ws[i + k];
      SplitJoin(kept);
    }
  }

  /** No piece of a split contains a space. */
  lemma {:induction false} SplitHasNoSpaces(s: string)
    ensures Words(Split(s))
    decreases |s|
  {
    if s != [] {
      SplitHasNoSpaces(s[1..]);
      var rest := Split(s[1..]);
      if s[0] != ' ' {
        assert NoSpace(rest[0]);
        assert NoSpace([s[0]] + rest[0]);
      }
    }
  }
}
