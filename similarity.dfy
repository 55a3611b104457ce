/** is_similar: the near-duplicate test between the token-id vectors of two
    neighbouring examples, used to decide whether they come from the same
    review text. */
module Similarity {
  import opened Common

  /** Python's list.remove(x): drops the first element equal to x. */
  function RemoveFirst(s: seq<int>, x: int): (r: seq<int>)
    requires x in s
    ensures |r| == |s| - 1
    ensures multiset(r) == multiset(s) - multiset{x}
  {
    assert s == [s[0]] + s[1..];
    if s[0] == x then s[1..] else [s[0]] + RemoveFirst(s[1..], x)
  }

  /** RemoveFirst keeps the order and drops the first copy of x: the one at
      the index i before which x does not occur. */
  lemma {:induction false} RemoveFirstIsFirst(s: seq<int>, x: int, i: nat)
    requires i < |s| && s[i] == x && x !in s[..i]
    ensures RemoveFirst(s, x) == s[..i] + s[i + 1..]
  {
    if i == 0 {
      assert RemoveFirst(s, x) == s[1..];
    } else {
      assert s[0] != x by {
        assert s[0] == s[..i][0];
      }
      assert s[1..][..i - 1] == s[..i][1..];
      RemoveFirstIsFirst(s[1..], x, i - 1);
      DropAfterHead(s, i);
    }
  }

  /** Dropping index i - 1 of the tail is dropping index i of the whole. */
  lemma DropAfterHead(s: seq<int>, i: nat)
    requires 0 < i < |s|
    ensures [s[0]] + (s[1..][..i - 1] + s[1..][i..]) == s[..i] + s[i + 1..]
  {
    assert [s[0]] + s[1..][..i - 1] == s[..i];
  }

  /** Size of the multiset intersection of two id lists. */
  function Overlap(a: seq<int>, b: seq<int>): nat {
    |multiset(a) * multiset(b)|
  }

  /** np.count_nonzero of a value: the nonzero entries of a vector, and 1 for
      numpy's infinity (a nonzero scalar). */
  function Nonzero(v: Value): nat {
    match v
    case IdsValue(ids) => CountNonzero(ids)
    case IntValue(n) => if n != 0 then 1 else 0
    case InfValue => 1
  }

  /** The final test `count / len1 >= t and count / len2 >= t`: float
      divisions evaluated left to right, so len2 is only divided by when the
      first ratio passes. */
  function RatioTest(count: nat, len1: nat, len2: nat, threshold: real): (r: Result<bool>)
    ensures r == Ok(true) <==>
      len1 > 0 && len2 > 0 && (count as real) / (len1 as real) >= threshold && (count as real) / (len2 as real) >= threshold
    ensures r.Err? <==> len1 == 0 || (len2 == 0 && (count as real) / (len1 as real) >= threshold)
    ensures r.Err? ==> r.failure == ZeroDivisionError
  {
    if len1 == 0 then Err(ZeroDivisionError)
    else if (count as real) / (len1 as real) < threshold then Ok(false)
    else if len2 == 0 then Err(ZeroDivisionError)
    else Ok((count as real) / (len2 as real) >= threshold)
  }

  /** What is_similar(s1, s2, threshold) returns or raises. */
  function Similar(s1: Value, s2: Value, threshold: real): (r: Result<bool>)
    ensures r == Ok(true) ==> s1.IdsValue? && s2.IdsValue? && |s1.ids| > 0 && |s2.ids| > 0
    ensures r.Err? ==> r.failure == TypeError || r.failure == ZeroDivisionError
    ensures s1.IntValue? || s2.IntValue? ==> r == Ok(false)
    ensures !s1.IntValue? && !s2.IntValue? && Abs(Nonzero(s1) - Nonzero(s2)) > 5 ==> r == Ok(false)
    ensures r == Err(ZeroDivisionError) ==> s1.IdsValue? && s2.IdsValue? && (|s1.ids| == 0 || |s2.ids| == 0)
    ensures r == Err(TypeError) ==> s1.InfValue? || s2.InfValue?
    ensures s1.IdsValue? && s2.IdsValue? && |s1.ids| > 0 && |s2.ids| > 0 ==> r.Ok?
    ensures !s1.IntValue? && !s2.IntValue? && (s1.InfValue? || s2.InfValue?) ==>
      (r == Err(TypeError) <==> Abs(Nonzero(s1) - Nonzero(s2)) <= 5) && (r.Ok? ==> !r.value)
  {
    if s1.IntValue? || s2.IntValue? then Ok(false)
    else if Abs(Nonzero(s1) - Nonzero(s2)) > 5 then Ok(false)
    else if !s1.IdsValue? || !s2.IdsValue? then Err(TypeError)
    else RatioTest(Overlap(s1.ids, s2.ids), |s1.ids|, |s2.ids|, threshold)
  }

  /** One round of the loop: removing the last element of a from a, and from b
      when it occurs there, lowers the overlap by exactly the count added. */
  lemma OverlapAfterRemoval(a: seq<int>, b: seq<int>, x: int)
    requires x in a
    ensures x in b ==> Overlap(RemoveFirst(a, x), RemoveFirst(b, x)) + 1 == Overlap(a, b)
    ensures x !in b ==> Overlap(RemoveFirst(a, x), b) == Overlap(a, b)
  {
    if x in b {
      CommonRemoved(multiset(a), multiset(b), x);
    } else {
      UnsharedRemoved(multiset(a), multiset(b), x);
    }
  }

  /** Taking one copy of a shared x out of both multisets takes one copy of
      x out of their intersection. */
  lemma CommonRemoved(A: multiset<int>, B: multiset<int>, x: int)
    requires x in A && x in B
    ensures (A - multiset{x}) * (B - multiset{x}) + multiset{x} == A * B
  {
    var A', B' := A - multiset{x}, B - multiset{x};
    forall y
      ensures (A' * B' + multiset{x})[y] == (A * B)[y]
    {
    }
  }

  /** Taking x out of A leaves the intersection alone when B has no x. */
  lemma UnsharedRemoved(A: multiset<int>, B: multiset<int>, x: int)
    requires x !in B
    ensures (A - multiset{x}) * B == A * B
  {
    var A' := A - multiset{x};
    forall y
      ensures (A' * B)[y] == (A * B)[y]
    {
    }
  }

  /** is_similar: rejects ints and vectors whose nonzero counts differ by more
      than 5, then counts the common ids by destructive removal from copies
      of both lists and compares the overlap ratios against the threshold. */
  method IsSimilar(s1: Value, s2: Value, threshold: real) returns (r: Result<bool>)
    ensures r == Similar(s1, s2, threshold)
  {
    if s1.IntValue? || s2.IntValue? {
      return Ok(false);
    }
    if Abs(Nonzero(s1) - Nonzero(s2)) > 5 {
      return Ok(false);
    }
    if !s1.IdsValue? || !s2.IdsValue? {
      return Err(TypeError);
    }
    var count := 0;
    var a, b := s1.ids, s2.ids;
    var len1, len2 := |a|, |b|;
    while a != [] && b != []
      invariant count + Overlap(a, b) == Overlap(s1.ids, s2.ids)
      decreases |a|
    {
      var last := a[|a| - 1];
      OverlapAfterRemoval(a, b, last);
      if last in b {
        count := count + 1;
        b := RemoveFirst(b, last);
      }
      a := RemoveFirst(a, last);
    }
    assert Overlap(a, b) == 0 by {
      assert multiset(a) == multiset{} || multiset(b) == multiset{};
    }
    if len1 == 0 {
      r := Err(ZeroDivisionError);
    } else if (count as real) / (len1 as real) >= threshold {
      if len2 == 0 {
        r := Err(ZeroDivisionError);
      } else {
        r := Ok((count as real) / (len2 as real) >= threshold);
      }
    } else {
      r := Ok(false);
    }
  }

  /** The overlap never exceeds either list's length. */
  lemma OverlapBounded(a: seq<int>, b: seq<int>)
    ensures Overlap(a, b) <= Min(|a|, |b|)
  {
    var A, B := multiset(a), multiset(b);
    var I := A * B;
    assert (A - I) + I == A by {
      forall y ensures ((A - I) + I)[y] == A[y] {}
    }
    assert (B - I) + I == B by {
      forall y ensures ((B - I) + I)[y] == B[y] {}
    }
  }

  /** Past the early checks, similar means both overlap ratios reach the
      threshold, and this needs both lists to be non-empty. */
  lemma SimilarMeansBothRatios(s1: Value, s2: Value, threshold: real)
    ensures Similar(s1, s2, threshold) == Ok(true) <==>
      && s1.IdsValue? && s2.IdsValue?
      && Abs(CountNonzero(s1.ids) - CountNonzero(s2.ids)) <= 5
      && |s1.ids| > 0 && |s2.ids| > 0
      && (Overlap(s1.ids, s2.ids) as real) / (|s1.ids| as real) >= threshold
      && (Overlap(s1.ids, s2.ids) as real) / (|s2.ids| as real) >= threshold
  {
  }

  /** On non-empty id lists the test does not depend on the argument order. */
  lemma SimilarSymmetric(a: seq<int>, b: seq<int>, threshold: real)
    requires |a| > 0 && |b| > 0
    ensures Similar(IdsValue(a), IdsValue(b), threshold) == Similar(IdsValue(b), IdsValue(a), threshold)
  {
    assert multiset(a) * multiset(b) == multiset(b) * multiset(a);
  }

  /** Only the empty lists break the symmetry: is_similar([], [7]) divides by
      zero, while is_similar([7], []) fails the first ratio and returns False. */
  lemma EmptyListAsymmetry()
    ensures Similar(IdsValue([]), IdsValue([7]), 0.5) == Err(ZeroDivisionError)
    ensures Similar(IdsValue([7]), IdsValue([]), 0.5) == Ok(false)
  {
    var empty: seq<int> := [];
    assert multiset(empty) == multiset{};
    assert Overlap([7], empty) == 0;
  }

  /** A non-empty list is similar to itself for every threshold up to 1. */
  lemma SimilarToItself(a: seq<int>, threshold: real)
    requires |a| > 0 && threshold <= 1.0
    ensures Similar(IdsValue(a), IdsValue(a), threshold) == Ok(true)
  {
    assert multiset(a) * multiset(a) == multiset(a);
    assert Overlap(a, a) == |a|;
  }
}
