/** The Python string operations the helpers use, on strings as sequences of
    characters: str.split(" "), " ".join, str.find (and the `in` test built
    on it), str.replace with a count of 1, and str.startswith. */
module Strings {
  import opened Common

  /** p occurs in s starting at index j. */
  predicate MatchesAt(s: string, p: string, j: int) {
    0 <= j && j + |p| <= |s| && s[j..j + |p|] == p
  }

  /** str.find(p, i): the first index at or after i where p occurs. */
  function FindFrom(s: string, p: string, i: nat): (r: Option<nat>)
    ensures r.Some? ==> i <= r.value && MatchesAt(s, p, r.value)
    ensures r.Some? ==> forall j :: i <= j < r.value ==> !MatchesAt(s, p, j)
    ensures r.None? ==> forall j :: i <= j ==> !MatchesAt(s, p, j)
    decreases |s| - i
  {
    if i + |p| > |s| then None
    else if s[i..i + |p|] == p then Some(i)
    else FindFrom(s, p, i + 1)
  }

  function Find(s: string, p: string): Option<nat> { FindFrom(s, p, 0) }

  /** Python's `p in s`. */
  predicate Contains(s: string, p: string) { Find(s, p).Some? }

  /** s.replace(p, r, 1): the first occurrence of p, if any, becomes r. */
  function ReplaceFirst(s: string, p: string, r: string): (t: string)
    ensures !Contains(s, p) ==> t == s
    ensures Contains(s, p) ==> |t| == |s| - |p| + |r|
    ensures Contains(s, p) ==>
      exists i :: MatchesAt(s, p, i) && (forall j :: 0 <= j < i ==> !MatchesAt(s, p, j))
                  && t == s[..i] + r + s[i + |p|..]
  {
    match Find(s, p)
    case None => s
    case Some(i) => s[..i] + r + s[i + |p|..]
  }

  predicate StartsWith(s: string, p: string) {
    |p| <= |s| && s[..|p|] == p
  }

  /** A string in which p does not occur stays free of p once a prefix is put
      in front of it, provided no character of the prefix can start p. */
  lemma {:induction false} NotContainedAfterPrefix(a: string, x: string, p: string)
    requires |p| > 0
    requires forall j :: 0 <= j < |a| ==> a[j] != p[0]
    requires !Contains(x, p)
    ensures !Contains(a + x, p)
  {
    var s := a + x;
    forall j | 0 <= j
      ensures !MatchesAt(s, p, j)
    {
      if MatchesAt(s, p, j) {
        assert s[j] == s[j..j + |p|][0] == p[0];
        if j >= |a| {
          assert x[j - |a|..j - |a| + |p|] == s[j..j + |p|];
          assert MatchesAt(x, p, j - |a|);
        }
      }
    }
  }

  /** Replacing the first occurrence of p in p + x replaces the leading p. */
  lemma ReplaceLeading(p: string, x: string, r: string)
    ensures ReplaceFirst(p + x, p, r) == r + x
  {
    assert (p + x)[0..|p|] == p;
    assert Find(p + x, p) == Some(0);
    assert (p + x)[|p|..] == x;
  }

  /** str.split(" "): the pieces between single spaces; never empty, and
      "" splits to [""]. */
  function Split(s: string): (ws: seq<string>)
    ensures |ws| >= 1
    decreases |s|
  {
    if s == [] then [""]
    else
      var rest := Split(s[1..]);
      if s[0] == ' ' then [""] + rest
      else [[s[0]] + rest[0]] + rest[1..]
  }

  /** " ".join(ws). */
  function Join(ws: seq<string>): string
  {
    if ws == [] then ""
    else if |ws| == 1 then ws[0]
    else ws[0] + " " + Join(ws[1..])
  }

  predicate NoSpace(w: string) { forall j :: 0 <= j < |w| ==> w[j] != ' ' }

  /** None of the words contains a space. */
  predicate Words(ws: seq<string>) { forall k :: 0 <= k < |ws| ==> NoSpace(ws[k]) }

  /** The text splits back into the given words, when there are any. */
  predicate SplitsBack(text: string, kept: seq<string>) {
    |kept| > 0 ==> Split(text) == kept
  }

  /** Joining the pieces of a split gives the string back. */
  lemma {:induction false} JoinSplit(s: string)
    ensures Join(Split(s)) == s
    decreases |s|
  {
    if s != [] {
      JoinSplit(s[1..]);
      if s[0] == ' ' {
        JoinAfterSpace(Split(s[1..]), s[1..]);
      } else {
        JoinAfterChar(s[0], Split(s[1..]), s[1..]);
      }
      assert s == [s[0]] + s[1..];
    }
  }

  /** An empty first piece joins to a leading space. */
  lemma JoinAfterSpace(rest: seq<string>, t: string)
    requires |rest| >= 1 && Join(rest) == t
    ensures Join([""] + rest) == " " + t
  {
    var ws := [""] + rest;
    assert ws[0] == "" && ws[1..] == rest;
    assert Join(ws) == ws[0] + " " + Join(ws[1..]);
  }

  /** A character glued to the first piece stays in front of the join. */
  lemma JoinAfterChar(c: char, rest: seq<string>, t: string)
    requires |rest| >= 1 && Join(rest) == t
    ensures Join([[c] + rest[0]] + rest[1..]) == [c] + t
  {
    var ws := [[c] + rest[0]] + rest[1..];
    if |rest| > 1 {
      assert ws[1..] == rest[1..];
      assert Join(ws) == ([c] + rest[0]) + " " + Join(rest[1..]);
    }
  }

  /** Splitting w + t with no space in w glues w to the first piece of t. */
  lemma {:induction false} SplitAfterWord(w: string, t: string)
    requires NoSpace(w)
    ensures Split(w + t) == [w + Split(t)[0]] + Split(t)[1..]
    decreases |w|
  {
    if w != [] {
      SplitAfterWord(w[1..], t);
      var r := Split(w[1..] + t);
      assert (w + t)[1..] == w[1..] + t;
      assert (w + t)[0] == w[0] != ' ';
      assert Split(w + t) == [[w[0]] + r[0]] + r[1..];
      assert r[0] == w[1..] + Split(t)[0];
      assert r[1..] == Split(t)[1..];
      assert [w[0]] + (w[1..] + Split(t)[0]) == w + Split(t)[0];
    } else {
      assert w + t == t && w + Split(t)[0] == Split(t)[0];
      assert Split(t) == [Split(t)[0]] + Split(t)[1..];
    }
  }

  /** Splitting the join of space-free words gives the words back. */
  lemma {:induction false} SplitJoin(ws: seq<string>)
    requires |ws| >= 1
    requires Words(ws)
    ensures Split(Join(ws)) == ws
  {
    if |ws| == 1 {
      SplitAfterWord(ws[0], "");
      assert ws[0] + "" == ws[0];
    } else {
      var u := Join(ws[1..]);
      SplitJoin(ws[1..]);
      SplitAfterWord(ws[0], " " + u);
      assert Join(ws) == ws[0] + (" " + u);
      assert (" " + u)[1..] == u;
      assert Split(" " + u) == [""] + Split(u);
      assert Split(" " + u)[0] == "" && Split(" " + u)[1..] == Split(u);
      assert ws[0] + "" == ws[0];
      assert ws == [ws[0]] + ws[1..];
    }
  }
}
