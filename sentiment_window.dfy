/** build_sentiment_window and copy_side_aspect as they run: the examples are
    mutable records held in an array, and each method is proved to leave them
    in the state the value-level functions of WindowSpec describe. */
module SentimentWindow {
  import opened Common
  import opened Strings
  import Similarity
  import opened WindowSpec

  /** One example dictionary. The keys every example has from loading
      (polarity, ex_id, aspect_position) are fields that never change; the
      cluster sets are added by the first copy that touches the example. */
  class Example {
    const polarity: int
    const exId: int
    const aspectPosition: set<int>
    var clustered: bool
    var clusterIds: set<int>
    var sideExIds: set<int>
    var items: map<string, Value>

    /** A freshly loaded example, without cluster sets. */
    constructor (polarity: int, exId: int, aspectPosition: set<int>, items: map<string, Value>)
      ensures State() == ExampleState(polarity, exId, aspectPosition, false, {}, {}, items)
    {
      this.polarity := polarity;
      this.exId := exId;
      this.aspectPosition := aspectPosition;
      this.clustered := false;
      this.clusterIds := {};
      this.sideExIds := {};
      this.items := items;
    }

    function State(): ExampleState
      reads this
    {
      ExampleState(polarity, exId, aspectPosition, clustered, clusterIds, sideExIds, items)
    }
  }

  /** The list holds distinct dictionaries. */
  predicate Distinct(examples: array<Example>)
    reads examples
  {
    forall i, j :: 0 <= i < j < examples.Length ==> examples[i] != examples[j]
  }

  /** The examples as values. */
  ghost function States(examples: array<Example>): (st: seq<ExampleState>)
    reads examples, examples[..]
    ensures |st| == examples.Length
    ensures forall k :: 0 <= k < examples.Length ==> st[k] == examples[k].State()
  {
    seq(examples.Length, k reads examples, examples[..] requires 0 <= k < examples.Length => examples[k].State())
  }

  /** The `"cluster_ids" not in example` initialisation. */
  method InitCluster(e: Example)
    modifies e
    ensures e.State() == WithCluster(old(e.State()))
  {
    if !e.clustered {
      e.clustered := true;
      e.clusterIds := e.aspectPosition;
      e.sideExIds := {e.exId};
    }
  }

  /** The equal-polarity branch: the four in-place unions, then the loop over
      the target's side ids. */
  method MergeClusters(examples: array<Example>, t: nat, s: nat)
    requires t < examples.Length && s < examples.Length && Distinct(examples)
    requires WellFormed(States(examples)) && examples[t].clustered && examples[s].clustered
    modifies examples[..]
    ensures States(examples) == Merge(old(States(examples)), t, s)
  {
    ghost var st := States(examples);
    var target, source := examples[t], examples[s];
    target.sideExIds := target.sideExIds + source.sideExIds;
    source.sideExIds := source.sideExIds + target.sideExIds;
    target.clusterIds := target.clusterIds + source.clusterIds;
    source.clusterIds := source.clusterIds + target.clusterIds;
    ghost var us := st[t].sideExIds + st[s].sideExIds;
    ghost var uc := st[t].clusterIds + st[s].clusterIds;
    ghost var st1 := States(examples);
    assert forall k :: 0 <= k < |st| ==>
      st1[k] == if k == t || k == s then Grow(st[k], uc, us) else st[k];
    forall id | id in us
      ensures 0 <= id < examples.Length
    {
      if id in st[t].sideExIds {
        assert Member(st, t, id);
      } else {
        assert Member(st, s, id);
      }
    }
    assert target.sideExIds == us && source.clusterIds == uc;
    GrowAll(examples, target.sideExIds, source.clusterIds, target.sideExIds);
    ghost var r := Merge(st, t, s);
    forall k | 0 <= k < |st|
      ensures States(examples)[k] == r[k]
    {
      if k in us && (k == t || k == s) {
        assert Grow(Grow(st[k], uc, us), uc, us) == Grow(st[k], uc, us);
      }
    }
  }

  /** for ex_id in ids: examples[ex_id] absorbs uc and us. */
  method GrowAll(examples: array<Example>, ids: set<int>, uc: set<int>, us: set<int>)
    requires Distinct(examples)
    requires forall id | id in ids :: 0 <= id < examples.Length
    modifies examples[..]
    ensures forall k :: 0 <= k < examples.Length ==>
      examples[k].State() == if k in ids then Grow(old(examples[k].State()), uc, us) else old(examples[k].State())
  {
    ghost var st := States(examples);
    var pending := ids;
    while pending != {}
      invariant pending <= ids
      invariant forall k :: 0 <= k < examples.Length ==>
        examples[k].State() == if k in ids && k !in pending then Grow(st[k], uc, us) else st[k]
      decreases pending
    {
      NonEmptyHasElement(pending);
      var id :| id in pending;
      GrowExample(examples[id], uc, us);
      pending := pending - {id};
    }
  }

  /** One round of the side-id loop: the example takes the union of its
      cluster ids with uc and of its side ids with us, in place. */
  method GrowExample(e: Example, uc: set<int>, us: set<int>)
    modifies e
    ensures e.State() == Grow(old(e.State()), uc, us)
  {
    e.clusterIds := e.clusterIds + uc;
    e.sideExIds := e.sideExIds + us;
  }

  /** The loop over input_demands; a missing source key ends it with that
      key (KeyError), keeping the items copied before it. */
  method CopyDemandedItems(prefix: string, target: Example, source: Example, demands: seq<string>)
    returns (missing: Option<string>)
    modifies target`items
    ensures (target.items, missing) == CopyItems(prefix, old(target.items), old(source.items), target == source, demands)
  {
    var i := 0;
    while i < |demands|
      invariant 0 <= i <= |demands|
      invariant target != source ==> source.items == old(source.items)
      invariant CopyItems(prefix, target.items, source.items, target == source, demands[i..]) ==
                CopyItems(prefix, old(target.items), old(source.items), target == source, demands)
    {
      assert demands[i..][0] == demands[i] && demands[i..][1..] == demands[i + 1..];
      var name := LookupName(demands[i]);
      if name.Some? {
        var key := name.value;
        if key !in source.items {
          return Some(key);
        }
        ghost var before := target.items;
        target.items := target.items[prefix + key := source.items[key]];
        if target == source {
          CopyItemsSameIgnoresSource(prefix, target.items, before, target.items, demands[i + 1..]);
        }
      }
      i := i + 1;
    }
    return None;
  }

  /** np.average over the elements of a set, as a sum and a count. */
  method SumOf(s: set<int>) returns (sum: int)
    ensures sum == SetSum(s)
  {
    sum := 0;
    var rest := s;
    while rest != {}
      invariant sum + SetSum(rest) == SetSum(s)
      decreases rest
    {
      NonEmptyHasElement(rest);
      var x :| x in rest;
      SetSumRemove(rest, x);
      sum := sum + x;
      rest := rest - {x};
    }
  }

  /** int(abs(mean(source) - mean(target))), or np.inf when a mean is NaN. */
  method AspectDistance(source: set<int>, target: set<int>) returns (d: Value)
    ensures d == Dist(source, target)
  {
    if source == {} || target == {} {
      return InfValue;
    }
    var sumSource := SumOf(source);
    var sumTarget := SumOf(target);
    var diff := (sumSource as real) / (|source| as real) - (sumTarget as real) / (|target| as real);
    d := IntValue(if diff < 0.0 then (-diff).Floor else diff.Floor);
  }

  /** The set updates at the start of copy_side_aspect. */
  method UpdateClusterSets(examples: array<Example>, t: nat, s: nat)
    requires t < examples.Length && s < examples.Length && Distinct(examples)
    requires WellFormed(States(examples))
    modifies examples[..]
    ensures States(examples) == UpdateClusters(old(States(examples)), t, s)
  {
    ghost var st := States(examples);
    var target, source := examples[t], examples[s];
    InitCluster(target);
    ghost var st1 := st[t := WithCluster(st[t])];
    assert States(examples) == st1;
    InitPreservesWellFormed(st, t);
    InitCluster(source);
    assert States(examples) == st1[s := WithCluster(st1[s])];
    InitPreservesWellFormed(st1, s);
    if target.polarity == source.polarity {
      MergeClusters(examples, t, s);
    }
  }

  /** copy_side_aspect(direct, examples[t], examples[s], examples, input_demands):
      a missing demanded key raises KeyError, after the items copied before it. */
  method CopySideAspect(dir: Direction, examples: array<Example>, t: nat, s: nat, demands: seq<string>)
    returns (failure: Option<Failure>)
    requires t < examples.Length && s < examples.Length && Distinct(examples)
    requires WellFormed(States(examples))
    modifies examples[..]
    ensures (States(examples), failure) == CopyStep(old(States(examples)), Call(dir, t, s), demands)
    ensures WellFormed(States(examples))
  {
    ghost var st := States(examples);
    UpdateClusterSets(examples, t, s);
    ghost var st3 := States(examples);
    var target, source := examples[t], examples[s];
    var missing := CopyDemandedItems(Prefix(dir), target, source, demands);
    if missing.None? {
      var d := AspectDistance(source.aspectPosition, target.aspectPosition);
      target.items := target.items[Prefix(dir) + "dist" := d];
      failure := None;
    } else {
      failure := Some(KeyError(missing.value));
    }
    assert States(examples) == st3[t := st3[t].(items := target.items)];
    CopyStepPreservesWellFormed(st, Call(dir, t, s), demands);
  }

  /** One round of the loop of build_sentiment_window: the link test of
      examples idx-1 and idx, then the two copies it selects. */
  method BuildRound(examples: array<Example>, idx: nat, threshold: real, demands: seq<string>)
    returns (failure: Option<Failure>)
    requires 1 <= idx < examples.Length && Distinct(examples) && WellFormed(States(examples))
    modifies examples[..]
    ensures WellFormed(States(examples))
    ensures failure.Some? ==> (States(examples), failure) == BuildFrom(old(States(examples)), idx, threshold, demands)
    ensures failure.None? ==>
      BuildFrom(States(examples), idx + 1, threshold, demands) == BuildFrom(old(States(examples)), idx, threshold, demands)
  {
    ghost var st := States(examples);
    var previous, current := examples[idx - 1], examples[idx];
    if TextIndices !in previous.items || TextIndices !in current.items {
      assert Linked(st, idx, threshold) == Err(KeyError(TextIndices));
      return Some(KeyError(TextIndices));
    }
    var linked := Similarity.IsSimilar(previous.items[TextIndices], current.items[TextIndices], threshold);
    assert Linked(st, idx, threshold) == linked;
    if linked.Err? {
      return Some(linked.failure);
    }
    var c1, c2 := if linked.value then Call(Right, idx - 1, idx) else Call(Right, idx - 1, idx - 1),
                  if linked.value then Call(Left, idx, idx - 1) else Call(Left, idx, idx);
    assert PairCalls(idx, linked.value) == [c1, c2];
    BuildFromStep(st, idx, threshold, demands, linked.value);
    failure := CopyPair(examples, c1, c2, demands);
  }

  /** The two copy_side_aspect calls of one round, the second only when the
      first raised nothing. */
  method CopyPair(examples: array<Example>, c1: Call, c2: Call, demands: seq<string>)
    returns (failure: Option<Failure>)
    requires Fits(c1, examples.Length) && Fits(c2, examples.Length)
    requires Distinct(examples) && WellFormed(States(examples))
    modifies examples[..]
    ensures WellFormed(States(examples))
    ensures (States(examples), failure) == RunCalls(old(States(examples)), [c1, c2], demands)
  {
    ghost var st := States(examples);
    assert [c1, c2][0] == c1 && [c1, c2][1..] == [c2];
    failure := CopySideAspect(c1.dir, examples, c1.target, c1.source, demands);
    if failure.None? {
      ghost var st1 := States(examples);
      failure := CopySideAspect(c2.dir, examples, c2.target, c2.source, demands);
      RunOne(st1, c2, demands);
    }
  }

  /** build_sentiment_window: a left self-copy of the first example, one round
      per adjacent pair, and a right self-copy of the last example; the first
      exception ends it. */
  method BuildSentimentWindow(examples: array<Example>, threshold: real, demands: seq<string>)
    returns (failure: Option<Failure>)
    requires Distinct(examples) && WellFormed(States(examples))
    modifies examples[..]
    ensures (States(examples), failure) == Build(old(States(examples)), threshold, demands)
  {
    if examples.Length == 0 {
      return Some(IndexError);
    }
    ghost var st0 := States(examples);
    failure := CopySideAspect(Left, examples, 0, 0, demands);
    RunOne(st0, Call(Left, 0, 0), demands);
    if failure.Some? {
      return;
    }
    failure := BuildRounds(examples, threshold, demands);
    if failure.Some? {
      return;
    }
    ghost var st := States(examples);
    var last := examples.Length - 1;
    failure := CopySideAspect(Right, examples, last, last, demands);
    RunOne(st, Call(Right, last, last), demands);
  }

  /** The loop over idx in range(1, len(examples)): either it ends with the
      exception the build raises, or it leaves a state from which only the
      final right copy remains. */
  method BuildRounds(examples: array<Example>, threshold: real, demands: seq<string>)
    returns (failure: Option<Failure>)
    requires examples.Length >= 1 && Distinct(examples) && WellFormed(States(examples))
    modifies examples[..]
    ensures WellFormed(States(examples))
    ensures failure.Some? ==> (States(examples), failure) == BuildFrom(old(States(examples)), 1, threshold, demands)
    ensures failure.None? ==>
      BuildFrom(States(examples), examples.Length, threshold, demands) == BuildFrom(old(States(examples)), 1, threshold, demands)
  {
    ghost var st0 := States(examples);
    failure := None;
    var idx := 1;
    while idx < examples.Length
      invariant 1 <= idx <= examples.Length && failure.None?
      invariant WellFormed(States(examples))
      invariant BuildFrom(States(examples), idx, threshold, demands) == BuildFrom(st0, 1, threshold, demands)
    {
      ghost var pre := States(examples);
      failure := BuildRound(examples, idx, threshold, demands);
      if failure.Some? {
        assert (States(examples), failure) == BuildFrom(pre, idx, threshold, demands);
        return;
      }
      idx := idx + 1;
    }
  }
}
