/** The local-context mask (cdm vector) of an aspect-polarity example: a 0/1
    vector of length max_seq_len marking the tokens close enough to the
    aspect, either by dependency-tree distance (when a syntax-distance vector
    is given) or by a window of SRD tokens on either side of the aspect. */
module LocalContext {
  import opened Common

  /** Number of text tokens: the nonzero ids of the "[CLS] text [SEP] aspect
      [SEP]" input minus the nonzero aspect ids minus one. May be negative. */
  function TextLen(spcIndices: seq<int>, aspectIndices: seq<int>): int {
    CountNonzero(spcIndices) - CountNonzero(aspectIndices) - 1
  }

  /** How many positions the mask loop visits: range(min(text_len, max_seq_len)),
      which is empty when text_len is negative. */
  function ScanLength(textLen: int, maxSeqLen: nat): (n: nat)
    ensures n <= maxSeqLen
    ensures n == 0 <==> textLen <= 0 || maxSeqLen == 0
  {
    if textLen < 0 then 0 else Min(textLen, maxSeqLen)
  }

  /** The positional window: max(0, begin - SRD) <= i <= min(begin + len + SRD - 1, max_seq_len). */
  predicate InWindow(i: int, aspectBegin: int, aspectLen: int, srd: int, maxSeqLen: int) {
    Max(0, aspectBegin - srd) <= i <= Min(aspectBegin + aspectLen + srd - 1, maxSeqLen)
  }

  /** Position i belongs to the local context of the aspect. */
  predicate InLocalContext(i: nat, maxSeqLen: nat, srd: int, spcIndices: seq<int>,
                           aspectIndices: seq<int>, aspectBegin: int, syntacticalDist: Option<seq<real>>)
    requires syntacticalDist.Some? ==> ScanLength(TextLen(spcIndices, aspectIndices), maxSeqLen) <= |syntacticalDist.value|
    ensures InLocalContext(i, maxSeqLen, srd, spcIndices, aspectIndices, aspectBegin, syntacticalDist) ==>
      i < maxSeqLen && i < TextLen(spcIndices, aspectIndices)
    ensures syntacticalDist.None? && InLocalContext(i, maxSeqLen, srd, spcIndices, aspectIndices, aspectBegin, syntacticalDist) ==>
      aspectBegin - srd <= i < aspectBegin + CountNonzero(aspectIndices) + srd
  {
    i < ScanLength(TextLen(spcIndices, aspectIndices), maxSeqLen) &&
    match syntacticalDist
    case Some(dist) => dist[i] <= srd as real
    case None => InWindow(i, aspectBegin, CountNonzero(aspectIndices), srd, maxSeqLen)
  }

  /** get_lca_ids_and_cdm_vec: a fresh zero vector of length max_seq_len in
      which every local-context position is set to 1. A syntax-distance
      vector shorter than the scanned prefix would raise IndexError; the
      callers always pass one padded to max_seq_len. */
  method CdmVec(maxSeqLen: nat, srd: int, spcIndices: seq<int>, aspectIndices: seq<int>,
                aspectBegin: int, syntacticalDist: Option<seq<real>>) returns (cdm: array<int>)
    requires syntacticalDist.Some? ==> ScanLength(TextLen(spcIndices, aspectIndices), maxSeqLen) <= |syntacticalDist.value|
    ensures fresh(cdm)
    ensures cdm.Length == maxSeqLen
    ensures forall i :: 0 <= i < maxSeqLen ==>
      cdm[i] == if InLocalContext(i, maxSeqLen, srd, spcIndices, aspectIndices, aspectBegin, syntacticalDist) then 1 else 0
  {
    cdm := new int[maxSeqLen](_ => 0);
    var aspectLen := CountNonzero(aspectIndices);
    var textLen := CountNonzero(spcIndices) - CountNonzero(aspectIndices) - 1;
    var n := ScanLength(textLen, maxSeqLen);
    match syntacticalDist {
      case Some(dist) =>
        for i := 0 to n
          invariant forall j :: 0 <= j < i ==> cdm[j] == if dist[j] <= srd as real then 1 else 0
          invariant forall j :: i <= j < maxSeqLen ==> cdm[j] == 0
        {
          if dist[i] <= srd as real {
            cdm[i] := 1;
          }
        }
      case None =>
        var localContextBegin := Max(0, aspectBegin - srd);
        var localContextEnd := Min(aspectBegin + aspectLen + srd - 1, maxSeqLen);
        for i := 0 to n
          invariant forall j :: 0 <= j < i ==> cdm[j] == if localContextBegin <= j <= localContextEnd then 1 else 0
          invariant forall j :: i <= j < maxSeqLen ==> cdm[j] == 0
        {
          if localContextBegin <= i <= localContextEnd {
            cdm[i] := 1;
          }
        }
    }
  }

  /** Distance of position i from the aspect span [begin, begin + len) in tokens. */
  function LinearDistance(i: int, aspectBegin: int, aspectLen: int): (d: nat)
    ensures d == 0 <==> aspectBegin <= i < aspectBegin + aspectLen
  {
    if i < aspectBegin then aspectBegin - i
    else if i >= aspectBegin + aspectLen then i - (aspectBegin + aspectLen - 1)
    else 0
  }

  /** The positional window is the syntax-distance mask for the plain token
      distance to the aspect: both modes agree when every token's distance is
      its linear distance from the aspect span (and SRD is not negative). */
  lemma WindowIsLinearDistance(maxSeqLen: nat, srd: int, spcIndices: seq<int>, aspectIndices: seq<int>, aspectBegin: int)
    requires srd >= 0
    ensures var dist := seq(maxSeqLen, i => LinearDistance(i, aspectBegin, CountNonzero(aspectIndices)) as real);
      forall i :: 0 <= i < maxSeqLen ==>
        InLocalContext(i, maxSeqLen, srd, spcIndices, aspectIndices, aspectBegin, None) ==
        InLocalContext(i, maxSeqLen, srd, spcIndices, aspectIndices, aspectBegin, Some(dist))
  {
  }

  /** Number of nonzero entries of a 0/1 vector that is 1 exactly on [lo, hi). */
  lemma {:induction false} IntervalIndicatorCount(s: seq<int>, lo: int, hi: int)
    requires forall i :: 0 <= i < |s| ==> s[i] == if lo <= i < hi then 1 else 0
    ensures CountNonzero(s) == Max(0, Min(hi, |s|) - Max(lo, 0))
  {
    if s != [] {
      forall i | 0 <= i < |s| - 1
        ensures s[1..][i] == if lo - 1 <= i < hi - 1 then 1 else 0
      {
        assert s[1..][i] == s[i + 1];
      }
      IntervalIndicatorCount(s[1..], lo - 1, hi - 1);
    }
  }

  /** Without a syntax vector the mask holds exactly the scanned positions of
      the window, so np.count_nonzero(cdm_vec) is the size of that overlap. */
  lemma WindowMaskCount(cdm: seq<int>, maxSeqLen: nat, srd: int, spcIndices: seq<int>,
                        aspectIndices: seq<int>, aspectBegin: int)
    requires |cdm| == maxSeqLen
    requires forall i :: 0 <= i < maxSeqLen ==>
      cdm[i] == if InLocalContext(i, maxSeqLen, srd, spcIndices, aspectIndices, aspectBegin, None) then 1 else 0
    ensures CountNonzero(cdm) ==
      Max(0, Min(aspectBegin + CountNonzero(aspectIndices) + srd, ScanLength(TextLen(spcIndices, aspectIndices), maxSeqLen))
             - Max(0, aspectBegin - srd))
  {
    var n := ScanLength(TextLen(spcIndices, aspectIndices), maxSeqLen);
    var lo := Max(0, aspectBegin - srd);
    var hi := Min(aspectBegin + CountNonzero(aspectIndices) + srd, n);
    var len := CountNonzero(aspectIndices);
    forall i | 0 <= i < |cdm|
      ensures cdm[i] == if lo <= i < hi then 1 else 0
    {
      assert InLocalContext(i, maxSeqLen, srd, spcIndices, aspectIndices, aspectBegin, None) ==
        (i < n && InWindow(i, aspectBegin, len, srd, maxSeqLen));
    }
    IntervalIndicatorCount(cdm, lo, hi);
  }

  /** How many of the first n distances are within SRD. */
  function CountWithin(dist: seq<real>, srd: int): (k: nat)
    ensures k <= |dist|
    ensures k == 0 <==> forall i :: 0 <= i < |dist| ==> dist[i] > srd as real
    ensures k == |dist| <==> forall i :: 0 <= i < |dist| ==> dist[i] <= srd as real
  {
    if dist == [] then 0 else (if dist[0] <= srd as real then 1 else 0) + CountWithin(dist[1..], srd)
  }

  /** A 0/1 vector that is 1 exactly where the distance is within SRD (up to
      position n) has as many nonzero entries as there are such distances. */
  lemma {:induction false} DistanceIndicatorCount(s: seq<int>, dist: seq<real>, srd: int, n: nat)
    requires n <= |s| && n <= |dist|
    requires forall i :: 0 <= i < |s| ==> s[i] == if i < n && dist[i] <= srd as real then 1 else 0
    ensures CountNonzero(s) == CountWithin(dist[..n], srd)
  {
    if s != [] {
      if n == 0 {
        assert CountNonzero(s) == 0;
      } else {
        forall i | 0 <= i < |s| - 1
          ensures s[1..][i] == if i < n - 1 && dist[1..][i] <= srd as real then 1 else 0
        {
          assert s[1..][i] == s[i + 1];
        }
        DistanceIndicatorCount(s[1..], dist[1..], srd, n - 1);
        assert dist[..n][1..] == dist[1..][..n - 1];
      }
    }
  }

  /** With a syntax vector, np.count_nonzero(cdm_vec) is the number of scanned
      tokens whose distance is at most SRD. */
  lemma DistanceMaskCount(cdm: seq<int>, maxSeqLen: nat, srd: int, spcIndices: seq<int>,
                          aspectIndices: seq<int>, aspectBegin: int, dist: seq<real>)
    requires |cdm| == maxSeqLen
    requires ScanLength(TextLen(spcIndices, aspectIndices), maxSeqLen) <= |dist|
    requires forall i :: 0 <= i < maxSeqLen ==>
      cdm[i] == if InLocalContext(i, maxSeqLen, srd, spcIndices, aspectIndices, aspectBegin, Some(dist)) then 1 else 0
    ensures CountNonzero(cdm) == CountWithin(dist[..ScanLength(TextLen(spcIndices, aspectIndices), maxSeqLen)], srd)
  {
    DistanceIndicatorCount(cdm, dist, srd, ScanLength(TextLen(spcIndices, aspectIndices), maxSeqLen));
  }
}
