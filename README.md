# Local context, near-duplicate test and sentiment window of the classic GloVe APC pipeline

This project is a Dafny model of the example-preparation helpers used by the
classic (GloVe) aspect-polarity classification models of PyABSA. All of them
live in `classic_glove_apc_utils.py`:

- **`get_lca_ids_and_cdm_vec`**: builds the local-context mask ("cdm vector").
  It is a 0/1 vector of length `max_seq_len`. A text position is 1 when its
  syntax distance to the aspect is at most SRD. Without a syntax-distance
  vector, a position is 1 when it lies in a window of SRD tokens around the
  aspect.
- **`is_similar`**: the near-duplicate test on two token-id vectors. It
  counts the shared ids by destructive removal from copies of both lists.
  Then it compares both overlap ratios with a threshold.
- **The `dynamic_truncate` branch of `prepare_input_for_apc`**: when the left
  and right contexts together have more words than the budget, it drops
  words. They come from the start of the left context or the end of the
  right context, whichever side is longer.
- **`build_sentiment_window` and `copy_side_aspect`**: they link
  neighbouring examples that come from the same review. Each example
  receives a left and a right copy of the demanded data items, either from
  its neighbour or from itself. Examples of equal polarity are clustered
  through the `cluster_ids` and `side_ex_ids` sets.

Modules:

- `Common`: `Option`, `Result`, the Python exceptions as `Failure`, the
  item values, and `np.count_nonzero`.
- `Strings`: the Python string operations the helpers use: `split(" ")`,
  `" ".join`, `in`, `replace(..., 1)` and `startswith`.
- `LocalContext`: the cdm vector. The method fills an array in a loop, as
  the source does.
- `Similarity`: `is_similar`. A method with the removal loop is proved equal
  to the function `Similar`.
- `Truncation`: the word-level truncation with Python slice semantics, and
  the whole `dynamic_truncate` branch on strings, both as written and with
  the right-side slice corrected (see Findings).
- `WindowSpec`: the examples as values (`ExampleState`). It defines what one
  `copy_side_aspect` call does (`CopyStep`), what the build does (`Build`)
  and the calls the build makes (`Schedule`). It holds the lemmas about them.
- `SentimentWindow`: the examples as mutable objects (`class Example`) held
  in an array. Each method is proved to leave them in the state that
  `WindowSpec` prescribes.

Python exceptions are modelled as outcomes, not as preconditions:

- `ZeroDivisionError` in `is_similar`.
- `KeyError` for a missing `text_indices` or a missing demanded item.
- `IndexError` for an empty example list.

A `KeyError` keeps the updates made before it, as the mutated dictionaries
do in Python.

## Model

| member | source | states |
|---|---|---|
| Common.CountNonzero | pyabsa/tasks/AspectPolarityClassification/dataset_utils/__classic__/classic_glove_apc_utils.py:191-192 | np.count_nonzero is the length minus the number of zeros, and it is 0 exactly when every entry is 0 |
| Strings.FindFrom | pyabsa/tasks/AspectPolarityClassification/dataset_utils/__classic__/classic_glove_apc_utils.py:301 | the index found is an occurrence, no earlier index at or after the offset is one, and None means no occurrence at or after the offset (from offset 0, the `in` test) |
| Strings.ReplaceFirst | pyabsa/tasks/AspectPolarityClassification/dataset_utils/__classic__/classic_glove_apc_utils.py:302-304 | replace with count 1 leaves a string without the pattern unchanged; otherwise the result is the string with exactly the first occurrence of the pattern, wherever it lies, replaced, and its length changes by the length difference |
| Strings.Split | pyabsa/tasks/AspectPolarityClassification/dataset_utils/__classic__/classic_glove_apc_utils.py:91-92 | split(" ") never returns an empty list |
| Strings.JoinSplit | pyabsa/tasks/AspectPolarityClassification/dataset_utils/__classic__/classic_glove_apc_utils.py:91-100 | joining the pieces of a split gives the string back |
| Strings.SplitJoin | pyabsa/tasks/AspectPolarityClassification/dataset_utils/__classic__/classic_glove_apc_utils.py:99-100 | splitting the join of a non-empty list of space-free words gives the words back |
| LocalContext.ScanLength | pyabsa/tasks/AspectPolarityClassification/dataset_utils/__classic__/classic_glove_apc_utils.py:194-200 | the loop visits at most max_seq_len positions, and none exactly when text_len is not positive or max_seq_len is 0 |
| LocalContext.InLocalContext | pyabsa/tasks/AspectPolarityClassification/dataset_utils/__classic__/classic_glove_apc_utils.py:193-202 | a position in the local context lies inside the vector and the text; in window mode it lies at most SRD positions before the first aspect token or after the last one |
| LocalContext.CdmVec | pyabsa/tasks/AspectPolarityClassification/dataset_utils/__classic__/classic_glove_apc_utils.py:186-203 | the vector is newly allocated and has length max_seq_len; a position is 1 exactly when it is scanned and within SRD by syntax distance, or inside the clipped window when no distances are given; every other position is 0 |
| LocalContext.LinearDistance | pyabsa/tasks/AspectPolarityClassification/dataset_utils/__classic__/classic_glove_apc_utils.py:198-199 | the token distance to the aspect span is 0 exactly on the span |
| LocalContext.WindowIsLinearDistance | pyabsa/tasks/AspectPolarityClassification/dataset_utils/__classic__/classic_glove_apc_utils.py:193-202 | with SRD not negative, the window mode equals the syntax-distance mode fed with the linear distance to the aspect |
| LocalContext.WindowMaskCount | pyabsa/tasks/AspectPolarityClassification/dataset_utils/__classic__/classic_glove_apc_utils.py:197-202 | in window mode the number of ones is the size of the overlap between the window and the scanned prefix |
| LocalContext.CountWithin | pyabsa/tasks/AspectPolarityClassification/dataset_utils/__classic__/classic_glove_apc_utils.py:194-195 | the number of distances within SRD is at most the number scanned; it is 0 exactly when no distance is within SRD, and the full count exactly when every one is |
| LocalContext.DistanceMaskCount | pyabsa/tasks/AspectPolarityClassification/dataset_utils/__classic__/classic_glove_apc_utils.py:193-196 | in syntax mode the number of ones is the number of scanned positions whose distance is at most SRD |
| Similarity.RemoveFirst | pyabsa/tasks/AspectPolarityClassification/dataset_utils/__classic__/classic_glove_apc_utils.py:336-337 | list.remove drops one element and removes exactly one copy of it from the multiset |
| Similarity.RemoveFirstIsFirst | pyabsa/tasks/AspectPolarityClassification/dataset_utils/__classic__/classic_glove_apc_utils.py:336-337 | list.remove drops the first copy of the value and keeps the other elements in their order |
| Similarity.OverlapAfterRemoval | pyabsa/tasks/AspectPolarityClassification/dataset_utils/__classic__/classic_glove_apc_utils.py:333-337 | one round of the loop lowers the multiset overlap by exactly the amount it adds to count |
| Similarity.RatioTest | pyabsa/tasks/AspectPolarityClassification/dataset_utils/__classic__/classic_glove_apc_utils.py:339 | the test is True exactly when both lengths are positive and both ratios reach the threshold; it raises ZeroDivisionError exactly when len1 is 0, or when the first ratio passes and len2 is 0; it raises nothing else |
| Similarity.Similar | pyabsa/tasks/AspectPolarityClassification/dataset_utils/__classic__/classic_glove_apc_utils.py:320-342 | False when either argument is an int or when the nonzero counts differ by more than 5; True only for two non-empty id lists; the only exceptions are TypeError and ZeroDivisionError, and ZeroDivisionError only for two id lists one of which is empty; TypeError only when an argument is numpy's infinity, so two non-empty id lists always get a True or False verdict; with numpy's infinity and no int argument, TypeError is raised exactly when the nonzero counts differ by at most 5, and False is returned otherwise |
| Similarity.IsSimilar | pyabsa/tasks/AspectPolarityClassification/dataset_utils/__classic__/classic_glove_apc_utils.py:320-342 | the loop's count is the multiset overlap of the two lists; the result, or ZeroDivisionError, is that of the ratio test after the int and nonzero-count checks |
| Similarity.OverlapBounded | pyabsa/tasks/AspectPolarityClassification/dataset_utils/__classic__/classic_glove_apc_utils.py:328-337 | the count never exceeds either list's length |
| Similarity.SimilarMeansBothRatios | pyabsa/tasks/AspectPolarityClassification/dataset_utils/__classic__/classic_glove_apc_utils.py:324-342 | True if and only if both are id lists, their nonzero counts differ by at most 5, both are non-empty, and both overlap ratios reach the threshold |
| Similarity.SimilarSymmetric | pyabsa/tasks/AspectPolarityClassification/dataset_utils/__classic__/classic_glove_apc_utils.py:320-342 | on non-empty lists the test does not depend on the order of its arguments |
| Similarity.EmptyListAsymmetry | pyabsa/tasks/AspectPolarityClassification/dataset_utils/__classic__/classic_glove_apc_utils.py:331-339 | an empty first list raises ZeroDivisionError, while an empty second list can return False, because the second ratio is evaluated only after the first passes |
| Similarity.SimilarToItself | pyabsa/tasks/AspectPolarityClassification/dataset_utils/__classic__/classic_glove_apc_utils.py:328-342 | a non-empty list is similar to itself for every threshold up to 1 |
| Truncation.SliceFrom | pyabsa/tasks/AspectPolarityClassification/dataset_utils/__classic__/classic_glove_apc_utils.py:96 | Python's ws[k:] is the suffix of ws holding the last len(ws) - k words (none when k exceeds the length) for k >= 0, and the last min(-k, len(ws)) words for a negative k |
| Truncation.SliceTo | pyabsa/tasks/AspectPolarityClassification/dataset_utils/__classic__/classic_glove_apc_utils.py:98 | Python's ws[:k] is the prefix of ws holding its first min(k, len(ws)) words for k >= 0, and all but the last -k words (none when -k exceeds the length) for a negative k |
| Truncation.TruncateWordsAsWritten | pyabsa/tasks/AspectPolarityClassification/dataset_utils/__classic__/classic_glove_apc_utils.py:92-98 | the code as written changes nothing within the budget, and past it trims only the longer side (the right one on a tie), never lengthening it |
| Truncation.AsWrittenKeepsEnds | pyabsa/tasks/AspectPolarityClassification/dataset_utils/__classic__/classic_glove_apc_utils.py:95-98 | the code as written keeps a suffix of the left words and a prefix of the right words |
| Truncation.TruncateWordsSpec | pyabsa/tasks/AspectPolarityClassification/dataset_utils/__classic__/classic_glove_apc_utils.py:92-98 | within the budget nothing changes; past it only the longer side is trimmed (the right side on a tie), the left from the front and the right from the back, and the new total is the budget or the untouched side's length |
| Truncation.TruncateFitsBudget | pyabsa/tasks/AspectPolarityClassification/dataset_utils/__classic__/classic_glove_apc_utils.py:92-98 | when the trimmed side has at least cut_len words, the total is exactly the budget and the code as written agrees with the corrected version |
| Truncation.LeftTrimAgrees | pyabsa/tasks/AspectPolarityClassification/dataset_utils/__classic__/classic_glove_apc_utils.py:95-96 | the left-side slice always behaves as intended |
| Truncation.RightTrimOvershoot | pyabsa/tasks/AspectPolarityClassification/dataset_utils/__classic__/classic_glove_apc_utils.py:97-98 | counterexample: budget 1, two left words and three right words; the slice as written keeps two right words, where dropping the last four keeps none |
| Truncation.DynamicTruncateAsWrittenKeepsText | pyabsa/tasks/AspectPolarityClassification/dataset_utils/__classic__/classic_glove_apc_utils.py:89-101 | for the branch as written: without the option, or within the budget, both texts come back unchanged; past it the untouched side's text is unchanged |
| Truncation.DynamicTruncateAsWrittenWords | pyabsa/tasks/AspectPolarityClassification/dataset_utils/__classic__/classic_glove_apc_utils.py:89-101 | for the branch as written: the joined text of a side that keeps some words splits back into exactly the kept words |
| Truncation.DynamicTruncateOvershoot | pyabsa/tasks/AspectPolarityClassification/dataset_utils/__classic__/classic_glove_apc_utils.py:89-101 | with max_seq_len 2, aspect "a", left "l1 l2" and right "r1 r2 r3", the branch as written leaves the right text "r1 r2", where the corrected slice leaves "" |
| Truncation.DynamicTruncateKeepsText | pyabsa/tasks/AspectPolarityClassification/dataset_utils/__classic__/classic_glove_apc_utils.py:89-101 | for the corrected branch: without the option, or within the budget, both texts come back unchanged; past it the untouched side's text is unchanged |
| Truncation.DynamicTruncateWords | pyabsa/tasks/AspectPolarityClassification/dataset_utils/__classic__/classic_glove_apc_utils.py:89-101 | for the corrected branch: the joined text of a side that keeps some words splits back into exactly the kept words |
| Truncation.SplitHasNoSpaces | pyabsa/tasks/AspectPolarityClassification/dataset_utils/__classic__/classic_glove_apc_utils.py:91-92 | no piece of split(" ") contains a space |
| WindowSpec.Merge | pyabsa/tasks/AspectPolarityClassification/dataset_utils/__classic__/classic_glove_apc_utils.py:282-298 | the equal-polarity branch keeps the number of examples |
| WindowSpec.UpdateClusters | pyabsa/tasks/AspectPolarityClassification/dataset_utils/__classic__/classic_glove_apc_utils.py:275-298 | keeps the number of examples and leaves both the target and the source with their sets |
| WindowSpec.UpdateClustersKeepsItems | pyabsa/tasks/AspectPolarityClassification/dataset_utils/__classic__/classic_glove_apc_utils.py:275-298 | the set updates touch neither data items nor aspect positions |
| WindowSpec.CopyStep | pyabsa/tasks/AspectPolarityClassification/dataset_utils/__classic__/classic_glove_apc_utils.py:274-316 | a call keeps the number of examples, leaves target and source with their sets, and the only exception it raises is KeyError |
| WindowSpec.CopyStepSets | pyabsa/tasks/AspectPolarityClassification/dataset_utils/__classic__/classic_glove_apc_utils.py:274-298 | after a call, target and source have their sets; with equal polarity both hold the union of both side-id sets and the union of both cluster-id sets; with different polarity no set changes beyond the initialisation |
| WindowSpec.CopyStepSetsGrow | pyabsa/tasks/AspectPolarityClassification/dataset_utils/__classic__/classic_glove_apc_utils.py:285-298 | a call never removes an id from a set and never un-clusters an example |
| WindowSpec.FreshListPartitioned | pyabsa/tasks/AspectPolarityClassification/dataset_utils/__classic__/classic_glove_apc_utils.py:275-280 | a loaded list with ex_id equal to the index and no sets yet satisfies the partition invariant |
| WindowSpec.InitPreservesPartition | pyabsa/tasks/AspectPolarityClassification/dataset_utils/__classic__/classic_glove_apc_utils.py:275-280 | initialising the sets to the aspect positions and {ex_id} keeps the partition invariant |
| WindowSpec.MergePreservesPartition | pyabsa/tasks/AspectPolarityClassification/dataset_utils/__classic__/classic_glove_apc_utils.py:282-298 | merging two classes of equal polarity keeps the partition invariant |
| WindowSpec.CopyStepPreservesWellFormed | pyabsa/tasks/AspectPolarityClassification/dataset_utils/__classic__/classic_glove_apc_utils.py:296-298 | after a call every side id still names a clustered example, so the next call's loop stays in range |
| WindowSpec.CopyStepPreservesPartition | pyabsa/tasks/AspectPolarityClassification/dataset_utils/__classic__/classic_glove_apc_utils.py:274-316 | a call keeps side ids as equivalence classes whose members share cluster ids and polarity |
| WindowSpec.BuildPreservesPartition | pyabsa/tasks/AspectPolarityClassification/dataset_utils/__classic__/classic_glove_apc_utils.py:246-271 | however the build ends, side ids are equivalence classes containing their own example, and no class mixes polarities or cluster ids |
| WindowSpec.LookupName | pyabsa/tasks/AspectPolarityClassification/dataset_utils/__classic__/classic_glove_apc_utils.py:301-306 | a demanded name is skipped only when it starts with "right_" or "left_"; the name read is never longer than the demanded one, and strictly shorter when a doubled prefix is rewritten |
| WindowSpec.LookupPlainAndSkipped | pyabsa/tasks/AspectPolarityClassification/dataset_utils/__classic__/classic_glove_apc_utils.py:300-306 | a demanded name without a doubled prefix is read under its own name, unless it starts with "left_" or "right_", in which case it is skipped |
| WindowSpec.LookupRightRight | pyabsa/tasks/AspectPolarityClassification/dataset_utils/__classic__/classic_glove_apc_utils.py:301-304 | "right_right_X" is read from the source as "right_X" |
| WindowSpec.LookupLeftLeft | pyabsa/tasks/AspectPolarityClassification/dataset_utils/__classic__/classic_glove_apc_utils.py:301-304 | "left_left_X" is read from the source as "left_X" |
| WindowSpec.CopyItems | pyabsa/tasks/AspectPolarityClassification/dataset_utils/__classic__/classic_glove_apc_utils.py:300-307 | the item loop never removes a key; a KeyError names a key missing from a distinct source; a completed loop adds at most one key per demand |
| WindowSpec.CopyItemsWritesPrefixed | pyabsa/tasks/AspectPolarityClassification/dataset_utils/__classic__/classic_glove_apc_utils.py:300-307 | the item loop writes only keys that start with direct + "_" |
| WindowSpec.CopyItemsCopiesPlainKey | pyabsa/tasks/AspectPolarityClassification/dataset_utils/__classic__/classic_glove_apc_utils.py:300-307 | when the loop completes, every demanded plain key is present in the source and stored under the prefixed key with the source's value |
| WindowSpec.CopyStepCopiesPlainKey | pyabsa/tasks/AspectPolarityClassification/dataset_utils/__classic__/classic_glove_apc_utils.py:300-307 | a call that raises nothing leaves target[direct + "_" + k] equal to source[k] for every demanded plain key k other than "dist" |
| WindowSpec.CopyStepKeepsPlainItems | pyabsa/tasks/AspectPolarityClassification/dataset_utils/__classic__/classic_glove_apc_utils.py:300-316 | a call leaves every item outside the "left_"/"right_" families of every example untouched |
| WindowSpec.CopyStepStoresDist | pyabsa/tasks/AspectPolarityClassification/dataset_utils/__classic__/classic_glove_apc_utils.py:308-316 | a call that raises nothing stores the aspect distance under direct + "_dist" |
| WindowSpec.Dist | pyabsa/tasks/AspectPolarityClassification/dataset_utils/__classic__/classic_glove_apc_utils.py:308-316 | the stored distance is infinity exactly when one of the position sets is empty, and otherwise a non-negative int |
| WindowSpec.DistToItself | pyabsa/tasks/AspectPolarityClassification/dataset_utils/__classic__/classic_glove_apc_utils.py:309-316 | the distance of a position set from itself is 0, or infinity when it is empty; the distance does not depend on argument order |
| WindowSpec.SelfCopyDist | pyabsa/tasks/AspectPolarityClassification/dataset_utils/__classic__/classic_glove_apc_utils.py:308-316 | a self-copy stores a distance of 0, or infinity when the example has no aspect position |
| WindowSpec.Linked | pyabsa/tasks/AspectPolarityClassification/dataset_utils/__classic__/classic_glove_apc_utils.py:251-256 | the link test raises KeyError("text_indices") exactly when one of the two examples lacks text_indices; its other exceptions are those of is_similar |
| WindowSpec.LinkedOnPlainItems | pyabsa/tasks/AspectPolarityClassification/dataset_utils/__classic__/classic_glove_apc_utils.py:251-256 | the link test reads only text_indices, so the copies made before it cannot change its outcome |
| WindowSpec.BuildFrom | pyabsa/tasks/AspectPolarityClassification/dataset_utils/__classic__/classic_glove_apc_utils.py:250-271 | the loop from any round on keeps the number of examples and never raises IndexError |
| WindowSpec.Build | pyabsa/tasks/AspectPolarityClassification/dataset_utils/__classic__/classic_glove_apc_utils.py:246-271 | the build keeps the number of examples and raises IndexError exactly when the list is empty |
| WindowSpec.ScheduleShape | pyabsa/tasks/AspectPolarityClassification/dataset_utils/__classic__/classic_glove_apc_utils.py:246-271 | every example receives exactly one left copy and one right copy; the first example's left and the last example's right come from itself, and each adjacent pair copies from each other when linked and from itself otherwise |
| WindowSpec.BuildFollowsSchedule | pyabsa/tasks/AspectPolarityClassification/dataset_utils/__classic__/classic_glove_apc_utils.py:246-271 | when every link test succeeds on the loaded examples, the build makes exactly the scheduled calls in order, and there is one link decision per adjacent pair |
| SentimentWindow.Example.constructor | pyabsa/tasks/AspectPolarityClassification/dataset_utils/__classic__/classic_glove_apc_utils.py:275-280 | a loaded example has its polarity, ex_id, aspect positions and items, and no cluster sets yet |
| SentimentWindow.InitCluster | pyabsa/tasks/AspectPolarityClassification/dataset_utils/__classic__/classic_glove_apc_utils.py:275-280 | a missing cluster_ids becomes the aspect positions and side_ex_ids becomes {ex_id}; present sets are kept |
| SentimentWindow.MergeClusters | pyabsa/tasks/AspectPolarityClassification/dataset_utils/__classic__/classic_glove_apc_utils.py:282-298 | the four unions and the loop over side ids leave the examples as Merge prescribes |
| SentimentWindow.GrowAll | pyabsa/tasks/AspectPolarityClassification/dataset_utils/__classic__/classic_glove_apc_utils.py:296-298 | every example named in the ids absorbs both sets, and no other example changes |
| SentimentWindow.GrowExample | pyabsa/tasks/AspectPolarityClassification/dataset_utils/__classic__/classic_glove_apc_utils.py:297-298 | one example absorbs the given cluster ids and side ids |
| SentimentWindow.CopyDemandedItems | pyabsa/tasks/AspectPolarityClassification/dataset_utils/__classic__/classic_glove_apc_utils.py:300-307 | the item loop leaves the target's items as CopyItems prescribes, reading a self-copy's source as updated, and returns the first missing key |
| SentimentWindow.SumOf | pyabsa/tasks/AspectPolarityClassification/dataset_utils/__classic__/classic_glove_apc_utils.py:311-312 | the loop computes the sum of the aspect positions |
| SentimentWindow.AspectDistance | pyabsa/tasks/AspectPolarityClassification/dataset_utils/__classic__/classic_glove_apc_utils.py:308-316 | the integer part of the distance between the mean positions, or infinity when a mean is undefined |
| SentimentWindow.UpdateClusterSets | pyabsa/tasks/AspectPolarityClassification/dataset_utils/__classic__/classic_glove_apc_utils.py:275-298 | the set updates leave the examples as UpdateClusters prescribes |
| SentimentWindow.CopySideAspect | pyabsa/tasks/AspectPolarityClassification/dataset_utils/__classic__/classic_glove_apc_utils.py:274-316 | the new examples and the KeyError, if any, are those of CopyStep, and side ids still name clustered examples |
| SentimentWindow.CopyPair | pyabsa/tasks/AspectPolarityClassification/dataset_utils/__classic__/classic_glove_apc_utils.py:257-269 | the two copies of one round, the second only when the first raises nothing, match the two calls run in sequence |
| SentimentWindow.BuildRound | pyabsa/tasks/AspectPolarityClassification/dataset_utils/__classic__/classic_glove_apc_utils.py:250-269 | one loop round either ends the build with the exception BuildFrom gives, or leaves a state from which the remaining rounds give the same result |
| SentimentWindow.BuildRounds | pyabsa/tasks/AspectPolarityClassification/dataset_utils/__classic__/classic_glove_apc_utils.py:250-269 | the loop over the adjacent pairs either ends with the exception the build raises, or leaves a state from which only the final right copy remains |
| SentimentWindow.BuildSentimentWindow | pyabsa/tasks/AspectPolarityClassification/dataset_utils/__classic__/classic_glove_apc_utils.py:246-271 | the examples updated in place, and the exception if any, are those of Build |

## Left out

- `get_cdw_vec`, `build_spc_mask_vec`, the tokenizer steps of `prepare_input_for_apc` and the spaCy-based syntax distance are not part of this model. They are float feature arrays or depend on an external tokenizer and parser. The syntax distances are a parameter of `CdmVec`.
- LocalContext.CdmVec: requires a syntax-distance vector at least as long as the scanned prefix. A shorter one would raise IndexError in numpy. The callers always pass one padded to `max_seq_len`.
- LocalContext.CdmVec: returns a vector of unbounded ints, not of `int64`. Its entries are only 0 and 1, so the width does not matter.
- Similarity.IsSimilar: the ratios are exact rationals, not binary floating point. A ratio within rounding distance of the threshold may compare differently in Python.
- Similarity.IsSimilar: vectors are lists of ints. The int case (`isinstance(s, int)`) is the `IntValue` case. numpy's infinity counts as one nonzero entry. Given infinity, `is_similar` returns False when the nonzero counts differ by more than 5, and otherwise raises TypeError at `list()`.
- Truncation.DynamicTruncate: models the corrected right-side slice (see Findings). `DynamicTruncateAsWritten`, built on `TruncateWordsAsWritten`, models the branch as written, and the same lemmas are proved about both.
- SentimentWindow.CopySideAspect: requires ex_id to equal each example's index and every side id to name an example that has sets (`WellFormed`). Inputs that break this are excluded rather than modelled. On them Python may raise IndexError or KeyError inside the side-id loop. It may also raise nothing: when ex_ids are in range but not the indices (two of them swapped, say), `examples[ex_id]` silently updates a different example from the one the id names. `FreshListPartitioned` and `CopyStepPreservesWellFormed` show that a loaded list meets the requirement and that every call keeps it.
- SentimentWindow.CopySideAspect: polarity, ex_id, aspect_position and the two cluster sets are fields of an example, separate from its data items. A missing polarity, ex_id or aspect_position would raise KeyError in Python; this is not modelled. Demanded names are looked up among the data items only. A demand that names one of these fields reads the field in Python. In the model it raises KeyError unless a data item of that name exists.
- SentimentWindow.CopySideAspect: items are copied by value. Python copies references. If a demanded item were one of the cluster sets, later in-place unions would show through the copy in Python but not in the model.
- SentimentWindow.AspectDistance: computes the means exactly over the set of aspect positions. numpy averages floats, which can round differently for very large positions. The `except` branch is modelled only for the empty list, the one input that makes `int()` fail.
- SentimentWindow.BuildSentimentWindow: updates the examples in the array it is given and returns only the exception outcome. The Python function returns that same list object.
- SentimentWindow.BuildSentimentWindow: `fprint` logging before a re-raised exception is not modelled. Neither is the `input_demands=None` default: iterating over None raises TypeError, and the model takes a list.

## Findings

| source | as written | input that shows it | evidently intended | confidence | as-written member | corrected member |
|---|---|---|---|---|---|---|
| pyabsa/tasks/AspectPolarityClassification/dataset_utils/__classic__/classic_glove_apc_utils.py:98 | `text_right[: len(text_right) - cut_len]` has a negative stop once `cut_len` exceeds the right side's length, and Python then counts from the end | a budget of 1 word, left `l1 l2`, right `r1 r2 r3`: cut_len is 4, so `text_right[:-1]` keeps `r1 r2` | drop the last cut_len right words, or all of them when there are fewer; the right side is then empty | not executed | Truncation.TruncateWordsAsWritten, Truncation.RightTrimOvershoot, Truncation.DynamicTruncateOvershoot | Truncation.TruncateWords, Truncation.TruncateWordsSpec |
