# Deepfake detector — a Dafny model of its decision logic

The system is a deepfake-detection service with command-line tools around it.
A FastAPI server accepts an uploaded image or video. It hands the file to one of several detector adapters:
- the DeepfakeBench video adapter, which samples frames, scores each with a neural network, smooths the scores, finds suspicious segments and returns a FAKE/REAL verdict;
- a local ResNet classifier;
- the Reality Defender cloud API;
- the TruFor image-forensics network.

The server keeps a per-user job history and a user store with bearer tokens. A browser front end renders the verdict, the score and the heatmaps. Offline scripts do the following:
- score a video frame by frame and write the timeline and the subtitle file (`predict_frames`);
- fuse two detectors' score series (`fuse_scores`);
- run the scorer over a directory of videos (`batch_predict`);
- aggregate the runs into a CSV (`aggregate_runs`);
- compare detectors on one video (`quick_compare`);
- list the registered weights (`list_models`).

The model follows the program module by module:

| module | file | models |
|---|---|---|
| `Wrappers`, `Strings`, `Sorting`, `Stats` | wrappers, strings, sorting, stats | Python's `Option`-like returns, `str` methods, `sorted`, and numpy's mean, max, min and argmax |
| `Sampling` | sampling | `round`, `int`, the frame step and the every-`step`-th-frame subsampling |
| `Smoothing` | smoothing | the five-frame moving average (`np.convolve(..., mode='same')`) |
| `Segments` | segments | the suspicious-segment scan shared by the adapter and two scripts |
| `Quality` | quality | the black or low-contrast frame test |
| `Inference` | inference | the call fallbacks of the network and the conversion of its output to a probability |
| `WeightRegistry` | weight_registry | the weight-file table and its lookups |
| `VideoAnalysis` | video_analysis | `DeepfakeBenchAdapter`: model lookup and `analyze_video` |
| `LocalResNet` | local_resnet | the local ResNet adapter |
| `RealityDefender` | reality_defender | the Reality Defender adapter and its retry policy |
| `TruFor` | trufor | the TruFor adapter's geometry and verdict |
| `History` | history | `HistoryManager`: the job store |
| `Users` | users | `UserManager`: users, passwords and revoked tokens |
| `Decorators` | decorators | the bearer-token dependencies |
| `Api` | api | the upload checks and the error mapping of `/api/detect` |
| `WebApp` | webapp | the front end's decision, file validation and heatmap colouring |
| `PredictFrames`, `TimelineFile` | predict_frames, timeline_file | the frame-scoring script |
| `FuseScores` | fuse_scores | the score-fusion script |
| `BatchPredict` | batch_predict | the batch runner |
| `AggregateRuns` | aggregate_runs | the run aggregator |
| `QuickCompare` | quick_compare | the comparison script |
| `ListModels` | list_models | the weight lister |

Modelling choices:
- Objects whose methods update fields in place become classes (`History.HistoryManager`, `Users.UserManager`).
- Loops become methods proved against a specification function (e.g. `Segments.FindRuns`, `VideoAnalysis.ScanVideo`).
- Pure computations become functions with lemmas.
- Things the model cannot see become parameters: the network, the clock, password hashing, token decoding, the file system and the vendor API. The model then states what the code does with whatever they return.

## Model

| member | source | states |
|---|---|---|
| Strings.Lower | app/adapters/reality_defender.py:132 | `str.lower()` on ASCII: the result has the same length, and each character is lower-cased exactly when it is an upper-case letter |
| Strings.Upper | app/adapters/reality_defender.py:97 | `str.upper()` on ASCII: the result has the same length, and each character is upper-cased exactly when it is a lower-case letter |
| Strings.FindFrom | app/adapters/reality_defender.py:133 | the left-to-right search returns a position at or after `from` where the needle occurs, with no earlier occurrence; it returns None only when there is none |
| Strings.Find | app/adapters/reality_defender.py:133 | `x in s` / `s.find(x)`: a result exists iff the needle occurs, and it is the first occurrence |
| Strings.Strip | tools/batch_predict.py:72 | `str.strip()`: never longer than the input; the result neither starts nor ends with whitespace; it is empty iff the input was all whitespace |
| Strings.StripSlice | tools/batch_predict.py:72 | `str.strip()` removes only whitespace: the result is a slice `s[i..j]` of the input with whitespace alone before `i` and after `j` |
| Strings.StripLeft | tools/batch_predict.py:72 | the result is a suffix of the input that does not start with whitespace, and every character dropped before it is whitespace |
| Strings.StripRight | tools/batch_predict.py:72 | the result is a prefix of the input that does not end with whitespace, and every character dropped after it is whitespace |
| Strings.SplitOn | tools/batch_predict.py:72 | `s.split(",")`: at least one part, none containing the separator |
| Strings.JoinSplit | tools/batch_predict.py:72 | joining the parts of a split with the separator gives the text back |
| Strings.SplitJoin | tools/batch_predict.py:72 | splitting a join of separator-free parts gives the parts back |
| Strings.SplitOnAppend | tools/batch_predict.py:72 | splitting `a + sep + b` gives the parts of `a` followed by the parts of `b` |
| Strings.IndexOfChar | tools/batch_predict.py:72 | the first position of a character known to occur |
| Strings.SplitWhitespace | app/auth/decorators.py:38 | argument-less `s.split()`: every part is a non-empty run without whitespace |
| Strings.SplitTwoWords | app/auth/decorators.py:38 | "scheme token" (two words joined by one space) splits into exactly those two words |
| Strings.OneWordSplits | app/auth/decorators.py:38 | a single word splits into itself alone, so a header of one word fails the two-part unpacking |
| Strings.LeadingSpaceIgnored | app/auth/decorators.py:38 | leading whitespace does not change the split |
| Strings.LeadingWordSplits | app/auth/decorators.py:38 | a word followed by whitespace splits off as the first part |
| Strings.WordIsLeadingRun | app/auth/decorators.py:38 | the leading run of a word followed by whitespace is that word |
| Strings.Word | app/auth/decorators.py:38 | the leading run is a prefix without whitespace, followed by whitespace or the end, and it is non-empty when the string starts with a non-space |
| Strings.Join | tools/batch_predict.py:76 | `sep.join(parts)`: empty for no parts; a single part is returned unchanged |
| Strings.JoinEnds | tools/batch_predict.py:76 | a join starts with the first part and ends with the last |
| Strings.JoinSnoc | tools/quick_compare.py:37 | one more part adds the separator and that part at the end of a non-empty join |
| Strings.NatToString | app/adapters/deepfakebench_adapter.py:417 | `str(n)`: a non-empty string of decimal digits |
| Strings.NatToStringRoundTrip | app/adapters/deepfakebench_adapter.py:417 | the decimal rendering reads back as the number it renders |
| Strings.DigitChar | tools/predict_frames.py:308 | the digit character reads back as its digit |
| Strings.DigitOf | tools/predict_frames.py:308 | a digit character's value is below 10 |
| Strings.PadNat | tools/predict_frames.py:308 | `{n:0Wd}`: at least W characters (and at least one), all digits, and it reads back as n |
| Strings.LeadingZeros | tools/predict_frames.py:308 | leading zeros do not change a rendered number's value |
| Strings.AllZeros | tools/predict_frames.py:308 | a string of zeros reads as 0 |
| Sorting.Insert | tools/list_models.py:44 | insertion keeps the elements: the multiset grows by exactly the inserted one |
| Sorting.InsertSorted | tools/list_models.py:44 | inserting into a sorted list under a total preorder keeps it sorted |
| Sorting.Sort | tools/list_models.py:44 | `sorted(xs, key=...)`: the result is a permutation of the input |
| Sorting.SortSorted | tools/list_models.py:44 | under a total preorder the result is sorted |
| Sorting.LexLeTotal | tools/batch_predict.py:29 | any two strings are comparable in lexicographic order |
| Sorting.LexLeTrans | tools/batch_predict.py:29 | lexicographic order is transitive |
| Sorting.LexLeAntisym | tools/batch_predict.py:29 | lexicographic order is antisymmetric |
| Sorting.StringAscending | tools/batch_predict.py:29 | ascending string order is a total preorder, so `Sort` sorts by it |
| Sorting.SortStrings | tools/batch_predict.py:29 | `sorted(files)`: a permutation of the input in ascending lexicographic order |
| Stats.Mean | app/adapters/deepfakebench_adapter.py:329 | `np.mean` of a non-empty list: the mean times the length is the total |
| Stats.Max | app/adapters/deepfakebench_adapter.py:337 | `np.max`: an element of the list that no element exceeds |
| Stats.Min | app/web/js/app.js:584 | `np.min` and `Math.min(...xs)`: an element of the list that no element undercuts |
| Stats.FirstArgMax | app/adapters/deepfakebench_adapter.py:378 | `np.argmax`: an index holding the maximum, with every earlier element strictly smaller |
| Stats.TotalUpper | app/adapters/deepfakebench_adapter.py:329 | elements at most `hi` total at most `hi` times the length |
| Stats.TotalLower | app/adapters/deepfakebench_adapter.py:329 | elements at least `lo` total at least `lo` times the length |
| Stats.MeanWithin | app/adapters/deepfakebench_adapter.py:329 | a mean lies within any bounds that hold for every element |
| Stats.CancelScale | app/adapters/deepfakebench_adapter.py:329 | a · n ≤ b · n with n > 0 gives a ≤ b |
| Stats.MeanAtMostMax | app/adapters/deepfakebench_adapter.py:329-337 | the average never exceeds the maximum |
| Stats.DivideMonotone | app/adapters/trufor_adapter.py:382-384 | dividing by a positive number keeps the order |
| Sampling.RoundHalfEven | app/adapters/deepfakebench_adapter.py:256 | Python's `round`: within one half of x, and on a tie the even neighbour |
| Sampling.RoundHalfEvenUnique | app/adapters/deepfakebench_adapter.py:256 | exactly one integer meets that contract |
| Sampling.Trunc | app/adapters/local_resnet_adapter.py:147 | `int(x)` truncates toward zero: the floor for x ≥ 0, the ceiling below 0, and never farther than 1 from x |
| Sampling.EffectiveSourceFps | app/adapters/deepfakebench_adapter.py:254 | `cap.get(FPS) or 25.0`: a reported rate of 0 becomes 25; any other rate is kept |
| Sampling.FrameStep | app/adapters/deepfakebench_adapter.py:254-256 | the step is at least 1; it is `round(source_fps / fps)` when that is at least 1 and 1 otherwise; a target rate of 0 (a division by zero) gives no step |
| Sampling.CeilDiv | app/adapters/deepfakebench_adapter.py:263-268 | the number of scored frames ⌈n / step⌉: the smallest r with r · step ≥ n |
| Sampling.SampledIndicesExact | app/adapters/deepfakebench_adapter.py:268 | a decoded frame is scored iff its index is below the frame count and a multiple of the step |
| Sampling.MulMono | app/adapters/deepfakebench_adapter.py:268 | multiplying by the same natural number keeps the order |
| Sampling.ModMultiple | app/adapters/deepfakebench_adapter.py:268 | a multiple of the step has remainder 0 |
| Sampling.DivModUnique | app/adapters/deepfakebench_adapter.py:268 | a decomposition `i = q·d + r` with `0 ≤ r < d` fixes the quotient and the remainder |
| Sampling.CeilDivStep | app/adapters/deepfakebench_adapter.py:268-297 | one more decoded frame adds a scored frame exactly when its index is a multiple of the step |
| Sampling.ScoredBefore | app/adapters/deepfakebench_adapter.py:297 | the loop's running count of scored frames never exceeds the decoded frames |
| Sampling.ScoredBeforeIsCeilDiv | app/adapters/deepfakebench_adapter.py:297 | the running count `output_idx` equals ⌈frame_idx / step⌉ |
| Sampling.CeilDivMono | app/adapters/deepfakebench_adapter.py:297 | more decoded frames never mean fewer scored ones |
| Sampling.DivMono | app/adapters/deepfakebench_adapter.py:268 | the quotient grows with the dividend |
| Sampling.DivBelow | app/adapters/deepfakebench_adapter.py:268 | a number below c·d has a quotient below c |
| Sampling.ScoredInRange | app/adapters/deepfakebench_adapter.py:268 | the k-th scored frame, k < ⌈n / step⌉, lies at index k · step < n |
| Sampling.Subsample | app/adapters/deepfakebench_adapter.py:263-297 | the frames kept by `frame_idx % frame_step == 0`: ⌈n / step⌉ of them |
| Sampling.CeilDivDrop | app/adapters/deepfakebench_adapter.py:268 | dropping the first `step` frames removes exactly one scored frame |
| Sampling.SubsampleAt | app/adapters/deepfakebench_adapter.py:268 | the k-th kept frame is decoded frame k · step |
| Sampling.DropOneStep | app/adapters/deepfakebench_adapter.py:268 | kept frame k > 0 is kept frame k − 1 of the frames after the first step |
| Sampling.ShiftIndex | app/adapters/deepfakebench_adapter.py:268 | an index into the frames after the first step shifts back by one step |
| Sampling.ShiftArith | app/adapters/deepfakebench_adapter.py:268 | the arithmetic of that shift: `k·step − step = (k−1)·step`, which stays in range |
| Sampling.SubsampleStep | app/adapters/deepfakebench_adapter.py:268 | the kept frames are the first frame followed by the kept frames after the first step |
| Sampling.TimestampsIncrease | app/adapters/deepfakebench_adapter.py:269 | at a positive rate `output_idx / fps` is never negative and strictly increases |
| Sampling.SampledIndicesIncreasing | app/adapters/deepfakebench_adapter.py:268 | the scored indices increase strictly, so the scores come out in time order |
| Sampling.ThirtyAtThree | app/adapters/deepfakebench_adapter.py:254-256 | a 30 fps source sampled at 3 fps keeps every 10th frame; a rate of 0 counts as 25 fps (step 8); 25 fps at 10 fps rounds 2.5 to 2 |
| Smoothing.Smooth | tools/predict_frames.py:180-189 | `smooth_scores`: a series shorter than the window is returned as it is; a window of 0 or less is an error; otherwise the length is kept |
| Smoothing.FullConvolutionIsWindow | tools/predict_frames.py:187 | each entry of the full convolution with the box kernel is its window sum divided by W |
| Smoothing.SmoothIsCentredConvolution | tools/predict_frames.py:187 | mode `'same'` is the full convolution from offset ⌊(W−1)/2⌋, and `Smooth` is exactly that |
| Smoothing.WindowSumBounds | tools/predict_frames.py:187 | a window sum over values in [0, m] lies between 0 and (values in the window) · m |
| Smoothing.SmoothBounded | tools/fuse_scores.py:119-130 | values in [0, m] smooth to values in [0, m], so probabilities stay probabilities |
| Smoothing.MeanBound | tools/fuse_scores.py:128 | at most W values in [0, m], summed and divided by W, stay in [0, m] |
| Smoothing.OverlapStep | tools/fuse_scores.py:128 | one more element counts in a window exactly when it lies inside it |
| Smoothing.WindowSumConstant | tools/fuse_scores.py:128 | on a constant series a window sums to c times its overlap with the series |
| Smoothing.SmoothConstant | app/adapters/deepfakebench_adapter.py:351-356 | on a constant series each output is c scaled by the share of its window inside the series |
| Smoothing.ConstantQuotient | app/adapters/deepfakebench_adapter.py:354 | a window sum of k copies of c divided by W is c scaled by k / W |
| Smoothing.EdgeDamped | app/adapters/deepfakebench_adapter.py:354 | zero padding damps the edges: the first output of a constant series is only `(⌊(W−1)/2⌋ + 1) / W` of it |
| Smoothing.InteriorKept | app/adapters/deepfakebench_adapter.py:354 | an output whose whole window lies inside a constant series keeps its value |
| Smoothing.WholeWindow | app/adapters/deepfakebench_adapter.py:354 | a full window of c averages to c |
| Smoothing.ConstantScenario | app/adapters/deepfakebench_adapter.py:351-356 | five frames at 1.0 smooth to 0.6, 0.8, 1, 0.8, 0.6 |
| Segments.RunStartUnique | tools/predict_frames.py:205-227 | two maximal runs over the threshold that end at the same index are the same run |
| Segments.FindRuns | tools/predict_frames.py:192-227 | the two-state loop returns exactly the maximal runs at or above the threshold whose first and last timestamps lie at least `min_duration` apart, in order and separated by a frame below the threshold |
| Segments.ScanScore | tools/predict_frames.py:209-219 | one loop step keeps the scan invariant: a run opens at a score reaching the threshold, and closes and is reported (if long enough) at a score below it |
| Segments.CloseLast | tools/predict_frames.py:221-225 | a run still open after the last score ends there; with it the output meets the specification |
| Segments.HeadIn | tools/predict_frames.py:205-227 | the first element of a non-empty list is a member of it |
| Segments.SameElementsSameSeq | tools/predict_frames.py:205-227 | two lists of runs with increasing starts and the same members are equal |
| Segments.SpecDeterminesSegments | tools/predict_frames.py:192-227 | the specification has exactly one solution, so the segments are determined by the scores, the timestamps and the two parameters |
| Segments.SingleFrameNeverReported | tools/predict_frames.py:216-218 | with a positive minimum duration a crossing of a single frame is never reported |
| Segments.ReportedRunsWithin | tools/predict_frames.py:205-227 | every reported run lies within the series |
| Segments.TimePairs | tools/predict_frames.py:219 | each segment is `[timestamps[start], timestamps[end]]` of its run, one per run |
| Segments.SegmentTimes | tools/fuse_scores.py:133-159 | `find_suspicious_segments` / `find_segments`: the time pairs of exactly the runs the specification determines |
| Segments.TimePairsOrdered | tools/predict_frames.py:192-227 | over increasing timestamps the segments in seconds are increasing and pairwise disjoint, and each spans at least `min_duration` |
| Quality.Mean | app/adapters/deepfakebench_adapter.py:117 | `np.mean(gray)`: defined iff the image is non-empty, and then the mean times the pixel count is the pixel sum |
| Quality.Variance | app/adapters/deepfakebench_adapter.py:122 | `np.std(gray)` squared: defined iff the image is non-empty |
| Quality.SquaredDeviationsExpand | app/adapters/deepfakebench_adapter.py:122 | Σ(g − m)² = Q − 2mS + n·m² |
| Quality.IntegerForm | app/adapters/deepfakebench_adapter.py:108-126 | a frame is black or low-contrast iff, with n pixels of sum S and sum of squares Q, `S < 15n` or `n·Q − S² < 100n²` (brightness below 15 or standard deviation below 10) |
| Quality.MeanClosedForm | app/adapters/deepfakebench_adapter.py:117-119 | the mean is below 15 iff the pixel sum is below 15n |
| Quality.VarianceClosedForm | app/adapters/deepfakebench_adapter.py:122-124 | the variance is below 100 (std below 10) iff the integer spread test holds |
| Quality.VarianceReal | app/adapters/deepfakebench_adapter.py:122-124 | the variance test in closed form over the reals |
| Quality.CastLowSpread | app/adapters/deepfakebench_adapter.py:122-124 | the integer spread test and its real counterpart agree |
| Quality.SquaredDeviationsAtMean | app/adapters/deepfakebench_adapter.py:122 | the squared deviations about the mean are Q − S²/n |
| Quality.DeviationsClosedForm | app/adapters/deepfakebench_adapter.py:122 | the algebra behind that closed form |
| Quality.CancelDiv | app/adapters/deepfakebench_adapter.py:117 | d · (x / d) = x for d > 0 |
| Quality.DivLess | app/adapters/deepfakebench_adapter.py:117 | x / d < c iff x < c·d for d > 0 |
| Quality.ScaleLess | app/adapters/deepfakebench_adapter.py:122 | scaling by a positive number keeps a strict comparison |
| Quality.Scenarios | app/adapters/deepfakebench_adapter.py:108-126 | an all-black frame and a uniform mid-gray frame are flagged; a two-tone 0/200 frame is not; an empty image, whose NaN mean fails both comparisons, is not |
| Inference.CallsMade | app/adapters/deepfakebench_adapter.py:161-167 | the calls made, in order: from one to three, the next one made only after the previous raised an error its handler catches, and the last one's outcome final |
| Inference.Invoke | app/adapters/deepfakebench_adapter.py:161-167 | the output, or the exception, is that of the last call made |
| Inference.FirstCallErrorsPropagate | app/adapters/deepfakebench_adapter.py:161-163 | a KeyError or any other error that is not a TypeError from the first call is never retried and propagates |
| Inference.Get | tools/predict_frames.py:150 | `output.get(key)`: present iff the key is, and then the value stored under it |
| Inference.FirstTensor | app/adapters/deepfakebench_adapter.py:186-190 | the first tensor among the values, in insertion order; None iff no value is a tensor |
| Inference.FirstPresent | app/adapters/deepfakebench_adapter.py:180-183 | the value under the first of the priority keys present; None iff none is present |
| Inference.Truth | tools/predict_frames.py:150 | Python truthiness: an absent key and a stored None are false; a tensor with other than one element raises instead of answering |
| Inference.OrChain | tools/predict_frames.py:150 | `a or b or …` returns one of its operands; any operand but the last is returned only if truthy |
| Inference.Dispatch | app/adapters/deepfakebench_adapter.py:209-227 | the shape dispatch: a 1-D pair goes to softmax class 1; a 0-D tensor is an IndexError; rank 3 or more is outside the model; otherwise a sigmoid or softmax of the first row |
| Inference.DispatchInUnitInterval | app/adapters/deepfakebench_adapter.py:209-227 | with sound activations every probability the dispatch yields lies strictly between 0 and 1 |
| Inference.DirectValue | app/adapters/deepfakebench_adapter.py:199-202 | the direct path returns the tensor's first value unchanged |
| Inference.AdapterProbability | app/adapters/deepfakebench_adapter.py:149-227 | `_run_inference` on the n-th frame of an analysis: an exception from the calls is passed on as the result |
| Inference.AdapterSelect | app/adapters/deepfakebench_adapter.py:177-190 | the value under the first priority key present unless that value is None; otherwise the first tensor value, or None when there is none; never a stored None |
| Inference.DirectPathGate | app/adapters/deepfakebench_adapter.py:195-208 | with both 'prob' and 'cls', the selected tensor's first value is returned raw, except that on frames 1 to 10, or for a value above 0.8, the debug line raises unless 'cls' is a tensor of rank 2 with at least one row and two columns |
| Inference.ConvertValue | tools/predict_frames.py:160-175 | a probability comes only from a tensor whose shape the dispatch accepts |
| Inference.ScriptProbability | tools/predict_frames.py:124-177 | `run_inference`: an exception from the calls is passed on as the result |
| Inference.ProbabilitiesInUnitInterval | tools/predict_frames.py:124-177 | the script's probability always lies in (0, 1); the adapter's does too unless it takes the direct `prob`+`cls` path |
| Inference.ConvertValueInUnitInterval | tools/predict_frames.py:160-175 | every converted probability lies in (0, 1) |
| Inference.DirectPathUnchecked | app/adapters/deepfakebench_adapter.py:199-208 | a `prob` of 7.0 beside a 1×2 `cls` is returned as 7.0, unchecked, on any frame |
| Inference.DebugLineRaises | app/adapters/deepfakebench_adapter.py:204-208 | a `cls` that is not a tensor makes the third frame fail in the debug line, while on the eleventh frame a probability of 0.5 is returned |
| Inference.StoredNoneFallsBack | app/adapters/deepfakebench_adapter.py:177-202 | a `prob` stored as None sends both variants to the first tensor, a one-element `cls` of 0: the adapter returns 0 raw, the script its sigmoid |
| Inference.VariantsDisagree | tools/predict_frames.py:150 | on an output with a one-element `prob` of 0 and a two-class `logits`, the adapter returns the sigmoid of 0, while the script skips the falsy `prob` and fails asking the truth of the two-element `logits` |
| Inference.FalsyProbReselected | tools/predict_frames.py:150-156 | in the script a falsy `prob` is skipped by the `or`, the chain ends on the absent `pred`, and the first-tensor fallback then picks that same `prob` (its sigmoid is returned) |
| WeightRegistry.LookupFile | tools/weight_registry.py:7-21 | `WEIGHT_REGISTRY.get(filename)`: a result iff the file name is a key of the table, and then that key's entry |
| WeightRegistry.FindFile | tools/weight_registry.py:7-21 | the same lookup over any entry list |
| WeightRegistry.FindByModelKey | app/adapters/deepfakebench_adapter.py:69-73 | the first-match loop over the table: the index found carries the key, no earlier entry does, and no result means no entry carries it (case-folded when asked, as in `tools/predict_frames.py:556-560`) |
| WeightRegistry.FileNamesEndInBestPth | tests/test_adapters.py:160-162 | every file name in the table ends in `_best.pth` |
| WeightRegistry.BestPthBetween | tools/weight_registry.py:8-20 | the same, for each of the two halves of the table |
| WeightRegistry.BestPthByChars | tools/weight_registry.py:8-20 | a name whose last nine characters spell `_best.pth` ends with it |
| WeightRegistry.InputSizesInRange | tests/test_adapters.py:174-178 | every input size lies in [64, 512] |
| WeightRegistry.SignaturesMatch | tools/weight_registry.py:8-20 | each model key has the recorded length and lower-cased first letter |
| WeightRegistry.SignaturesDistinct | tools/weight_registry.py:8-20 | those signatures are pairwise distinct |
| WeightRegistry.ModelKeysDistinct | tools/weight_registry.py:8-20 | model keys are pairwise distinct, also after lower-casing, so every first-match lookup by key finds the only match |
| WeightRegistry.LowerKeyDeterminesEntry | tools/predict_frames.py:552-560 | two entries whose keys agree up to case are the same entry |
| WeightRegistry.ExpectedKeysPresent | tests/test_adapters.py:129-148 | each of the twelve detectors the tests expect is a model key, and the exact-key lookup finds it |
| WeightRegistry.ThirteenEntries | tests/test_adapters.py:117 | the table has thirteen entries, not the twelve the test asserts; the extra one is `ffd` (`tools/weight_registry.py:17`) |
| VideoAnalysis.ModelName | app/adapters/deepfakebench_adapter.py:425 | `AVAILABLE_MODELS.get(key, {}).get("name", key)`: the display name of a listed key, else the key itself |
| VideoAnalysis.NameIn | app/adapters/deepfakebench_adapter.py:425 | the same lookup over any table |
| VideoAnalysis.AvailableModelsHaveWeights | app/adapters/deepfakebench_adapter.py:31-44 | the adapter lists exactly the twelve expected detectors, and each has a weight file the exact-key lookup finds |
| VideoAnalysis.AvailableKeysExpected | app/adapters/deepfakebench_adapter.py:31-44 | the adapter's keys are, entry by entry, the expected keys |
| VideoAnalysis.FfdHasNoDisplayName | tools/weight_registry.py:17 | `ffd` has weights but no adapter entry, so its display name falls back to the bare key |
| VideoAnalysis.LoadModel | app/adapters/deepfakebench_adapter.py:64-81 | "Unknown model key" iff no table entry carries the key exactly; on success, the weight path and input size of an entry carrying the key, and the file exists |
| VideoAnalysis.ScanFrames | app/adapters/deepfakebench_adapter.py:268-297 | scoring the first `count` sampled frames yields `count` entries, or the first exception |
| VideoAnalysis.ScanContents | app/adapters/deepfakebench_adapter.py:269-288 | entry k is sampled frame k, stamped `k / fps`, with the probability the network gave that frame and its black/low-contrast flag; the flag never alters the probability |
| VideoAnalysis.ScanErrorPersists | app/adapters/deepfakebench_adapter.py:276 | once scoring has failed, scanning further frames reports the same exception |
| VideoAnalysis.ScanSucceeds | app/adapters/deepfakebench_adapter.py:268-297 | the scan succeeds iff the network answers every sampled frame |
| VideoAnalysis.SucceededScanAnswered | app/adapters/deepfakebench_adapter.py:276 | a successful scan means every sampled frame was answered |
| VideoAnalysis.ScannedAnswered | app/adapters/deepfakebench_adapter.py:276 | in a successful scan, frame k was answered |
| VideoAnalysis.ScanPrefixOk | app/adapters/deepfakebench_adapter.py:276 | a scan that succeeds succeeded on every shorter prefix too |
| VideoAnalysis.ScanOkLast | app/adapters/deepfakebench_adapter.py:276 | in a successful scan, the last frame was answered |
| VideoAnalysis.ScanOkStep | app/adapters/deepfakebench_adapter.py:276 | a scan of `count` frames succeeds iff the scan of one frame fewer does and the last frame is answered |
| VideoAnalysis.AnsweredScanSucceeds | app/adapters/deepfakebench_adapter.py:276 | if every sampled frame is answered, the scan succeeds |
| VideoAnalysis.ReportedFrames | app/adapters/deepfakebench_adapter.py:300-306 | the callback fires at most once per scored frame, and after every one of the first 29 |
| VideoAnalysis.ProgressValues | app/adapters/deepfakebench_adapter.py:304 | each reported value is `30 + int(frame_idx / total_frames * 50)` of its frame |
| VideoAnalysis.ProgressValueBounds | app/adapters/deepfakebench_adapter.py:304 | a frame below the reported frame count gets a progress value in [30, 80) |
| VideoAnalysis.ProgressValueMono | app/adapters/deepfakebench_adapter.py:304 | later frames never get smaller progress values |
| VideoAnalysis.ReportedFramesIncrease | app/adapters/deepfakebench_adapter.py:300-306 | the reported frames increase strictly and all lie among the sampled frames |
| VideoAnalysis.ProgressWithinAnalysisBand | app/adapters/deepfakebench_adapter.py:300-314 | while the decoded frames stay below the reported frame count, the progress values never decrease and stay within [30, 80), below the 80 reported next |
| VideoAnalysis.SampleAndScore | app/adapters/deepfakebench_adapter.py:254-308 | on success, exactly ⌈n / step⌉ frames are scored |
| VideoAnalysis.Probabilities | app/adapters/deepfakebench_adapter.py:325 | `all_probs`: entry by entry the probabilities of the scores |
| VideoAnalysis.Timestamps | app/adapters/deepfakebench_adapter.py:367 | entry by entry the timestamps of the scores |
| VideoAnalysis.ValidProbabilities | app/adapters/deepfakebench_adapter.py:324-328 | the probabilities of unflagged frames only; empty iff every frame is flagged |
| VideoAnalysis.Verdict | app/adapters/deepfakebench_adapter.py:433 | "FAKE" iff the overall score reaches the threshold, "REAL" iff it stays below |
| VideoAnalysis.OverallScoreWithin | app/adapters/deepfakebench_adapter.py:327-335 | if every probability lies in [lo, hi], so does the overall score |
| VideoAnalysis.ValidProbabilitiesAgree | app/adapters/deepfakebench_adapter.py:324-328 | two score lists with the same flags and the same unflagged probabilities have the same valid probabilities |
| VideoAnalysis.FlaggedFramesExcluded | app/adapters/deepfakebench_adapter.py:324-330 | while one frame is unflagged, what the flagged frames scored never changes the overall score |
| VideoAnalysis.KeyframePathsDistinct | app/adapters/deepfakebench_adapter.py:417-419 | different segments never share a keyframe file |
| VideoAnalysis.SegmentRecordOf | app/adapters/deepfakebench_adapter.py:373-403 | a segment record spans its run's first and last timestamps, and its duration is their difference; the keyframe is the first frame of the run with the highest raw probability; its peak score is the smoothed score there |
| VideoAnalysis.SegmentRecords | app/adapters/deepfakebench_adapter.py:363-419 | one record per run, in order, the k-th named `segment_k` |
| VideoAnalysis.Smoothed5 | app/adapters/deepfakebench_adapter.py:351-356 | the smoothed series has the length of the input, and is the input itself below five frames |
| VideoAnalysis.ScanVideo | app/adapters/deepfakebench_adapter.py:263-308 | the sampling loop returns exactly what `SampleAndScore` specifies: the scores and progress reports, or the first exception; either way the progress handed to the callback is `ProgressReported` |
| VideoAnalysis.Answered | app/adapters/deepfakebench_adapter.py:268-285 | the number of sampled frames the network answers before its first failure: a scan of that many succeeds, and one frame more fails |
| VideoAnalysis.AnsweredIs | app/adapters/deepfakebench_adapter.py:268-285 | any count whose scan succeeds while one frame more fails (or that reaches the end) is the answered count |
| VideoAnalysis.ScanStep | app/adapters/deepfakebench_adapter.py:263-308 | one loop pass over a decoded frame either stops with the specified error or keeps the loop invariant one frame on |
| VideoAnalysis.ScoreFrame | app/adapters/deepfakebench_adapter.py:268-297 | a frame on the step is the next sampled frame, and scoring it keeps the invariant or stops with the specified error |
| VideoAnalysis.RecordScore | app/adapters/deepfakebench_adapter.py:283-306 | an answered frame's entry is appended and its progress reported when due, keeping the invariant (or stopping with the division by zero of a zero frame count) |
| VideoAnalysis.ScoredNext | app/adapters/deepfakebench_adapter.py:283-306 | after a scored frame the loop state is one entry longer and carries that frame's report when one is due |
| VideoAnalysis.AdvanceFrame | app/adapters/deepfakebench_adapter.py:268-308 | a decoded frame on the step is the next kept frame |
| VideoAnalysis.ProgressStep | app/adapters/deepfakebench_adapter.py:300-305 | scoring sampled frame `count` adds its report, when due, to the progress so far |
| VideoAnalysis.ScanExtends | app/adapters/deepfakebench_adapter.py:283-288 | scoring the next sampled frame extends a successful scan by exactly its entry |
| VideoAnalysis.DivisionByZeroPath | app/adapters/deepfakebench_adapter.py:304 | with a callback and a reported frame count of 0, the first report divides by zero once a frame is scored, and no progress was reported |
| VideoAnalysis.CompletedPath | app/adapters/deepfakebench_adapter.py:263-310 | a loop that passes every decoded frame returns the scores and the progress the specification gives |
| VideoAnalysis.StopAtFailure | app/adapters/deepfakebench_adapter.py:276-306 | a failing network call on sampled frame k, after k successes, is the exception the sampling loop raises, and the progress of those k frames has already been reported |
| VideoAnalysis.ScanFailsAt | app/adapters/deepfakebench_adapter.py:276 | the scan fails with the network's error on the first frame it cannot score |
| VideoAnalysis.Summarise | app/adapters/deepfakebench_adapter.py:323-435 | the analysis of a non-empty score list, as follows: the overall score is the mean of the valid frames (or of all when all are flagged), and it also serves as the average and the confidence; the verdict comes from it; the segments are the specified runs of the five-frame smoothed series with a minimum duration of 1 s, with their records; the frame scores are returned unchanged |
| VideoAnalysis.AnalyzeVideo | app/adapters/deepfakebench_adapter.py:231-435 | `analyze_video`: a video that will not open and a target rate of 0 fail before sampling; otherwise the step comes from the reported rate and the scan is specified; an exception passes on; no scores is "No frames processed"; else the analysis, with progress 80, 85 and 90 added after the scan; when the scan raises, the progress reported before the exception is kept |
| VideoAnalysis.Report | app/adapters/deepfakebench_adapter.py:312-435 | a completed scan with no scores is the failure record, with progress 80; otherwise the summary, with progress 80, 85 and 90 |
| LocalResNet.NpMean | app/adapters/local_resnet_adapter.py:179-182 | `np.mean`: NaN iff the list is empty, otherwise the total divided by the length |
| LocalResNet.MediaType | app/adapters/local_resnet_adapter.py:91 | "video" iff the MIME type starts with `video/`, else "image" |
| LocalResNet.Predicted | app/adapters/local_resnet_adapter.py:124 | the prediction is 1 iff the fake probability exceeds 0.5, else 0 |
| LocalResNet.Larger | app/adapters/local_resnet_adapter.py:125 | `max(a, b)`: one of the two, at least both |
| LocalResNet.DetectImage | app/adapters/local_resnet_adapter.py:117-126 | the image record carries the two softmax probabilities; its prediction is 1 iff the fake probability exceeds 0.5; its confidence is the larger probability |
| LocalResNet.SampleInterval | app/adapters/local_resnet_adapter.py:147 | `max(1, frame_count // 5)`: at least 1; `frame_count // 5` from 10 frames on, else 1 |
| LocalResNet.SampledOutputs | app/adapters/local_resnet_adapter.py:152-174 | the frames scored by `frame_idx % sample_interval == 0`: as many as the loop counts, each one a decoded frame |
| LocalResNet.SampledCount | app/adapters/local_resnet_adapter.py:147-174 | ⌈n / interval⌉ frames are scored |
| LocalResNet.Predictions | app/adapters/local_resnet_adapter.py:171 | frame by frame the 0/1 prediction of the fake probability |
| LocalResNet.Confidences | app/adapters/local_resnet_adapter.py:172 | frame by frame the larger of the two probabilities |
| LocalResNet.AsReals | app/adapters/local_resnet_adapter.py:180 | the predictions as numbers, one per frame |
| LocalResNet.Flipped | app/adapters/local_resnet_adapter.py:179 | `1 - p` for each prediction, one per frame |
| LocalResNet.CountOf | app/adapters/local_resnet_adapter.py:179-180 | a count never exceeds the length |
| LocalResNet.VideoDetection | app/adapters/local_resnet_adapter.py:178-191 | the video record counts the sampled frames and the reported frame count; its prediction is 1 iff the averaged "fake" probability exceeds 0.5 |
| LocalResNet.DetectVideo | app/adapters/local_resnet_adapter.py:147-191 | the frame loop returns exactly the aggregation `VideoDetection` specifies |
| LocalResNet.SampledStep | app/adapters/local_resnet_adapter.py:157-174 | one more decoded frame adds itself to the sampled frames iff its index is a multiple of the interval |
| LocalResNet.AggregatesStep | app/adapters/local_resnet_adapter.py:171-172 | one more sampled frame appends its prediction and its confidence |
| LocalResNet.PredictionSums | app/adapters/local_resnet_adapter.py:179-180 | over 0/1 predictions the flipped values total the 0s, the values total the 1s, and the two counts add up to the length |
| LocalResNet.VideoProbabilitiesInverted | app/adapters/local_resnet_adapter.py:179-181 | the video "fake_probability" is the fraction of frames predicted AUTHENTIC and "authentic_probability" the fraction predicted fake; they add up to 1; the video is predicted fake iff more than half the frames were predicted authentic |
| LocalResNet.MeansOfPredictions | app/adapters/local_resnet_adapter.py:179-180 | the two means over 0/1 predictions are the fractions of 0s and of 1s, and add up to 1 |
| LocalResNet.ShareOfWhole | app/adapters/local_resnet_adapter.py:179-181 | two counts making up n give fractions adding to 1, and a fraction exceeds 0.5 iff its count exceeds n/2 |
| LocalResNet.FractionOf | app/adapters/local_resnet_adapter.py:179-181 | x · n = part fixes x = part / n, and x > 0.5 iff part > n/2 |
| LocalResNet.Status | app/adapters/local_resnet_adapter.py:211-217 | UNCERTAIN iff the confidence is below 0.6; otherwise FAKE iff the prediction is 1, else AUTHENTIC (a NaN confidence is not below 0.6) |
| LocalResNet.Reasons | app/adapters/local_resnet_adapter.py:241-248 | at most two reasons: the low-confidence reason iff the confidence is below 0.6, and then first; the manipulation reason iff the fake probability exceeds 0.7; the authentic reason iff it does not and the authentic probability exceeds 0.7 |
| LocalResNet.FormatResponse | app/adapters/local_resnet_adapter.py:204-253 | the response carries the status, the fake probability as score, `local_<filename>_<hash>` as request id, and the record in `vendor_raw`; the frame counts only for a video; `reasons` only when there is one |
| LocalResNet.Detect | app/adapters/local_resnet_adapter.py:91-103 | the MIME type picks the image or video path; a decoding failure propagates unchanged; otherwise the formatted detection of that path |
| LocalResNet.UnreadableVideoReportedAuthentic | app/adapters/local_resnet_adapter.py:178-217 | a video with no decoded frame has NaN probabilities and confidence; every comparison fails, so it is reported AUTHENTIC, with a NaN score and no reasons |
| LocalResNet.ImageStatusFromSoftmax | app/adapters/local_resnet_adapter.py:117-126 | for a softmax pair the image confidence is at least 0.5; the image is FAKE iff the fake probability reaches 0.6, AUTHENTIC iff the authentic one does, and UNCERTAIN iff neither does |
| RealityDefender.StatusClasses | app/adapters/reality_defender.py:97-107 | the upper-cased verdict maps to AUTHENTIC iff it is AUTHENTIC or REAL, and to FAKE iff it is FAKE, MANIPULATED or SYNTHETIC; anything else, listed or not, is UNCERTAIN |
| RealityDefender.FormatResponse | app/adapters/reality_defender.py:94-128 | the status of the verdict (a missing one counts as ""), the score or 0.5 by default, the request id or "", the vendor result unchanged, and `models`/`reasons` present iff the vendor gave them |
| RealityDefender.MissingStatusUncertain | app/adapters/reality_defender.py:97-107 | a result without a status is UNCERTAIN |
| RealityDefender.RetryableMarkers | app/adapters/reality_defender.py:130-133 | an error is retried iff its lower-cased message contains "timeout", "connection", "503", "502" or "504" |
| RealityDefender.Attempts | app/adapters/reality_defender.py:45-58 | the retry policy from a given attempt on ends after at least one more call and at most `retry_count + 1` calls in all |
| RealityDefender.AttemptStep | app/adapters/reality_defender.py:45-58 | a success returns its formatted result; a timeout on the last attempt raises the adapter's timeout message; an error not retried is raised as it is; a retried failure hands over to the next attempt |
| RealityDefender.Detect | app/adapters/reality_defender.py:37-58 | `detect`: the answer of the retry policy; between one and three calls; the delays slept are the first (calls − 1) of 0.5 s and 1.5 s |
| RealityDefender.TryOnce | app/adapters/reality_defender.py:46-57 | one attempt either ends the policy with its answer or sleeps that attempt's delay and hands over to the next |
| RealityDefender.FirstSuccessReturned | app/adapters/reality_defender.py:45-58 | after attempts that were all retried, the first success is returned, and the first error not retried is raised, on that attempt |
| RealityDefender.RetriedPrefix | app/adapters/reality_defender.py:45-57 | attempts that are all retried hand the answer over to the first attempt after them |
| RealityDefender.RetriedStep | app/adapters/reality_defender.py:49-57 | a retried failure before the last attempt hands over to the next |
| RealityDefender.ThreeTimeouts | app/adapters/reality_defender.py:49-53 | three timeouts in a row end in "Reality Defender API timeout after retries" after three calls |
| RealityDefender.LastErrorPassedOn | app/adapters/reality_defender.py:54-58 | a retryable error on the last attempt is raised as it is |
| TruFor.ResizedSize | app/adapters/trufor_adapter.py:127-128 | both sides are scaled by 512 / max(W0, H0) and rounded; both stay within 512, and the longer side becomes exactly 512 |
| TruFor.ScaledSide | app/adapters/trufor_adapter.py:127-128 | a side no longer than the longest scales to a value in [0, 512] that rounds within [0, 512], and the longest side rounds to 512 |
| TruFor.Pad | app/adapters/trufor_adapter.py:135-139 | the padding fills each dimension up to 512 exactly, and the right (bottom) side gets the odd pixel |
| TruFor.Crop | app/adapters/trufor_adapter.py:172 | `_restore_to_orig`'s slice: 512 − top − bottom rows of 512 − left − right values, and each value is the map's value shifted by (top, left) |
| TruFor.CropRestoresResizedShape | app/adapters/trufor_adapter.py:135-139 | cropping the padding off a 512×512 map gives back exactly the H1 × W1 shape of the resized image |
| TruFor.VerdictOf | app/adapters/trufor_adapter.py:391-405 | the image is fake iff the integrity is below 0.5; the decision is "fake" or "real" to match; the fake probability is 1 − integrity; the score is the integrity; the confidence is twice the distance of the integrity from 0.5 |
| TruFor.VerdictInUnitInterval | app/adapters/trufor_adapter.py:391-392 | for an integrity in [0, 1] the confidence and the fake probability lie in [0, 1], and the confidence is 0 iff the integrity is exactly 0.5 |
| TruFor.Clip | app/adapters/trufor_adapter.py:383 | `np.clip`: the value inside the bounds is kept, and one outside is moved to the bound it crossed |
| TruFor.NoiseDisplay | app/adapters/trufor_adapter.py:382-384 | every noiseprint display value lies in [0, 1] |
| TruFor.NoiseDisplayMonotone | app/adapters/trufor_adapter.py:382-384 | the display keeps the order of the noiseprint samples |
| TruFor.Detect | app/adapters/trufor_adapter.py:307-429 | anything but an image is refused without running the network; an exception becomes "Detection failed: " followed by the message; otherwise the verdict of the integrity with the original size (H0, W0) |
| History.NewJob | app/history/history_manager.py:57-80 | a new record carries its id, owner and creation time, has status "processing", and no completion time, result or error |
| History.Updated | app/history/history_manager.py:88-96 | the status is always replaced; the completion time is set only for "completed" and "failed"; the result and the error are replaced only when given; id, owner and the other fields are kept |
| History.SummaryOf | app/history/history_manager.py:155-168 | a listing entry copies the job's id, creation time and status, and the verdict and score of its result when there is one |
| History.NewestFirstIsOrder | app/history/history_manager.py:172 | ordering by creation time, newest first, is a total preorder |
| History.PySlice | app/history/history_manager.py:176 | `s[start:stop]`: never longer than `s`, each element taken from `s`, and for in-range bounds the ordinary slice |
| History.SliceBound | app/history/history_manager.py:176 | a slice bound counts from the end when negative and is clamped to [0, n] |
| History.PageSize | app/history/history_manager.py:176 | for a non-negative offset and limit a page holds `min(limit, total − offset)` entries, and none past the end |
| History.CountStatus | app/history/history_manager.py:191-193 | a status count never exceeds the number of jobs |
| History.CountVerdict | app/history/history_manager.py:196-197 | a verdict count never exceeds the number of jobs |
| History.Scores | app/history/history_manager.py:200 | the present scores, no more than there are jobs |
| History.Round2 | app/history/history_manager.py:212 | `round(x, 2)` lies within half a hundredth of x |
| History.StatisticsOf | app/history/history_manager.py:185-213 | the total is the number of jobs read; the average score is 0 without scores, else the rounded mean of the present scores |
| History.StatusCountsBounded | app/history/history_manager.py:190-193 | completed + failed + processing never exceeds the total |
| History.VerdictCountsBounded | app/history/history_manager.py:196-197 | real + fake never exceeds the total |
| History.UpperCaseVerdictsUncounted | app/history/history_manager.py:196-197 | jobs whose verdict is the video adapter's "FAKE" or "REAL" are counted as neither real nor fake |
| History.AverageScoreInUnitInterval | app/history/history_manager.py:199-212 | with every present score in [0, 1], the rounded average is in [0, 1] |
| History.RoundWithinUnit | app/history/history_manager.py:212 | rounding to two places keeps a value of [0, 1] in [0, 1] |
| History.HistoryManager.constructor | app/history/history_manager.py:16-18 | the store starts empty |
| History.HistoryManager.CreateJobMetadata | app/history/history_manager.py:57-80 | the job's record is (over)written with the new record, and every other job is unchanged |
| History.HistoryManager.UpdateJobStatus | app/history/history_manager.py:82-98 | an unknown job is "Job … not found" and changes nothing; otherwise only that job's record is updated |
| History.HistoryManager.GetJobDetails | app/history/history_manager.py:100-123 | the record with the timeline and the report flags iff the job exists and the caller owns it or is an admin |
| History.HistoryManager.GetUserHistory | app/history/history_manager.py:125-183 | the listing holds exactly the summaries of the jobs the caller may see (with the status filter), each once, newest first; the page is the Python slice `[offset:offset+limit]` of it, with the total before paging |
| History.HistoryManager.GetStatistics | app/history/history_manager.py:185-213 | the statistics are those of the newest 10000 jobs the caller may see |
| History.HistoryManager.DeleteJob | app/history/history_manager.py:215-234 | False and no change for a missing job; a permission error and no change for a stranger's job; otherwise exactly that job is removed and True returned |
| History.HistoryManager.CleanupOldJobs | app/history/history_manager.py:236-262 | when every creation time can be compared with the cutoff, removes exactly the jobs whose creation time parses and lies strictly before now − days, and returns how many; otherwise the TypeError escapes, naming a remaining job whose time cannot be compared, after only expired jobs were removed |
| History.RemoveExpired | app/history/history_manager.py:246-262 | the directory sweep keeps exactly the jobs that are not expired and counts the expired ones; on a time that cannot be compared it stops with that job kept and only expired jobs removed |
| History.SweepStopped | app/history/history_manager.py:254-260 | a sweep that meets an incomparable time has removed only expired jobs and keeps the job it stopped at |
| History.VisitJob | app/history/history_manager.py:247-260 | one directory of the sweep whose time can be compared: removed and counted iff its creation time parses and lies before the cutoff; the sweep invariant is kept |
| History.RemovedStep | app/history/history_manager.py:256-258 | visiting one more id adds it to the removed set exactly when it is expired |
| Users.Public | app/auth/user_manager.py:108-110 | the record without its hash keeps the name, role, email, creation and last-login times |
| Users.FindUser | app/auth/user_manager.py:91-97 | `get_user`: the first record with that name; none iff no record has it |
| Users.PasswordProblem | app/auth/user_manager.py:126-140 | no problem iff the password has at least 8 characters, an upper-case letter, a lower-case letter and a digit; "too short" iff it is shorter than 8; "no upper-case" iff it is long enough and has none |
| Users.AnyChar | app/auth/user_manager.py:131 | `any(p(c) for c in s)` holds iff some character satisfies p |
| Users.CreateProblem | app/auth/user_manager.py:114-140 | the checks in the order of the code: an invalid role, then an existing name, then a name shorter than 3, then the password policy |
| Users.ApplyUpdates | app/auth/user_manager.py:166-171 | refused iff some "role" argument is not a valid role, and then with the role error; otherwise name, hash and times are kept |
| Users.LastUpdateWins | app/auth/user_manager.py:167-171 | with no "role" (or "email") argument that field is kept, and the last such argument decides its new value |
| Users.UpdateErrorPersists | app/auth/user_manager.py:169-170 | an invalid role stops the update, whatever arguments follow |
| Users.Without | app/auth/user_manager.py:219 | the records not carrying the name: each survivor comes from the list, every other record survives, and the length is unchanged iff no record had the name |
| Users.Recent | app/auth/user_manager.py:282-283 | `tokens[-1000:]`: at most 1000 tokens, all of the input when it is within the cap, always ending in the input's last token |
| Users.RevocationKeepsInvariant | app/auth/user_manager.py:279-283 | appending a new token and cutting keeps the list duplicate-free and within the cap, and the token is then revoked |
| Users.VerifyToken | app/auth/user_manager.py:255-272 | a revoked token is refused before decoding; a user comes back iff the token is not revoked, decodes, and names a subject; then it has that name and role |
| Users.UserManager.constructor | app/auth/user_manager.py:45-59 | a first start holds only the default administrator and no revoked tokens |
| Users.UserManager.AuthenticateUser | app/auth/user_manager.py:99-110 | a user comes back iff the name exists and the password verifies against its hash, and then without the hash |
| Users.UserManager.CreateUser | app/auth/user_manager.py:112-157 | on the first failed validation the error and no change; otherwise exactly one record with the hashed password is appended, and returned without the hash |
| Users.UserManager.UpdateUser | app/auth/user_manager.py:159-177 | an unknown name is "not found"; a refused update changes nothing; otherwise only the first record of that name changes, to the updated record |
| Users.UserManager.ChangePassword | app/auth/user_manager.py:179-210 | a wrong old password and a new password that breaks the policy each give their error and no change; otherwise only that user's hash changes, to the hash of the new password |
| Users.UserManager.DeleteUser | app/auth/user_manager.py:212-224 | "admin" is never deleted; a missing name is an error; otherwise every record with the name is removed and nothing else |
| Users.UserManager.ListUsers | app/auth/user_manager.py:226-229 | every record in order, without hashes |
| Users.UserManager.RevokeToken | app/auth/user_manager.py:274-285 | a known token changes nothing; a new one is appended and the list cut to the last 1000; the token is revoked afterwards and the users are unchanged |
| Users.UserManager.IsTokenRevoked | app/auth/user_manager.py:287-291 | true iff the token is in the revoked list |
| Users.IssuedTokenVerifies | app/auth/user_manager.py:241-272 | a token issued for a name and role, while it decodes, verifies to that name and role exactly when it is not revoked, and to nothing once revoked |
| Users.UserManager.UpdateLastLogin | app/auth/user_manager.py:231-239 | the first record of that name gets the login time and nothing else changes; without such a record nothing changes |
| Decorators.BearerToken | app/auth/decorators.py:30-48 | no header (or an empty one) is 401 "Not authenticated"; anything but exactly two whitespace-separated parts is 401 "invalid format"; a token comes back iff there are two parts and the first is "bearer" in any case, and it is the second part, non-empty and without whitespace |
| Decorators.GetCurrentUser | app/auth/decorators.py:19-58 | a header error is passed on; a token the user store does not verify is 401 "Invalid or expired token"; otherwise the verified claims; every error is a 401 |
| Decorators.RequireRole | app/auth/decorators.py:109-126 | a failed authentication keeps its 401; an authenticated user passes, unchanged, iff the role is exactly the required one; any other role gets a 403 |
| Decorators.GetCurrentAdmin | app/auth/decorators.py:61-79 | a failed authentication keeps its 401; the user passes, unchanged, iff the role is exactly "admin"; otherwise 403 "Admin privileges required" |
| Decorators.AdminGateIsRequireAdmin | app/auth/decorators.py:73-79 | the admin gate admits exactly whom `require_role("admin")` admits, with the same user |
| Decorators.GetOptionalUser | app/auth/decorators.py:82-106 | never an error: a missing header, a bad format or another scheme give None, and otherwise the store's verification |
| Decorators.OptionalAgreesWithStrict | app/auth/decorators.py:95-106 | the optional guard admits a user iff the strict guard does, with the same claims |
| Decorators.BearerPartsYieldToken | app/auth/decorators.py:38-39 | a header that splits into a "bearer" scheme and a token yields that token |
| Decorators.RevokedTokenRejected | app/auth/decorators.py:51-56 | a revoked token is turned away by both guards, whatever it decodes to |
| Api.SizeLimit | app/main.py:62-63 | 50 MB for the video types, 10 MB for everything else |
| Api.Validate | app/main.py:85-104 | accepted iff the type is JPEG, PNG, MP4 or QuickTime and the size is within its limit; any other type gets the 400 "Unsupported file type" message; every refusal is a 400 |
| Api.SizeMessages | app/main.py:99-104 | an oversized upload's message names 50MB for videos and 10MB for images |
| Api.FailureStatus | app/main.py:127-138 | an adapter error is 503 iff its lower-cased message mentions "reality defender", else 500 |
| Api.Detect | app/main.py:74-138 | a rejected upload never reaches the adapter; a result the JSON encoder accepts is passed on unchanged, one it refuses is the generic 500; a timeout is 504; any other failure 503 or 500 as above |
| Api.UnreadableVideoIs500 | app/main.py:112-138 | a video the local ResNet adapter cannot read yields NaN probabilities, which the encoder refuses, so the upload gets the generic 500 |
| Api.RejectionIgnoresAdapter | app/main.py:85-104 | whatever the adapter would do, a rejected upload gets the same 400 |
| Api.TypeCheckedFirst | app/main.py:86-91 | an unsupported type is refused the same way whatever the size |
| Api.SizeBoundary | app/main.py:99 | a file of exactly the limit is accepted, and one byte more is refused |
| WebApp.JsRound | app/web/js/app.js:53-54 | the whole number within half a unit of x, halves going up, as `Math.round` |
| WebApp.Key | app/web/js/app.js:1-47 | every decision is one of the five keys of the decision configuration |
| WebApp.Tier | app/web/js/app.js:59-77 | on whole percentages: AUTHENTIC iff integrity ≥ 70 and reliability ≥ 40; LIKELY_AUTHENTIC iff integrity in [55, 70); LIKELY_FORGED iff integrity in [30, 45) and reliability ≥ 40; FORGED iff integrity < 30 and reliability ≥ 50; INCONCLUSIVE in exactly the remaining cases |
| WebApp.DetermineDecision | app/web/js/app.js:52-77 | the tiers applied to both scores rounded to percentages; AUTHENTIC needs integrity ≥ 0.695 and reliability ≥ 0.395; integrity below 0.295 with reliability at least 0.495 is always FORGED |
| WebApp.TierMonotoneWhenReliable | app/web/js/app.js:59-77 | with reliability at least 50 %, raising the integrity never moves the decision towards forged |
| WebApp.UnreliableHighIntegrityInconclusive | app/web/js/app.js:59-62 | below 40 % reliability, 69 % integrity is LIKELY_AUTHENTIC while 70 % and above fall back to INCONCLUSIVE |
| WebApp.LegacyDecision | app/web/js/app.js:280 | a status that is a configuration key selects its own configuration; any other status selects INCONCLUSIVE's |
| WebApp.LegacyKeyRoundTrip | app/web/js/app.js:280 | looking up a decision's own key gives that decision back |
| WebApp.VendorFakeShownInconclusive | app/web/js/app.js:280 | a Reality Defender FAKE verdict is displayed with the INCONCLUSIVE configuration, since FAKE is not a key |
| WebApp.ValidateFile | app/web/js/app.js:98-117 | accepted iff the type is JPEG, PNG, MP4 or QuickTime and the size is within 50 MB for videos, 10 MB otherwise; an unsupported type gets its message |
| WebApp.VideoPrefix | app/web/js/app.js:108-109 | among the accepted types, exactly the two video types start with "video/" |
| WebApp.ClientAgreesWithServer | app/web/js/app.js:98-117 | the page accepts exactly the uploads the server's own validation accepts |
| WebApp.Clamp01 | app/web/js/app.js:439 | the value clamped into [0, 1]: unchanged inside, 0 below, 1 above |
| WebApp.SmoothColormap | app/web/js/app.js:437-460 | every channel in [0, 1] and one of them full, so no colour is black; blue at or below 0, red at or above 1 |
| WebApp.ColormapMonotone | app/web/js/app.js:437-460 | along the map the red channel never falls and the blue channel never rises |
| WebApp.DataIndex | app/web/js/app.js:506-507 | the data cell under a canvas coordinate is inside the data whenever the data has cells |
| WebApp.Level | app/web/js/app.js:523-533 | `Math.round(255 · v)` of a unit value is a channel level in [0, 255], and 255 for 1 |
| WebApp.Shade | app/web/js/app.js:512-546 | four channel levels in [0, 255]; opaque for the forgery, confidence and noiseprint maps; an unknown map type leaves the pixel untouched |
| WebApp.ForgeryNeverBlack | app/web/js/app.js:512-527 | a forgery-map pixel always has a channel at 255 |
| WebApp.HeatmapPixel | app/web/js/app.js:504-555 | the four levels painted at (x, y): the shade of the cell under it, or opaque black outside the data |
| WebApp.OffsetInRange | app/web/js/app.js:508 | the offset (y·width + x)·4 leaves room for the pixel's four entries |
| WebApp.OffsetsDistinct | app/web/js/app.js:508 | two distinct pixels never share an offset |
| WebApp.OffsetDecodes | app/web/js/app.js:590-592 | entry (y·width + x)·4 + c is channel c of pixel (x, y) |
| WebApp.PaintPixel | app/web/js/app.js:506-555 | the four entries of pixel (x, y) hold its painted levels, and no other entry changes |
| WebApp.WriteRgba | app/web/js/app.js:523-526 | the four entries from the offset hold the given levels, and no other entry changes |
| WebApp.DrawHeatmap | app/web/js/app.js:464-561 | without any data row the call fails with a TypeError (the size log reads `data[0].length`); otherwise a fresh buffer of width·height·4 entries in which every entry is the matching channel of its pixel's painted levels |
| WebApp.PaintRow | app/web/js/app.js:505-557 | after row y, every entry of rows 0 to y holds its painted level and the entries after are still zero |
| WebApp.PixelWritten | app/web/js/app.js:508-526 | the four entries from a pixel's offset are that pixel's levels in order |
| WebApp.HeatmapOpaque | app/web/js/app.js:512-552 | every pixel of the three known maps is opaque |
| WebApp.RectangularAlwaysInData | app/web/js/app.js:506-510 | for rectangular, non-empty data every canvas pixel falls inside the data, so no black border appears |
| WebApp.Bounds | app/web/js/app.js:583-585 | the smallest and largest samples: every sample lies between them |
| WebApp.AllWithinBounds | app/web/js/app.js:583-585 | every sample is in the flattened data and between `Math.min` and `Math.max` of it |
| WebApp.NormalisedInUnit | app/web/js/app.js:586-600 | a sample normalised against the bounds is in [0, 1] |
| WebApp.OverlayColour | app/web/js/app.js:602-609 | nothing at or below 0.5; above it, pure red with an alpha of at most 128 |
| WebApp.OverlayPixel | app/web/js/app.js:594-610 | the four levels left at (x, y): the overlay colour of the cell's normalised value, or untouched outside the data |
| WebApp.OverlayAlphaBounded | app/web/js/app.js:602-609 | with the data's own bounds, every painted pixel is red with an alpha of at most 128 |
| WebApp.ConstantDataNoOverlay | app/web/js/app.js:586-600 | when all samples are equal the range is 0 and nothing is drawn |
| WebApp.OverlayStep | app/web/js/app.js:594-610 | the pixel's four entries hold its overlay levels, and no other entry changes |
| WebApp.EntriesOfPixel | app/web/js/app.js:589-592 | the four entries from a multiple of four are the levels of pixel i/4 |
| WebApp.OverlayAt | app/web/js/app.js:589-610 | after the step at entry i, every entry up to i + 4 holds its level and the rest are zero |
| WebApp.DataBounds | app/web/js/app.js:583-585 | the bounds returned are those of the data |
| WebApp.DrawPredictionOverlay | app/web/js/app.js:565-613 | without any data row and with at least one pixel the call fails with a TypeError (the first pixel reads `data[0].length`); otherwise a fresh buffer of width·height·4 entries, every entry the matching channel of its pixel's overlay levels against the data's bounds |
| PredictFrames.Stamped | tools/predict_frames.py:84-88 | one record per kept frame, the k-th numbered k and stamped k / fps |
| PredictFrames.Extracted | tools/predict_frames.py:63-92 | a capture that does not open is a "Failed to open video" error; a target rate of 0 is a division error; otherwise the frames are yielded |
| PredictFrames.ExtractedFrames | tools/predict_frames.py:73-90 | ⌈frames / step⌉ frames are yielded; the k-th is numbered k, stamped k / fps and is decoded frame k·step, with the step `max(round(source fps / target fps), 1)` and 25 fps when the source reports none |
| PredictFrames.ExtractedTimestampsIncrease | tools/predict_frames.py:85 | at a positive rate the yielded stamps start at 0 and increase strictly |
| PredictFrames.ExtractFrames | tools/predict_frames.py:63-92 | the loop yields exactly the frames, or the error, of the specification above |
| PredictFrames.SampleFrames | tools/predict_frames.py:79-90 | every step-th decoded frame, numbered and stamped in order |
| PredictFrames.StampedAppend | tools/predict_frames.py:84-88 | keeping one more frame appends exactly its record |
| PredictFrames.AdvanceKept | tools/predict_frames.py:84-90 | a decoded frame whose index is a multiple of the step is the next kept frame; any other frame keeps nothing |
| PredictFrames.ScoreRows | tools/predict_frames.py:410-419 | one row per frame when every inference succeeds |
| PredictFrames.ScoreRowsContents | tools/predict_frames.py:415-419 | row k carries frame k's number, its stamp and the detector's fake probability for it |
| PredictFrames.ScoreRowsErrorPersists | tools/predict_frames.py:410-419 | once a frame's inference fails, the video fails with that error however many frames follow |
| PredictFrames.ScoresData | tools/predict_frames.py:388-419 | a negative history length (`int(fps · 5)` below 0) or an extraction error ends the video before any row |
| PredictFrames.RowsNumberedAndStamped | tools/predict_frames.py:418-419 | every row written to scores.csv is numbered by its position and stamped position / fps |
| PredictFrames.Probs | tools/predict_frames.py:451 | the probabilities of the rows, in row order |
| PredictFrames.Stamps | tools/predict_frames.py:450 | the stamps of the rows, in row order |
| PredictFrames.ProcessVideo | tools/predict_frames.py:388-480 | an error is passed on; no frames means no timeline; otherwise the timeline holds the 5-window smoothed maximum as overall score, the raw mean as average score and the one-second suspicious segments of the smoothed scores, and the subtitle file lists those segments |
| PredictFrames.StampsIncrease | tools/predict_frames.py:450 | at a positive rate the stamps of the rows are non-negative and strictly increasing |
| PredictFrames.TimelineSegmentsOrdered | tools/predict_frames.py:457-459 | at a positive rate the timeline's segments are each at least a second long, in order and disjoint |
| PredictFrames.SegmentTimesOrdered | tools/predict_frames.py:192-227 | the time pairs of reported runs over increasing stamps are ordered and a second apart |
| PredictFrames.ShortVideoAverageAtMostOverall | tools/predict_frames.py:462-463 | with fewer than five frames nothing is smoothed, so the average score never exceeds the overall score |
| PredictFrames.AverageCanExceedOverall | tools/predict_frames.py:462-463 | from five frames on, the zero-padded smoothing can push the overall score below the average: for 1, 0, 0, 0, 0, 1 every smoothed score is 0.2 while the mean is 1/3 |
| PredictFrames.SrtMinutes | tools/predict_frames.py:305 | the minute field is in [0, 60) |
| PredictFrames.SrtSeconds | tools/predict_frames.py:306 | the second field is in [0, 60) |
| PredictFrames.SrtMillis | tools/predict_frames.py:307 | for a non-negative time, the fractional part truncated to milliseconds, in [0, 1000) |
| PredictFrames.SrtFieldsRecompose | tools/predict_frames.py:304-306 | 3600·h + 60·m + s is the whole number of seconds, for negative times as well |
| PredictFrames.PadInt | tools/predict_frames.py:308 | only digits and a minus sign, and the zero-padded magnitude for a non-negative number |
| PredictFrames.ToSrtTime | tools/predict_frames.py:302-308 | a stamp never contains a line break |
| PredictFrames.SrtTimeReadsBack | tools/predict_frames.py:302-308 | below 100 hours the stamp is exactly "HH:MM:SS,mmm", and reading its fields back gives the whole seconds and the truncated milliseconds |
| PredictFrames.CueLine | tools/predict_frames.py:348 | the "start --> end" line never contains a line break |
| PredictFrames.SrtLinesFrom | tools/predict_frames.py:346-349 | four lines per segment, none with a line break |
| PredictFrames.SrtBlock | tools/predict_frames.py:347-349 | the four lines of one cue, none with a line break |
| PredictFrames.SrtLinesAt | tools/predict_frames.py:346-349 | the lines of segment m sit at positions 4m to 4m + 3 and are its cue block |
| PredictFrames.SrtFromIsLines | tools/predict_frames.py:346-349 | the file written is the cue lines, each ended by a line break |
| PredictFrames.SplitTerminated | tools/predict_frames.py:346-349 | splitting line-break-terminated lines at the line break gives them back, then an empty tail |
| PredictFrames.SrtReadsBack | tools/predict_frames.py:342-349 | reading segments.srt back line by line gives, for the k-th segment, its number k, "start --> end", "SUSPECT" and a blank line, in segment order and nothing else |
| PredictFrames.Basename | tools/predict_frames.py:535 | the text after the last '/': it has no '/', ends the path, and is the whole path when there is no '/' |
| PredictFrames.ResolveModel | tools/predict_frames.py:533-572 | a ".pth" argument is unknown iff its base name is not in the registry, and otherwise selects that entry's key and input size, with the path as given if absolute or under the weights directory; any other argument is unknown iff no key matches it up to case; a resolution always names an existing checkpoint, and a missing one is reported |
| PredictFrames.UnknownKeyIffNoMatch | tools/predict_frames.py:552-565 | a model key is refused exactly when no registry key equals it after lower-casing |
| PredictFrames.KeyResolvesToItsEntry | tools/predict_frames.py:556-567 | a key that matches an entry up to case selects that entry's input size and, without `--ckpt`, its weight file |
| PredictFrames.CkptIgnoredForWeightFiles | tools/predict_frames.py:533-549 | with a weight file name, `--ckpt` makes no difference |
| PredictFrames.BasenameOfJoin | tools/predict_frames.py:535 | the base name of dir/name is name |
| PredictFrames.RelativeDirectoryIgnored | tools/predict_frames.py:535-549 | a relative weight-file path resolves as its base name alone: its directory is dropped |
| PredictFrames.SameFileSameResolution | tools/predict_frames.py:535-549 | two relative weight-file paths with the same base name resolve alike |
| TimelineFile.Written | tools/predict_frames.py:466-477 | the timeline object names the segments under both keys, their number, the two scores, the frame count, the rate, the threshold and the model |
| FuseScores.ColumnRoleMeaning | tools/fuse_scores.py:50-56 | a lower-cased name containing "start" or "begin" is a start column; otherwise one containing "end" is an end column; otherwise one containing "prob" or "score" is the probability column |
| FuseScores.LastOfRole | tools/fuse_scores.py:49-56 | the last column, in header order, taken for a role, and none exactly when no column has it |
| FuseScores.Roles | tools/fuse_scores.py:49-56 | the role of every header column, in order |
| FuseScores.LastIndex | tools/fuse_scores.py:49-56 | the last position holding a value, and none exactly when no position holds it |
| FuseScores.LastIndexStep | tools/fuse_scores.py:49-56 | one more column seen: it becomes the role's column if it has the role, else nothing changes |
| FuseScores.DetectColumns | tools/fuse_scores.py:42-59 | an empty file has no header and fails; otherwise the three columns are the last ones taken for each role, and the scan fails exactly when a role has none |
| FuseScores.EndShadowsScore | tools/fuse_scores.py:53-56 | a name containing "end" is never the probability column, even if it also contains "score" or "prob" |
| FuseScores.ClipIndex | tools/fuse_scores.py:84-87 | the first clip, in file order, whose [start, end) holds the stamp, and none exactly when no clip holds it |
| FuseScores.ClipProbs | tools/fuse_scores.py:92 | the clip probabilities, in file order |
| FuseScores.ClipProbAt | tools/fuse_scores.py:82-92 | the first covering clip's probability; with no covering clip, the mean over all clips; nothing only when there are no clips |
| FuseScores.FirstCoveringClip | tools/fuse_scores.py:84-87 | the loop finds a probability iff some clip covers the stamp, and it is the first such clip's |
| FuseScores.AlignScores | tools/fuse_scores.py:71-96 | one triple per frame in frame order, holding the frame's stamp, its probability and its clip probability; frames with no clips at all fail |
| FuseScores.ClipProbWithin | tools/fuse_scores.py:82-92 | bounds that hold for every clip also hold for the probability a frame receives |
| FuseScores.Blend | tools/fuse_scores.py:113 | for a weight in [0, 1] the fused value lies between the frame and clip values; weight 0 gives the frame value and weight 1 the clip value |
| FuseScores.Fuse | tools/fuse_scores.py:99-116 | one (stamp, blend) pair per aligned triple, in order |
| FuseScores.Stamps | tools/fuse_scores.py:124 | the stamps of the pairs, in order |
| FuseScores.Probs | tools/fuse_scores.py:125 | the probabilities of the pairs, in order |
| FuseScores.SmoothPairs | tools/fuse_scores.py:119-130 | a series shorter than the window is unchanged; a window of 0 or less is an error; otherwise the stamps are kept and the probabilities are their zero-padded moving average |
| FuseScores.Blended | tools/fuse_scores.py:203-208 | one blended pair per frame |
| FuseScores.FuseRun | tools/fuse_scores.py:186-246 | a bad clip header fails; frames without clips fail; a window of 0 or less fails; no frames fail at `np.max`; otherwise the output is the smoothed series, its maximum and mean, and its suspicious segments of at least a second |
| FuseScores.FusedAverageAtMostOverall | tools/fuse_scores.py:229-231 | both metrics are over the smoothed series, so the average never exceeds the overall score |
| FuseScores.FusedInUnitInterval | tools/fuse_scores.py:99-130 | with probabilities and weight in [0, 1], every fused, smoothed probability lies in [0, 1] |
| FuseScores.FusedSegmentsOrdered | tools/fuse_scores.py:133-159 | over strictly increasing frame stamps, the segments are in order, disjoint and each at least a second long |
| BatchPredict.LowerIdempotent | tools/batch_predict.py:26-27 | lower-casing twice is lower-casing once |
| BatchPredict.SelectionIgnoresCase | tools/batch_predict.py:26-27 | whether a file is selected depends neither on the case of its name nor on the case of the pattern |
| BatchPredict.PathJoin | tools/batch_predict.py:28 | an absolute second part replaces the first; otherwise the result starts with the first part and ends with the second, with one '/' between them when the first part does not already end in one |
| BatchPredict.KeptIn | tools/batch_predict.py:25-28 | the files of one directory that are kept are exactly the video names containing the pattern, joined to the directory |
| BatchPredict.Kept | tools/batch_predict.py:24-28 | the files kept from the walk are exactly the joined video files of every directory whose names contain the pattern |
| BatchPredict.ListVideos | tools/batch_predict.py:20-29 | the kept files, sorted, as a permutation of them |
| BatchPredict.LastIndexOf | tools/batch_predict.py:101 | the position of the last occurrence of the character |
| BatchPredict.SplitextRoot | tools/batch_predict.py:101 | a prefix of the name: the name without its last dot and what follows, or the whole name when it has no dot or only leading dots before the last one |
| BatchPredict.SplitextOfExtension | tools/batch_predict.py:101 | a stem that is not only dots, then a dot and an extension without dots, gives the stem back |
| BatchPredict.Stem | tools/batch_predict.py:101 | the output folder name of a video never contains '/' |
| BatchPredict.ResumeKey | tools/batch_predict.py:96 | a model key is used as it is; a weight-file name is cut before its first ".pth" |
| BatchPredict.ResumeKeyOfWeightFile | tools/batch_predict.py:96 | the weight file "key.pth" gives back the key it was made from |
| BatchPredict.Pending | tools/batch_predict.py:97-109 | with `--overwrite` every video is pending; otherwise a subsequence of the videos, in order |
| BatchPredict.PendingMembers | tools/batch_predict.py:100-109 | a video is pending exactly when it is listed and not skipped, and it is skipped iff overwriting is off and its timeline.json exists |
| BatchPredict.Resume | tools/batch_predict.py:96-109 | the pending videos of the resume key, and a skip count that together with them accounts for every video |
| BatchPredict.BaseCommand | tools/batch_predict.py:81-93 | the predictor with model, rate, threshold and output folder, then `--ckpt` with its path when one is given, then `--save-vis` exactly when visualisation is on |
| BatchPredict.NonEmptyStripped | tools/batch_predict.py:72 | the comprehension's filter: every kept part is non-empty, has no whitespace at either end and keeps out a character absent from all parts |
| BatchPredict.NonEmptyStrippedAppend | tools/batch_predict.py:72 | the filter works part by part: on a concatenation it is the concatenation of the two results |
| BatchPredict.GpuIds | tools/batch_predict.py:72 | every GPU id is non-empty, has no comma and no surrounding whitespace |
| BatchPredict.GpuIdsAppend | tools/batch_predict.py:72 | the ids of `a + "," + b` are the ids of `a` followed by the ids of `b` |
| BatchPredict.GpuIdsOfPart | tools/batch_predict.py:72 | an entry without a comma gives its stripped text as the one id, or no id when it is blank; with `GpuIdsAppend` this fixes the ids of every list |
| BatchPredict.GpuIdsOfJoin | tools/batch_predict.py:72 | ids that are non-empty, stripped and comma-free, joined with ",", parse back to themselves |
| BatchPredict.CleanIdInFront | tools/batch_predict.py:72 | a clean id and a comma in front of a list add exactly that id in front of its ids |
| BatchPredict.NoGpusByDefault | tools/batch_predict.py:72-78 | without `--gpus` the list is empty and the children use the default device |
| BatchPredict.SuccessCount | tools/batch_predict.py:160-168 | at most one success per video, and every video succeeded iff the count is the number of videos |
| BatchPredict.Launched | tools/batch_predict.py:132-134 | one launch pass starts as many videos as remain, capped by the free worker slots, and none when no slot is free |
| BatchPredict.Tally | tools/batch_predict.py:130-170 | with at least one worker (or nothing pending) the loop finishes and every video is counted once: the completed ones are those whose child exited with 0, the rest failed; with at most zero workers and a pending video nothing is ever started and the loop never finishes |
| BatchPredict.ExitStatus | tools/batch_predict.py:65-187 | 1 when no video was found, 0 when nothing was pending, otherwise 0 exactly when nothing failed |
| BatchPredict.ExitZeroIffAllSucceeded | tools/batch_predict.py:116-187 | a batch with work to do exits with 0 exactly when every child exited with 0 |
| AggregateRuns.SegmentsOf | tools/aggregate_runs.py:72 | the "segments_sec" list if present, else "suspicious_segments", else none |
| AggregateRuns.FlaggedWithinSpan | tools/aggregate_runs.py:76 | for ordered, disjoint segments of at least a second each, the flagged time is at least one second per segment and at most the span from the first start to the last end |
| AggregateRuns.RowOf | tools/aggregate_runs.py:67-93 | missing numbers read as 0; the row counts the segments and sums their durations, and names the model folder, the video folder's base name and its path |
| AggregateRuns.RowOfWrittenTimeline | tools/aggregate_runs.py:70-80 | the row of a timeline written by the frame-scoring script carries its scores, frame count, rate and threshold and counts its segments |
| AggregateRuns.WrittenFlaggedTime | tools/aggregate_runs.py:72-76 | for a timeline the frame-scoring script wrote, the flagged time is at least a second per segment and at most their span, and 0 without segments |
| AggregateRuns.SegmentsFlaggedTime | tools/aggregate_runs.py:76 | for segments a second apart, the flagged time lies between their number and their span |
| AggregateRuns.ByPath | tools/aggregate_runs.py:45-52 | a permutation of the listing, sorted by path |
| AggregateRuns.ModelRowsStep | tools/aggregate_runs.py:45-47 | the next model folder appends its rows; an entry that is not a directory appends none |
| AggregateRuns.Aggregate | tools/aggregate_runs.py:32-146 | a missing root gives no table and exit status 1; otherwise the rows of the tree, their count, and status 0 exactly when the file could be written |
| AggregateRuns.FolderRows | tools/aggregate_runs.py:52-102 | the loop over one model folder's sorted entries gives exactly their rows, in order |
| AggregateRuns.VideoRowsMembers | tools/aggregate_runs.py:52-102 | a row belongs to a model folder exactly when one of its video entries produced it |
| AggregateRuns.ModelRowsMembers | tools/aggregate_runs.py:45-102 | a row is in the table exactly when one of the model entries produced it |
| AggregateRuns.RowsAreTheLoadedTimelines | tools/aggregate_runs.py:45-102 | the table has a row for exactly the video directories, inside model directories, whose timeline exists and loads |
| AggregateRuns.CountOf | tools/aggregate_runs.py:121-124 | a model's count is positive exactly when some row is that model's |
| AggregateRuns.CountByModel | tools/aggregate_runs.py:121-124 | the per-model tally has exactly the models present, each with its number of rows |
| AggregateRuns.TallyCounts | tools/aggregate_runs.py:121-124 | the tally's keys are the models of the rows, and each value is that model's count |
| AggregateRuns.Scores | tools/aggregate_runs.py:131 | the overall scores of the rows, in order |
| AggregateRuns.FlaggedCount | tools/aggregate_runs.py:139 | no row is flagged exactly when no row has a segment |
| AggregateRuns.PercentBounds | tools/aggregate_runs.py:140 | a part of a whole is between 0 and 100 % |
| AggregateRuns.Statistics | tools/aggregate_runs.py:117-140 | the per-model counts, the minimum, maximum and mean score with the mean between the two, and the number and percentage, in [0, 100], of flagged videos |
| QuickCompare.FormatSegments | tools/quick_compare.py:27-37 | "None" without segments; a single segment gives its own text; otherwise the first segment's text comes first and the text ends with "s)" |
| QuickCompare.FormatSegmentsSnoc | tools/quick_compare.py:32-37 | one more segment appends ", " and its text: with the single-segment case this fixes the text of every non-empty list |
| QuickCompare.SegmentText | tools/quick_compare.py:34-35 | a segment's text ends with "s)" |
| QuickCompare.NoneOnlyWithoutSegments | tools/quick_compare.py:29-37 | the text is "None" exactly when there are no segments |
| QuickCompare.EntryOf | tools/quick_compare.py:77-85 | the timeline's model name, else the folder's name; missing scores and counts read as 0 and missing segments as none |
| QuickCompare.Collected | tools/quick_compare.py:66-85 | at most one entry per folder, in listing order |
| QuickCompare.ScoreDescTotal | tools/quick_compare.py:92 | "score at least as high" is a total preorder, so the ranking is well defined |
| QuickCompare.Ranked | tools/quick_compare.py:92 | a permutation of the entries with the overall scores in non-increasing order |
| QuickCompare.InsertKeepsTies | tools/quick_compare.py:92 | inserting an entry keeps the order of the entries sharing any one score |
| QuickCompare.InsertKeepsDetecting | tools/quick_compare.py:92-125 | inserting an entry adds exactly its own flag to the number of models flagging |
| QuickCompare.RankedKeepsTies | tools/quick_compare.py:92 | the sort is stable: entries with equal scores keep their listing order |
| QuickCompare.ConsensusOf | tools/quick_compare.py:131-136 | strong iff at least 60 % of the models flag a segment, moderate iff at least 30 % but under 60 %, weak iff under 30 % |
| QuickCompare.ConsensusMonotone | tools/quick_compare.py:131-136 | more models flagging never weakens the consensus |
| QuickCompare.Detecting | tools/quick_compare.py:125 | at most one per entry |
| QuickCompare.OverallScores | tools/quick_compare.py:126 | the overall scores of the entries, in order |
| QuickCompare.Analyse | tools/quick_compare.py:125-136 | the number of entries flagging a segment, the mean overall score (between the lowest and highest), and the consensus of that number |
| QuickCompare.Compare | tools/quick_compare.py:54-136 | a missing directory is status 1; otherwise the collected entries ranked, status 0 exactly when there is at least one, and then their analysis |
| QuickCompare.RankedKeepsDetecting | tools/quick_compare.py:92-125 | ranking does not change how many models flag a segment |
| QuickCompare.ConsensusIgnoresRanking | tools/quick_compare.py:92-136 | the consensus does not depend on the order in which the folders were listed |
| ListModels.Scale | tools/list_models.py:23 | 1024 to the power k is at least 1 |
| ListModels.UnitIndex | tools/list_models.py:20-24 | the first unit at which the scaled size drops below 1024, terabytes when none does, with every earlier unit's scaled size at least 1024 |
| ListModels.FormatSize | tools/list_models.py:18-24 | the loop's value is the size divided by 1024 once per unit passed, and its unit is the first one below 1024, else TB |
| ListModels.ByModelKeyTotal | tools/list_models.py:44 | ordering by model key is a total preorder |
| ListModels.SortedByKey | tools/list_models.py:44 | a permutation of the registry entries in model-key order |
| ListModels.ReadyCount | tools/list_models.py:49-58 | at most one per entry, and every model is ready iff the count is the number of entries |
| ListModels.TotalSize | tools/list_models.py:49-54 | the total is at least the size of every existing weight file |
| ListModels.SplitCounts | tools/list_models.py:44-58 | the counts of two lists of entries add up |
| ListModels.InsertKeepsCounts | tools/list_models.py:44 | inserting an entry adds exactly its own contribution to the counts |
| ListModels.SortKeepsCounts | tools/list_models.py:44-58 | the ready count and the total size do not depend on the order of the entries |
| ListModels.Survey | tools/list_models.py:37-60 | one line per entry, each showing the file's size when it exists; ready plus missing is the number of entries; the total is the summed size; nothing is missing iff every line has a size |
| ListModels.Status | tools/list_models.py:27-74 | the survey of the registry in model-key order |

## Where the code departs from its evident intent

The model follows the code in each of these cases, and a lemma states the outcome:
- Smoothing. `smooth_scores` is documented as a moving average (tools/predict_frames.py:179). It calls `np.convolve(..., mode='same')` (tools/predict_frames.py:185, app/adapters/deepfakebench_adapter.py:354), which pads with zeros, so the first and last two values are damped (`Smoothing.EdgeDamped`, `PredictFrames.AverageCanExceedOverall`).
- Overall score. The adapter's overall score is the mean of the valid frames (app/adapters/deepfakebench_adapter.py:329, whose comment says so). The frame-scoring and fusion scripts report the maximum of the smoothed series under the same name (tools/predict_frames.py:462, tools/fuse_scores.py:230) (`PredictFrames.ProcessVideo`, `FuseScores.FuseRun`).
- Verdict labels. The adapter writes "FAKE"/"REAL" (app/adapters/deepfakebench_adapter.py:433). The history statistics count "fake"/"real" (app/history/history_manager.py:196-197) (`History.UpperCaseVerdictsUncounted`).
- ResNet video probabilities. A frame prediction is 1 for fake (app/adapters/local_resnet_adapter.py:171). The video "fake_probability" averages `1 - p` over them (app/adapters/local_resnet_adapter.py:179), which is the share of frames predicted authentic (`LocalResNet.VideoProbabilitiesInverted`).
- Weight registry size. The registry has thirteen entries; its test asserts twelve (tests/test_adapters.py:117) (`WeightRegistry.ThirteenEntries`).
- Unchecked probability. A `prob` output beside `cls` is returned as it is, even outside [0, 1] (app/adapters/deepfakebench_adapter.py:199-202) (`Inference.DirectPathUnchecked`).

## Left out

- Video and image decoding, colour conversion, torchvision preprocessing and the networks: frames, gray values and network outputs are inputs. Softmax and sigmoid are function parameters (`Inference.Activations`) assumed to map into (0, 1).
- Inference: output tensors of rank 3 or more give `Unsupported` instead of numpy's indexing results.
- Floating point: probabilities, timestamps and sizes are exact reals. NaN is modelled only where the code relies on it (the local ResNet adapter's empty means, the quality test of an empty image); elsewhere an empty mean is excluded or becomes an error.
- FuseScores.AlignScores: with no clip scores, numpy's mean of an empty list is NaN and the script goes on writing NaN scores; the model stops with `NoClipScores`.
- QuickCompare.ConsensusOf: the thresholds `n · 0.6` and `n · 0.3` are compared exactly, while the script compares against rounded floating-point products.
- History.Round2: `round(x, 2)` is rounding half to even on the exact decimal value; Python rounds the binary float, which can differ on ties, so only the half-hundredth bound is stated.
- History.Updated: `if result:` also ignores an empty result dictionary; the model treats every given result as present.
- History.HistoryManager.GetUserHistory: jobs with equal creation times keep the directory's listing order in the code; the model says only that the listing is newest first.
- Users.PasswordProblem: the upper-case, lower-case and digit tests are ASCII; Python's `isupper`, `islower` and `isdigit` also accept other Unicode letters and digits.
- Strings.Lower, Strings.Upper: ASCII case mapping only; Python's `lower`/`upper` also map other Unicode letters.
- Persistence: the JSON files of jobs, users and revoked tokens become fields; reading, writing, directory creation and their I/O errors are not modelled.
- The clock, the datetime parser, bcrypt and JWT signing and decoding are parameters (`now`, `parse`, `hash`, `verify`, `encode`, `decode`); token expiry is inside `decode`.
- Network and process control: the Reality Defender client and its sleeps (the delays slept are returned), asyncio, temporary files, FastAPI wiring and lifespan, the batch runner's subprocess pool, polling and GPU round-robin (tools/batch_predict.py:121-174). Only its launch pass, its tally and the exit status are modelled.
- Checkpoint loading (tools/predict_frames.py:29-55) and the dynamic detector discovery and YAML loading in tools/build_dfbench_model.py: these are foreign calls and file-system probing, so the detector is a parameter.
- Output I/O and drawing: CSV, JSON and meta writes, keyframe images, plots and the visualisation video (tools/predict_frames.py:230-299, 311-371). The computed data, the subtitle text and the file names are modelled.
- TruFor's pooling head, interpolations and portrait heuristics (app/adapters/trufor_adapter.py:181-305), and its randomly initialised integrity head (228-232): the integrity score is an input.
- The PDF and ZIP reports (app/reports) are formatting over third-party libraries.
- The local ResNet `request_id` is Python's per-process randomised `hash(filename)`: it is a parameter.
- WebApp.DrawPredictionOverlay: width and height are whole numbers of pixels. The page takes them from `getBoundingClientRect()` (app/web/js/app.js:567-568), which can be fractional. The canvas and the image buffer then truncate them to whole pixels (572, 579), but the pixel-to-cell mapping divides by the fractional width (591-592), so each buffer row is mapped as a slightly shifted, sheared row. The model's whole-number sizes cannot show this.
- The web page's DOM, event handlers, timers, logging and canvas calls: only the decision, the file validation, the colour maps and the pixel buffers are modelled.
- The DeepfakeBench adapter's class-level `_frame_count` counter is modelled as the frame's position in its analysis, since each analysis resets it; analyses running at the same time and sharing it are not modelled.
- History.HistoryManager.CleanupOldJobs: a `created_at` that is not a string (another TypeError) is not representable; which expired jobs were already deleted when the TypeError escapes depends on the directory's listing order, so the model states only that they were expired.
- AggregateRuns.Statistics: the script takes minimum, maximum and mean over the six-decimal text of each overall score (tools/aggregate_runs.py:85, read back at 131); the model uses the exact scores.
- Strings.IsSpace: ASCII whitespace only; Python's `str.isspace()` also accepts other Unicode spaces (U+0085, U+00A0 and more), which `Strings.Strip` and `Strings.SplitWhitespace` therefore keep.
- Job orchestration: the job table and the progress file are not in this code; only the progress values the DeepfakeBench adapter reports are modelled.
- The download and start-up scripts, and the tests, are used only as evidence.
