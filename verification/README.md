# FTBuffer model

A Dafny model of the fold-weighted sliding buffer of PULSE (`FTBuffer`), of the
two running-statistics containers in PULSE's header module, and of two pure
pieces of wyrm's pick-feature utilities.

- **FoldTrace** (`foldtrace.dfy`): the parent trace type, as far as the buffer
  uses it. A trace is a channel identity, a sampling rate, an integer start
  time and a sequence of samples, each a value and a fold (the number of
  observations behind it, 0 meaning no data). Time is an integer sample index,
  so a trace ends at `start + |samples| - 1`
  (`start - 1` for a trace with no samples). Trimming with padding
  (`TrimPad`), trimming without padding (`Clip`) and the in-place add
  (`Combine`, built from the per-position rule `MergeSample`) are modelled from
  their observable behaviour, since the parent class's source is not part of
  this model.
- **FTBuffer** (`ftbuffer.dfy`): construction (`New`), `Append`, `Shift`,
  `FirstAppend` and `SubsequentAppend`. The window ends at the latest endtime
  seen and reaches `maxlen` samples back, both ends included. An append is a
  first append, a far-future reset, a far-past rejection or a join. Errors the
  source raises are `Failure` values of a `Result`. A rejected append returns
  no buffer, so the caller's buffer is unchanged by construction.
- **Header** (`header.dfy`): `DictStreamStats.update_time_range` as
  `UpdateTimeRange` over an optional running min/max of start and end times,
  and `PulseStats.__setitem__` as `SetItem`, which keeps `runtime` and
  `pulse rate` derived from `starttime`, `endtime` and `niter`.
- **FeatureExtraction** (`feature_extraction.dfy`): `_pick_quality_mapping` as
  the scanning method `PickQualityMapping` with the reference function `Grade`,
  and the trigger-nesting filter of `expandable_trigger` as the nested-loop
  method `ExpandableTriggerFilter` with the reference function `Passing`. The
  two `trigger_onset` results are parameters.
- **Wrappers** (`wrappers.dfy`): `Option` and `Result`.

Two facts about the code shape the model.

- The window `[endtime - maxlen, endtime]` is trimmed with padding and both ends
  included, so it holds `maxlen + 1` samples (ftbuffer.py:168-170, 183-184). The
  buffer invariant `Valid` states `maxlen + 1`, and `AveragingScenario` gives the
  first window as times -6..4 for a 10-sample buffer.
- The far-future test is `new_st > ets` (ftbuffer.py:226): the new window's
  start, `max(segment end, buffer end) - maxlen`, is compared with the buffer's
  end.

## Model

| member | source | states |
|---|---|---|
| FTBuffer.MethodFromCode | PULSE/data/ftbuffer.py:82-85 | exactly the codes 0, 2 and 3 name a merge method: mask, max and average respectively |
| FTBuffer.New | PULSE/data/ftbuffer.py:73-88 | construction succeeds iff 0 < maxlen ≤ 1200 and the code is 0, 2 or 3; a bad length is reported before a bad code; a new buffer is empty, valid and keeps maxlen, method and fill value |
| FTBuffer.Shift | PULSE/data/ftbuffer.py:151-171 | on a populated buffer (the only kind it is called on), fails iff the new endtime is earlier than the buffer's; otherwise the window is exactly [endtime − maxlen, endtime], samples kept from before are unchanged, newly exposed positions are fill with fold 0, and nothing else of the buffer changes |
| FTBuffer.FirstAppend | PULSE/data/ftbuffer.py:173-192 | the buffer takes the segment's identity, ends at the segment's endtime, starts maxlen earlier, holds maxlen + 1 samples equal to the segment's where it has them and fill/fold 0 elsewhere, and is no longer empty |
| FTBuffer.SubsequentAppend | PULSE/data/ftbuffer.py:194-241 | an empty buffer is refused, an incompatible segment (other id or rate) is refused, and a success keeps maxlen, method and fill value |
| FTBuffer.Append | PULSE/data/ftbuffer.py:131-141 | an empty buffer is populated by first append, a populated one goes through the subsequent-append case split; every successful append leaves the buffer non-empty |
| FTBuffer.DefaultsAccepted | PULSE/data/ftbuffer.py:46-51 | the default length 60 and method 3 are accepted and give an empty averaging buffer with maxlen 60 |
| FTBuffer.FirstAppendPopulates | PULSE/data/ftbuffer.py:86-136 | a newly constructed buffer is empty and its first append always succeeds, through first append, with a valid result |
| FTBuffer.FarPastRejected | PULSE/data/ftbuffer.py:218-234 | on a populated buffer a compatible append fails iff the segment ends before buffer end − maxlen, and the error carries by how much |
| FTBuffer.FarFutureResets | PULSE/data/ftbuffer.py:224-228 | when the segment's window starts after the buffer's end, the result equals appending the segment to a never-populated buffer: no earlier content survives |
| FTBuffer.JoinMerges | PULSE/data/ftbuffer.py:235-241 | in the join case the append succeeds, the window ends at max(segment end, buffer end) and starts maxlen earlier, and each position is the merge of the old buffer sample (blank if it had none) with the segment sample there |
| FTBuffer.AppendKeepsValid | PULSE/data/ftbuffer.py:219-241 | a successful append keeps the buffer invariant and never moves a populated buffer's endtime backwards |
| FTBuffer.AppendKeepsFill | PULSE/data/ftbuffer.py:226-241 | if the buffer and segment hold the fill value wherever their fold is 0, so does the buffer after any append |
| FTBuffer.ShiftTwice | PULSE/data/ftbuffer.py:159-170 | two forward shifts give the same buffer as one shift to the later endtime |
| FTBuffer.FeedKeepsValid | PULSE/data/ftbuffer.py:90-141 | over any run of appends, with rejected segments dropped, the invariant holds and a populated buffer's endtime never decreases |
| FTBuffer.AveragingScenario | PULSE/data/ftbuffer.py:194-241 | a worked run: first append pads to times -6..4, a join over 3..9 averages times 3 and 4 to values 7 and 12.5 with fold 2 and keeps earlier samples, and a segment ending at 25 resets the window to 15..25 |
| FoldTrace.TrimPad | PULSE/data/ftbuffer.py:168-170 | the trimmed trace covers exactly [t0, t1], keeps identity, and holds the original sample wherever there was one and fill with fold 0 elsewhere |
| FoldTrace.Clip | PULSE/data/ftbuffer.py:237-238 | the trimmed trace covers exactly the original positions inside [t0, t1], with their samples unchanged |
| FoldTrace.MergeSample | PULSE/data/ftbuffer.py:24-29 | a segment sample without data leaves the buffer sample; one meeting an empty position is adopted; on overlap mask gives fill with fold 0, max keeps the larger value, average conserves value × fold; max and average sum the folds and never lower a fold |
| FoldTrace.WeightedMean | PULSE/data/ftbuffer.py:29 | the average times the total fold equals the sum of value × fold, and it lies between the two values |
| FoldTrace.Combine | PULSE/data/ftbuffer.py:241 | the buffer keeps its identity and extent and every position becomes the merge of its sample with the segment's sample there |
| FoldTrace.AverageIntoEmptyAdopts | PULSE/data/ftbuffer.py:24-29 | the averaging formula applied at a position without data gives the segment's value, so adoption and averaging agree |
| FoldTrace.MergeKeepsFill | PULSE/data/ftbuffer.py:24-29 | merging two samples that hold fill wherever fold is 0 gives one that does too |
| FoldTrace.TrimPadKeepsFill | PULSE/data/ftbuffer.py:168-170 | padding keeps "fold 0 means fill value" |
| FoldTrace.ClipKeepsFill | PULSE/data/ftbuffer.py:237-238 | clipping keeps "fold 0 means fill value" |
| FoldTrace.CombineKeepsFill | PULSE/data/ftbuffer.py:241 | the in-place add keeps "fold 0 means fill value" |
| Header.Lower | PULSE/data/header.py:166-167 | the running minimum is at most the new time and the old value, and is one of them |
| Header.Raise | PULSE/data/header.py:168-169 | the running maximum is at least the new time and the old value, and is one of them |
| Header.UpdateTimeRange | PULSE/data/header.py:159-173 | after an update all four fields are set, the trace's starttime lies between min and max starttime and likewise its endtime, minima never increase and maxima never decrease |
| Header.FirstUpdate | PULSE/data/header.py:87-94 | from the all-unset default one update sets both starttime fields to the trace's starttime and both endtime fields to its endtime |
| Header.UpdateIdempotent | PULSE/data/header.py:166-173 | updating twice with the same trace equals updating once |
| Header.UpdateAllExtrema | PULSE/data/header.py:166-173 | after a run of updates each field is the least (or greatest) of its earlier value and the corresponding times of all traces |
| Header.UpdateOrderIrrelevant | PULSE/data/header.py:166-173 | from the default, the result of a run of updates does not depend on the order of the traces |
| Header.SetItem | PULSE/data/header.py:304-325 | setting starttime, endtime or niter stores the number and recomputes runtime = endtime − starttime and rate = niter / runtime (0 when runtime ≤ 0); the derived keys cannot be set; other keys are stored as given |
| Header.RateNonNegative | PULSE/data/header.py:316-320 | with consistent derived fields and a non-negative iteration count the rate is never negative |
| Header.SetAllConsistent | PULSE/data/header.py:304-321 | after any run of settings the derived fields stay consistent |
| Header.DefaultsConsistent | PULSE/data/header.py:276-286 | the default statistics are consistent |
| FeatureExtraction.WithInfinity | wyrm/util/feature_extraction.py:342-344 | the bounds keep their prefix and end in infinity; they are one longer exactly when the last bound was finite, and returned unchanged when it already was infinity |
| FeatureExtraction.FirstAtMostIsFirst | wyrm/util/feature_extraction.py:345-350 | the scan returns the first bound at or above the value, all earlier bounds lie below it |
| FeatureExtraction.GradeIsBin | wyrm/util/feature_extraction.py:343-348 | every value gets a grade in [0, len − 1] of the extended bounds, lies at or below that bin's bound and above every earlier bound |
| FeatureExtraction.GradeMonotone | wyrm/util/feature_extraction.py:345-348 | a larger value never gets a smaller grade, for any bounds |
| FeatureExtraction.DefaultGrades | wyrm/util/feature_extraction.py:324 | the default bounds 0.02, 0.03, 0.04, 0.05 and infinity already end in infinity and give five grades: 0 up to 0.02, 1 up to 0.03, 2 up to 0.04, 3 up to 0.05, and 4 above |
| FeatureExtraction.PickQualityMapping | wyrm/util/feature_extraction.py:323-351 | the scanning loop returns the first bin whose bound the value does not exceed, the same as the reference grade |
| FeatureExtraction.MinOf | wyrm/util/feature_extraction.py:48 | the minimum of the length bounds is one of them and at most each |
| FeatureExtraction.KeptForSound | wyrm/util/feature_extraction.py:42-52 | for one main trigger, every kept expanded trigger is one of the expanded list and nests it, long enough when deletion is on |
| FeatureExtraction.PassingSound | wyrm/util/feature_extraction.py:39-52 | every trigger returned is in the expanded list and is kept for some main trigger |
| FeatureExtraction.KeptForComplete | wyrm/util/feature_extraction.py:42-52 | every expanded trigger kept for a main trigger appears among that trigger's results |
| FeatureExtraction.PassingComplete | wyrm/util/feature_extraction.py:39-52 | every expanded trigger kept for some main trigger is returned |
| FeatureExtraction.ExpandableTriggerFilter | wyrm/util/feature_extraction.py:37-54 | the nested loops emit one copy per (main, expanded) pair that nests and is long enough, main loop outer; every result is an expanded trigger nesting a main trigger, and with deletion on its length is at least min(ndata_bounds) |

## Left out

- Time is an integer sample index and `maxlen` the window's span in samples. `UTCDateTime` float arithmetic, sampling-rate scaling and nearest-sample rounding are not modelled.
- Values are exact reals and folds natural numbers. Floating-point rounding, dtypes and masked arrays are not modelled. A masked sample is a sample with fold 0.
- `fill_value=None` is not modelled: the fill value is a real number.
- The `TypeError` checks on the types of `maxlen`, `other` and `endtime` are not modelled, because the Dafny types rule those inputs out. A float `maxlen` is not modelled either.
- FTBuffer.Append: the source trims the caller's segment in place and, after a first append, shares its data and fold arrays with the buffer, so a later in-place add can write through to the caller's trace; segments are values here and neither effect is modelled.
- FTBuffer.New: the `fill_value=None` default is not modelled (see above); the other defaults, `maxlen=60` and `method=3`, are the constants `DefaultMaxlen` and `DefaultMethodCode`. The method code is an integer here: the membership test `method not in [0, 2, 3]` (ftbuffer.py:82) also accepts values Python holds equal to those codes, such as `3.0` or `False`, and these are not modelled.
- FTBuffer.Append: a segment with no samples ends at `start - 1` here, while the source's trace statistics give it `endtime == starttime`, so its window, far-past and far-future thresholds sit one sample earlier than in the source. The model promises the source's behaviour only for segments that hold at least one sample.
- FTBuffer.Shift: the `endtime is None` branch, which returns the buffer unchanged, is not modelled; callers always pass an endtime.
- `FoldTrace.validate_other` is not part of this model. It is modelled as `Compatible`: same id and same sampling rate.
- `FoldTrace.trim` and `FoldTrace.__iadd__` are not part of this model. They are modelled from their documented behaviour as `TrimPad`, `Clip` and `Combine`. Segment samples outside the buffer's window are dropped rather than extending the trace; the join clips the segment to the window first, so this makes no difference there.
- `_internal_add_processing_info` and the `processing` provenance strings are bookkeeping only.
- The commented-out legacy buffer code after `_subsequent_append` is dead code.
- Header.SetItem: `float()` of a string is modelled as an error; numeric strings are not parsed. Dictionary values wrapped as `AttribDict` and the `_types` casts of the parent class are not modelled. The refusal of the read-only keys is taken from `readonly` at header.py:274, enforced by the parent class.
- `MLStats`, `WindowStats`, `_pretty_str` and `__str__` are ObsPy plumbing and formatting.
- FeatureExtraction.PickQualityMapping: a NaN input, which gets no grade, is not modelled; an empty `grade_max` raises in the source and is a precondition. A tuple `grade_max` with a finite last bound fails on `append` in the source; the model treats the bounds as a list. The source appends infinity to the caller's list in place; `WithInfinity` returns a new sequence and the caller's bounds are values here. The default `grade_max` is the constant `DefaultGradeMax`; the `dtype=np.int32` default only sets the integer type of the returned grade, which is a `nat` here.
- FeatureExtraction.ExpandableTriggerFilter: `trigger_onset` is a foreign ObsPy routine, so its two results are parameters. The conversion to an `int64` array is not modelled. An empty `ndata_bounds` makes `max()` raise `ValueError` at feature_extraction.py:28; it is a precondition here rather than an error result. The defaults `ndata_bounds=[15, 9e99]` and `oob_delete=True` (feature_extraction.py:21) are not constants of the model; with them the filter drops expanded triggers shorter than 15 samples, which is the method with `ndataBounds` holding 15 and a larger bound and `oobDelete` true.
- The statistical curve fitting, `DataFrame` assembly and PICK2K message formatting in feature_extraction.py are floating-point and formatting code.
- wyrm/classes/Tracker.py, wyrm/wyrms/base.py and setup.py are pipeline wrappers, a trivial base class and packaging.
