# Trajectory-correction scripts, modelled in Dafny

The repository is a chain of Python scripts for comparing two videos of one flight:

- one video flown forward (`a2b`) and one flown back (`b2a`);
- `CutVideo.py` samples frames from each video;
- `Cleaner.py` drops noisy frames;
- `reclean.py` renumbers the backward frames in reverse order and copies the forward ones;
- `ANALIZ.py` pairs the frames and writes a similarity line per pair;
- `commands.py` turns each similarity line into a route-correction command;
- `dp1140.py` does the whole analysis in one pass over both videos: a frame-sampling loop, two scalar Kalman filters that smooth the optical flow, and threshold rules that produce correction recommendations.

This project models the decision and bookkeeping logic of those scripts.

- Every floating-point value is a `real`.
- Each result of a neural network, OpenCV or trigonometry is an input to the model, for example:
  - a cosine similarity;
  - the optical flow between two frames;
  - the Hough line candidates;
  - the image statistics;
  - a directory listing.
- File writes are modelled as the sequence of lines, blocks or planned copies they produce.

| file | module | models |
|---|---|---|
| common.dfy | `Common` | Python `int()` on a float, f-string rendering of integers and of `:.2f`, digit parsing, paths, the directory model, counting multiples |
| listing.dfy | `Listing` | Python string order; `sorted(...)` and `sorted(..., reverse=True)` of a listing |
| kalman.dfy | `Kalman` | `SimpleKalmanFilter` (a class with a mutable state and covariance) and its rational update |
| correction.dfy | `Correction` | status thresholds, yaw/roll formulas, clipped pitch, `get_direction` |
| horizon.dfy | `Horizon` | the candidate filter and median of `detect_horizon_angle` |
| orchestrator.dfy | `Orchestrator` | `process_videos`, as a step function, its run, and an imperative method with two filter objects |
| orchestrator_props.dfy | `OrchestratorProperties` | loop invariant and what `process_videos` guarantees |
| commands.dfy | `Commands` | the regex line parser, the four-way classifier, `generate_commands` |
| analiz.dfy | `Analiz` | `compare_images` over a cosine, `compare_folders` pairing, stop rule, the exception on an undecodable image, numbering |
| cutvideo.dfy | `CutVideo` | `extract_frames`: interval, sampling, file naming |
| reclean.dfy | `Reclean` | `create_reversed_folder` and `duplicate_folder` as copy plans |
| cleaner.dfy | `Cleaner` | `is_noisy_image`, `filter_images`, `process_folders` |

Where the code and its description disagree, the model follows the code:

- `get_direction(44)` is "СВ". `int((44 + 22.5) / 45)` is 1, not 0 (`Correction.DirectionExamples`).
- `get_direction` adds 360 only once. An angle below -360 is therefore not reduced into one turn: -400 gives "С", whereas -400 + 720 = 320 lies in the "СЗ" sector (`Correction.DirectionBelowFullTurn`).
- `int()` truncates:
  - 29.97 fps samples every 29th frame (`CutVideo.TruncatedInterval`, `OrchestratorProperties.IntervalTruncates`);
  - an fps below the frame rate gives an interval of 0, and the modulo then raises `ZeroDivisionError`.
- In `process_videos` the two filter updates (dp1140.py:211-212) and `results.append` (dp1140.py:218) happen before the file append. An exception after them leaves them in place. `prev_frame` advances only at the very end of the `try` (dp1140.py:223).
- In `filter_images`, a regular file that `cv2.imread` cannot decode returns `None`. The following `image.std()` then raises, which ends the run (`Cleaner.FilteredFails`).
- In `compare_folders`, a regular file that `cv2.imread` cannot decode makes `cv2.resize` raise (ANALIZ.py:15-16). The run ends there, and the result file keeps the lines written so far (`Analiz.CompareFolders`, `Analiz.StopRule`).

## Model

| member | source | states |
|---|---|---|
| Common.Trunc | dp1140.py:188 | Python `int(x)` on a float truncates toward zero: `0 <= n <= x < n + 1` for non-negative `x`, `n - 1 < x <= n <= 0` for negative `x` |
| Common.NatToStringRoundTrip | ANALIZ.py:44 | the decimal rendering of a natural number reads back as that number |
| Common.HundredthsRoundTrip | commands.py:13 | the `.2f` digits of `h` hundredths read back by `float` as `h / 100` |
| Common.Fixed2 | ANALIZ.py:44 | `f"{x:.2f}"`: for `x >= 0` the rendering of `round(100x)` hundredths; for negative `x` a '-' followed by the rendering of `-x`, so a value that rounds to zero gives "-0.00" |
| Common.CountMultiplesFormula | CutVideo.py:12-17 | the number of multiples of a positive `d` below `k` is `ceil(k / d)` |
| Common.FrameFileNameInjective | CutVideo.py:15 | different numbers give different `frame_{k}.jpg` names |
| Listing.SortAsc | ANALIZ.py:33-34 | `sorted(names)` is ascending in Python string order and a permutation of its input |
| Listing.SortDesc | reclean.py:11 | `sorted(names, reverse=True)` is descending and a permutation of its input |
| Listing.AscendingUnique | ANALIZ.py:33-34 | two ascending arrangements of the same multiset of strings are equal, so `sorted` is determined by its input |
| Listing.BelowTotal | ANALIZ.py:33-34 | Python string order is total: of two different strings one is below the other |
| Listing.BelowTransitive | ANALIZ.py:33-34 | Python string order is transitive |
| Listing.BelowCommonPrefix | reclean.py:11 | prefixing both strings with the same text keeps their order |
| Listing.ReverseOrderIsTextual | reclean.py:11 | the order is textual, not numeric: reverse order puts `frame_2.jpg` before `frame_10.jpg`, and ascending order puts `frame_10.jpg` first |
| Kalman.Gain | dp1140.py:24-25 | with positive noises and a non-negative covariance the gain lies strictly between 0 and 1 |
| Kalman.StepProperties | dp1140.py:22-28 | with positive noises an update never raises; the new covariance is non-negative, below the predicted covariance and below R; the new state lies between the old state and the measurement and is no farther from it |
| Kalman.ConstantMeasurementsApproach | dp1140.py:22-28 | feeding the same measurement repeatedly never raises and never increases the distance of the state from it |
| Kalman.UpdatesStayInInterval | dp1140.py:22-28 | if the state and every measurement lie in `[lo, hi]`, every later state does too |
| Kalman.FreshFilterStaysInInterval | dp1140.py:16-28 | a new filter (state 0.0) fed measurements from an interval containing 0 stays in that interval |
| Kalman.UpdatesCovarianceBelowR | dp1140.py:24-27 | after at least one update the covariance lies in `[0, R)` |
| Kalman.StepCovariance | dp1140.py:24-27 | the covariance after an update depends on the old covariance alone: `R - R*R / (P + Q + R)`, whatever the measurement |
| Kalman.StepCovarianceMonotone | dp1140.py:24-27 | a larger covariance before an update never gives a smaller one after it |
| Kalman.VarianceNonIncreasing | dp1140.py:22-28 | once an update from the starting filter does not raise the covariance, no later update does, whatever the measurements |
| Kalman.FreshFilterVarianceNonIncreasing | dp1140.py:16-28 | a new pipeline filter (covariance 1.0, Q = 0.01, R = 0.1) never increases its covariance from one update to the next |
| Kalman.SimpleKalmanFilter.constructor | dp1140.py:16-20 | a new filter has state 0.0, covariance 1.0 and the given noises |
| Kalman.SimpleKalmanFilter.Update | dp1140.py:22-28 | `update` sets state and covariance to the rational step and returns the new state; where `p + R` is zero it raises with the fields untouched |
| Correction.ClassifyStatus | dp1140.py:80-87 | the status is Нормальное iff similarity > 30, Умеренное iff 25 < s <= 30, Значительное iff 20 < s <= 25, КРИТИЧЕСКОЕ iff s <= 20 |
| Correction.StatusBoundaries | dp1140.py:80-87 | 30, 25 and 20 fall into the worse class |
| Correction.StatusMonotone | dp1140.py:80-87 | a higher similarity never gives a worse status |
| Correction.YawCorrection | dp1140.py:88 | the yaw is 0 at similarity 100 or for zero flow, opposes a non-zero flow below similarity 100, and is no larger than the flow angle for similarities in [0, 100] |
| Correction.RollCorrection | dp1140.py:91 | the roll is 0 exactly when the horizon is level, opposes the tilt, and stays within (-21, 21) for a tilt within (-30, 30) |
| Correction.PitchCorrection | dp1140.py:154-157 | the pitch lies in [-10, 10]; it equals the unclipped sum when that is in range and the nearer bound otherwise |
| Correction.PitchNeutralPoint | dp1140.py:154-157 | no pitch correction at H = 100 m, V = 15 m/s, T = 20 °C |
| Correction.PitchMonotone | dp1140.py:154-157 | the pitch correction never decreases as altitude, velocity or temperature grows |
| Correction.GetDirection | dp1140.py:159-164 | `get_direction` always returns one of the eight labels, the one at the sector index |
| Correction.DirectionIndexNonNegative | dp1140.py:163 | for a non-negative angle the index is `int((angle + 22.5) / 45) % 8` |
| Correction.DirectionMatchesCompass | dp1140.py:159-164 | from -360 degrees up, the sector agrees with the reference rule: reduce into [0, 360), then take the nearest multiple of 45 |
| Correction.DirectionFullTurn | dp1140.py:159-164 | a non-negative angle and that angle plus 360 get the same label |
| Correction.DirectionNegativeWraps | dp1140.py:160-161 | a negative angle from -360 up gets the label of that angle plus 360 |
| Correction.DirectionBelowFullTurn | dp1140.py:160-161 | below -360 one added turn is not enough: -400 gives "С"; -40 gives "СЗ" |
| Correction.DirectionExamples | dp1140.py:159-164 | 0 and 22.4 give "С"; 22.5, 44 and 46 give "СВ"; -90 gives "З" |
| Correction.Synthesize | dp1140.py:80-92 | the recommendation carries the classified status, the yaw of `YawCorrection` (none at similarity 100), the direction label of the flow angle, the roll of `RollCorrection` (within (-21, 21) for a tilt within (-30, 30)), the clipped pitch of `PitchCorrection` for the environment, and the inputs unchanged |
| Horizon.Survivors | dp1140.py:139-146 | the surviving angles all lie strictly within (-30, 30), and there are no more of them than candidates |
| Horizon.SurvivorsMembers | dp1140.py:140-146 | an angle survives exactly when some candidate with `abs(dx) >= 20` and `abs(angle) < 30` has it |
| Horizon.SurvivorsCount | dp1140.py:140-146 | each angle occurs among the survivors as many times as there are surviving candidates with that angle, so duplicates are kept |
| Horizon.SortValues | dp1140.py:149 | the values `np.median` orders: ascending and a permutation of the input |
| Horizon.MedianWithin | dp1140.py:149 | the median of values inside (lo, hi) lies inside (lo, hi) |
| Horizon.MedianOfTwo | dp1140.py:149 | the median of two values is their mean, in either order |
| Horizon.HorizonAngle | dp1140.py:128-152 | the detected angle always lies strictly within (-30, 30) |
| Horizon.HorizonZeroCases | dp1140.py:129-152 | 0.0 for no image, an empty image, a detector error, no lines, or no surviving candidate; with surviving candidates, the median of their angles |
| Horizon.BoundaryCandidatesDiscarded | dp1140.py:142-145 | a line at exactly 30 degrees, or with `dx` 19, is discarded |
| Horizon.DetectHorizonAngle | dp1140.py:128-152 | the loop that builds `angles` returns the angle of the specification |
| Orchestrator.Smooth | dp1140.py:209-214 | without a previous frame neither filter is touched and the raw flow is kept; only the filters change |
| Orchestrator.Conclude | dp1140.py:215-223 | building the command and the appends leave the frame count and both filters unchanged |
| Orchestrator.ProcessFrame | dp1140.py:203-225 | the `try` for a sampled frame keeps the frame count; `prev_frame` only becomes the frame when nothing raises; results and report grow by at most one entry, with timestamp `frame_count / fps`, and the report block is that entry's command |
| Orchestrator.ProcessVideos | dp1140.py:178-229 | the loop with two filter objects returns the outcome and the file of the specification `Run` |
| OrchestratorProperties.SmoothNeverRaises | dp1140.py:210-214 | with non-negative variances the filter updates never raise, variances stay non-negative, and with a previous frame both filters step and the flow becomes their states |
| OrchestratorProperties.FirstFrameUnfiltered | dp1140.py:42-43 | while `prev_frame` is None the filters are untouched and the command has zero flow angle, magnitude and yaw |
| OrchestratorProperties.FullIterationCommits | dp1140.py:205-223 | an iteration where nothing raises adds one result and its report block, and advances `prev_frame` |
| OrchestratorProperties.WriteFailureKeepsResultAndFilters | dp1140.py:209-225 | a failing file append keeps the appended result and the stepped filters, writes no block and keeps `prev_frame` |
| OrchestratorProperties.ReportFailureKeepsFilters | dp1140.py:209-225 | a failure while the command is built keeps the stepped filters and changes nothing else |
| OrchestratorProperties.AnalysisFailureChangesNothing | dp1140.py:206-209 | a failure before the filters leaves the state as it was |
| OrchestratorProperties.SkipPreserves | dp1140.py:200-202 | an index that is not a multiple of the interval keeps the loop invariant |
| OrchestratorProperties.SamplePreserves | dp1140.py:203-226 | a sampled index keeps the loop invariant |
| OrchestratorProperties.LoopPreserves | dp1140.py:195-226 | from a state with the invariant, the loop reads to the first failed read and ends with the invariant |
| OrchestratorProperties.OpenFailureReturnsEmpty | dp1140.py:184-186 | if either stream fails to open, the run returns `[]` and does not touch the file |
| OrchestratorProperties.ZeroIntervalRaises | dp1140.py:188-200 | an interval of 0 raises at the first successful read, after the header was written; with no successful read the run returns `[]` |
| OrchestratorProperties.IntervalTruncates | dp1140.py:188 | 29.97 fps gives interval 29; 0.5 fps gives 0 |
| OrchestratorProperties.Sampled | dp1140.py:200-203 | the sampled indices below `n` whose fault satisfies a condition, each exactly once, in increasing order |
| OrchestratorProperties.FaultEffect | dp1140.py:205-225 | a sampled pair adds a result unless the fault comes before `results.append`, and a block exactly when nothing raises or the fault comes after the file append |
| OrchestratorProperties.RecordedEntry | dp1140.py:206-218 | a recorded entry holds `frame_count / fps`, the similarity of the pair, and the command built from that similarity, the smoothed flow, the environment at that time and the frame's horizon; with a previous frame, the command's flow angle and magnitude are the two filters' new states |
| OrchestratorProperties.SampleKeepsFaultInv | dp1140.py:203-226 | a sampled index keeps the one-to-one match of results with the kept indices and of blocks with the written ones |
| OrchestratorProperties.LoopKeepsFaultInv | dp1140.py:195-226 | the loop runs to its end keeping that match |
| OrchestratorProperties.RunSamplesAndOrders | dp1140.py:195-229 | with a usable interval the run returns normally; there are no more results than sampled indices and no more report blocks than results; every timestamp is that of a sampled index; with a positive fps the timestamps strictly increase; the results belong one to one, in order, to the sampled indices whose fault comes at or after `results.append` (an InWrite fault keeps a result with no block); the blocks are the commands of those results whose fault is none or after the file append (an AfterWrite fault writes a block for an iteration that raised), as many as such indices |
| OrchestratorProperties.RunWithoutFaults | dp1140.py:195-229 | when nothing raises, there is one result per multiple of the interval below the number of reads, and the report holds their commands in order |
| Commands.MatchAtSound | commands.py:11-13 | whatever the matcher finds at a position is an occurrence of `Схожесть: \d+\.\d+%` read as a decimal |
| Commands.MatchAtComplete | commands.py:11-13 | every occurrence of the pattern at a position is found, with its value |
| Commands.FirstMatch | commands.py:11 | the search position is the leftmost match at or after `p`, or there is none |
| Commands.SearchLeftmost | commands.py:11-13 | `re.search` returns the value at the leftmost occurrence, and nothing when there is none |
| Commands.SearchFinds | commands.py:11-13 | an occurrence with none before it is what the search returns |
| Commands.NoColonNoMatch | commands.py:11 | a line without ':' never matches |
| Commands.SignAndIntegerRejected | commands.py:11 | `Схожесть: -3.20%` and `Схожесть: 40%` do not match |
| Commands.Classify | commands.py:14-21 | the command is no correction iff s > 75, advised iff 50 < s <= 75, needed iff 30 < s <= 50, urgent iff s <= 30 |
| Commands.ClassifyBoundaries | commands.py:14-21 | 75, 50 and 30 get the more severe command |
| Commands.CommandTextLacksColon | commands.py:15-21 | no command text contains ':' |
| Commands.LineOutput | commands.py:11-22 | a line contributes at most one output line, exactly when the search finds a value, and that line is the command line of the value |
| Commands.LineOutputOnPattern | commands.py:11-22 | a line gives an output line exactly when the pattern occurs somewhere in it |
| Commands.LineOutputFirstMatch | commands.py:11-22 | the output line carries the value of the first occurrence of the pattern |
| Commands.GenerateCommands | commands.py:7-22 | the loop writes the lines of the specification `Generate` |
| Commands.GenerateAppend | commands.py:10-22 | the output of consecutive chunks of input is the concatenation of their outputs, so output lines keep the input order |
| Commands.GenerateWritesCommandLines | commands.py:22 | every written line is the command line of some similarity |
| Commands.GenerateNothing | commands.py:12 | input lines without a match produce no output |
| Commands.OutputNotReparsed | commands.py:11-22 | a command line has no ':' after its label, so the parser finds nothing in it |
| Commands.GenerateOnOwnOutput | commands.py:10-22 | running the generator on its own output writes nothing |
| Commands.ResultLineRoundTrip | commands.py:11-13 | the line ANALIZ.py writes for a non-negative similarity is parsed back as that similarity rounded to two decimals |
| Commands.NegativeResultLineSkipped | commands.py:11 | a line with a negative similarity is written with its sign, and the parser skips it |
| Analiz.CompareImages | ANALIZ.py:22-27 | the percentage is the cosine times 100, not clamped: it lies in [-100, 100] iff the cosine lies in [-1, 1], exceeds 100 when the cosine exceeds 1, and keeps the cosine's sign |
| Analiz.StopFrom | ANALIZ.py:14-46 | the stop index is the first pair from `i` on that is not two regular files or cannot be decoded, or the length of the shorter listing |
| Analiz.CompareFolders | ANALIZ.py:14-46 | the loop writes, for each pair before the stop index, the line with the pair's number, its similarity and its time, and raises exactly when it stops at two files one of which cannot be decoded |
| Analiz.StopRule | ANALIZ.py:14-46 | no more lines than the shorter listing has names; every written pair is two regular, decodable files of the two sorted listings; if fewer lines are written, either the next pair is not two files and the run returns, or one of its files cannot be decoded and the run raises |
| Analiz.LaterPairsDropped | ANALIZ.py:14-46 | after a pair that is not two files, or that cannot be decoded, no later pair is written, valid or not |
| Analiz.PairNumberOfLine | ANALIZ.py:44 | the number at the head of the line for pair `i` reads back as `i + 1` |
| Analiz.PairNumberAfterHead | ANALIZ.py:44 | whatever follows the head `Пара {i+1} - `, the number after `Пара ` reads back as `i + 1` |
| Analiz.LinesNumberedConsecutively | ANALIZ.py:36-44 | line `k` of the result file is numbered `k + 1` |
| Analiz.PairLinesDistinct | ANALIZ.py:44 | lines of different pairs differ |
| CutVideo.Successes | CutVideo.py:12-13 | the frames read are the attempts before the first failed read |
| CutVideo.Interval | CutVideo.py:11 | `int(video_fps / frame_rate)` truncates toward zero |
| CutVideo.ExtractFrames | CutVideo.py:4-18 | the `while success` loop writes the files of the specification `Extract`, and raises on a zero interval |
| CutVideo.SampledLength | CutVideo.py:14 | one file per multiple of the interval among the frames read |
| CutVideo.SampledFiles | CutVideo.py:14-15 | the files are `frame_0.jpg`, `frame_1.jpg`, ... without gaps, and file `j` holds frame `j * interval` |
| CutVideo.SampledHas | CutVideo.py:14-15 | a frame whose index `k` is a multiple of the interval is file number `k // interval` |
| CutVideo.SampledFrame | CutVideo.py:13-14 | a frame read is written iff its index is a multiple of the interval |
| CutVideo.SampledCount | CutVideo.py:12-17 | from `N` frames read, `ceil(N / interval)` files are written |
| CutVideo.SampledNamesDistinct | CutVideo.py:15 | no two written files share a name |
| CutVideo.ZeroIntervalWritesNothing | CutVideo.py:11-14 | a zero frame rate, or a frame rate above the fps with a frame to read, raises before any file is written |
| CutVideo.TruncatedInterval | CutVideo.py:11 | 29.97 fps at one frame a second gives interval 29, so 30 frames give 2 files |
| CutVideo.StopsAtFirstFailure | CutVideo.py:12-13 | nothing after the first failed read changes what is written |
| Reclean.CreateReversedFolder | reclean.py:8-17 | the loop makes the copies of the specification `ReversedCopies` |
| Reclean.ReversedMembers | reclean.py:11-16 | a copy is made exactly for each regular file among the entries of the reverse-sorted listing: entry `i` goes to `frame_{i}.jpg` |
| Reclean.ReversedDestinations | reclean.py:12-15 | `frame_{i}.jpg` is written iff entry `i` is a regular file, so skipped entries leave gaps |
| Reclean.ReversedDestinationsDistinct | reclean.py:12-15 | no two copies go to the same destination |
| Reclean.ReversedRenumbersTextually | reclean.py:11-16 | for the listing `frame_10.jpg`, `frame_2.jpg`, `frame_2.jpg` becomes `frame_0.jpg` and `frame_10.jpg` becomes `frame_1.jpg` |
| Reclean.DuplicateFolder | reclean.py:19-26 | the loop makes the copies of the specification `DuplicateCopies` |
| Reclean.DuplicateIndices | reclean.py:22-26 | every copy is a regular file of the sorted listing, copied under its own name |
| Reclean.DuplicateMembers | reclean.py:22-26 | a copy is made exactly for each regular file of the listing, under its unchanged name |
| Reclean.DuplicateAscending | reclean.py:22 | the copies are made in string order of their names |
| Cleaner.IsNoisy | Cleaner.py:15 | noisy when std < 15, mean < 50 or > 200, or histogram range < 50; clean iff std >= 15, 50 <= mean <= 200 and range >= 50 |
| Cleaner.FilterImages | Cleaner.py:18-25 | the loop makes the copies of the specification `Filtered`, and stops at the first unreadable file |
| Cleaner.FailureStops | Cleaner.py:21-23 | once an entry raises, later entries are not looked at |
| Cleaner.FilteredMembers | Cleaner.py:21-25 | every copy is a regular, clean file of the input folder under its own name; when the loop finishes, every such file is copied |
| Cleaner.FilteredFails | Cleaner.py:9-25 | the run raises exactly when some regular file has no statistics (`cv2.imread` returned None) |
| Cleaner.OutputFolder | Cleaner.py:31 | the output folder is the input folder followed by `_analiz` |
| Cleaner.OutputFolderInjective | Cleaner.py:31 | different input folders never share an output folder |
| Cleaner.OutputFolders | Cleaner.py:28-31 | the outputs are `a2b_foto_analiz` and `b2a_foto_analiz` |
| Cleaner.ProcessFolders | Cleaner.py:27-32 | the loop over the two folders makes the copies of the specification `ProcessAll` |
| Cleaner.ProcessAllCopies | Cleaner.py:27-32 | every copy goes from one of the folders into that folder's `_analiz` folder under the same name |

## Left out

- VGG16 features and cosine similarity (dp1140.py:30-39, 206-208; ANALIZ.py:11-20): foreign neural-network numerics. The similarity or cosine is an input.
- Farneback optical flow and its reductions (dp1140.py:44-55): OpenCV and `arctan2`. The flow is an input function; only the "no previous frame gives zeros" case is modelled.
- Canny/Hough detection and the `arctan2` of each line (dp1140.py:132-136, 144): the candidates `(dx, angle)` are an input, and an exception is an input flag.
- The environment simulation, velocity and wind vectors, and `wind_correction` (dp1140.py:57-67, 93, 166-176): sines and cosines of floats. The environment snapshot is an input.
- The text of the recommendation block (dp1140.py:94-125): the model keeps its structured fields, not its rendering.
- IEEE-754 rounding. `:.2f` is modelled as round-half-up on exact reals, so binary ties are not reproduced. `float()` of a digit string is its exact decimal value.
- File and folder I/O (`open`, `makedirs`, `imwrite`, `shutil.copy`, `VideoCapture`): files written are sequences of lines, blocks or planned copies. Files already present in a destination folder, and `cv2.imwrite` re-encoding, are not modelled.
- The second `cv2.imread` in `filter_images` (Cleaner.py:25) is taken to decode the same image as the first.
- The `subprocess.run` chaining between the scripts, `print`, and `time.time()`. The processing time of a pair is an input.
- Python's Unicode `\d`: the parser accepts ASCII digits only.
- CutVideo.SampledFiles: stated for a positive interval. A negative fps gives a negative interval, which `ExtractFrames` still models but no lemma describes.
- CutVideo.SampledFrame: stated for a positive interval, for the same reason.
- CutVideo.SampledCount: stated for a positive interval, for the same reason.
- OrchestratorProperties.RunWithoutFaults: states the count of results as the number of multiples of the interval below the reads. That this number is `ceil(reads / interval)` is `Common.CountMultiplesFormula`, stated separately.
- The `cv2.rotate` of the backward frame and the `time.time()` call (dp1140.py:203-204) run outside the `try`; they are taken never to raise, so no fault there ends `process_videos`. The similarity input is the one of the frame pair as rotated.
- Concurrency and the OpenCV handle release (`cap.release()`): no effect on what the scripts write.
