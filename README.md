# Cloud-chamber particle detection, modelled in Dafny

This project models the detection pipeline of a cloud-chamber experiment. A video of the chamber is read frame by frame, and each frame is prepared:

1. It is scaled, turned to grayscale and blurred.
2. The background is subtracted. Three strategies exist:
   - batch averaging over evenly sized batches;
   - replace-on-quiescence;
   - OpenCV's MOG2 subtractor.
3. It is binarised with Otsu's method.

Frames whose Otsu threshold passes the gate go on; the rest are dropped. On each remaining frame:

1. The prominent outer contours are found.
2. Close contours are joined.
3. Only the elongated, thin contours are kept.

Each of those contours is then associated with the list of open tracks:

- it extends the single track whose last snapshot lies on the previous frame, with a centroid closer than the drift distance;
- it starts a new track when no track qualifies;
- more than one candidate track is an error.

When the stream ends, every track spanning more than `MIN_TRACK_LENGTH` frames becomes a particle event. Its features are measured on one representative snapshot.

The model is arranged by the program's modules:

| Dafny module | file | models |
|---|---|---|
| `PyLib` | pylib.dfy | the Python behaviour the code relies on: indexing with negative indices, slices and strides, filtering, `more_itertools.chunked` and `chunked_even` |
| `Types` | types.dfy | `Position`, `Size` and the helpers of bettercv/utils.py |
| `Colors` | colors.dfy | the `Color` class and its BGR view |
| `Videos` | video.dfy | `Frame` and the `Video` reader, a class whose capture cursor moves |
| `Images` | image.dfy | `avg`, `crop`, the shape queries and the interpolation choice |
| `Contours` | contours.dfy | contour geometry, `is_close_to`, `join_contours`, `find_contours` |
| `Tracks` | track.dfy | bettercv/track.py: `Snapshot` and the `Track` class |
| `LegacyTracks` | legacy_track.dfy | the older top-level track.py |
| `Particles` | particle.dfy | `ParticleEvent` and its features |
| `Configs` | config.dfy | the `Config` dataclass and `merge` |
| `Streams` | streams.dfy | the frame streams the pipeline strings together: the gate, batch averaging, replace-on-quiescence |
| `Detection` | detection.dfy | cloudchamber/detection.py, from preprocessing to the particle events |
| `BgSubtraction` | bg_subtraction.dfy | cloudchamber/bg_subtraction.py and its copies in cloudchamber/processing.py |
| `Processing` | processing.dfy | the preparation steps of cloudchamber/processing.py |
| `Analysis` | analysis.dfy | `format_title` of analysis.py |

Images are a type parameter `I`. Every OpenCV operation the pipeline calls, and its numpy crop, is an uninterpreted function, collected in `Streams.Vision`:

- scaling, grayscale and blur;
- cropping, which bettercv/image.py:86-87 writes as the slice `image[top:-bottom]`; `Images.Crop` gives its meaning on a sequence of rows;
- Otsu thresholding and subtraction;
- the weighted blend `cv.addWeighted`;
- the contour search and `join_close_contours`.

The properties are stated over any such operations. The arithmetic of `avg` is also studied on images given as sequences of exact real pixel values.

A generator that raises becomes a `Partial(items, fault)`: what it yielded before the fault, and the fault. Python exceptions are the `Fault` datatype. The central rules about tracks are proved:

- association changes the list of tracks exactly as `update_tracks` does, and keeps the objects it does not extend;
- every track always consists of snapshots on consecutive frames, so its `extent` is its number of snapshots minus one;
- a frame extends each existing track by at most one snapshot at its end;
- the particle events are exactly the tracks with more than six snapshots, in order.

At three points the model follows the code as written:

- Detection cuts the frames with `chunked_even` (cloudchamber/detection.py:76), not into fixed-size batches. The model proves that its pieces are nonempty, at most `BG_BATCH_SIZE` long, and cover the frames in order.
- Every batch-averaged stream hands `avg` a generator over the sampled images (cloudchamber/detection.py:78, cloudchamber/bg_subtraction.py:43, cloudchamber/processing.py:25). The modelled streams do the same, so their background is not the plain mean of the sample. Streams.BackgroundMean states what it is instead, and Findings records the difference.
- The detection gate is strict (`> 1`, cloudchamber/detection.py:39). The background-subtraction gate is inclusive (`>= min_threshold`, cloudchamber/bg_subtraction.py:13).

## Model

| member | source | states |
|---|---|---|
| PyLib.PyIndex | bettercv/track.py:28-29 | `s[i]` succeeds exactly for `-len <= i < len`; it is element `i` for `i >= 0` and element `len + i` for a negative `i`; otherwise IndexError |
| PyLib.SliceBound | bettercv/image.py:87 | a slice bound is clamped into `[0, len]`, with negative bounds counted from the end |
| PyLib.PySlice | bettercv/image.py:87 | a slice is never longer than the sequence |
| PyLib.Stride | bettercv/contours.py:58-59 | `s[::step]` raises ValueError exactly for a zero step |
| PyLib.StrideUp | bettercv/contours.py:58-59 | `s[::step]` for a positive step is no longer than `s`, and empty only for an empty `s` |
| PyLib.StrideDown | bettercv/contours.py:58-59 | `s[::step]` for a negative step is no longer than `s`, empty only for an empty `s`, and starts with the last element |
| PyLib.StrideUpMembers | bettercv/contours.py:58-59 | for a positive step, `s[::step]` holds exactly the elements at indices that are multiples of the step |
| PyLib.StrideUpHead | cloudchamber/detection.py:78 | a positive stride of a nonempty sequence starts with its first element |
| PyLib.Filter | cloudchamber/detection.py:43-45 | a filtered sequence is no longer than its input |
| PyLib.PositionsFromBounds | cloudchamber/detection.py:43-45 | the positions kept by a filter are strictly increasing, in range, and are exactly those satisfying the predicate |
| PyLib.FilterFromPositions | cloudchamber/detection.py:43-45 | the filter's k-th element is the input element at the k-th kept position |
| PyLib.FilterExactly | cloudchamber/detection.py:49-51 | a filter keeps, in order, exactly the elements satisfying the predicate |
| PyLib.FilterMembers | cloudchamber/detection.py:96-98 | an element is in the filtered sequence iff it is in the input and satisfies the predicate |
| PyLib.FlattenConcat | cloudchamber/detection.py:80-81 | yielding batch after batch, flattening distributes over concatenation |
| PyLib.Chunked | cloudchamber/bg_subtraction.py:40 | `chunked(s, n)` raises ValueError exactly for a negative `n` |
| PyLib.ChunkedPartitions | cloudchamber/bg_subtraction.py:40 | for a positive `n`, the batches are nonempty, flatten back to the input, and all but the last have exactly `n` items |
| PyLib.CeilDiv | cloudchamber/detection.py:76 | the number of pieces `chunked_even` plans is the least `q` with `q * n >= len` |
| PyLib.PiecesFlatten | cloudchamber/detection.py:76 | cutting `count` pieces of `size` off the buffer gives its first `count * size` items |
| PyLib.PlanEven | cloudchamber/detection.py:76 | the even split of `len` items has full and one-smaller pieces that add up to `len`, none longer than `n` |
| PyLib.StreamedPieces | cloudchamber/detection.py:76 | the pieces streamed out of a full buffer cover no more than the buffer |
| PyLib.EvenSplitPartitions | cloudchamber/detection.py:76 | the even split of the buffer is a batching of it into nonempty pieces of at most `n` |
| PyLib.ChunkedEvenPartitions | cloudchamber/detection.py:76 | `chunked_even(s, n)` batches the whole input, in order, into nonempty pieces of at most `n` |
| PyLib.ChunkedEven | cloudchamber/detection.py:76 | `chunked_even(s, n)`: the full pieces streamed while the buffer allows, then the even split of the rest; PyLib.ChunkedEvenPartitions states what the pieces are |
| Types.DistanceSq | bettercv/types.py:14-18 | the squared distance is nonnegative and zero exactly for equal positions |
| Types.DistanceSymmetric | bettercv/utils.py:34-35 | the distance from p to q equals the distance from q to p |
| Types.CloserThanSymmetric | bettercv/types.py:14-18 | being closer than a bound does not depend on the order of the points |
| Types.CloserThanItself | bettercv/types.py:14-18 | a point is closer than a bound to itself exactly when the bound is positive |
| Types.CloserThanMonotone | bettercv/types.py:14-18 | closer than a bound implies closer than any larger bound |
| Types.PointDistanceSymmetric | bettercv/types.py:14-18 | the squared centroid distance is symmetric |
| Types.RightOfIsStrict | bettercv/types.py:20-24 | `is_right_of` is irreflexive and asymmetric |
| Types.IsRightOf | bettercv/types.py:20-24 | `is_right_of`: strictly greater x; Types.RightOfIsStrict states its order properties |
| Types.HigherThanIsStrict | bettercv/types.py:26-30 | `is_higher_than` is irreflexive and asymmetric |
| Types.IsHigherThan | bettercv/types.py:26-30 | `is_higher_than`: strictly smaller y, as image rows grow downwards; Types.HigherThanIsStrict states its order properties |
| Types.Truncate | bettercv/types.py:40-41 | `int(v)` truncates toward zero: the result is within one of `v`, on the side of zero |
| Types.Scale | bettercv/types.py:40-41 | `size * factor` truncates each scaled side toward zero |
| Types.FloorDiv | bettercv/types.py:46-47 | `size // factor` floors each side; a zero factor raises ZeroDivisionError |
| Types.TrueDiv | bettercv/types.py:43-44 | `size / factor` is `size // factor` |
| Types.Add | bettercv/types.py:49-50 | adding sizes adds widths and heights |
| Types.Area | bettercv/types.py:59-64 | the area of a size with nonnegative sides is nonnegative, and zero when a side is zero |
| Colors.Reversed | bettercv/colors.py:33-34 | `_reversed_tuple` has the same length, element i being element `len-1-i` of the input |
| Colors.ReversedInvolution | bettercv/colors.py:24-30 | reversing twice gives the tuple back, so setting `bgr` and reading it returns the value set |
| Colors.Color.constructor | bettercv/colors.py:8 | a colour holds the RGB tuple it is given |
| Colors.Color.Bgr | bettercv/colors.py:24-26 | `bgr` is the RGB tuple reversed |
| Colors.Color.SetBgr | bettercv/colors.py:28-30 | setting `bgr` stores the reversed value as `rgb`, and `bgr` then reads back the value set |
| Colors.Color.At | bettercv/colors.py:9-10 | `color[i]` succeeds exactly for `-len <= i < len`; it is BGR component `i`, and for a negative `i` RGB component `-1 - i`; otherwise IndexError |
| Colors.Color.Elements | bettercv/colors.py:12-13 | iterating a colour gives blue, green, red |
| Colors.Color.Len | bettercv/colors.py:21-22 | `len(color)` is 3 |
| Videos.WithImage | bettercv/video.py:16-17 | `with_image` replaces the image and keeps the index and timestamp |
| Videos.Video.constructor | bettercv/video.py:27-29 | a new video holds no capture |
| Videos.Video.Open | bettercv/video.py:83-88 | an open video is left unchanged; otherwise a capture is created with the cursor at 0, and IOError is raised exactly when it fails to open |
| Videos.Video.Close | bettercv/video.py:90-93 | closing releases the capture; a closed video is unchanged |
| Videos.Video.FrameNum | bettercv/video.py:99-101 | RuntimeError without a capture, 0 for a capture that did not open, otherwise the number of frames |
| Videos.Video.NextFrameIndex | bettercv/video.py:71-72 | RuntimeError without a capture, otherwise the cursor, or 0 for a capture that did not open |
| Videos.Video.JumpToFrame | bettercv/video.py:74-75 | an opened capture moves its cursor to the index; one that did not open ignores the move |
| Videos.Video.ReadNext | bettercv/video.py:77-81 | succeeds exactly when the cursor is on a stored frame, returning that frame and advancing the cursor by one; otherwise IOError with the cursor unchanged |
| Videos.Video.FrameAt | bettercv/video.py:81 | a frame read at index i carries index i, the stored image and the stored timestamp |
| Videos.Video.ReadFrameAt | bettercv/video.py:125-131 | RuntimeError when closed, IOError for a failed capture or an index outside the file (the cursor stays at the index); otherwise the frame, with the cursor restored |
| Videos.Video.Limit | bettercv/video.py:143 | the stop index is `frame_num`, or `min(stop, frame_num)` when a stop is given |
| Videos.Video.FramesFrom | bettercv/video.py:144-148 | from a cursor below the limit the first frame yielded is the one at the cursor; at or past it nothing is yielded |
| Videos.Video.FramesFromProgression | bettercv/video.py:144-148 | the frames yielded are the progression `start, start + jump, ...` below the limit, each the frame stored at its index |
| Videos.Video.IterFrames | bettercv/video.py:133-148 | a non-positive jump raises ValueError before the capture is touched; no capture raises RuntimeError; a failed capture yields nothing; otherwise the progression from `start` below the limit, with the final cursor |
| Videos.Video.Drain | bettercv/video.py:144-148 | the loop yields the progression from its cursor and ends with the cursor on the first index at or past the limit |
| Videos.Video.DrainStep | bettercv/video.py:145-148 | one pass of the loop: from a negative cursor the read raises IOError and nothing changes; otherwise the frame under the cursor is appended and the cursor moves on by the jump |
| Videos.Video.GetItem | bettercv/video.py:44-49 | an index reads one frame; a slice defaults its start to 0 and its step to 1, and a zero step raises ValueError |
| Videos.Video.SliceStart | bettercv/video.py:46 | `index.start or 0` |
| Videos.Video.SliceStep | bettercv/video.py:48 | a missing step is 1 |
| Images.AvgOf | bettercv/image.py:60-66 | `avg` raises ValueError exactly for no images |
| Images.Average | bettercv/image.py:60-66 | the intended average is `avg` as it runs over a list, and fails only on no images |
| Images.Avg | bettercv/image.py:60-66 | the loop of `avg` computes what `AvgOf` defines, for a list and for a generator |
| Images.WeightsSumToOne | bettercv/image.py:63-64 | the two blending weights lie in (0, 1] and sum to one |
| Images.ExactBlend | bettercv/image.py:65 | exact pixel-wise `addWeighted` over the common length of both images |
| Images.BlendFromSums | bettercv/image.py:62-65 | after the loop has blended k images, each pixel times k is the sum of those images' pixels |
| Images.ListAvgIsMean | bettercv/image.py:60-66 | over a list, `avg` is the exact pixel-wise mean of all the images |
| Images.IteratorAvgSkipsFirst | bettercv/image.py:61-62 | over a generator, `avg` is the mean of every image but the first, unless there is only one |
| Images.IteratorAvgCounterexample | bettercv/image.py:61-62 | the images `[0]`, `[2]` average to `[2]` as a generator but to `[1]` as a list |
| Images.MeanOfConstant | bettercv/image.py:60-66 | the mean of copies of one image is that image |
| Images.AvgOfConstant | bettercv/image.py:60-66 | the average of copies of one image is that image, from a list or a generator |
| Images.Crop | bettercv/image.py:86-87 | `image[top:-bottom]`: a zero `bottom` gives nothing; otherwise the rows between the margins, or nothing if the margins overlap |
| Images.GetImageSize | bettercv/image.py:100-102 | the width is the second dimension and the height the first; fewer than two dimensions raise ValueError |
| Images.IsGrayscale | bettercv/image.py:25-26 | `is_grayscale`: the shape has exactly two dimensions |
| Images.ScaleInterpolation | bettercv/image.py:90-92 | area interpolation exactly when shrinking |
| Images.ResizeInterpolation | bettercv/image.py:95-97 | area interpolation exactly when the target area is smaller than the image's |
| Contours.WidthMayExceedLength | bettercv/contours.py:19-23 | `length` and `width` are the rectangle's sides by position, so the width can exceed the length |
| Contours.Length | bettercv/contours.py:22-23 | `length`: the first side reported by `minAreaRect` |
| Contours.Width | bettercv/contours.py:19-20 | `width`: the second side reported by `minAreaRect` |
| Contours.Centroid | bettercv/contours.py:34-36 | the centroid is the moment quotients; a zero `m00` raises ZeroDivisionError |
| Contours.CloseToAnyExactly | bettercv/contours.py:57-59 | a point is close to a list iff some element of it is closer than the distance |
| Contours.AnyCloseExactly | bettercv/contours.py:57-59 | `any` over both point lists holds iff some pair is closer than the distance |
| Contours.CloseToAny | bettercv/contours.py:57-59 | the inner `any` of `is_close_to` for one point; Contours.CloseToAnyExactly states its meaning |
| Contours.AnyClose | bettercv/contours.py:57-59 | the `any` of `is_close_to` over both point lists; Contours.AnyCloseExactly states its meaning |
| Contours.IsCloseTo | bettercv/contours.py:56-59 | a zero jump raises ValueError; any other jump gives a truth value |
| Contours.IsCloseToSampled | bettercv/contours.py:56-59 | for a positive jump, close iff two points at sampled indices are closer than the distance |
| Contours.IsCloseToSymmetric | bettercv/contours.py:56-59 | `a.is_close_to(b)` equals `b.is_close_to(a)` |
| Contours.IsCloseToEmpty | bettercv/contours.py:56-59 | a contour without points is close to nothing |
| Contours.IsCloseToMonotone | bettercv/contours.py:56-59 | close at a distance implies close at any larger distance |
| Contours.IsCloseToIgnoresUnsampled | bettercv/contours.py:56-59 | points at skipped indices do not affect closeness |
| Contours.StrideUpSampledOnly | bettercv/contours.py:58-59 | two point lists that agree at all sampled indices have the same samples |
| Contours.JoinedPoints | bettercv/contours.py:63 | `vstack` puts the first contour's points, then the rest |
| Contours.JoinedPointsMembers | bettercv/contours.py:63 | a point is in the stack iff it belongs to one of the contours |
| Contours.JoinedPointsConcat | bettercv/contours.py:63 | stacking two groups is concatenating their stacks |
| Contours.JoinContours | bettercv/contours.py:62-63 | the hull of all stacked points; no contours raise ValueError |
| Contours.ContourMode | bettercv/contours.py:67 | RETR_EXTERNAL exactly when only outer contours are asked for |
| Contours.FindContours | bettercv/contours.py:66-68 | the search runs with RETR_EXTERNAL or RETR_TREE as asked |
| Tracks.StartOf | bettercv/track.py:31-33 | `start` is the first snapshot; IndexError for an empty track |
| Tracks.EndOf | bettercv/track.py:35-37 | `end` is the last snapshot; IndexError for an empty track |
| Tracks.ExtentOf | bettercv/track.py:39-41 | `extent` is the last frame index minus the first, 0 for one snapshot, IndexError when empty |
| Tracks.DurationOf | bettercv/track.py:43-45 | `duration` is the last timestamp minus the first, 0 for one snapshot, IndexError when empty |
| Tracks.RecordedQueries | bettercv/track.py:47-48 | after recording, the new snapshot is the end, the start is unchanged unless the track was empty, earlier snapshots are kept |
| Tracks.RepresentativeIndex | cloudchamber/particle.py:26-29 | `min(len - 1, 4)` is the fifth snapshot when there are five, otherwise the last |
| Tracks.Representative | cloudchamber/particle.py:26-29 | the representative snapshot exists exactly for a nonempty track |
| Tracks.Track.constructor | bettercv/track.py:22-23 | a new track has no snapshots |
| Tracks.Track.At | bettercv/track.py:28-29 | `track[i]` succeeds exactly for `-len <= i < len`; it is snapshot `i`, or snapshot `len + i` for a negative `i`; otherwise IndexError |
| Tracks.Track.Elements | bettercv/track.py:25-26 | iteration gives the snapshots in recording order |
| Tracks.Track.Start | bettercv/track.py:31-33 | `start` is `track[0]` |
| Tracks.Track.End | bettercv/track.py:35-37 | `end` is `track[-1]` |
| Tracks.Track.Extent | bettercv/track.py:39-41 | defined exactly when there is a start; end frame index minus start frame index |
| Tracks.Track.Duration | bettercv/track.py:43-45 | defined exactly when there is a start; end timestamp minus start timestamp |
| Tracks.Track.Record | bettercv/track.py:47-48 | appends `Snapshot(frame, contour)`, which becomes the end; the start of a nonempty track stays |
| LegacyTracks.Track.constructor | track.py:23-24 | a new track has no snapshots |
| LegacyTracks.Track.At | track.py:29-30 | `track[i]` succeeds exactly for `-len <= i < len`; it is snapshot `i`, or snapshot `len + i` for a negative `i`; otherwise IndexError |
| LegacyTracks.Track.Elements | track.py:26-27 | iteration gives the snapshots in recording order |
| LegacyTracks.Track.Start | track.py:32-34 | `start` is `snapshots[0]`; IndexError when empty |
| LegacyTracks.Track.End | track.py:36-38 | `end` is `snapshots[-1]`; IndexError when empty |
| LegacyTracks.Track.Extent | track.py:40-42 | last index minus first, 0 for one snapshot, defined exactly for a nonempty track |
| LegacyTracks.Track.Duration | track.py:44-46 | last timestamp minus first, defined exactly for a nonempty track |
| LegacyTracks.Track.RelevantSnapshotIndex | track.py:52-54 | `min(len - 1, 4)`: a valid index for a nonempty track, -1 for an empty one |
| LegacyTracks.Track.RelevantSnapshot | track.py:48-50 | the fifth snapshot when there are five, otherwise the end; IndexError when empty |
| LegacyTracks.Track.Type | track.py:56-58 | the type is always "Don't know yet" |
| LegacyTracks.Track.Record | track.py:60-61 | appends the frame's index and timestamp with the contour, which becomes the end |
| Particles.Start | cloudchamber/particle.py:10-12 | the event's start is its track's `start` |
| Particles.End | cloudchamber/particle.py:14-16 | the event's end is its track's `end` |
| Particles.Extent | cloudchamber/particle.py:18-20 | the track's extent: end frame index minus start frame index |
| Particles.Duration | cloudchamber/particle.py:22-24 | the track's duration: end timestamp minus start timestamp |
| Particles.BestSnapshot | cloudchamber/particle.py:26-29 | the fifth snapshot when there are five, otherwise the end; IndexError for an empty track |
| Particles.Width | cloudchamber/particle.py:31-33 | the best snapshot contour's width, defined exactly when the best snapshot is |
| Particles.Length | cloudchamber/particle.py:35-37 | the best snapshot contour's length, defined exactly when the best snapshot is |
| Particles.Curvature | cloudchamber/particle.py:43-45 | curvature is not implemented |
| Particles.Type | cloudchamber/particle.py:47-49 | the type is not implemented |
| Configs.Field | cloudchamber/config.py:8-25 | exactly the twelve declared field names have a value |
| Configs.FieldsDetermine | cloudchamber/config.py:8-25 | two configs with the same value for every field name are equal |
| Configs.DefaultValues | cloudchamber/config.py:8-25 | each field's declared default |
| Configs.Default | cloudchamber/config.py:8-25 | the defaults select batch averaging, with a positive batch size, a nonzero jump and an odd blur size |
| Configs.Merge | cloudchamber/config.py:27-29 | `merge` raises TypeError exactly when a key is not a field name; otherwise each field takes the given value, or its default when absent |
| Configs.MergeEmpty | cloudchamber/config.py:27-29 | merging an empty dictionary gives the defaults |
| Configs.MergeAllFields | cloudchamber/config.py:27-29 | merging a dictionary of all of a config's fields gives that config back |
| Configs.UnknownKeyError | cloudchamber/config.py:27-29 | adding an unknown key makes any merge fail with TypeError |
| Analysis.RemoveAll | analysis.py:21 | `replace(pat, "")` never lengthens the string |
| Analysis.RemoveAllAbsent | analysis.py:21 | a string without the pattern is unchanged |
| Analysis.RemoveAllAfterOccurrence | analysis.py:21 | removal keeps what precedes the first occurrence, deletes it and continues after it |
| Analysis.WordPrefix | analysis.py:21 | the first word is the longest whitespace-free prefix |
| Analysis.WordsAreWords | analysis.py:21 | every piece of `split()` is a nonempty word without whitespace |
| Analysis.Words | analysis.py:21 | `split()` with no argument; Analysis.WordsAreWords and Analysis.WordsOfJoin state what it returns |
| Analysis.WordPrefixOf | analysis.py:21 | a word followed by whitespace or nothing is the first word |
| Analysis.WordsOfJoin | analysis.py:21 | splitting a single-space join of words gives the words back |
| Analysis.JoinSpace | analysis.py:21 | `" ".join`; Analysis.WordsOfJoin states that splitting it gives the words back |
| Analysis.FormatTitle | analysis.py:20-22 | every title ends in " Histogram" |
| Analysis.TitleKeepsAllButLast | analysis.py:20-22 | the title's words are the caption's words after removing "Track ", without the last |
| Analysis.TitleWords | analysis.py:21 | the title before " Histogram"; Analysis.TitleKeepsAllButLast states which words it holds |
| Analysis.LengthTitle | analysis.py:10-11 | the length caption gives "Length Histogram" |
| Analysis.IntensityTitle | analysis.py:15 | the intensity caption gives "Mean Intensity Histogram", dropping the inner "Track " too |
| Streams.ImagesOf | cloudchamber/detection.py:78 | the images of the frames, in order |
| Streams.ToBinary | cloudchamber/detection.py:86-88 | each frame with its Otsu binary as image |
| Streams.BinariesIsFilter | cloudchamber/detection.py:84-88 | the gate is a filter by threshold followed by binarisation |
| Streams.Binaries | cloudchamber/detection.py:84-88 | `binaries_with_tracks` as a list: it never yields more frames than it reads |
| Streams.ToBinaryConcat | cloudchamber/detection.py:84-88 | binarising distributes over concatenation |
| Streams.BinariesExactly | cloudchamber/detection.py:84-88 | the gate keeps, in order, exactly the frames whose threshold passes, each with its index, timestamp and binary |
| Streams.GateFrames | cloudchamber/detection.py:84-88 | the generator loop yields the gated binaries |
| Streams.SubtractAll | cloudchamber/detection.py:80-81 | every frame of a batch minus the background, index and timestamp kept |
| Streams.Background | cloudchamber/detection.py:78 | a zero jump raises ValueError, and a nonzero jump on a nonempty batch gives a background, whether `avg` gets a list or a generator |
| Streams.BackgroundSamples | cloudchamber/bg_subtraction.py:43 | for a positive jump the background is `avg` of the images at the multiples of the jump; that sample starts with the batch's first frame |
| Streams.BackgroundMean | cloudchamber/detection.py:78 | with exact blending, from a list the background is the mean of the whole sample; from a generator, as the pipeline passes it, it is the mean of the sample without the first frame when the batch is longer than the jump, and otherwise the first frame's image |
| Streams.GeneratorBackgroundCounterexample | cloudchamber/detection.py:78 | a batch of the one-pixel frames 0 and 2 with jump 1 has generator background 2 but mean 1 |
| Streams.GeneratorStreamCounterexample | cloudchamber/detection.py:78-81 | on that batch, the stream as written emits the first frame minus 2, where the intended stream subtracts 1 |
| Streams.SubtractBatchesKeepsFrames | cloudchamber/detection.py:75-81 | with a nonzero jump and nonempty batches, no fault occurs, and every frame of every batch comes out once, in order, with its index and timestamp |
| Streams.SubtractBatches | cloudchamber/detection.py:75-81 | a zero jump fails before any frame is yielded; a stream that does not fail yields as many frames as the batches hold |
| Streams.SubtractBatchesHead | cloudchamber/detection.py:80-81 | frame k of the output is batch frame k minus the batch's background |
| Streams.SubtractBatchesLoop | cloudchamber/bg_subtraction.py:39-47 | the batch loop computes the batch-averaged stream, stopping at the first failing background |
| Streams.BatchStep | cloudchamber/bg_subtraction.py:43-47 | one batch: a failing background ends the stream with that fault; otherwise the batch's frames are appended |
| Streams.SubtractBatchesStep | cloudchamber/bg_subtraction.py:43-47 | the stream from batch b is that batch's frames followed by the stream from b+1 |
| Streams.EmitBatch | cloudchamber/bg_subtraction.py:46-47 | the inner loop appends every frame minus the background, in order |
| Streams.NextState | cloudchamber/bg_subtraction.py:54-63 | `had_tracks` becomes the gate result; the background becomes the frame's image exactly at a quiet frame after a signal frame |
| Streams.States | cloudchamber/bg_subtraction.py:51-63 | the state before each frame is the previous one advanced by that frame |
| Streams.Subtracted | cloudchamber/bg_subtraction.py:54 | each frame minus the background in force at it |
| Streams.ReplaceIsGatedSubtraction | cloudchamber/bg_subtraction.py:53-57 | the frames yielded are exactly those passing the gate after subtracting the background in force, in order |
| Streams.Replace | cloudchamber/bg_subtraction.py:53-63 | the loop of `subtract_bg_replace` never yields more frames than it reads |
| Streams.QuietRunKeepsBackground | cloudchamber/bg_subtraction.py:58-63 | a quiet frame after a quiet frame keeps the background |
| Streams.BackgroundReplacedAtRunEnd | cloudchamber/bg_subtraction.py:58-63 | the background changes only at the first quiet frame after signal, to that frame's image |
| Streams.ReplaceLoop | cloudchamber/bg_subtraction.py:51-63 | the loop with `had_tracks` and `bg` yields what `Replace` defines |
| Streams.ReplaceStep | cloudchamber/bg_subtraction.py:53-63 | one frame of the loop: what it yields, followed by the rest of the stream from the updated state |
| Streams.SubtractBgReplace | cloudchamber/bg_subtraction.py:50-63 | no frame raises RuntimeError; otherwise the first image is the initial background and the loop runs over a list from its start, or over an iterator after the first frame |
| Streams.ReplaceYieldsLaterFrames | cloudchamber/bg_subtraction.py:52-53 | each frame yielded is an input frame; from an iterator, never the first |
| Streams.ReplaceDrawsFrom | cloudchamber/bg_subtraction.py:53-57 | at most one output per input frame, each one an input frame |
| Streams.ListReplaceRevisitsFirst | cloudchamber/bg_subtraction.py:52-53 | from a list, the first frame is compared with itself and yielded iff that difference passes the gate |
| Detection.Preprocess | cloudchamber/detection.py:34-35 | the frame keeps its index and timestamp; its image is scaled by 0.6, made gray and blurred with a 15x15 kernel |
| Detection.PreprocessAll | cloudchamber/detection.py:93 | `map(preprocess, frames)` preprocesses every frame, in order |
| Detection.HasTracksStrict | cloudchamber/detection.py:38-39 | the gate passes a threshold exactly when it is above 1 |
| Detection.HasTracks | cloudchamber/detection.py:38-39 | `has_tracks`: the strict test against MIN_THRESHOLD; Detection.HasTracksStrict states it |
| Detection.FindProminentContours | cloudchamber/detection.py:42-45 | a contour is kept iff it is an outer contour with area above 500 |
| Detection.ProminentInOrder | cloudchamber/detection.py:42-45 | the prominent contours are the outer contours with area above 500, in their order |
| Detection.RetainTrackLike | cloudchamber/detection.py:48-51 | a contour of zero width raises ZeroDivisionError; the stream fails exactly when some contour has zero width |
| Detection.RetainTrackLikeFilters | cloudchamber/detection.py:48-51 | before the first zero-width contour, exactly the contours longer than three widths and narrower than 100 are kept, in order |
| Detection.TrackLike | cloudchamber/detection.py:50-51 | the shape test: more than three times as long as wide and narrower than the literal bound 100; Detection.RetainTrackLikeFilters states the filter built on it |
| Detection.Matches | cloudchamber/detection.py:56-57 | a track matches iff its end centroid is within 40 of the contour's and its end is on the previous frame; an empty track raises IndexError and a zero moment ZeroDivisionError |
| Detection.FindCloseFromSpec | cloudchamber/detection.py:54-57 | the scan from a position returns increasing positions of exactly the matching tracks, or the first error |
| Detection.FindCloseFromOk | cloudchamber/detection.py:54-57 | the scan from a position succeeds iff every later track's test can be evaluated |
| Detection.FindCloseFromErr | cloudchamber/detection.py:54-57 | a failing scan reports the fault of the first track whose test fails |
| Detection.FindCloseFromOrder | cloudchamber/detection.py:54-57 | a successful scan returns strictly increasing positions, all at or after its start |
| Detection.FindCloseFromMembers | cloudchamber/detection.py:54-57 | a successful scan lists a position iff that track matches |
| Detection.FindCloseExactly | cloudchamber/detection.py:54-57 | `find_close_tracks` fails iff some track's test fails, with the first failure; otherwise it returns, in order, exactly the matching tracks' positions |
| Detection.FindClose | cloudchamber/detection.py:54-57 | `find_close_tracks` as the positions of the matching tracks; Detection.FindCloseExactly states which they are |
| Detection.Rows | cloudchamber/detection.py:60 | the snapshots of each track of the list, in order |
| Detection.FindCloseTracks | cloudchamber/detection.py:54-57 | the close tracks are the matching tracks of the list, in order |
| Detection.AssociateOneMatch | cloudchamber/detection.py:67-68 | with one close track, that track alone gains the snapshot at its end |
| Detection.AssociateOne | cloudchamber/detection.py:63-72 | one contour adds at most one track, and leaves every existing track as it was or extended by the contour's snapshot |
| Detection.AssociateOneNew | cloudchamber/detection.py:69-72 | with no close track, a new track holding only the snapshot is appended |
| Detection.AssociateOneAmbiguous | cloudchamber/detection.py:65-66 | with two or more close tracks, association raises the ambiguous-match exception |
| Detection.AssociateOneWellFormed | cloudchamber/detection.py:63-72 | associating a contour keeps every track on consecutive frames |
| Detection.MatchWellFormed | cloudchamber/detection.py:67-68 | extending the single close track keeps every track on consecutive frames |
| Detection.NewWellFormed | cloudchamber/detection.py:69-72 | starting a new track keeps every track on consecutive frames |
| Detection.AssociateAllWellFormed | cloudchamber/detection.py:63-72 | associating a frame's contours keeps every track on consecutive frames |
| Detection.UpdateWellFormed | cloudchamber/detection.py:60-72 | `update_tracks` keeps every track on consecutive frames, even when it stops at a fault |
| Detection.ExtentCountsSnapshots | cloudchamber/detection.py:96-98 | on a track of consecutive frames the extent is the number of snapshots minus one |
| Detection.AssociateOneGrows | cloudchamber/detection.py:63-72 | associating one contour extends at most one existing track by the frame's snapshot at its end, and keeps the others |
| Detection.ExtendGrows | cloudchamber/detection.py:67-68 | extending a track grows that one by the snapshot and leaves the others |
| Detection.AppendGrows | cloudchamber/detection.py:69-72 | appending a new track leaves every existing one |
| Detection.AssociateAllGrows | cloudchamber/detection.py:63-72 | over a frame's contours each existing track grows by at most one snapshot of that frame |
| Detection.UpdateGrowsByOne | cloudchamber/detection.py:60-72 | a call of `update_tracks` grows each existing track by at most one snapshot at its end |
| Detection.SingleMatchUnaliased | cloudchamber/detection.py:67-68 | the single close track is at a valid position, and recording on it changes only that track |
| Detection.UpdateTracks | cloudchamber/detection.py:60-72 | the list of tracks becomes what the association defines, the old track objects stay in place, new ones are fresh, and a fault stops the loop |
| Detection.AssociateAllStep | cloudchamber/detection.py:63-72 | one contour of the loop: a fault stops it with the contents unchanged, otherwise the rest of the contours continue from the new contents |
| Detection.AssociateAll | cloudchamber/detection.py:63-72 | the contours one after the other never remove a track and add at most one per contour |
| Detection.Update | cloudchamber/detection.py:60-72 | `update_tracks` never removes a track, adds at most one per contour, and a failing contour generator makes it fail |
| Detection.Associate | cloudchamber/detection.py:64-72 | one contour: an ambiguous or failing match raises and changes nothing; otherwise the tracks become what association defines |
| Detection.Extend | cloudchamber/detection.py:67-68 | recording on the single close track is association with one match |
| Detection.StartTrack | cloudchamber/detection.py:69-72 | a fresh track holding the snapshot is appended, as association with no match defines |
| Detection.SubtractBg | cloudchamber/detection.py:75-81 | the stream is the batch-averaged stream over `chunked_even(frames, 200)` with jump 5, with each background `avg` of a generator, and every frame comes out once, in order |
| Detection.SubtractBgBatches | cloudchamber/detection.py:76 | the batches of 200 cover the frames in order |
| Detection.BinariesWithTracks | cloudchamber/detection.py:84-88 | the strict gate's binaries |
| Detection.TrackWellFormed | cloudchamber/detection.py:93-95 | over the whole stream every track is on consecutive frames |
| Detection.Tracking | cloudchamber/detection.py:92-95 | the loop of `detect_tracks` over the binary frames never removes a track |
| Detection.EventRows | cloudchamber/detection.py:96-98 | the snapshots of each event's track, in order |
| Detection.DetectTracks | cloudchamber/detection.py:91-98 | the fault is that of tracking; on success the events are exactly the tracks with extent above 5, in order |
| Detection.TrackAll | cloudchamber/detection.py:92-95 | the loop over the gated binaries builds the tracks tracking defines |
| Detection.Reduce | cloudchamber/detection.py:96-98 | the events are the tracks with extent above 5, in order, each wrapping a track of the list |
| Detection.LongTracksSpanFrames | cloudchamber/detection.py:96-98 | every tracked row is nonempty, and it becomes an event iff it has more than six snapshots |
| Detection.Long | cloudchamber/detection.py:96-98 | the reduction's test `extent > MIN_TRACK_LENGTH`, which only a nonempty track passes |
| BgSubtraction.Passes | cloudchamber/bg_subtraction.py:12-13 | the gate with a configured minimum passes `t` iff `t >= min_thresh` |
| BgSubtraction.HasTracks | cloudchamber/bg_subtraction.py:12-13 | `has_tracks`: the inclusive test `threshold >= min_thresh`; BgSubtraction.GatesDiffer compares it with detection's strict test |
| BgSubtraction.GatesDiffer | cloudchamber/processing.py:48-49 | the inclusive gate passes a threshold equal to its minimum, which detection's strict gate rejects; otherwise the gates agree at 1 |
| BgSubtraction.BinariesWithTracks | cloudchamber/bg_subtraction.py:26-30 | the frames whose threshold is at least the minimum, in order, each with its binary |
| BgSubtraction.AvgStream | cloudchamber/bg_subtraction.py:39-47 | with `prints` off: a negative batch size raises ValueError before any frame; a zero one yields nothing |
| BgSubtraction.SubtractBgAvg | cloudchamber/processing.py:21-29 | with `prints` off, the batch loop computes the batch-averaged stream |
| BgSubtraction.AvgStreamKeepsFrames | cloudchamber/bg_subtraction.py:39-47 | with `prints` off: with a positive batch size and a nonzero jump, no fault, every frame once in order, and full batches except the last |
| BgSubtraction.AvgStreamZeroJump | cloudchamber/bg_subtraction.py:43 | a zero jump raises ValueError before anything is yielded |
| BgSubtraction.SubtractBgReplace | cloudchamber/processing.py:32-45 | the loop of `subtract_bg_2` yields replace-on-quiescence with the inclusive gate |
| BgSubtraction.StrategyOf | cloudchamber/bg_subtraction.py:73-79 | "mog2", "avg" and "replace" select their strategy |
| BgSubtraction.SubtractBg | cloudchamber/bg_subtraction.py:72-79 | the dispatch returns nothing exactly for an unlisted method |
| BgSubtraction.DefaultDispatchIsAveraging | cloudchamber/config.py:18-20 | with `prints` off: the default method "avg" with batches of 200 and jump 5 gives the gated batch-averaged stream, without fault |
| BgSubtraction.DispatchCases | cloudchamber/bg_subtraction.py:72-79 | each listed method gives its strategy, any other value gives nothing, and "replace" never fails on input with at least one frame |
| Processing.Preprocess | cloudchamber/processing.py:11-14 | index and timestamp kept; the image is scaled, cropped and made gray |
| Processing.Smooth | cloudchamber/processing.py:17-18 | index and timestamp kept; the image is blurred with a square kernel |
| Processing.PreparedFramesKeepPlace | cloudchamber/processing.py:11-18 | preparing a frame, or smoothing it, keeps its place in the video |

## Left out

- Video capture: the OpenCV capture is modelled as stored images, stored timestamps and an `openable` flag. Decoding, seeking cost, timestamps read from the capture and the `name`, `width`, `height`, `fps`, `duration`, `index_at` and `timestamp_at` properties are not modelled.
- OpenCV: every image operation is an uninterpreted function in `Streams.Vision`, so results hold for any such operation. These are grayscale, blur, scale, resize, Otsu threshold, subtract, `addWeighted`, `findContours`, `convexHull`, `minAreaRect` and `moments`, together with `crop`, which is a numpy slice and is stated on row sequences by `Images.Crop`.
- Pixel arithmetic: `Images.ExactBlend` is exact over reals. OpenCV's 8-bit rounding and saturation are not modelled.
- Square roots: distances are compared squared. The centroid test `< 40` becomes `< 1600`.
- Contours.IsCloseTo: the distance is an integer, so a fractional distance bound is not modelled, because squaring a real bound would not match integer point differences exactly.
- `join_close_contours`: it is imported from bettercv/contours.py but not defined there. It is the collaborator `joinClose`.
- `subtract_bg_mog2`: MOG2 is the collaborator function `mog2`. The `tee` of the frames is not modelled. As written, the call raises TypeError: cloudchamber/bg_subtraction.py:68 passes `detectShadows=False` to `img.subtract_bg(image, thresh)` (bettercv/image.py:81), which takes no such keyword and needs `thresh`. The "mog2" case of BgSubtraction.DispatchCases stands for the subtractor evidently intended, not for that failing call.
- `has_tracks_2`, `binaries_with_tracks_2` and `print_mean`: they are unused by the dispatch and read pixel means or `frame.ref`. They are not modelled.
- Printing and display: `Window` display, the `display` switch and the `print` calls other than those at cloudchamber/bg_subtraction.py:41-42 and cloudchamber/processing.py:23-24 have no effect on the frames, so they are not modelled.
- `frame.ref`: the messages at cloudchamber/bg_subtraction.py:41-42 and cloudchamber/processing.py:23-24 read `batch[0].ref`, an attribute that `Frame` (bettercv/video.py:10-14) does not have. With `prints` on, which is the default (cloudchamber/config.py:24), `subtract_bg_avg` therefore raises AttributeError on its first batch, before any frame is yielded, so under the default settings the "avg" dispatch fails on every nonempty input. The model takes `prints` as off: BgSubtraction.AvgStream, BgSubtraction.SubtractBgAvg, BgSubtraction.AvgStreamKeepsFrames and BgSubtraction.DefaultDispatchIsAveraging describe the stream with `prints` off.
- Contour `angle`: `Contour` has no `angle` attribute, so `ParticleEvent.angle` and the histograms reading it are not modelled.
- Particles.Curvature: `NotImplemented` is modelled as `None`.
- Particles.Type: `NotImplemented` is modelled as `None`.
- Processing.Preprocess: `config.crop_box` is passed as the two values `top` and `bottom`. `Config` does not declare that field.
- Configuration: the background functions take the `Config` fields they read as plain values.
- Generators: they are modelled as the list they yield, or `Partial` when they raise. Laziness and interleaving between stages are not modelled. The stages of `detect_tracks` are computed one after the other, and the upstream stages are proved not to fail with the module's constants.
- Detection.Associate: the message "Multiple tracks detected for same contour!" is modelled as the fault `AmbiguousMatch`.
- Types.FloorDiv: Python's `//` by a float gives float sides. The model keeps their floor as integers.
- Types.TrueDiv: it inherits the integer sides of Types.FloorDiv.
- `Size.aspect_ratio` and `exit_for`: not modelled, as no modelled operation uses them.
- Colours: `random_color`, `random_hue`, `max_sv`, `random_max_sv`, `__repr__` and `__str__` are random or text-only, and are not modelled.
- Images: `threshold_binary`, `threshold_adaptive`, `bgr`, `denoise`, `adjust_brightness_contrast`, `mean`, `min`, `max` and the MOG2 `subtract_bg` of bettercv/image.py are single OpenCV calls unused by the modelled pipeline. They are not modelled.
- Contours: `circumference`, `center`, `approximate_polygon`, `is_convex`, `fit_line` and `draw_contours` are not modelled.
- Plotting: `plot_hist` and the script part of analysis.py are not modelled. The root video.py, parsing.py and fs.py are not part of this model.
- Attribute access: cloudchamber/detection.py reads `contour.area`, `contour.length`, `contour.width` and `contour.centroid` as attributes, while bettercv/contours.py defines them as methods. Likewise `ParticleEvent.width` and `ParticleEvent.length` (cloudchamber/particle.py:33 and :37) return `self.best_snapshot.contour.width` and `self.best_snapshot.contour.length` without calling them, so the program returns bound methods. The model uses the values the methods return, as evidently intended.

## Findings

| source | as written | input that shows it | evidently intended | confidence | as-written member | corrected member |
|---|---|---|---|---|---|---|
| bettercv/image.py:61-62 | `first(images)` consumes image 0 of a generator, and `enumerate(images)` then restarts at index 0 on image 1, so image 1 gets weight 1 and image 0 is dropped; `subtract_bg` and `subtract_bg_avg` pass such a generator | the images `[0]`, `[2]` passed as a generator average to `[2]` | the mean of all the images, `[1]` | not executed | Images.IteratorAvgCounterexample | Images.ListAvgIsMean |
| cloudchamber/detection.py:78 | `subtract_bg` hands `avg` a generator expression over the images of `batch[::BG_JUMP]`, so the batch background leaves out the first sampled frame whenever the batch is longer than the jump; cloudchamber/bg_subtraction.py:43 and cloudchamber/processing.py:25 do the same | a batch of the one-pixel frames `[0]`, `[2]` with jump 1: the first frame comes out minus `[2]` | each frame minus the mean of the sample, `[1]` | not executed | Streams.GeneratorStreamCounterexample | Streams.BackgroundMean |
