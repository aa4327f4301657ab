# Capture recorder core in Dafny

This project models the recording core of a ReShade-based capture add-on and the small helpers of two offline Python tools that read its output.

**The recorder.** It takes every rendered frame as a BGRA color buffer and an 8-bit gray depth buffer. Each goes into a fixed ring of eight frames. A writer thread drains each ring into an ffmpeg encoder pipe. `duplicate(n)` re-enqueues the last frames to keep a constant frame rate.

**Logs.** The recorder writes one `actions.csv` row (frame index, time, six key bits) per logged action. It writes one stamped camera record to `cam.jsonl` and to a per-frame `frame_%06llu_camera.json` file.

**Raw depth.** Raw float depth frames are cached. Every 30 frames the cache becomes one depth group (a `[T, H, W]` array plus index and time ranges). That group is queued for an archival writer, which names its file `depth_group_%06d.h5`.

**The camera record.** A game adapter fills in one camera record per frame. The record serialises into one of two JSON layouts: Euler angles, or a row-major 3x4 camera-to-world matrix.

**The offline tools.**
- The camera-fix visualiser enumerates the 48 axis-aligned orientations. It changes the world axes of a camera-to-world matrix and merges point clouds.
- The point-cloud loader scans a capture directory for `frame_<index>_depth.npy` files. It selects frames by `all`, `a:b` or a comma list, and merges clouds.

## How the model is built

**Files.** There is one Dafny module per file:

| module | file | what it holds |
|---|---|---|
| `Wrappers` | `wrappers.dfy` | `Option` and `Result` |
| `Text` | `text.dfy` | decimal digits, zero padding, split and join |
| `PyText` | `python_text.dfy` | Python's `strip`, `isdigit` and `int()` on strings |
| `RecorderTypes` | `recorder_types.dfy` | the records and constants of `recorder.h` |
| `RecorderText` | `recorder_text.dfy` | path forms, CSV rows and file names |
| `DepthGroups` | `depth_groups.dfy` | grouping the depth cache |
| `FrameRings` | `frame_ring.dfy` | the ring buffer |
| `WriterThreads` | `writer_threads.dfy` | pipe and writer-thread state of one stream |
| `JsonValues` | `json.dfy` | JSON values |
| `Recording` | `recorder.dfy` | the `Recorder` object |
| `CameraData` | `camera_data.dfy` | the camera record |
| `Clouds` | `clouds.dfy` | the cloud merge |
| `VisualizeCameraFix` | `visualize_camera_fix.dfy` | the visualiser's helpers |
| `LoadPointCloudNew` | `load_point_cloud_new.dfy` | the loader's helpers |

**Imperative code stays imperative.**
- The ring is a class over an `array` of eight slots. Its two `uint32_t` counters are integers reduced modulo 2^32.
- `Recorder` is a class whose methods update its fields.
- External effects are fields of the recorder that the methods update:
  - the lines written to the two logs;
  - the per-frame camera files, by path;
  - the frames handed to each pipe;
  - the directories requested.
- Some outcomes are method parameters: whether a pipe starts, whether a file opens, whether a pipe write succeeds.
- The loops of the source are `for` or `while` loops with invariants:
  - `duplicate`;
  - the depth-group concatenation;
  - the directory-path rewrite;
  - the row-major flattening in `into_json`;
  - the nested loops of `generate_48_orientations`;
  - the merge loops;
  - the frame-list scan.

**Integers and reals.**
- Python integers are unbounded integers.
- Floating-point values that are only copied are `real`.
- The orientation matrices have entries 0 and ±1, so they are integer matrices.

**Empty-list merge.** The two Python tools differ on an empty list of clouds, and the model follows each one:
- The loader returns `None`.
- The visualiser has no such check. `all([])` holds, and then `np.concatenate([])` raises `ValueError`.

**Order of `stop()`.** `stop()` (gcv_reshade/recorder.cpp:83-106) stops both writers and both pipes, flushes a partial depth group, and then closes both logs. The model keeps that order.

## Model

| member | source | states |
|---|---|---|
| RecorderTypes.EmptyRawFrame | gcv_reshade/recorder.h:24-28 | a default frame has no buffer and zero size, stride, width and height |
| RecorderTypes.DefaultRecorderConfig | gcv_reshade/recorder.h:31-36 | the default configuration records at 30 fps with video and CSV output both on |
| RecorderTypes.ColorFrameOwned | gcv_reshade/recorder.cpp:155-157 | a color frame copied from w*4*h bytes owns exactly its buffer, laid out as h rows of stride 4*w |
| FrameRings.Distance | gcv_reshade/recorder.cpp:109-111 | the unsigned 32-bit difference prod - cons is the true difference modulo 2^32 and stays below 2^32 |
| FrameRings.SlotAfter | gcv_reshade/recorder.cpp:112 | the producer's slot prod % 8 is the slot just past the live frames counted from cons, even across the counters' wrap-around |
| FrameRings.SlotAdvance | gcv_reshade/recorder.cpp:122 | advancing the consumer counter by one (wrapping at 2^32) moves every slot of the window by one, because 8 divides 2^32 |
| FrameRings.FrameRing.constructor | gcv_reshade/recorder.h:90-94 | a fresh ring has 8 default slots, both counters 0 and no frames waiting |
| FrameRings.FrameRing.Push | gcv_reshade/recorder.cpp:108-116 | refused exactly when 8 frames wait, and then nothing changes; otherwise the frame is stored at slot prod % 8 and is the new last frame of the FIFO contents, prod advances by one modulo 2^32, and no more than 8 frames ever wait |
| FrameRings.FrameRing.Pop | gcv_reshade/recorder.cpp:117-124 | refused exactly when the counters are equal, and then nothing changes; otherwise it returns the oldest waiting frame (FIFO), drops it from the contents, leaves a moved-from frame in its slot and advances cons by one modulo 2^32 |
| WriterThreads.EnsureStartedKeepsStreamOk | gcv_reshade/recorder.cpp:126-149 | starting a stream never assigns over a joinable thread, keeps the flag/thread/pipe consistency, and leaves the pipe alive exactly when it was alive or video is on and the pipe started |
| WriterThreads.WriteFailureKeepsStreamOk | gcv_reshade/recorder.cpp:325-327 | a writer leaving after a failed write clears its run flag and keeps the stream consistent |
| WriterThreads.StopStreamAsWrittenAfterWriteFailure | gcv_reshade/recorder.cpp:88-89 | counterexample: after a failed write, stop() as written leaves the finished writer joinable, so destroying the recorder or restarting the stream terminates the process |
| WriterThreads.StopStreamCorrectionOnlyJoins | gcv_reshade/recorder.cpp:88-89 | the corrected stop() differs from stop() as written exactly for a writer that has cleared its own flag and is still joinable, the only thread stop() as written leaves joinable |
| WriterThreads.StopStreamLeavesNothingToJoin | gcv_reshade/recorder.cpp:83-93 | corrected stop(): nothing is left to join, the stream is consistent, and the next start launches a fresh writer |
| JsonValues.SetKey | gcv_reshade/recorder.cpp:359-362 | assigning a key succeeds exactly on null or an object, sets that key to the value, keeps every other key of an object, and adds nothing else |
| Recording.DuplicateCount | gcv_reshade/recorder.cpp:294-310 | duplicate(n) adds no copies when n <= 0 or the stream is inactive, n copies when they fit, and otherwise fills the ring to 8 |
| Recording.DuplicateCountStep | gcv_reshade/recorder.cpp:296-309 | one more round of duplicate() adds exactly what fits after the earlier rounds |
| Recording.StampCameraJsonFields | gcv_reshade/recorder.cpp:358-362 | a camera record can be stamped exactly when it is null or an object; the stamped record holds frame_idx, time_us, img_w and img_h with the given values, keeps every other field of the input and adds none |
| Recording.Recorder.constructor | gcv_reshade/recorder.h:86-120 | a fresh recorder (fields as initialised here, rings sized and archival writer started by the constructor at recorder.cpp:22-31) is not running, both rings are empty with all four counters 0, both writer flags are clear, enqueued and written are 0, no frame is kept, no file is open, the depth cache and queue are empty, the group id starts at 0 and the archival writer runs |
| Recording.Recorder.Start | gcv_reshade/recorder.cpp:46-81 | a no-op when running; else it is running, the output directory (slash-joined, then backslashed) is requested, actions.csv holds just the header when enabled and opened, and cam.jsonl is truncated when opened; it always reports success |
| Recording.Recorder.SaveDepthGroup | gcv_reshade/recorder.cpp:200-231 | a no-op on an empty cache; otherwise the group built from the whole cache, with the current id, goes to the back of the archival queue, the id counter advances by one and the cache is emptied |
| Recording.Recorder.StopWriters | gcv_reshade/recorder.cpp:87-93 | both writers are joined and both pipes stopped (corrected stop()) |
| Recording.Recorder.FlushDepthCache | gcv_reshade/recorder.cpp:95-99 | stop() turns a non-empty cache of any size into one last group at the back of the queue |
| Recording.Recorder.CloseLogs | gcv_reshade/recorder.cpp:100-101 | both log files are closed and keep what was written |
| Recording.Recorder.MarkStopped | gcv_reshade/recorder.cpp:84-85 | once writers, cache and logs are finished the recorder is stopped and stays consistent |
| Recording.Recorder.Stop | gcv_reshade/recorder.cpp:83-106 | a no-op when stopped; else it stops running, leaves no writer to join and no pipe alive, closes both logs keeping their lines, flushes a non-empty cache as the last group, and keeps every recorder invariant |
| Recording.Recorder.Destroy | gcv_reshade/recorder.cpp:33-43 | the archival writer's flag is cleared before stop() runs, so a partial group that stop() flushes is queued after the writer was told to finish |
| Recording.Recorder.QPush | gcv_reshade/recorder.cpp:108-116 | a push on either ring is stored exactly when fewer than 8 frames wait, appends the frame to that ring's FIFO contents, and counts it as enqueued |
| Recording.Recorder.EnsureColorStarted | gcv_reshade/recorder.cpp:126-137 | the color stream moves as the start rules say, and the launch never finds an unjoined writer |
| Recording.Recorder.EnsureDepthStarted | gcv_reshade/recorder.cpp:138-149 | the same for the gray stream |
| Recording.Recorder.KeepColor | gcv_reshade/recorder.cpp:160-161 | the last color frame and its size become the duplication source |
| Recording.Recorder.KeepGray | gcv_reshade/recorder.cpp:173-174 | the last gray frame and its size become the duplication source |
| Recording.Recorder.PushColor | gcv_reshade/recorder.cpp:151-162 | no effect unless running with a buffer and positive size; else the stream is started, a w*4*h byte copy with stride 4*w joins the color ring unless it is full, and the copy and its size become the duplication source even when the push was dropped |
| Recording.Recorder.PushDepth | gcv_reshade/recorder.cpp:164-175 | the same for gray frames of w*h bytes with stride w |
| Recording.Recorder.DuplicateColorOnce | gcv_reshade/recorder.cpp:297-302 | one round pushes a copy of the last color frame, with its size, when the color pipe is alive and a color frame was seen, unless the ring is full |
| Recording.Recorder.DuplicateGrayOnce | gcv_reshade/recorder.cpp:303-308 | the same for the gray ring |
| Recording.Recorder.DuplicateRound | gcv_reshade/recorder.cpp:296-309 | one round extends the copies made by the earlier rounds by exactly what fits |
| Recording.Recorder.Duplicate | gcv_reshade/recorder.cpp:294-310 | each ring gains DuplicateCount byte-identical copies of its last frame at the back, enqueued grows by their number, and nothing else changes |
| Recording.Recorder.CacheDepthFrame | gcv_reshade/recorder.cpp:183-196 | the frame joins the cache; a cache that reaches 30 frames is flushed as one group, so the cache never holds 30 frames after a call |
| Recording.Recorder.PushRawDepth | gcv_reshade/recorder.cpp:177-197 | no effect unless running with data and positive size; else width*height samples become one cached frame, and the thirtieth frame flushes the cache as one group with the next id |
| Recording.Recorder.LogAction | gcv_reshade/recorder.cpp:312-318 | nothing is written while actions.csv is closed; otherwise one row for the frame is appended |
| Recording.Recorder.AppendCameraLine | gcv_reshade/recorder.cpp:364-367 | the record is appended to cam.jsonl exactly when it is open |
| Recording.Recorder.WriteCameraFile | gcv_reshade/recorder.cpp:376-383 | the per-frame file holds the record exactly when it opens |
| Recording.Recorder.LogCameraJson | gcv_reshade/recorder.cpp:351-388 | while running, a stampable record goes stamped to cam.jsonl when open and to out_dir/frame_NNNNNN_camera.json when that opens; otherwise (stopped, or the stamping throws) nothing is written |
| Recording.Recorder.QPop | gcv_reshade/recorder.cpp:117-124 | a pop on either ring succeeds exactly when a frame waits, and returns the oldest frame (FIFO) |
| Recording.Recorder.WriteColorFrame | gcv_reshade/recorder.cpp:324-331 | a non-empty frame reaches a live pipe; a good write records its bytes and counts it as written, and a failed one clears the writer's flag |
| Recording.Recorder.WriteGrayFrame | gcv_reshade/recorder.cpp:340-345 | the same for the gray pipe, without a written count |
| Recording.Recorder.ColorLoopStep | gcv_reshade/recorder.cpp:320-334 | one pass pops the oldest color frame if any, and hands it to the pipe as WriteColorFrame states |
| Recording.Recorder.DepthLoopStep | gcv_reshade/recorder.cpp:336-348 | one pass of the gray writer, likewise |
| Recording.Recorder.H5WriterStep | gcv_reshade/recorder.cpp:234-250 | with its flag up and a group queued, the archival writer takes the oldest group and names its file from the group's directory and id; otherwise it takes nothing |
| RecorderText.JoinPathSlashShape | gcv_reshade/recorder.cpp:10-13 | the joined path starts with the input; it is the input plus one '/', or the input itself, and the latter exactly when the input is empty or already ends in '/' or '\\' |
| RecorderText.JoinPathSlashIdempotent | gcv_reshade/recorder.cpp:10-13 | joining twice equals joining once |
| RecorderText.EnsureDirPath | gcv_reshade/recorder.cpp:15-18 | the rewritten path is WindowsDirPath of the input |
| RecorderText.WindowsDirPathShape | gcv_reshade/recorder.cpp:15-18 | the requested directory has no '/', ends in '\\' when non-empty, and starts with the input with every '/' turned into '\\' |
| RecorderText.WindowsDirPathIdempotent | gcv_reshade/recorder.cpp:15-18 | normalising a normalised path changes nothing |
| RecorderText.JoinThenWindowsDirPath | gcv_reshade/recorder.cpp:51-52 | joining a slash before the directory is created does not change the directory requested |
| RecorderText.ActionRowSplit | gcv_reshade/recorder.cpp:315-317 | a row ends in a newline, and what precedes it splits at ',' into exactly the printed fields |
| RecorderText.ActionRowFields | gcv_reshade/recorder.cpp:312-318 | a row has the eight header columns: the frame index in decimal (read back as itself), the time in signed decimal, then key bits 0 to 5 |
| RecorderText.KeyBitMeaning | gcv_reshade/recorder.cpp:314 | a key field is "1" exactly when its bit of the mask is set, else "0" |
| RecorderText.ActionHeaderColumns | gcv_reshade/recorder.cpp:60 | the header splits into frame_idx, time_us, w, a, s, d, shift, space |
| RecorderText.ActionRowIgnoresHighBits | gcv_reshade/recorder.cpp:314-317 | mask bits above bit 5 never reach the CSV |
| RecorderText.FrameCameraFileNameFits | gcv_reshade/recorder.cpp:371-373 | the camera file name of any 64-bit index fits the 128-byte buffer, so truncation never happens |
| RecorderText.FrameCameraFileNameIndex | gcv_reshade/recorder.cpp:372-373 | the name has three '_' fields, and the middle one is the index zero-padded to at least six digits, read back as the index |
| RecorderText.DepthGroupFileNameId | gcv_reshade/recorder.cpp:249-250 | the file name is the directory plus "/depth_group_", at least six digits reading back as the group id, then ".h5" |
| DepthGroups.BuildGroup | gcv_reshade/recorder.cpp:205-220 | the group has T = cache length, H and W and the first index and time of the first frame, the last index and time of the last frame, the given id, and all frames' data concatenated in cache order |
| DepthGroups.FlattenLength | gcv_reshade/recorder.cpp:217-220 | with frames of n samples each, the group data has T*n samples |
| DepthGroups.FlattenSlice | gcv_reshade/recorder.cpp:218-220 | the slice [k*n, (k+1)*n) of the group data is exactly frame k's samples |
| DepthGroups.GroupLayout | gcv_reshade/recorder.cpp:205-220 | a group built from frames of one size is a consistent [T, H, W] array: frame k sits at offset k*H*W |
| CameraData.StatusValue | gcv_utils/camera_data_struct.h:11-17 | every status has a value between 0 and 4 |
| CameraData.StatusOfValue | gcv_utils/camera_data_struct.h:11-17 | an enumerator exists exactly for the values 0 to 4 |
| CameraData.StatusValuesRoundTrip | gcv_utils/camera_data_struct.h:11-17 | the values are 0 to 4 in declaration order, and value and enumerator convert both ways |
| CameraData.DefaultCamMatrixData | gcv_utils/camera_data_struct.h:19-34 | a fresh record is uninitialised (0), both fields of view are -9999, it is in matrix layout, and its position, angles and aspect ratio are zero |
| CameraData.IntrinsicStatusOfDefault | gcv_utils/camera_data_struct.h:22-24 | a fresh record has no intrinsics; setting either field of view to a positive value gives it some, and a non-positive one does not |
| CameraData.RowMajorIndex | gcv_utils/camera_data_struct.cpp:21-30 | the flattened matrix has 12 entries, entry r*4+c is matrix(r, c), and reading it back as rows gives the matrix |
| CameraData.FlattenMatrix | gcv_utils/camera_data_struct.cpp:21-30 | the nested loop pushes the 3x4 matrix in row-major order |
| CameraData.IntoJson | gcv_utils/camera_data_struct.cpp:6-32 | on null or an object: the Euler layout writes fov, aspect_ratio, location {x,y,z} and rotation {pitch,roll,yaw}; the matrix layout writes the 12 row-major entries and fov_v_degrees; every other key is kept as it was; any other document throws |
| Clouds.Mergeable | python_threedee/visualize_camera_fix.py:187-189 | world points are always merged, and colors exactly when every cloud has them |
| Clouds.Column | python_threedee/visualize_camera_fix.py:191-193 | the arrays listed for a key are the clouds' arrays under that key, in order |
| Clouds.Concatenate | python_threedee/visualize_camera_fix.py:194 | np.concatenate raises ValueError exactly on an empty list or on arrays whose rows differ in width, and otherwise has as many rows as the arrays together |
| Clouds.FlattenAppend | python_threedee/visualize_camera_fix.py:194 | concatenation is in order: joining two lists of arrays joins their concatenations |
| Clouds.FlattenPlacesRows | python_threedee/visualize_camera_fix.py:194 | row j of array i lands right after the rows of the arrays before it |
| Clouds.ConcatenateAll | python_threedee/visualize_camera_fix.py:194 | the final comprehension keeps the keys, succeeds exactly when every key's list is non-empty and of one width, and otherwise raises ValueError |
| Clouds.ColumnsConcatenable | python_threedee/visualize_camera_fix.py:190-194 | the per-key lists gathered from the clouds concatenate exactly when, for every merged key, the clouds' arrays have one width |
| Clouds.AppendCloud | python_threedee/visualize_camera_fix.py:192-193 | a cloud adds its array to the list of every mergeable key, and raises KeyError exactly when it lacks one |
| Clouds.MergeList | python_threedee/visualize_camera_fix.py:187-194 | an empty list raises ValueError; a cloud without world points raises KeyError; a merged key whose arrays differ in width raises ValueError; otherwise the result is the merged cloud |
| Clouds.MergedWorldPointsAppend | python_threedee/visualize_camera_fix.py:190-194 | the world points of a + b are those of a followed by those of b, and their row count is the sum |
| Clouds.MergedKeys | python_threedee/load_point_cloud_new.py:178-186 | the merge holds world points, holds colors exactly when every cloud has them, holds nothing else, has the total row count, and a single cloud keeps its points |
| VisualizeCameraFix.CandidateOfPass | python_threedee/visualize_camera_fix.py:223-231 | pass (perm, sx, sy, sz) builds candidate 8*perm + 4*sx + 2*sy + sz, the signed permutation of that pass |
| VisualizeCameraFix.SignedPermutationDetValue | python_threedee/visualize_camera_fix.py:233 | the determinant of a signed permutation matrix is the permutation's sign times the product of the signs |
| VisualizeCameraFix.SignedPermutationDet | python_threedee/visualize_camera_fix.py:233 | every signed permutation matrix passes the determinant ±1 check |
| VisualizeCameraFix.SignedPermutationInjective | python_threedee/visualize_camera_fix.py:228-231 | a signed permutation matrix determines its permutation and its signs |
| VisualizeCameraFix.CandidateInjective | python_threedee/visualize_camera_fix.py:223-236 | the 48 candidates are pairwise distinct |
| VisualizeCameraFix.CandidateFresh | python_threedee/visualize_camera_fix.py:235 | no candidate equals an earlier one, so the de-duplication never drops one |
| VisualizeCameraFix.PermsComplete | python_threedee/visualize_camera_fix.py:223 | every permutation of {0, 1, 2} is one of the six the loop goes through |
| VisualizeCameraFix.PlaceSigns | python_threedee/visualize_camera_fix.py:228-231 | the writes of one pass give s_i at (i, perm[i]) and zeros elsewhere |
| VisualizeCameraFix.AddCandidate | python_threedee/visualize_camera_fix.py:228-236 | every pass appends its candidate |
| VisualizeCameraFix.Generate48Orientations | python_threedee/visualize_camera_fix.py:219-238 | the result is the 48 candidates, in loop order |
| VisualizeCameraFix.OrientationsAreSignedPermutations | python_threedee/visualize_camera_fix.py:223-237 | exactly 48 matrices; each is a signed permutation matrix with determinant ±1; no two are equal; every signed permutation matrix is listed |
| VisualizeCameraFix.ApplyTransformToCam2World | python_threedee/visualize_camera_fix.py:19-25 | the result exists exactly when cam2world is 4x4 and S is 3x3, and is 4x4 |
| VisualizeCameraFix.ApplyEntry | python_threedee/visualize_camera_fix.py:23-25 | entry (i, j) is the first three entries of row i of cam2world times column j of S, or cam2world's entry (i, 3) when j = 3 |
| VisualizeCameraFix.ApplyTransformEntries | python_threedee/visualize_camera_fix.py:19-25 | the translation column is kept, and the first three columns are cam2world's first three columns times S |
| VisualizeCameraFix.ApplyIdentity | python_threedee/visualize_camera_fix.py:19-25 | the identity change of axes leaves cam2world as it is |
| VisualizeCameraFix.ApplyTwice | python_threedee/visualize_camera_fix.py:19-25 | applying S and then T is applying S @ T once |
| VisualizeCameraFix.MergeCloudsWorldPoints | python_threedee/visualize_camera_fix.py:184-194 | a dict comes back unchanged; an empty list raises ValueError; a cloud without world points raises KeyError; a merged key whose arrays differ in width raises ValueError; otherwise world points (and colors when all have them) are concatenated in order |
| LoadPointCloudNew.Insert | python_threedee/load_point_cloud_new.py:47 | inserting adds exactly one copy of the element |
| LoadPointCloudNew.InsertSorted | python_threedee/load_point_cloud_new.py:47 | insertion keeps a list ascending |
| LoadPointCloudNew.Sort | python_threedee/load_point_cloud_new.py:47 | sorted() gives an ascending list with the same elements and counts |
| LoadPointCloudNew.SortedUnique | python_threedee/load_point_cloud_new.py:47 | two ascending lists with the same elements are equal, so sorted() has one possible result |
| LoadPointCloudNew.DepthNames | python_threedee/load_point_cloud_new.py:31-34 | the names kept are exactly the listed names starting "frame_" and ending "_depth.npy" |
| LoadPointCloudNew.AppendIndex | python_threedee/load_point_cloud_new.py:39-44 | a name adds int of its second '_' field, and nothing when that field is missing or not an int literal |
| LoadPointCloudNew.BuildNpyFrameList | python_threedee/load_point_cloud_new.py:29-47 | FileNotFoundError exactly when no name matches; otherwise an ascending list holding exactly the parsed indices of the matching names |
| LoadPointCloudNew.DepthNpyNameIsDepthName | python_threedee/load_point_cloud_new.py:59 | a depth file named from index n passes the scan's filter |
| LoadPointCloudNew.DepthNpyNameIndex | python_threedee/load_point_cloud_new.py:41 | the scan reads index n back from the depth file named from n |
| LoadPointCloudNew.ScanRecoversIndices | python_threedee/load_point_cloud_new.py:29-47 | scanning a listing of depth files named from indices ns recovers ns, in order |
| LoadPointCloudNew.ScanOfExported | python_threedee/load_point_cloud_new.py:29-47 | any scan result for the depth files of ascending indices ns is ns itself |
| LoadPointCloudNew.Keep | python_threedee/load_point_cloud_new.py:251 | a kept index was available and is wanted |
| LoadPointCloudNew.KeepCounts | python_threedee/load_point_cloud_new.py:251 | every wanted occurrence is kept and nothing else |
| LoadPointCloudNew.KeepPart | python_threedee/load_point_cloud_new.py:254 | the selection is part of the available indices and an ascending list stays ascending |
| LoadPointCloudNew.KeepSorted | python_threedee/load_point_cloud_new.py:251 | the comprehension keeps the order of an ascending list |
| LoadPointCloudNew.KeepMembers | python_threedee/load_point_cloud_new.py:254 | an index is selected exactly when it is available and wanted |
| LoadPointCloudNew.SelectFrames | python_threedee/load_point_cloud_new.py:247-254 | "all" keeps every index; "a:b" raises ValueError unless it is exactly two int literals around one ':'; a comma list never fails |
| LoadPointCloudNew.SelectFramesContents | python_threedee/load_point_cloud_new.py:247-254 | "a:b" keeps every occurrence of an index in [a, b) and nothing else, a comma list every occurrence of a listed index; order is kept |
| LoadPointCloudNew.WantedTokens | python_threedee/load_point_cloud_new.py:253 | a token that is all digits once stripped is wanted, and int() reads its decimal value |
| LoadPointCloudNew.MergeCloudsWorldPoints | python_threedee/load_point_cloud_new.py:171-186 | a dict comes back unchanged; an empty list gives None; a cloud without world points raises KeyError; a merged key whose arrays differ in width raises ValueError; otherwise world points (and colors when all have them) are concatenated in order |
| PyText.ParseIntOfDigits | python_threedee/load_point_cloud_new.py:253 | int() of an ASCII digit string is its decimal value |
| PyText.ParseIntOfZeroPadded | python_threedee/load_point_cloud_new.py:41 | int() of a zero-padded decimal is the number |

## Left out

- **ffmpeg pipe.** `FfmpegPipe` (`start_bgra`, `start_gray`, `write`, `alive`, `stop`) is not part of this model. Whether a pipe starts, stays alive or accepts a write is a parameter or a flag. Pipe geometry and frame rate are not passed on.
- **File and HDF5 output.**
  - Not modelled: opening `actions.csv` with `_fsopen`, its buffering, the `ofstream` handles, `SHCreateDirectoryExA`, HDF5 datasets, chunking, compression and attributes, and the log messages.
  - What is modelled: the lines written, the file names and paths, and the group records.
  - The JSON text `dump()` produces is not modelled. Records are kept as JSON values.
- **Threads.** Threads, atomics and their memory orders, the critical section, the mutex and the condition variable are left out, and so is `Sleep`.
  - Each ring, the depth cache and the archival queue are single-threaded state.
  - The writer loops are modelled one pass at a time, so there is no claim that every queued frame or group is eventually written.
  - The archival writer may exit with groups still queued.
- Recording.Recorder.Destroy: follows the destructor as written. The archival writer is told to stop and is joined before `stop()` flushes a partial group, so that group is never written. `stop()` also enters a critical section the destructor has already deleted; that is not modelled.
- Recording.Recorder.Stop: uses the corrected join of the writer threads (see Findings). The recorder sets `running_` first; the model clears it after the writers, cache and logs are done, which leaves the same final state.
- **Start failures.** Starting a writer thread cannot fail in the model. A failed `std::thread` construction would throw.
- **64-bit counters.** `enqueued_`, `written_` and `group_counter_` are unbounded naturals. Their 64-bit wrap-around would need 2^64 frames.
- **The stop() summary log.** The enqueued/written summary that `stop()` logs is not modelled.
- **Frame pacing and pixel conversion.** The code that decides `n` for `duplicate(n)`, and the code that converts pixels into the BGRA and gray buffers, is not part of this model.
- Recording.Recorder.PushColor: requires the caller's buffer to hold at least w*4*h bytes. The source reads that many bytes unchecked (the same holds for PushDepth, w*h bytes, and PushRawDepth, width*height samples).
- **Python strings.** `int()` and `str.strip()` are modelled for ASCII whitespace, an optional sign, and digits with single underscores. Unicode digits and spaces are not modelled.
- **`isdigit()`.** Modelled as all ASCII digits and non-empty.
- **Float comparisons.** In `generate_48_orientations`, `np.allclose` on determinants and matrices with entries 0 and ±1 is exact equality here. The float determinant itself is not modelled.
- **Float matrix arithmetic.** `apply_transform_to_cam2world` is proved over exact reals, not float64.
- LoadPointCloudNew.BuildNpyFrameList: the names are not sorted before the loop. The script sorts them only to order the loop, and its result is sorted again, so the result is the same.
- **`print` output.** The progress output of the scripts is left out.
- **Uninitialised matrix.** The matrix member of a fresh camera record has no initialiser in the source. Its entries are a parameter of `DefaultCamMatrixData`.
- Clouds.Concatenate: an array with no rows carries no width in the model, so it is accepted next to arrays of any width. numpy also compares the column count of an empty (0, w) array. Both scripts build every merged array as N x 3 (python_threedee/load_point_cloud_new.py:138-143), so their merges do not meet the difference.
- **The rest of both scripts.** The float back-projection of depth into points, random subsampling, file loading and visualisation are left out.

## Findings

| source | as written | input that shows it | evidently intended | confidence | as-written member | corrected member |
|---|---|---|---|---|---|---|
| gcv_reshade/recorder.cpp:88-89 | stop() joins a writer thread only if exchanging its run flag to false finds it set. A writer that left after a failed pipe write (recorder.cpp:325-327) has cleared that flag itself, so its std::thread is never joined and stays joinable | start the recorder, push one color frame so the writer starts, and let the pipe write fail; then stop() and destroy the recorder (or start again and push a color frame, which assigns a new std::thread over the joinable one): std::terminate | stop() joins every joinable writer thread, as its signal-then-join shutdown promises | not executed | WriterThreads.StopStreamAsWrittenAfterWriteFailure | WriterThreads.StopStreamLeavesNothingToJoin |
