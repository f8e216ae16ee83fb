# bag2rrd, modelled in Dafny

bag2rrd converts ROS1 bag files into Rerun recordings. This project models the
logic in the middle of that conversion and proves properties of it:

- **Conversion bookkeeping** (`Convert`, over the `Bag` record stream).
  - The configuration checks, then the first pass that finds the session start.
  - The topic and time-window filter and the per-type counters.
  - The segment state machine: it rotates, numbers and names flush jobs. With only a unit threshold k, the number of parts is ceil(m / k).
- **The transform buffer** (`Tf`, with `TfMessage`, `TfSelect` and `Reach`).
  - The `tf2_msgs/TFMessage` decoder.
  - Static edges that never close a directed cycle, and dynamic samples pruned to a time window.
  - Breadth-first path finding over all edge keys, edge lookup with inversion, and sample selection in the nearest, interpolate and exact modes.
- **The ROS1 message decoders** (`Images`, `PointCloud`, `LaserScan`, `Nav`, `Imu`, `Gps`, on the `Wire` primitives).
  - Little-endian cursor readers with their bounds checks, and the pixel-format rewrites.
  - The field table and colour unpacking of point clouds, and the line strips of a laser scan.
  - The rename tables, the quaternion validity test, the GPS service bitmask, and the GPS origin and path state.
- **The small commands** (`Validate`, `RosbagsIo`): the `validate` checks, chunk counting in `diagnose`, and the per-topic statistics of `inspect`.
- **Shared helpers** (`Strings`, `Options`): the string operations the mappings use.

How the model represents things:

- **Bytes** are a sequence of `Byte` values.
- **Floats.** An `f32` or `f64` is its little-endian bit pattern. Whether it is finite, and its real value when it is, are decoded exactly from those bits by IEEE-754. Floating-point arithmetic is not performed.
- **Computed geometry is symbolic.** Rigid transforms, IMU magnitudes, scan coordinates and ENU points are symbolic terms. Each says what it is computed from, not the matrix or number that would result.
- **State the source mutates in place is imperative Dafny.** The transform buffer is a `TfGraph` class and the GPS state is a `GpsState` class. Loops become methods with invariants, each proved against a functional specification.
- **The decoders' effect on the conversion** is an abstract outcome (decoded, skipped or failed), because the calls in src/convert.rs:296-338 do not match the decoders' signatures.

## Model

| member | source | states |
|---|---|---|
| Wire.U16At | src/mappings/gps.rs:201-208 | two bytes read as a little-endian `u16`: the value is below 2^16 |
| Wire.U32At | src/mappings/nav.rs:282-289 | four bytes read as a little-endian `u32`: the value is below 2^32 |
| Wire.U32LeRoundTrip | src/mappings/tf.rs:484-502 | reading back the four little-endian bytes written for a length, as the test payload builder does, gives that length |
| Wire.U16Inside | src/mappings/gps.rs:201-208 | a `u16` encoded at any position is read back by `read_u16_le`, whatever surrounds it |
| Wire.U32Inside | src/mappings/tf.rs:392-399 | a `u32` encoded at any position is read back by `read_u32_le`, whatever surrounds it |
| Wire.StrEnd | src/mappings/tf.rs:364-369 | a length-prefixed string at the end of a buffer reads back as its length followed by its bytes |
| Wire.I8Of | src/mappings/gps.rs:192-199 | `byte as i8` lies in [-128, 128), is negative exactly for bytes >= 128, and is congruent to the byte modulo 256 |
| Wire.FiniteExponent32 | src/mappings/laserscan.rs:86 | `f32::is_finite` holds exactly when the biased exponent is not 255 |
| Wire.FiniteExponent64 | src/mappings/imu.rs:112-117 | `f64::is_finite` holds exactly when the biased exponent is not 2047 |
| Wire.Value32 | src/mappings/laserscan.rs:99-111 | the IEEE-754 value of four little-endian bytes is a finite real exactly when the bytes are finite |
| Wire.Value64 | src/mappings/nav.rs:291-298 | the IEEE-754 value of eight little-endian bytes is a finite real exactly when the bytes are finite |
| Wire.ConstantValues | src/mappings/imu.rs:228-253 | the bit patterns used for 0.0, 1.0 and `f32::NAN` denote 0, 1 and NaN |
| Wire.Text | src/mappings/nav.rs:275-280 | `String::from_utf8_lossy` of a name keeps one character per byte, with the same code |
| Wire.ReadU8 | src/mappings/pointcloud.rs:222-229 | succeeds exactly when a byte remains; returns it and advances by 1; otherwise a truncation error |
| Wire.ReadI8 | src/mappings/gps.rs:192-199 | succeeds exactly when a byte remains; returns it as a signed byte and advances by 1 |
| Wire.ReadU16 | src/mappings/gps.rs:201-208 | succeeds exactly when two bytes remain; returns the little-endian value and advances by 2 |
| Wire.ReadU32 | src/mappings/laserscan.rs:113-125 | succeeds exactly when four bytes remain; returns the little-endian value and advances by 4 |
| Wire.ReadF32 | src/mappings/laserscan.rs:99-111 | succeeds exactly when four bytes remain; returns those bytes as an `f32` and advances by 4 |
| Wire.ReadF64 | src/mappings/gps.rs:174-189 | succeeds exactly when eight bytes remain; returns those bytes as an `f64` and advances by 8 |
| Wire.ParseString | src/mappings/nav.rs:275-280 | a short length read is a truncation error; a length past the end is the slice panic; otherwise it returns the bytes after the length and the cursor just past them |
| Wire.ReadString | src/mappings/pointcloud.rs:236-244 | both the length read and the slice are checked: it succeeds exactly when both fit, and otherwise gives a truncation error |
| Wire.SkipHeader | src/mappings/laserscan.rs:127-136 | errors exactly when the frame-id length at offset 12 cannot be read; otherwise it returns 16 plus that length, even past the end |
| Strings.EnsureLeadingSlash | src/mappings/images.rs:115-121 | the result starts with '/'; it is the topic itself when that already starts with '/', and '/' followed by the topic otherwise |
| Strings.EnsureLeadingSlashIdempotent | src/mappings/gps.rs:235-241 | adding the leading '/' twice is the same as adding it once |
| Strings.TrimLeadingSlashes | src/mappings/pointcloud.rs:278-280 | the result does not start with '/'; it is a suffix of the input, and exactly the characters dropped are '/' |
| Strings.TrimLeadingSlashesIdempotent | src/mappings/laserscan.rs:138-140 | trimming leading '/' twice is the same as trimming once |
| Strings.TrimTrailingSlashes | src/mappings/gps.rs:61 | `trim_end_matches('/')`: the result is a prefix that does not end in '/', and only '/' were dropped |
| Strings.IndexOf | src/mappings/tf.rs:284 | the first occurrence of a character, or none exactly when the character is absent |
| Strings.SplitOnce | src/mappings/tf.rs:284 | `split_once` gives a result exactly when the separator occurs: the text before it holds no separator, and text, separator and rest rebuild the input |
| Strings.Lookup | src/mappings/tf.rs:282-289 | the rename-table loop: none exactly when no entry's text before '=' is the key, otherwise the value of the first entry that has it |
| Strings.LookupSkip | src/mappings/nav.rs:149-156 | an entry without the key, or with no '=', at the head of the table does not change the lookup |
| Strings.ToLower | src/mappings/images.rs:85 | `to_ascii_lowercase` keeps the length and lowers each ASCII letter in place |
| Strings.ToLowerIdempotent | src/mappings/images.rs:85 | lowercasing twice is the same as lowercasing once |
| Strings.ReplaceChar | src/convert.rs:117 | replacing every slash by an underscore keeps the length, substitutes every occurrence, and leaves none behind |
| Strings.Split | src/mappings/gps.rs:120 | `split(',')` gives at least one piece, none holds the separator, and joining the pieces with it restores the input |
| Strings.SplitJoin | src/mappings/gps.rs:120 | splitting the join of separator-free parts returns those parts |
| Strings.Trim | src/mappings/gps.rs:124-126 | `trim`: the result is the input with some leading and some trailing characters removed, all of them whitespace, and it neither starts nor ends with whitespace; so exactly the outer whitespace goes |
| Strings.Decimal | src/convert.rs:124 | the decimal form of a number is a nonempty string of digits |
| Strings.DecimalRoundTrip | src/convert.rs:124 | the decimal form of a number reads back as that number |
| Strings.Pad4 | src/convert.rs:109-114 | `{:04}` yields only digits |
| Strings.Pad4RoundTrip | src/convert.rs:109-114 | the zero-padded part number has at least four digits, exactly four below 10000, and reads back as the number |
| Strings.Pad4Injective | src/convert.rs:109-120 | distinct part numbers give distinct padded numbers, so segment file names never collide |
| Validate.ValidateRrd | src/validate.rs:14-63 | passes exactly when the path exists, its metadata can be read, it is a file, it is nonempty, it opens, and the first read succeeds with at least 8 bytes; otherwise the first check that fails decides, in the source's order, and a failing metadata, open or read call is returned as that I/O error |
| Validate.Descents | src/validate.rs:89-93 | every timestamp error names an index i >= 1 with ts[i] < ts[i-1] |
| Validate.CheckStamps | src/validate.rs:89-93 | the timestamp loop pushes exactly the descent errors, in index order |
| Validate.CheckEntity | src/validate.rs:79-94 | one entity's errors are the leading-slash error, then the space error, then the timestamp errors |
| Validate.ValidateRrdMock | src/validate.rs:68-107 | a missing file fails before any check; otherwise the pushed errors are those of every entity in order, and the result is Ok exactly when none was pushed |
| Validate.DescentsEmpty | src/validate.rs:89-93 | no timestamp error exactly when the timestamps never go backwards; equal neighbours are accepted |
| Validate.DescentsCount | src/validate.rs:89-93 | the number of timestamp errors is the number of adjacent pairs that go backwards |
| Validate.EntityErrorsEmpty | src/validate.rs:79-94 | an entity gives no error exactly when its path starts with '/', holds no space, and its timestamps are non-decreasing |
| Validate.AllErrorsEmpty | src/validate.rs:96-107 | the mock validation passes exactly when every entity is well formed |
| Validate.MockScenarioValid | src/validate.rs:124-130 | the two well-formed entities of the unit test pass |
| Validate.MockScenarioNoSlash | src/validate.rs:132-138 | the entity "odom" without a leading '/' makes the validation fail |
| Validate.MockScenarioBackwards | src/validate.rs:140-145 | timestamps 1, 3, 2 give exactly one error, at index 2 |
| Bag.MessagesOfSome | src/rosbags_io.rs:89-90 | a chunk's records read completely exactly when none of them fails to read, and then there is one record per item |
| Bag.FlattenSome | src/rosbags_io.rs:120-155 | the bag reads completely exactly when no chunk record and no message fails to read |
| Bag.ReadMessages | src/rosbags_io.rs:120-131 | the nested chunk and message loops with `?` yield every message record in order, or stop with an error at the first failed read |
| Bag.CollectConnections | src/rosbags_io.rs:73-99 | the connection pass builds the map from every connection record, inserted in order |
| Bag.ConnectionMapLastWins | src/rosbags_io.rs:92-95 | an id is in the connection map exactly when some record declares it, and it maps to the topic and type of the last such record |
| RosbagsIo.DiagnoseBag | src/rosbags_io.rs:24-46 | counts chunk records up to and including the first one that fails; the successful ones are all readable, the attempted count exceeds them by at most one, and by exactly one when a failed chunk was met |
| RosbagsIo.InspectBag | src/rosbags_io.rs:59-195 | a failed read gives an error; otherwise the summary is the statistics pass over all records with the connection map of the whole bag, made relative |
| RosbagsIo.StatisticsPass | src/rosbags_io.rs:112-155 | the second pass computes the running totals record by record: total, per-topic stats, bag start, first and last time |
| RosbagsIo.Summarize | src/rosbags_io.rs:157-172 | reference definition of the printed summary (relative first and last times, duration, totals and shifted topic statistics); Relativize is proved to compute it, and SummaryTimes is proved about it |
| RosbagsIo.Relativize | src/rosbags_io.rs:157-172 | relative times subtract the bag start when there is one, and the duration is last minus first |
| RosbagsIo.ShiftAll | src/rosbags_io.rs:162-165 | every topic's first and last are shifted by the origin, and the set of topics is unchanged |
| RosbagsIo.TotalCounts | src/rosbags_io.rs:132-150 | `total` counts each data record whose connection is unknown once, and each one whose connection is known twice |
| RosbagsIo.StatCounts | src/rosbags_io.rs:135-145 | a topic has statistics exactly when some data record resolves to it, and its count is the number of such records |
| RosbagsIo.StatBounds | src/rosbags_io.rs:146-147 | a topic's first and last are the minimum and the maximum of its message times, so first <= last |
| RosbagsIo.StatType | src/rosbags_io.rs:139-144 | a topic's type is the type of the connection of its first message |
| RosbagsIo.BagStartIsMinimum | src/rosbags_io.rs:135-137 | the bag start is the earliest time of a data record with a known connection, and stays infinite exactly when there is none |
| RosbagsIo.SummaryTimes | src/rosbags_io.rs:157-172 | with at least one resolved message the printed start is 0 and the duration is the end; with none the start is +inf and the duration -inf |
| RosbagsIo.LastBound | src/rosbags_io.rs:148-149 | the global first time never exceeds the global last time, and the last stays 0 while there is no first |
| Convert.CheckConfig | src/convert.rs:66-75 | a zero segment size, then a zero byte threshold, then zero flush workers is reported, in that order; no error exactly when all three are acceptable |
| Convert.PartNamesDistinct | src/convert.rs:109-120 | distinct segment indices give distinct `<stem>_part<NNNN>.<ext>` final names and distinct temporary names |
| Convert.TmpNameFlattensBag | src/convert.rs:115-120 | the bag path inside the temporary name keeps its length and holds no '/' |
| Convert.EarliestIsMinimum | src/convert.rs:187-198 | the session start is the minimum time over all message-data records, whatever their connection, and is unset exactly when there are none |
| Convert.DataCountZero | src/convert.rs:194 | the message count is 0 exactly when there is no message-data record |
| Convert.FirstPass | src/convert.rs:187-198 | the first pass computes the earliest time and the number of message-data records |
| Convert.Classify | src/convert.rs:212-228 | a data record with an unknown connection is counted as filtered out; a known one is admitted exactly when the include list is empty or names its topic, the exclude list does not, and the relative time lies in the window (both ends inclusive, a missing end unbounded); an admitted record's kind is that of its type name |
| Convert.Run | src/convert.rs:208-402 | reference definition of the second pass over the message records, or none once a step aborts; SecondPass is proved to compute it, and RunCoherent, RunFiltered, RunKindCounts, RunUnits, RunTopics, RunAborts and PartsCeil are proved about it |
| Convert.Process | src/convert.rs:208-402 | one iteration of the second pass, with its `continue`s, computes the step function, and aborts exactly when the step aborts |
| Convert.Deliver | src/convert.rs:239-379 | after the filters in a real run: aborts exactly when a fallible mapping fails; otherwise it opens the recording, dispatches on the type name and checks for rotation |
| Convert.SecondPass | src/convert.rs:206-406 | the loop over all records computes the run, and stops at the first aborting record |
| Convert.AbortIsFinal | src/convert.rs:284-338 | once a mapping error has ended the pass, the whole pass has ended with it |
| Convert.ConvertBag | src/convert.rs:23-507 | `convert_bag` without its I/O: a read error first, then the configuration checks, then the two passes and the final flush |
| Convert.RotateCoherent | src/convert.rs:353-379 | the rotation check re-establishes the invariant of the pass: one job per finished segment under its own names, counters below the thresholds, and every counted byte in a job or the open segment |
| Convert.StepCoherent | src/convert.rs:208-402 | every step of the second pass keeps that invariant |
| Convert.RunCoherent | src/convert.rs:206-406 | the invariant holds after every prefix of the second pass |
| Convert.StepRotation | src/convert.rs:353-379 | a step submits a job exactly when it counts a message of a dispatched kind and the grown counters reach a threshold; the job then carries index + 1, the segment's names and byte count, the index advances and both counters restart at 0 |
| Convert.StepFiltered | src/convert.rs:400-401 | one step adds 1 to `filtered_out` exactly for a data record with an unknown connection |
| Convert.RunFiltered | src/convert.rs:400-401 | `filtered_out` is the number of data records with an unknown connection |
| Convert.RunDryCounts | src/convert.rs:231-237 | in a dry run `kept_msgs` is the number of admitted records, and no counter other than `filtered_out` moves |
| Convert.DispatchCounts | src/convert.rs:259-350 | dispatching adds 1 to `kept_msgs` only for the five listed types, 1 to that type's counter, and 1 to `skipped_type` for any other type |
| Convert.StepKindCounts | src/convert.rs:259-350 | outside a dry run one step adds 1 to `kept_msgs` for an admitted record of a dispatched kind, and 1 to the counter of its own class |
| Convert.RunKindCounts | src/convert.rs:259-350 | outside a dry run `kept_msgs` counts the admitted records of the five dispatched types, each type counter its own type, and `skipped_type` every other admitted type (transforms, odometry, poses, paths, IMU) |
| Convert.StepUnits | src/convert.rs:353-379 | with only a unit threshold k, a step adds 1 to `segment_index * k + segment_images` for a record of a dispatched kind and 0 otherwise |
| Convert.RotateSkipped | src/convert.rs:354-358 | a rotation check that submits no job leaves the state as it was |
| Convert.RunUnits | src/convert.rs:353-379 | with only a unit threshold k, `segment_index * k + segment_images` is the number of dispatched-kind records |
| Convert.StepTopics | src/convert.rs:230 | one step adds the topic of an admitted record to `topics` and nothing else |
| Convert.RunTopics | src/convert.rs:230 | `topics` holds exactly the topics of the admitted records, whether dry run or not |
| Convert.RunAborts | src/convert.rs:277-338 | the pass aborts exactly when some admitted record of a fallible kind fails its mapping outside a dry run |
| Convert.DryRun | src/convert.rs:231-237 | a dry run never aborts, opens no recording, submits no job, keeps exactly the admitted records and waits for no job |
| Convert.FinishJobs | src/convert.rs:435-459 | the final flush submits the open segment only when it holds something; then `total_jobs` is the number of jobs submitted, job i is part i + 1 under its names, and the jobs hold every counted byte |
| Convert.FinalJobs | src/convert.rs:435-459 | after any complete second pass the same holds of the submitted jobs; without segmentation no job is submitted and none is waited for |
| Convert.CeilDiv | src/convert.rs:459 | `q * k + u` rounded up to whole multiples of k is q, plus 1 when u > 0 |
| Convert.PartsCeil | src/convert.rs:437-459 | with only a unit threshold k, the number of part files is ceil(m / k) for m records of the dispatched kinds |
| TfMessage.StampedAt | src/mappings/tf.rs:348-354 | a decoded record spans at least 76 bytes and ends inside the payload |
| TfMessage.ParseHeader | src/mappings/tf.rs:356-362 | skips seq and stamp unchecked, then reads the frame id: a truncation error when its length is cut off, the slice panic when the length runs past the end, otherwise the name and the cursor after it |
| TfMessage.ParseVector3 | src/mappings/tf.rs:377-382 | succeeds exactly when 24 bytes remain, returning three consecutive doubles and the cursor 24 further |
| TfMessage.ParseQuaternion | src/mappings/tf.rs:384-390 | succeeds exactly when 32 bytes remain, returning x, y, z, w in that order and the cursor 32 further |
| TfMessage.ParseTransform | src/mappings/tf.rs:371-375 | succeeds exactly when 56 bytes remain: translation then rotation |
| TfMessage.ParseTransformStamped | src/mappings/tf.rs:348-354 | the cursor reader computes the record decoder: header, child frame id, transform, with the first error kept |
| TfMessage.ParseTfMessage | src/mappings/tf.rs:334-346 | the loop decodes records while the cursor is inside the payload, and fails with the first record's error |
| TfMessage.TransformBytesRoundTrip | src/mappings/tf.rs:494-500 | the seven doubles written by the test payload builder read back as the same transform |
| TfMessage.PayloadRoundTrip | src/mappings/tf.rs:484-502 | a payload built as in `create_tf_static_payload` decodes to exactly one transform with the same parent, child and seven values |
| TfMessage.EmptyMessage | src/mappings/tf.rs:341-345 | the empty payload decodes to no transforms |
| TfMessage.TruncatedPayloadFails | src/mappings/tf.rs:392-408 | cutting a test payload anywhere before its end makes decoding fail |
| TfSelect.FirstExact | src/mappings/tf.rs:210 | mode `None`: the first sample within 1e-9 of the query time, and nothing exactly when every sample is at least that far |
| TfSelect.NearestIndex | src/mappings/tf.rs:211-222 | the Nearest selection picks one of the samples |
| TfSelect.BeforeIndex | src/mappings/tf.rs:227-229 | the Before candidate is a sample not after the query time |
| TfSelect.AfterIndex | src/mappings/tf.rs:230-232 | the After candidate is a sample not before the query time |
| TfSelect.NearestIsFirstClosest | src/mappings/tf.rs:211-222 | Nearest finds a sample exactly when there is one; it is at least as close as every sample and strictly closer than every earlier one, so ties go to the earliest |
| TfSelect.BeforeIsLatest | src/mappings/tf.rs:224-233 | Before is the latest sample not after the query time (the first of equal times), and exists exactly when some sample is not after it |
| TfSelect.AfterIsEarliest | src/mappings/tf.rs:224-233 | After is the earliest sample not before the query time (the first of equal times), and exists exactly when some sample is not before it |
| TfSelect.SelectFinds | src/mappings/tf.rs:208-255 | an empty sample list gives nothing in every mode; a nonempty one always gives a transform in Nearest and Interpolate modes |
| TfSelect.InterpolateBrackets | src/mappings/tf.rs:234-248 | interpolation blends exactly the Before and After samples, which bracket the query time and lie more than 1e-9 apart, with a fraction in [0, 1] |
| TfSelect.NearestLoop | src/mappings/tf.rs:212-221 | the loop with `best_diff` computes the Nearest selection |
| TfSelect.BracketLoop | src/mappings/tf.rs:224-233 | the loop computes the Before and After samples together |
| TfSelect.InterpolateSamples | src/mappings/tf.rs:208-255 | `interpolate_samples` in each mode; with both bracket samples too close it falls back to Before, then to After |
| Reach.AddEdge | src/mappings/tf.rs:89 | recording a static edge: p gains child c, and every other entry of the static graph is unchanged |
| Reach.SortedKeys | src/mappings/tf.rs:159 | the keys of a BTreeMap in the order its key iterator yields them (by parent, then child): every key exactly once, in strictly increasing order |
| Reach.ReachTrans | src/mappings/tf.rs:99-117 | reachability over the static graph is transitive |
| Reach.Leaf | src/mappings/tf.rs:110 | a frame without children reaches only itself |
| Reach.AddEdgeReach | src/mappings/tf.rs:88-89 | a walk after adding p -> c either is a walk of the old graph or passes from p to c once |
| Reach.AddEdgeAcyclic | src/mappings/tf.rs:84-89 | adding p -> c when c does not reach p keeps the static graph acyclic |
| Reach.ClosedReach | src/mappings/tf.rs:103-115 | a set of frames closed under the children relation holds everything reachable from its members |
| Reach.ChainPrepend | src/mappings/tf.rs:151-155 | a key step into the start of a chain extends the chain backwards |
| Reach.LinkClosedConnected | src/mappings/tf.rs:158-185 | a set of frames closed under key steps, in either direction, holds every frame connected to a member |
| Tf.StaticAfterStep | src/mappings/tf.rs:70-95 | the static state after the first i+1 transforms of a message is one more step after the first i |
| Tf.StaticStepValid | src/mappings/tf.rs:83-89 | one static transform keeps the edge map and the parent-to-children graph in agreement and the graph acyclic; it is skipped exactly when the child already reaches the parent, and otherwise its edge holds the new transform at time 0 |
| Tf.StaticAfterValid | src/mappings/tf.rs:68-117 | however many static transforms arrive, the static graph never holds a directed cycle and matches the static edge keys |
| Tf.StaticCycleRejected | src/mappings/tf.rs:447-457 | static A -> B and then B -> A leave only the edge A -> B |
| Tf.Retain | src/mappings/tf.rs:122 | a sample stays in an edge's list iff it was there and its time is at least the cutoff |
| Tf.RetainKeepsRecent | src/mappings/tf.rs:119-124 | a list with nothing older than the cutoff is kept whole, so pruning twice with one cutoff equals pruning once |
| Tf.Prune | src/mappings/tf.rs:119-124 | pruning keeps every dynamic edge key, including those whose lists become empty |
| Tf.PruneLoop | src/mappings/tf.rs:121-123 | the loop over all edges maps each edge to its retained samples |
| Tf.AppendedStep | src/mappings/tf.rs:42-55 | appending the first i+1 transforms is one more push after the first i |
| Tf.AppendedEdge | src/mappings/tf.rs:42-55 | after a /tf message an edge exists iff it existed or the message names it, and its list is the old list followed by the message's samples for it in message order |
| Tf.SamplesForHas | src/mappings/tf.rs:50-55 | each transform of a message contributes its sample, stamped with the message time, to its own edge |
| Tf.FreshSamplesKept | src/mappings/tf.rs:40-65 | with a non-negative buffer every transform of a /tf message is still buffered after the message's own pruning |
| Tf.MapFrameToPath | src/mappings/tf.rs:282-289 | the path of the first `frame=path` mapping whose key is the frame, otherwise the frame under the root frame |
| Tf.ParseTfMode | src/mappings/tf.rs:291-298 | exactly the names nearest, interpolate and none are accepted, each naming its mode |
| Tf.ModeNameRoundTrip | src/mappings/tf.rs:291-298 | every mode's name parses back to that mode |
| Tf.PushChildren | src/mappings/tf.rs:110-114 | the stack keeps its old entries below and gains exactly the frame's children |
| Tf.DfsStart | src/mappings/tf.rs:101-102 | the search starts with the child on the stack and nothing visited, and its invariant holds |
| Tf.DfsFound | src/mappings/tf.rs:107-108 | a popped frame is reachable from the child |
| Tf.DfsSkip | src/mappings/tf.rs:104-106 | popping a frame already visited keeps the search invariant |
| Tf.DfsVisit | src/mappings/tf.rs:104-114 | visiting a new frame other than the parent and stacking its children keeps the search invariant |
| Tf.DfsDone | src/mappings/tf.rs:103-116 | an exhausted stack means the parent is not reachable from the child |
| Tf.Discover | src/mappings/tf.rs:159-183 | discovering a frame over a key keeps the parent links a tree ranked by discovery order |
| Tf.BfsAdvance | src/mappings/tf.rs:146-183 | dequeuing a frame other than the target and discovering its neighbours keeps the search invariant and either adds a visited frame or shortens the queue |
| Tf.BfsDone | src/mappings/tf.rs:146-185 | an exhausted queue means the target is not connected to the source by keys in either direction |
| Tf.Reconstruct | src/mappings/tf.rs:148-156 | following parent links back from the target yields a chain of linked keys from the source to the target, empty when they coincide |
| Tf.TfGraph.constructor | src/mappings/tf.rs:31-37 | a new graph is empty and valid |
| Tf.TfGraph.WouldCreateCycle | src/mappings/tf.rs:99-117 | true iff the parent is reachable from the child in the static graph |
| Tf.TfGraph.IngestTfStaticMsg | src/mappings/tf.rs:68-97 | a payload that does not parse returns its error and changes nothing; otherwise the static state is the old state after every transform's step, the dynamic edges are untouched and the graph stays acyclic |
| Tf.TfGraph.PruneDynamic | src/mappings/tf.rs:119-124 | the dynamic edges become their pruning at latest minus buffer and the static state is untouched |
| Tf.TfGraph.IngestTfMsg | src/mappings/tf.rs:40-65 | a payload that does not parse returns its error and changes nothing; otherwise every transform is appended with the message time and then all edges are pruned to the buffer window, static state untouched |
| Tf.TfGraph.Expand | src/mappings/tf.rs:159-182 | one neighbour loop over a key sequence, taken in order: afterwards every key touching the current frame leads to a visited frame, and the parent links stay a tree |
| Tf.TfGraph.Visit | src/mappings/tf.rs:146-183 | one queue round over the static keys and then the dynamic keys, each in BTreeMap key order, keeps the search invariant with the dequeued frame done |
| Tf.TfGraph.FindPath | src/mappings/tf.rs:139-186 | a found path is a chain of linked keys from source to target; it is empty iff source and target coincide; none is found only when the two are not connected |
| Tf.TfGraph.EdgeTransform | src/mappings/tf.rs:188-206 | a transform is found only for a linked frame pair, and always for one linked by a static edge |
| Tf.TfGraph.StaticForward | src/mappings/tf.rs:189-191 | a static edge stored forwards is used unchanged |
| Tf.TfGraph.StaticBackward | src/mappings/tf.rs:192-196 | a static edge stored backwards is inverted, whatever dynamic samples exist |
| Tf.TfGraph.GetEdgeTransform | src/mappings/tf.rs:188-206 | the edge lookup returns the edge transform of the pair at the given time and mode |
| Tf.TfGraph.ComposeAlongSome | src/mappings/tf.rs:132-136 | a path has a composed transform iff every one of its edges has one |
| Tf.TfGraph.ComposeAlongLast | src/mappings/tf.rs:134 | each new edge transform is applied after the transform composed so far |
| Tf.TfGraph.Telescope | src/mappings/tf.rs:127-137 | with pure translations the composed transform along a chain moves by the difference between the chain's end positions |
| Tf.TfGraph.Resolve | src/mappings/tf.rs:127-137 | none when no path exists; otherwise the composition in order of the edge transforms along a chain from source to target; the identity when source equals target |
| Tf.TfGraph.ComposeAlongNoneFinal | src/mappings/tf.rs:133 | an edge without a transform makes the whole composition fail |
| Tf.IngestSingle | src/mappings/tf.rs:68-97 | a well-formed one-transform static message is accepted and applies one static step |
| Tf.StaticLeafAdded | src/mappings/tf.rs:84-89 | an edge to a frame with no children is stored and added to the graph |
| Tf.BackEdgeSkipped | src/mappings/tf.rs:84-87 | with A -> B stored, B -> A is skipped and the state is unchanged |
| Tf.CycleExample | src/mappings/tf.rs:447-457 | both static messages are accepted and only the edge A -> B is stored |
| Tf.ChainGraph | src/mappings/tf.rs:430-438 | the two static messages store exactly A -> B and B -> C |
| Tf.ChainStep | src/mappings/tf.rs:188-206 | every linked pair of the chain graph has a transform moving by the difference of its frames' positions |
| Tf.ChainExample | src/mappings/tf.rs:430-445 | resolving C from A over the chain finds a transform whose translation is the sum of the two |
| Tf.UnitChainExample | src/mappings/tf.rs:430-445 | one along x and one along y resolve from A to C as a translation by (1, 1, 0) |
| Images.ImageOf | src/mappings/images.rs:124-277 | reference definition of the sensor_msgs/Image decoding; ParseRosImage is proved to compute it, and ImageShape, ImageRoundTrip and TruncatedImageFails are proved about it |
| Images.ImageShape | src/mappings/images.rs:244-268 | a decoded image has width and height between 1 and 10000 and exactly as many data bytes as its length field says, taken from right after the field |
| Images.ParseRosImage | src/mappings/images.rs:124-278 | the checked reads in order give the decoded image, or a truncation error when a read runs past the end, or the dimension error after the data slice |
| Images.ImagePayload | src/mappings/images.rs:134-259 | an encoded image is 37 bytes plus its frame id, encoding and data |
| Images.ImageLayout | src/mappings/images.rs:134-259 | the fields of an encoded image lie where the decoder reads them, whatever bytes follow |
| Images.ImageRoundTrip | src/mappings/images.rs:124-278 | an encoded image decodes to its width, height, encoding and data when the dimensions are in range and to the dimension error otherwise, whatever bytes follow |
| Images.TruncatedImageFails | src/mappings/images.rs:136-258 | every proper prefix of an encoded image is refused as too short |
| Images.BgrToRgb | src/mappings/images.rs:23-27 | the bgr8 rewrite keeps the buffer's length |
| Images.BgrPixels | src/mappings/images.rs:25-27 | in every complete pixel blue and red trade places and green stays; trailing bytes outside a complete pixel are unchanged |
| Images.BgrInvolution | src/mappings/images.rs:25-27 | swapping twice gives the buffer back |
| Images.SwapStep | src/mappings/images.rs:26 | swapping the ends of pixel k extends the swapped part by one pixel |
| Images.SwapDone | src/mappings/images.rs:25-27 | once no complete pixel is left the buffer is fully rewritten |
| Images.SwapBgr | src/mappings/images.rs:24-27 | the in-place loop over the buffer leaves it as the bgr8 rewrite of its old contents |
| Images.RgbaPixels | src/mappings/images.rs:32-36 | rgba8 yields three bytes per complete 4-byte pixel, byte i being byte i mod 3 of pixel i div 3 |
| Images.Mono8Pixels | src/mappings/images.rs:41-46 | mono8 yields each gray byte three times |
| Images.Mono16Pixels | src/mappings/images.rs:51-59 | mono16 yields three copies of the high byte of each complete little-endian pair |
| Images.RgbaLoop | src/mappings/images.rs:33-36 | the rgba8 loop builds the rgba8 rewrite |
| Images.Mono8Loop | src/mappings/images.rs:43-46 | the mono8 loop builds the mono8 rewrite |
| Images.Mono16Loop | src/mappings/images.rs:54-59 | the mono16 loop builds the mono16 rewrite |
| Images.ImageEntry | src/mappings/images.rs:12-73 | an image is logged iff the payload decodes and its encoding is one of the five, at the topic with a leading slash, with its dimensions and its RGB bytes; nothing is ever reported as an error |
| Images.RgbLength | src/mappings/images.rs:15-63 | the RGB buffer has the data's length for rgb8 and bgr8, 3 per 4 bytes for rgba8, 3 per byte for mono8 and 3 per 2 bytes for mono16 |
| Images.ImageToRerun | src/mappings/images.rs:4-74 | the mapping logs exactly the image entry of the topic and payload |
| Images.CompressedOf | src/mappings/images.rs:280-303 | reference definition of the compressed-image decoding; ParseRosCompressed is proved to compute it, and CompressedRoundTrip is proved about it |
| Images.ParseRosCompressed | src/mappings/images.rs:280-303 | the checked reads give the compressed decoding |
| Images.CompressedRoundTrip | src/mappings/images.rs:280-303 | a format string followed by data decodes back to the two, is refused as having no data when the data is empty, and is too short when cut inside the format string |
| Images.FormatOf | src/mappings/images.rs:85-96 | PNG iff the lowercased format contains png; JPEG iff it does not but contains jpg or jpeg; otherwise skipped |
| Images.FormatIgnoresCase | src/mappings/images.rs:85 | the choice of decoder ignores letter case |
| Images.PngWins | src/mappings/images.rs:85-89 | a format that selects the PNG decoder still selects it whatever text is put before or after it |
| Images.CompressedJob | src/mappings/images.rs:76-113 | a decoding job is handed over iff the payload decodes and its format is known; it carries the chosen decoder, the data and the topic with a leading slash |
| PointCloud.FieldAt | src/mappings/pointcloud.rs:189-203 | a read field entry ends at least 13 bytes after it starts and inside the payload; a failed read is a truncation error |
| PointCloud.FieldsFrom | src/mappings/pointcloud.rs:189-204 | n entries read in order give exactly n fields and end inside the payload; a failed read is a truncation error |
| PointCloud.FieldsOf | src/mappings/pointcloud.rs:185-206 | the field table (count and entries) ends inside the payload after its count; a failed read is a truncation error |
| PointCloud.ReadField | src/mappings/pointcloud.rs:190-203 | the cursor reads of one entry give the entry decoding and the cursor after it |
| PointCloud.ParseFields | src/mappings/pointcloud.rs:185-206 | the loop over the announced count gives the table decoding and the cursor after it |
| PointCloud.FieldsAdvance | src/mappings/pointcloud.rs:189-204 | reading one more entry either ends the table with its error or appends the entry |
| PointCloud.FieldsDone | src/mappings/pointcloud.rs:189 | after the last entry the table read so far is the result |
| PointCloud.FieldBytes | src/mappings/pointcloud.rs:308-314 | an encoded entry takes 13 bytes plus its name |
| PointCloud.DecodedAll | src/mappings/pointcloud.rs:198-203 | the decoded table has one field per entry, each that entry's decoding |
| PointCloud.FieldRoundTrip | src/mappings/pointcloud.rs:189-203 | an encoded entry reads back as its name, offset, datatype and count from wherever it sits |
| PointCloud.FieldsRoundTrip | src/mappings/pointcloud.rs:185-206 | an encoded field table reads back entry by entry, ending right after it, from wherever it sits |
| PointCloud.PlacedOf | src/mappings/pointcloud.rs:307-314 | the encoded entries are found one after the other whatever bytes surround them |
| PointCloud.PlacedTable | src/mappings/pointcloud.rs:189-204 | entries placed one after the other read back in order |
| PointCloud.FirstOffsetAt | src/mappings/pointcloud.rs:105-131 | when field i is the first one with one of the names, the search finds its offset |
| PointCloud.FirstOffset | src/mappings/pointcloud.rs:104-131 | none iff no field has one of the names; otherwise the offset of a field with one of the names |
| PointCloud.ColorBytes | src/mappings/pointcloud.rs:254-265 | a colour is read iff its four bytes lie inside the record, and it is the third, second and first of them as red, green and blue |
| PointCloud.ColorOfGray | src/mappings/pointcloud.rs:329-344 | the unit test's packing of i into three bytes unpacks to the colour (i, i, i) |
| PointCloud.RecordStartProduct | src/mappings/pointcloud.rs:141 | record i starts at i times the point step |
| PointCloud.RecordRead | src/mappings/pointcloud.rs:145-170 | a point read from a record has finite coordinates read at the x, y and z offsets, and a colour exactly when the cloud has a colour field; a failed read is a truncation error |
| PointCloud.PointsFrom | src/mappings/pointcloud.rs:140-171 | the loop yields at most one point per record up to the count, only from records that fit in the data, one colour per point when the cloud has colours and none otherwise, every point finite |
| PointCloud.PointsTruncated | src/mappings/pointcloud.rs:145-170 | the record loop fails only with a truncation error (a coordinate or colour read past the record) |
| PointCloud.PointsShape | src/mappings/pointcloud.rs:140-171 | a nonempty outcome comes from a record that fits, followed by the outcome of the records after it |
| PointCloud.PointsBound | src/mappings/pointcloud.rs:140-145 | the loop yields at most height times width points and at most one per full record of the data |
| PointCloud.RawCloudOf | src/mappings/pointcloud.rs:68-99 | a payload shorter than the 16 bytes of seq, stamp and frame length is a truncation error, every failure is a truncation error, and a decoded little-endian cloud has height and width below 2^32 |
| PointCloud.CloudTail | src/mappings/pointcloud.rs:82-99 | the cloud is dropped (empty, no error) iff the is_bigendian byte is there and non-zero; it is decoded iff the flag, point_step, row_step and data length are there, the flag is zero and the announced data fits in the payload; a decoded cloud keeps height, width and fields, its step is point_step and its data is exactly the announced bytes after the length; every other outcome is a truncation error |
| PointCloud.PointsOfRaw | src/mappings/pointcloud.rs:104-173 | without an x, a y or a z field the cloud is empty with no colours and no error; otherwise colours are present iff some field is named rgb or rgba, with one colour per position; every position has finite coordinates and the given rotation; a failure is a truncation error |
| PointCloud.CloudOf | src/mappings/pointcloud.rs:68-174 | a decoded cloud keeps one colour per position when it has colours, every position has finite coordinates and the given rotation, and every failure is a truncation error |
| PointCloud.ReadRecord | src/mappings/pointcloud.rs:145-170 | the loop body's reads give the record decoding |
| PointCloud.PointsAdvance | src/mappings/pointcloud.rs:145-170 | reading record i ends the loop with its error, skips it, or appends its point and colour |
| PointCloud.PointsFail | src/mappings/pointcloud.rs:148-150 | a record that fails to read ends the whole decoding with that error |
| PointCloud.PointsSkip | src/mappings/pointcloud.rs:152-154 | a record with a non-finite coordinate is skipped |
| PointCloud.CollectRecord | src/mappings/pointcloud.rs:145-170 | one round of the loop body extends the points collected so far as the loop's outcome says |
| PointCloud.ReadPoints | src/mappings/pointcloud.rs:140-171 | the record loop with its break and continue gives the loop's outcome |
| PointCloud.PointsStop | src/mappings/pointcloud.rs:140-144 | the loop stops at the count or at the first record past the data |
| PointCloud.ReadRawCloud | src/mappings/pointcloud.rs:68-99 | the cursor reads up to the point data give the raw cloud decoding |
| PointCloud.ReadCloudTail | src/mappings/pointcloud.rs:82-99 | the reads after the field table give their decoding |
| PointCloud.ParsePointCloud2 | src/mappings/pointcloud.rs:68-174 | the whole parser gives the cloud decoding |
| PointCloud.PointCloudEntry | src/mappings/pointcloud.rs:44-65 | the mapping fails iff decoding fails; otherwise it logs the decoded cloud at the topic with all leading slashes removed |
| PointCloud.FiniteRead | src/mappings/pointcloud.rs:140-171 | a run of finite records gives one position per record and one colour per position when the cloud has colours |
| PointCloud.RecordsInData | src/mappings/pointcloud.rs:142 | a record that fits lies within the first len div step records |
| PointCloud.LastRecordPastEnd | src/mappings/pointcloud.rs:142-144 | the record after the last full one does not fit |
| PointCloud.FiniteReadFrom | src/mappings/pointcloud.rs:140-171 | when every visited record is finite and the layout fits a record, the loop reads exactly one position per visited record, in order |
| PointCloud.FiniteRecordRead | src/mappings/pointcloud.rs:148-169 | a finite record under a fitting layout is read as its position and colour |
| PointCloud.VisitedEnd | src/mappings/pointcloud.rs:140-144 | the loop stops after the visited records |
| PointCloud.AllFinite | src/mappings/pointcloud.rs:140-173 | an all-finite cloud yields exactly min(count, full records) points and colours, in record order |
| PointCloud.NonFiniteSkipped | src/mappings/pointcloud.rs:152-154 | a record with a non-finite coordinate adds nothing |
| PointCloud.NonFiniteRead | src/mappings/pointcloud.rs:152-154 | a non-finite record under a fitting layout reads as no point |
| PointCloud.FiniteReadAt | src/mappings/pointcloud.rs:140-171 | entry k - i of an all-finite read from record i is the position, and the colour when the cloud has colours, of record k |
| PointCloud.ReadIs | src/mappings/pointcloud.rs:140-171 | all-finite records whose positions and colours are the given sequences read as exactly those sequences |
| PointCloud.ColoredPoints | src/mappings/pointcloud.rs:104-173 | a cloud with x, y, z and a colour field yields the positions and colours of the record loop over its layout, with colours present |
| PointCloud.CloudOfRaw | src/mappings/pointcloud.rs:68-174 | a message that decodes up to its points yields the points of the decoded cloud |
| PointCloud.CloudHead | src/mappings/pointcloud.rs:291-307 | the message up to the field entries (seq, stamp, frame, height, width, field count) takes 28 bytes plus the frame |
| PointCloud.CloudRest | src/mappings/pointcloud.rs:315-323 | the message after the field entries (flag, point_step, row_step, data length) takes 13 bytes plus the data |
| PointCloud.HeadLayout | src/mappings/pointcloud.rs:72-80 | in an encoded head followed by anything, the frame length, height, width and field count lie where the decoder reads them |
| PointCloud.RestLayout | src/mappings/pointcloud.rs:82-99 | in an encoded rest followed by anything, the flag, point_step, data length and data lie where the decoder reads them |
| PointCloud.CloudBytesAt | src/mappings/pointcloud.rs:68-99 | a head, any field bytes and a rest put together hold every part where the decoder reads it |
| PointCloud.FieldsOfRoundTrip | src/mappings/pointcloud.rs:185-206 | a field count followed by that many encoded entries reads back as the decoded table, ending right after it |
| PointCloud.TableInCloud | src/mappings/pointcloud.rs:80 | the encoded field table of a laid-out message reads back as the decoded table |
| PointCloud.RawCloudAfterTable | src/mappings/pointcloud.rs:72-80 | past the header, height, width and a field table that reads, the decoding is what follows the table |
| PointCloud.TailDecode | src/mappings/pointcloud.rs:82-99 | after the field entries, a zero flag, point_step, data length and data decode to a cloud with that step and data |
| PointCloud.CloudDecode | src/mappings/pointcloud.rs:68-99 | a laid-out message whose entries read as given fields decodes to the height, width, fields, point_step and data |
| PointCloud.EncodedCloudDecode | src/mappings/pointcloud.rs:68-99 | a laid-out message holding an encoded field table decodes to the decoded table and the encoded parts |
| PointCloud.CloudRoundTrip | src/mappings/pointcloud.rs:68-99 | an encoded little-endian cloud, whatever follows it, decodes up to its points to its height, width, decoded field table, point_step and data |
| PointCloud.WholeValue32 | src/mappings/pointcloud.rs:326-328 | a positive normal f32 whose significand is k times its power-of-two divisor stands for the whole number k |
| PointCloud.ZeroValue32 | src/mappings/pointcloud.rs:326 | the all-zero f32 stands for 0.0 |
| PointCloud.OneTwoValues32 | src/mappings/pointcloud.rs:326-328 | the test's bit patterns of 1.0 and 2.0 stand for 1.0 and 2.0 |
| PointCloud.ThreeFourValues32 | src/mappings/pointcloud.rs:326-328 | the test's bit patterns of 3.0 and 4.0 stand for 3.0 and 4.0 |
| PointCloud.ZeroFiveValues32 | src/mappings/pointcloud.rs:326-328 | the test's bit patterns of 0.0 and 5.0 stand for 0.0 and 5.0 |
| PointCloud.WholeValues32 | src/mappings/pointcloud.rs:326-328 | the six coordinates the test writes, `0 as f32` to `5 as f32`, stand for 0.0 to 5.0 |
| PointCloud.TestRecord | src/mappings/pointcloud.rs:325-335 | each test point is a 16-byte record |
| PointCloud.TestData | src/mappings/pointcloud.rs:322-335 | the four test points take the announced 64 bytes |
| PointCloud.QuarterAt | src/mappings/pointcloud.rs:141-145 | record k of four 16-byte records put together is the k-th of them |
| PointCloud.TestRecordAt | src/mappings/pointcloud.rs:141-145 | record k of the test data is test point k |
| PointCloud.RecordParts | src/mappings/pointcloud.rs:148-167 | a record of three floats and a packed colour reads back as those floats at 0, 4 and 8 and the colour at 12 |
| PointCloud.TestPointAt | src/mappings/pointcloud.rs:325-335 | test record k is finite and reads as the expected point k and colour (k, k, k) |
| PointCloud.TestDecoded | src/mappings/pointcloud.rs:301-306 | the test's field entries decode to the fields x, y, z and rgb at 0, 4, 8 and 12 |
| PointCloud.TestXyOffsets | src/mappings/pointcloud.rs:105-112 | the test's x and y fields are found at 0 and 4 |
| PointCloud.TestZColorOffsets | src/mappings/pointcloud.rs:113-131 | the test's z and colour fields are found at 8 and 12 |
| PointCloud.TestRaw | src/mappings/pointcloud.rs:286-339 | the test's message decodes, up to its points, to one row of four 16-byte records and its four fields |
| PointCloud.TestPoints | src/mappings/pointcloud.rs:140-171 | all four test records are finite, so the record loop reads all four |
| PointCloud.TestRead | src/mappings/pointcloud.rs:325-335 | the record loop reads the test's four expected points and colours |
| PointCloud.TestCloud | src/mappings/pointcloud.rs:286-345 | test_parse_pointcloud2: the message decodes to exactly four points, point k at (k, k + 1, k + 2) with colour (k, k, k); this includes the test's checks of both lengths and of the first point and colour |
| LaserScan.RangesAt | src/mappings/laserscan.rs:77-81 | n consecutive floats are read |
| LaserScan.ScanOf | src/mappings/laserscan.rs:50-97 | reference definition of the scan decoding; ParseLaserScan is proved to compute it, and ScanShape, ScanRoundTrip and TestScan are proved about it |
| LaserScan.ScanShape | src/mappings/laserscan.rs:50-97 | a scan decodes iff the header, the fixed fields and all announced ranges fit (otherwise the error is truncation); it has one point per range, and point i is a real point exactly when range i is finite and within [range_min, range_max], carrying that range and the angle angle_min + i * angle_increment, and otherwise the NaN marker |
| LaserScan.ReadScanHead | src/mappings/laserscan.rs:51-74 | the reads before the ranges succeed iff the header and the fixed fields fit; they give the four parameters, the ranges length and the cursor at the first range |
| LaserScan.ReadRanges | src/mappings/laserscan.rs:77-81 | the range loop succeeds iff all ranges fit and then returns them in order; otherwise it reports truncation |
| LaserScan.ComputePoints | src/mappings/laserscan.rs:84-94 | the point loop gives one point or marker per range |
| LaserScan.ParseLaserScan | src/mappings/laserscan.rs:50-97 | the parser gives the scan decoding |
| LaserScan.FloatsAt | src/mappings/laserscan.rs:99-111 | value i of an encoded float array reads back from wherever the array sits |
| LaserScan.HeadLayout | src/mappings/laserscan.rs:127-136 | the frame length, the ranges length and the four parameters of an encoded scan lie where the decoder reads them |
| LaserScan.HeadFloats | src/mappings/laserscan.rs:56-69 | the four parameters are read from the first, third, sixth and seventh of the seven floats |
| LaserScan.RangesLayout | src/mappings/laserscan.rs:77-81 | the ranges of an encoded scan read back from where they sit |
| LaserScan.ScanRoundTrip | src/mappings/laserscan.rs:50-97 | an encoded scan decodes to one point per range computed from its parameters, whatever bytes follow |
| LaserScan.TenthValue32 | src/mappings/laserscan.rs:161 | the bits of 0.1f32 stand for 0.100000001490116119384765625 |
| LaserScan.OneInRange | src/mappings/laserscan.rs:86 | 1.0f32 lies within [0.1f32, 10.0f32] |
| LaserScan.InRangeFinite | src/mappings/laserscan.rs:86 | a finite range between finite bounds is within range when its value is |
| LaserScan.TestScan | src/mappings/laserscan.rs:146-187 | the unit test's scan decodes to ten points, the first a real point and the second the marker |
| LaserScan.Runs | src/mappings/laserscan.rs:17-36 | no strip is empty, and a sequence ending in a drawn point has a strip |
| LaserScan.Drawn | src/mappings/laserscan.rs:38-42 | only drawn points are kept, no more than there were |
| LaserScan.RunsConcat | src/mappings/laserscan.rs:17-42 | the strips of line mode, read in order, are exactly the drawn points |
| LaserScan.StripsAfter | src/mappings/laserscan.rs:19-29 | the strip list always has a last strip |
| LaserScan.StripsAfterRuns | src/mappings/laserscan.rs:19-29 | the loop's strip list is the reference strips followed by one open empty strip unless the last point was drawn |
| LaserScan.FinishRuns | src/mappings/laserscan.rs:19-32 | after the final pop the strips are the reference strips |
| LaserScan.LineStrips | src/mappings/laserscan.rs:19-32 | the line-mode loop and its pop give the reference strips |
| LaserScan.ScanEntry | src/mappings/laserscan.rs:5-48 | the mapping fails iff decoding fails, with truncation; points mode logs one point set; line mode logs at most one strip set |
| LaserScan.ModesAgree | src/mappings/laserscan.rs:17-45 | both modes draw the same points in the same order, none of them a marker; line mode logs nothing only when there is nothing to draw, and no strip is empty |
| LaserScan.LaserScanToRerun | src/mappings/laserscan.rs:5-48 | the method logs the mapping's entries |
| Imu.IsValidQuaternion | src/mappings/imu.rs:112-117 | reference definition of the validity test: four finite components whose squared norm lies in the band NearUnit; NearUnitBand and QuaternionExamples are proved about that band, and IdentityValid and ImuLogsShape about the test |
| Imu.NearUnitBand | src/mappings/imu.rs:112-117 | the validity test accepts exactly the squared norms strictly between 0.9 and 1.1; its test against 0.01 never decides |
| Imu.QuaternionExamples | src/mappings/imu.rs:228-264 | over their values the identity and (0, 0, 0.1, 0.995) pass the test, zero and (0.5, 0.5, 0.5, 2) fail it, as the unit tests expect |
| Imu.IdentityValid | src/mappings/imu.rs:228-244 | as doubles, the identity quaternion is valid and the zero quaternion is not |
| Imu.ImuOf | src/mappings/imu.rs:120-200 | a message decodes iff the header and the 224 bytes after it fit; otherwise the error is truncation |
| Imu.ParseRosImu | src/mappings/imu.rs:120-222 | the cursor reads with their length checks give the IMU decoding |
| Imu.DoublesAt | src/mappings/imu.rs:130-146 | value i of an encoded double array reads back from wherever the array sits |
| Imu.QuaternionEnd | src/mappings/imu.rs:127-147 | an encoded quaternion reads back |
| Imu.Vector3End | src/mappings/imu.rs:154-170 | an encoded vector reads back |
| Imu.ImuPayload | src/mappings/imu.rs:120-200 | an encoded IMU message up to the linear acceleration is 240 bytes plus its frame id |
| Imu.ImuRoundTrip | src/mappings/imu.rs:120-200 | an encoded IMU message decodes to its orientation, angular velocity and linear acceleration, whatever follows |
| Imu.ImuPath | src/mappings/imu.rs:15 | the entity path is a slash, the topic without its leading slashes, then /imu |
| Imu.ImuEntry | src/mappings/imu.rs:3-86 | the mapping succeeds iff the message decodes; a decoding error is returned before anything is logged |
| Imu.ImuLogsShape | src/mappings/imu.rs:17-75 | the orientation is logged first exactly when it is a valid quaternion; then come the orange angular velocity arrow, the red linear acceleration arrow and the two magnitudes, at their fixed sub-paths |
| Imu.ImuPathsUnder | src/mappings/imu.rs:15-75 | every entry lies under the IMU entity path |
| Imu.ImuToRerun | src/mappings/imu.rs:3-86 | the method logs the mapping's entries |
| Nav.HeaderAt | src/mappings/nav.rs:241-246 | a read header ends at least 16 bytes after it starts and inside the payload |
| Nav.PoseAt | src/mappings/nav.rs:254-273 | a pose is read iff its 56 bytes fit |
| Nav.PoseStampedAt | src/mappings/nav.rs:224-228 | a read pose record ends at least 72 bytes after it starts and inside the payload |
| Nav.PosesFrom | src/mappings/nav.rs:235-237 | n records read in order give exactly n poses |
| Nav.ParseHeader | src/mappings/nav.rs:241-246 | the cursor reads give the header decoding and the cursor after it |
| Nav.ParsePose | src/mappings/nav.rs:254-273 | the cursor reads give the pose decoding and the cursor after it |
| Nav.ParsePoseStamped | src/mappings/nav.rs:224-228 | the cursor reads give the pose record decoding and the cursor after it |
| Nav.ParsePoseWithCovariance | src/mappings/nav.rs:248-252 | the pose is read and the cursor moves past 36 covariance doubles whether or not they are there; a pose error is returned as is |
| Nav.ParseOdometry | src/mappings/nav.rs:216-222 | the cursor reads give the odometry decoding |
| Nav.ParsePath | src/mappings/nav.rs:230-239 | the cursor reads give the path decoding |
| Nav.ReadPoses | src/mappings/nav.rs:233-237 | the loop over the count gives the records decoding and the cursor after them |
| Nav.PosesAdvance | src/mappings/nav.rs:235-237 | reading one more record keeps the loop's relation to the records decoding |
| Nav.PosesUnfold | src/mappings/nav.rs:235-237 | a failing first record fails the loop with its error; a read one comes before the rest |
| Nav.PrefixPosesAssoc | src/mappings/nav.rs:235-237 | records read in two batches are the records read at once |
| Nav.HeaderBytes | src/mappings/nav.rs:241-246 | an encoded header is 16 bytes plus its frame id |
| Nav.HeaderEnd | src/mappings/nav.rs:241-246 | an encoded header reads back as its stamp and frame id |
| Nav.HeaderLeft | src/mappings/nav.rs:241-246 | a header read ignores the bytes after it |
| Nav.RecordEnd | src/mappings/nav.rs:224-228 | an encoded pose record reads back at the end of a message |
| Nav.RecordLeft | src/mappings/nav.rs:224-228 | a pose record read ignores the bytes after it |
| Nav.PosesCons | src/mappings/nav.rs:235-237 | n records are the first record followed by the other n - 1 |
| Nav.RecordRoundTrip | src/mappings/nav.rs:224-228 | an encoded record reads back from wherever it sits |
| Nav.PlacedPoses | src/mappings/nav.rs:233-237 | records placed one after the other read back in order |
| Nav.RecordsInOf | src/mappings/nav.rs:233-237 | encoded records found in place are found one by one |
| Nav.PlacedOf | src/mappings/nav.rs:233-237 | records encoded one after the other read back one after the other |
| Nav.PathOfParts | src/mappings/nav.rs:230-239 | a path is its header and the count's records |
| Nav.PathRoundTrip | src/mappings/nav.rs:230-239 | an encoded path decodes to its header and its pose records in order, whatever follows |
| Nav.PathDecodes | src/mappings/nav.rs:230-239 | a path whose header and count are in place and whose records read back decodes to them |
| Nav.PathFrame | src/mappings/nav.rs:230-233 | the header and count of an encoded path are read where they lie, and its records sit right after |
| Nav.OdometryRoundTrip | src/mappings/nav.rs:216-252 | an encoded odometry message up to its pose decodes to its header, child frame and pose, even when nothing follows the pose |
| Nav.OdometryAt | src/mappings/nav.rs:216-252 | the same for a message known by its parts |
| Nav.OdometryFrame | src/mappings/nav.rs:216-219 | the header and child frame id of an encoded odometry message lie where they are read |
| Nav.TransformFromSlice | src/mappings/nav.rs:254-273 | a pose reads back from wherever its bytes sit |
| Nav.OdometryOfParts | src/mappings/nav.rs:216-222 | an odometry message is its header, its child frame id and the pose after it |
| Nav.ShortPosesFail | src/mappings/nav.rs:233-237 | a count that promises more records than the payload can hold fails |
| Nav.TopicPath | src/mappings/nav.rs:149-156 | the path of the first `topic=path` rename whose key is the topic, otherwise the topic under the root frame and kind |
| Nav.ResolveIn | src/mappings/nav.rs:33 | nothing is resolved without a graph; with one, the graph's resolution from the frame to the root |
| Nav.FinalIso | src/mappings/nav.rs:65-73 | the resolved root transform composed before the local pose, or the local pose when nothing resolved |
| Nav.FallbackToLocal | src/mappings/nav.rs:65-73 | without a graph, or when the graph cannot join the frame to the root, the local pose is kept; the root frame itself composes with the identity |
| Nav.OdometryLogs | src/mappings/nav.rs:24-37 | the local transform at the child frame's path and, when the parent resolved to the root, the composed one at the same path |
| Nav.OdometryToRerun | src/mappings/nav.rs:7-40 | a decoding error is returned; otherwise the odometry entries with the parent frame resolved to the root at the bag time |
| Nav.PoseStampedToRerun | src/mappings/nav.rs:44-79 | a decoding error is returned; otherwise one transform at the topic's path, resolved to the root at the bag time when possible |
| Nav.PathPoints | src/mappings/nav.rs:98-113 | one point per pose, in order, each that pose's final isometry |
| Nav.PathLogs | src/mappings/nav.rs:115-118 | one strip of the points when the path has a pose, nothing otherwise |
| Nav.PlacePoses | src/mappings/nav.rs:98-113 | the loop resolves every pose from its own frame at its own stamp and yields the path's points |
| Nav.PathToRerun | src/mappings/nav.rs:82-121 | a decoding error is returned; otherwise the path's strip at the topic's path |
| Gps.FixOf | src/mappings/gps.rs:87-104 | a fix decodes iff the header and the 27 bytes after it fit, otherwise with truncation; the status is a signed byte (negative exactly when its byte is 128 or more) and the service a 16-bit value |
| Gps.ParseStatus | src/mappings/gps.rs:111-117 | the status and service are read iff their three bytes fit, the status as a signed byte and the service little-endian |
| Gps.ParseNavSatFix | src/mappings/gps.rs:87-104 | the cursor reads give the fix decoding |
| Gps.I8Byte | src/mappings/gps.rs:192-199 | the byte that encodes a signed value reads back as it |
| Gps.FieldsAt | src/mappings/gps.rs:94-101 | the status, service and position of an encoded fix read back from wherever they sit |
| Gps.FixHeaderEnd | src/mappings/gps.rs:210-219 | the header of an encoded fix ends where its fields begin |
| Gps.FixRoundTrip | src/mappings/gps.rs:87-104 | an encoded fix decodes to itself whatever follows |
| Gps.ShortFixFails | src/mappings/gps.rs:87-104 | every prefix that stops before the altitude's last byte is refused as too short |
| Gps.Selected | src/mappings/gps.rs:244-251 | no more names are selected than there are systems |
| Gps.SelectedNames | src/mappings/gps.rs:244-251 | every selected name is that of a set bit and every set bit's name is selected |
| Gps.GetServiceNames | src/mappings/gps.rs:244-251 | the four tests push the names of the set bits, joined with a comma and a space |
| Gps.ServiceNamed | src/mappings/gps.rs:246-249 | a system is named exactly when its bit is set |
| Gps.SelectedLowBits | src/mappings/gps.rs:246-249 | only the four low bits of the mask matter |
| Gps.ServiceNamesLowBits | src/mappings/gps.rs:244-251 | the service text depends only on the mask modulo 16 |
| Gps.ServiceNamesEmpty | src/mappings/gps.rs:70-74 | the text is empty, so no service entry is logged, exactly when none of the four bits is set |
| Gps.JoinNonEmpty | src/mappings/gps.rs:250 | joining names that are not all empty gives a non-empty text |
| Gps.ServiceNamesSingle | src/mappings/gps.rs:378-384 | masks 0, 1, 2, 4 and 8 give the empty text and the four single names |
| Gps.ServiceNamesCombined | src/mappings/gps.rs:385-386 | masks 1 or 2 and 1 or 4 or 8 give the names in mask order |
| Gps.ParseOrigin | src/mappings/gps.rs:119-128 | anything but three comma-separated parts is the format error; the origin is read iff each trimmed part parses, and it is the three parsed values in order |
| Gps.ParseOriginParts | src/mappings/gps.rs:119-128 | three comma-free numbers separated by commas read back as the origin, in order |
| Gps.SplitThree | src/mappings/gps.rs:120 | three comma-free parts joined by commas split back into themselves |
| Gps.BasePath | src/mappings/gps.rs:61 | the base path is the topic with its leading slash ensured and its trailing slashes removed |
| Gps.BasePathKeepsTopic | src/mappings/gps.rs:61 | a topic without a trailing slash keeps all its characters behind one leading slash |
| Gps.OriginFor | src/mappings/gps.rs:45-55 | the origin already set wins; otherwise the parsed origin string; otherwise the fix's own position |
| Gps.RejectedKeepsState | src/mappings/gps.rs:26-53 | a fix that is not accepted leaves the state unchanged; a negative status logs nothing and is not an error; a decoding error is returned |
| Gps.AcceptedStep | src/mappings/gps.rs:38-84 | an accepted fix sets the origin when unset and keeps it otherwise; the path grows by the new point exactly when it is kept; the point and the status are logged first, the service text exactly when it is not empty, and the whole path last when it is kept |
| Gps.OriginStable | src/mappings/gps.rs:45-53 | once set, the origin never changes over any sequence of fixes |
| Gps.PathAppendOnly | src/mappings/gps.rs:76-82 | the path only grows at its end, by at most one point per fix |
| Gps.GpsState.constructor | src/mappings/gps.rs:9-13 | the default state has no origin and an empty path |
| Gps.FixStep | src/mappings/gps.rs:15-85 | reference definition of one navsatfix_to_rerun call on the GPS state (its result and the state left); NavSatFixToRerun is proved to compute it, RejectedKeepsState and AcceptedStep are proved about one step, and OriginStable and PathAppendOnly about any sequence of steps |
| Gps.GpsState.NavSatFixToRerun | src/mappings/gps.rs:15-85 | the call returns the fix step's result and leaves the state the fix step computes from the old state |

## Left out

- Worker threads, channels and flush I/O (src/convert.rs:133-149, 456-480 and 509-636): the flume channels, the flush workers' polling and renames, and the monitor thread of `flush_recording` are concurrency and file-system I/O. A submitted flush job is an element of the job list `Convert.ConvertBag` returns.
- The Rerun sink: `RecordingStream` calls and archetypes are foreign code. Each mapping returns the list of log entries it would write, as (entity path, kind, data). Errors from `rec.log` and from opening a segment recording are not modelled, and neither is `log_transform`.
- The `rosbag` crate reader: a bag is the abstract stream of chunk and message records in `Bag`, where any read may fail.
- Floating-point arithmetic is symbolic. This covers quaternion normalisation and slerp, `Isometry3` composition and inversion, `wgs84_to_enu`, the point cloud's roll-pitch-yaw rotation, the scan's `cos` and `sin`, the IMU magnitudes and `f64 as f32` casts. For each, the model keeps the term the result is computed from, and no numeric accuracy is claimed.
- Times: the seconds the source computes by `f64` division are exact rationals, and relative times in `RosbagsIo` are exact nanosecond differences.
- Image decoding: PNG and JPEG data go to an image library. `Images` stops at the decoding job it would hand over.
- Geoid correction: reading the PGM grid (src/mappings/gps.rs:255-347) is file I/O.
- Gps.GpsState.NavSatFixToRerun: models a call without a geoid grid file, so the altitude is never corrected. With a grid, the source adds the correction to the altitude first, or skips it silently when the lookup fails.
- Gps.ParseOrigin: whether a trimmed part parses as an `f64` is a parameter (`parse`), because decimal-to-double conversion is a floating-point library routine.
- The global `Mutex` around the GPS state is not modelled: the state is one `Gps.GpsState` object that the caller passes in.
- Environment variables, progress bars and logging are not modelled. The segment directory chosen from the environment is an input to `Convert.Settings`.
- Decoder wiring: the calls in src/convert.rs:296-338 do not match the decoders' signatures.
  - src/convert.rs:331-338 passes six arguments to the seven-parameter `navsatfix_to_rerun`.
  - src/convert.rs:296-301 passes four arguments to the five-parameter `pointcloud2_to_rerun`.
  - So `Convert` takes the outcome of the mapping called for a record as a parameter (decoded, or a failure for the four fallible kinds), and the decoders are modelled as they are defined.
- No `TfGraph` is ever constructed in src/convert.rs. Transform, odometry, pose, path and IMU records fall into the skipped-type count there, and the transform buffer is modelled on its own in `Tf`.
- Decoder failures abort the run as the code does. src/convert.rs:284, 301, 319 and 338 pass a failed compressed-image, point-cloud, scan or GPS decode up with `?`, so `convert_bag` stops there (`Convert.Deliver`).
- Transform, odometry, pose and path records reach no dispatch arm in src/convert.rs:259-350. They add nothing to the open segment.
- Tf.TfGraph.FindPath: the body walks the static keys and then the dynamic keys, each in BTreeMap key order (`Reach.SortedKeys`), as the source's breadth-first search does. The contract, though, promises only that a returned path is a chain of keys from source to target. When several chains join two frames, which one is returned is not stated.
- Tf.TfGraph.Resolve: composes along the path `FindPath` returns. For the same reason, its contract does not say which of several chains the composition follows.
- The compressed-image decoder is modelled as written (src/mappings/images.rs:280-303). It reads the format string at offset 0 without skipping the message header, and keeps everything after the format, including the data array's length prefix, as image data.
- The TFMessage decoder is modelled as written (src/mappings/tf.rs:334-345). It never reads the array count, and reads transforms until the cursor reaches the end of the payload.
- Nav.PathToRerun: a pose stamp that is NaN or infinite is passed to `resolve` as time 0. The source passes the double itself, and comparisons against NaN in the transform buffer are not modelled.
- Nav.ReadPoses, Nav.PathOf, LaserScan.ReadRanges and PointCloud.ParseFields: the source reserves room for the announced element count before reading any element, with `Vec::with_capacity` (src/mappings/nav.rs:234, src/mappings/laserscan.rs:77, src/mappings/pointcloud.rs:188). A huge `u32` count can then abort the process, by a capacity overflow or a failed allocation. The model has no allocator: it reads element by element and returns a truncation error at the first element past the payload.
- Validate.Entity: timestamps are reals, so the `f64` NaN stamps that `validate_rrd_mock` accepts (src/validate.rs:68) are not modelled. At src/validate.rs:90-94, `timestamps[i] < timestamps[i-1]` is false when either side is NaN, so a NaN stamp never raises a monotonicity error there; the model's comparison of reals always decides.
- Wire.Text: `String::from_utf8_lossy` is read as Latin-1, one character per byte with the same code. This is exact for ASCII names; multi-byte UTF-8 sequences and replacement characters are not modelled.
- Strings.Trim: whitespace is ASCII whitespace only. Rust's `trim` also strips the other Unicode white-space characters, and those are not modelled.
- PointCloud.PointsOfRaw: `height * width` wraps at 2^32, as the `u32` product does in a release build. A debug build would panic on overflow instead, and that is not modelled.
- LaserScan.LaserScanToRerun: whether the computed x and y of a point are finite is a parameter (`finiteXy`), since it depends on `cos` and `sin` of its angle.
- Imu.IsValidQuaternion: the squared norm is taken over the exact real values of the four doubles. The rounding of the `f64` products and sums is not modelled, so a quaternion within one rounding of the bounds may be judged differently by the source.
- The non-core files src/cli.rs, src/main.rs, src/schema.rs, src/rrd_writer.rs and src/lib.rs are not part of this model. They are argument parsing, a stale entry point, a table printer, an unimplemented stub and re-exports. The tests under tests/ spawn `cargo` processes.
