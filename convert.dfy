/**
 * The bookkeeping of `convert_bag`: configuration checks, the first pass
 * that finds the session start, the topic and time-window filter, the
 * per-type counters and the segment state machine that numbers, names and
 * submits flush jobs.  The message decoders are an abstract outcome
 * (`decodes`), the recording sink and the flush workers are left out, and a
 * submitted flush job is an element of the returned job list.
 */
module Convert {
  import opened Options
  import opened Wire
  import opened Strings
  import opened Bag

  // ---------------------------------------------------------------------
  // Settings and their checks
  // ---------------------------------------------------------------------

  /** The arguments of `convert_bag` that its bookkeeping depends on.
    * `outParent`, `outStem` and `outExt` are what `Path::parent`,
    * `file_stem` and `extension` give for `out` (with the defaults "", "out"
    * and "rrd"); `tmpDir` is the segment directory chosen from the
    * environment. */
  datatype Settings = Settings(
    bag: string,
    outParent: string,
    outStem: string,
    outExt: string,
    tmpDir: string,
    includeTopics: seq<string>,
    excludeTopics: seq<string>,
    start: Option<real>,
    end: Option<real>,
    dryRun: bool,
    segmentSize: Option<nat>,
    segmentBytes: Option<nat>,
    flushWorkers: nat)

  datatype ConfigError = SegmentSizeZero | SegmentBytesZero | NoFlushWorkers

  /** The three checks, in order; the first that fails is reported. */
  function CheckConfig(s: Settings): (r: Option<ConfigError>)
    ensures r == Some(SegmentSizeZero) <==> s.segmentSize == Some(0)
    ensures r == Some(SegmentBytesZero) <==> s.segmentSize != Some(0) && s.segmentBytes == Some(0)
    ensures r == Some(NoFlushWorkers) <==>
              s.segmentSize != Some(0) && s.segmentBytes != Some(0) && s.flushWorkers == 0
    ensures r.None? <==> s.segmentSize != Some(0) && s.segmentBytes != Some(0) && s.flushWorkers > 0
  {
    if s.segmentSize == Some(0) then Some(SegmentSizeZero)
    else if s.segmentBytes == Some(0) then Some(SegmentBytesZero)
    else if s.flushWorkers == 0 then Some(NoFlushWorkers)
    else None
  }

  /** Segments are written iff some threshold is given and this is not a dry run. */
  predicate SegmentationEnabled(s: Settings)
  {
    (s.segmentSize.Some? || s.segmentBytes.Some?) && !s.dryRun
  }

  /** `seg_size` and `seg_bytes`: the thresholds, 0 when absent. */
  function SegSize(s: Settings): nat
  {
    if s.segmentSize.Some? then s.segmentSize.value else 0
  }

  function SegBytes(s: Settings): nat
  {
    if s.segmentBytes.Some? then s.segmentBytes.value else 0
  }

  /** The rotation condition. */
  predicate RotationDue(s: Settings, units: nat, bytes: nat)
  {
    (SegSize(s) > 0 && units >= SegSize(s)) || (SegBytes(s) > 0 && bytes >= SegBytes(s))
  }

  // ---------------------------------------------------------------------
  // Part file names
  // ---------------------------------------------------------------------

  /** What `PathBuf::join` puts in front of a relative file name. */
  function DirPrefix(dir: string): string
  {
    if dir == "" then "" else if dir[|dir| - 1] == '/' then dir else dir + "/"
  }

  /** `<parent>/<stem>_part<NNNN>.<ext>` for the segment with 0-based `index`. */
  function FinalName(s: Settings, index: nat): string
  {
    DirPrefix(s.outParent) + s.outStem + "_part" + Pad4(index + 1) + "." + s.outExt
  }

  /** `<tmp>/bag2rrd_tmp_<bag with '/' replaced by '_'>_<NNNN>.<ext>`. */
  function TmpName(s: Settings, index: nat): string
  {
    DirPrefix(s.tmpDir) + "bag2rrd_tmp_" + ReplaceChar(s.bag, '/', '_') + "_" + Pad4(index + 1) + "." + s.outExt
  }

  /** If `a + x + c + d == a + y + c + d` then `x == y`. */
  lemma MiddleEqual(a: string, x: string, y: string, c: string, d: string)
    requires a + x + c + d == a + y + c + d
    ensures x == y
  {
    assert |x| == |y|;
    assert x == (a + x + c + d)[|a|..|a| + |x|];
    assert y == (a + y + c + d)[|a|..|a| + |y|];
  }

  /** Different segments get different final and temporary files. */
  lemma PartNamesDistinct(s: Settings, i: nat, j: nat)
    ensures FinalName(s, i) == FinalName(s, j) ==> i == j
    ensures TmpName(s, i) == TmpName(s, j) ==> i == j
  {
    if FinalName(s, i) == FinalName(s, j) {
      var fa := DirPrefix(s.outParent) + s.outStem + "_part";
      MiddleEqual(fa, Pad4(i + 1), Pad4(j + 1), ".", s.outExt);
      Pad4Injective(i + 1, j + 1);
    }
    if TmpName(s, i) == TmpName(s, j) {
      var ta := DirPrefix(s.tmpDir) + "bag2rrd_tmp_" + ReplaceChar(s.bag, '/', '_') + "_";
      MiddleEqual(ta, Pad4(i + 1), Pad4(j + 1), ".", s.outExt);
      Pad4Injective(i + 1, j + 1);
    }
  }

  /** The temporary name carries no '/' from the bag path. */
  lemma TmpNameFlattensBag(s: Settings)
    ensures '/' !in ReplaceChar(s.bag, '/', '_')
    ensures |ReplaceChar(s.bag, '/', '_')| == |s.bag|
  {
  }

  // ---------------------------------------------------------------------
  // First pass: session start
  // ---------------------------------------------------------------------

  /** The earliest `time` of a message record, if there is one. */
  function Earliest(rs: seq<MessageRecord>): Option<nat>
  {
    if |rs| == 0 then None
    else
      var e := Earliest(rs[..|rs| - 1]);
      var r := rs[|rs| - 1];
      if !r.MessageData? then e
      else if e.None? || r.time < e.value then Some(r.time)
      else e
  }

  /** The number of message records. */
  function DataCount(rs: seq<MessageRecord>): (n: nat)
    ensures n <= |rs|
  {
    if |rs| == 0 then 0
    else DataCount(rs[..|rs| - 1]) + (if rs[|rs| - 1].MessageData? then 1 else 0)
  }

  /** The session start in nanoseconds: the minimum over all message
    * records, whatever their connection, or 0 when there are none. */
  function SessionStart(rs: seq<MessageRecord>): nat
  {
    if Earliest(rs).Some? then Earliest(rs).value else 0
  }

  lemma {:induction false} EarliestIsMinimum(rs: seq<MessageRecord>)
    ensures Earliest(rs).None? <==> forall i :: 0 <= i < |rs| ==> !rs[i].MessageData?
    ensures Earliest(rs).Some? ==>
      (exists i :: 0 <= i < |rs| && rs[i].MessageData? && rs[i].time == Earliest(rs).value)
      && forall i :: 0 <= i < |rs| && rs[i].MessageData? ==> Earliest(rs).value <= rs[i].time
  {
    if |rs| > 0 {
      var front := rs[..|rs| - 1];
      EarliestIsMinimum(front);
      assert forall i :: 0 <= i < |front| ==> front[i] == rs[i];
      var r := rs[|rs| - 1];
      if r.MessageData? && (Earliest(front).None? || r.time < Earliest(front).value) {
        assert rs[|rs| - 1].time == Earliest(rs).value;
      } else if Earliest(front).Some? {
        var i :| 0 <= i < |front| && front[i].MessageData? && front[i].time == Earliest(front).value;
        assert rs[i].time == Earliest(rs).value;
      }
    }
  }

  /** The number of message records is 0 iff there are none. */
  lemma {:induction false} DataCountZero(rs: seq<MessageRecord>)
    ensures DataCount(rs) == 0 <==> forall i :: 0 <= i < |rs| ==> !rs[i].MessageData?
  {
    if |rs| > 0 {
      DataCountZero(rs[..|rs| - 1]);
      assert forall i :: 0 <= i < |rs| - 1 ==> rs[..|rs| - 1][i] == rs[i];
    }
  }

  /** The first pass: `bag_start_ns = bag_start_ns.min(time)` and
    * `total_msgs += 1` for every message record. */
  method FirstPass(rs: seq<MessageRecord>) returns (earliest: Option<nat>, total: nat)
    ensures earliest == Earliest(rs)
    ensures total == DataCount(rs)
  {
    earliest, total := None, 0;
    var i := 0;
    while i < |rs|
      invariant 0 <= i <= |rs|
      invariant earliest == Earliest(rs[..i])
      invariant total == DataCount(rs[..i])
    {
      assert rs[..i + 1][..i] == rs[..i];
      var r := rs[i];
      if r.MessageData? {
        if earliest.None? || r.time < earliest.value {
          earliest := Some(r.time);
        }
        total := total + 1;
      }
      i := i + 1;
    }
    assert rs[..i] == rs;
  }

  /** `ts_rel`: seconds since the session start. */
  function TsRel(time: nat, startNs: nat): real
  {
    (time as real - startNs as real) / 1000000000.0
  }

  // ---------------------------------------------------------------------
  // Second pass: classification and one step
  // ---------------------------------------------------------------------

  /** A record passes the filters iff its topic is included (or the include
    * list is empty), not excluded, and its time lies in the window; both
    * ends are inclusive and a missing end is unbounded. */
  predicate Passes(s: Settings, topic: string, ts: real)
  {
    (|s.includeTopics| == 0 || topic in s.includeTopics)
    && topic !in s.excludeTopics
    && (s.start.Some? ==> s.start.value <= ts)
    && (s.end.Some? ==> ts <= s.end.value)
  }

  /** The message types `convert_bag` dispatches; everything else is
    * `OtherType`, among them transforms, odometry, poses, paths and IMU. */
  datatype Kind = Image | Compressed | PointCloud | LaserScan | NavSatFix | OtherType

  function KindOf(tp: string): Kind
  {
    if tp == "sensor_msgs/Image" then Image
    else if tp == "sensor_msgs/CompressedImage" then Compressed
    else if tp == "sensor_msgs/PointCloud2" then PointCloud
    else if tp == "sensor_msgs/LaserScan" then LaserScan
    else if tp == "sensor_msgs/NavSatFix" then NavSatFix
    else OtherType
  }

  /** The kinds whose mapping can fail and end the conversion with its error.
    * `image_to_rerun` turns every parse failure into "nothing logged". */
  predicate Fallible(k: Kind)
  {
    k == Compressed || k == PointCloud || k == LaserScan || k == NavSatFix
  }

  /** Everything the second pass reads besides the current record: the
    * settings, the connection map, the session start and whether the
    * mapping of a given (type, payload) succeeds. */
  datatype Context = Context(s: Settings, conns: Connections, startNs: nat, decodes: (string, Bytes) -> bool)

  /** How a record is treated by the second pass. */
  datatype Class = NotData | UnknownConnection | FilteredOut | Accepted(kind: Kind)

  function Classify(ctx: Context, r: MessageRecord): (c: Class)
    ensures c == NotData <==> !r.MessageData?
    ensures c == UnknownConnection <==> r.MessageData? && r.connId !in ctx.conns
    ensures c == FilteredOut <==>
              r.MessageData? && r.connId in ctx.conns
              && !Passes(ctx.s, ctx.conns[r.connId].0, TsRel(r.time, ctx.startNs))
    ensures c.Accepted? <==>
              r.MessageData? && r.connId in ctx.conns
              && Passes(ctx.s, ctx.conns[r.connId].0, TsRel(r.time, ctx.startNs))
    ensures c.Accepted? ==> c.kind == KindOf(ctx.conns[r.connId].1)
  {
    if !r.MessageData? then NotData
    else if r.connId !in ctx.conns then UnknownConnection
    else if !Passes(ctx.s, ctx.conns[r.connId].0, TsRel(r.time, ctx.startNs)) then FilteredOut
    else Accepted(KindOf(ctx.conns[r.connId].1))
  }

  /** The `Stats` counters. */
  datatype Counters = Counters(
    images: nat, compressed: nat, pointclouds: nat, laserscans: nat, gpsFixes: nat,
    skippedType: nat, filteredOut: nat, rawBytes: nat)

  const NoCounts := Counters(0, 0, 0, 0, 0, 0, 0, 0)

  /** A message of one of the five dispatched kinds: its counter and the raw
    * byte total grow. */
  function Bump(c: Counters, k: Kind, len: nat): Counters
    requires k != OtherType
  {
    match k
    case Image => c.(images := c.images + 1, rawBytes := c.rawBytes + len)
    case Compressed => c.(compressed := c.compressed + 1, rawBytes := c.rawBytes + len)
    case PointCloud => c.(pointclouds := c.pointclouds + 1, rawBytes := c.rawBytes + len)
    case LaserScan => c.(laserscans := c.laserscans + 1, rawBytes := c.rawBytes + len)
    case NavSatFix => c.(gpsFixes := c.gpsFixes + 1, rawBytes := c.rawBytes + len)
  }

  /** One submitted flush job. */
  datatype FlushJob = FlushJob(partIndex: nat, tmpPath: string, finalPath: string, rawBytes: nat)

  /** The locals of the second pass: `kept_msgs`, `topics`, `stats`, whether
    * `rec` holds a recording, `current_tmp_path`, `current_final_path`,
    * `segment_index`, `segment_images`, `segment_raw_bytes`, and the jobs
    * sent so far. */
  datatype Pass = Pass(
    kept: nat,
    topics: set<string>,
    stats: Counters,
    recOpen: bool,
    tmpPath: string,
    finalPath: string,
    index: nat,
    units: nat,
    bytes: nat,
    jobs: seq<FlushJob>)

  const Initial := Pass(0, {}, NoCounts, false, "", "", 0, 0, 0, [])

  /** The job for the segment with 0-based `index`: `part_index` is
    * `(index + 1) as u32`. */
  function JobFor(s: Settings, index: nat, bytes: nat): FlushJob
  {
    FlushJob((index + 1) % TWO_32, TmpName(s, index), FinalName(s, index), bytes)
  }

  /** Ensure a recording exists: a new segment (with its paths) or the single output. */
  function OpenRecording(s: Settings, p: Pass): Pass
  {
    if p.recOpen then p
    else if SegmentationEnabled(s) then p.(recOpen := true, tmpPath := TmpName(s, p.index), finalPath := FinalName(s, p.index))
    else p.(recOpen := true)
  }

  /** The dispatch on the type name, after the mapping has succeeded. */
  function Dispatch(s: Settings, p: Pass, k: Kind, len: nat): Pass
  {
    if k == OtherType then p.(stats := p.stats.(skippedType := p.stats.skippedType + 1))
    else if SegmentationEnabled(s) then
      p.(kept := p.kept + 1, stats := Bump(p.stats, k, len), units := p.units + 1, bytes := p.bytes + len)
    else p.(kept := p.kept + 1, stats := Bump(p.stats, k, len))
  }

  /** Segment rotation: submit the open segment and start counting the next. */
  function Rotate(s: Settings, p: Pass): Pass
  {
    if SegmentationEnabled(s) && RotationDue(s, p.units, p.bytes) && p.recOpen then
      p.(jobs := p.jobs + [FlushJob((p.index + 1) % TWO_32, p.tmpPath, p.finalPath, p.bytes)],
         index := p.index + 1, units := 0, bytes := 0, recOpen := false, tmpPath := "", finalPath := "")
    else p
  }

  /** Whether the mapping of an accepted record fails and ends the run. */
  predicate Fails(ctx: Context, r: MessageRecord)
  {
    !ctx.s.dryRun && Classify(ctx, r).Accepted? && Fallible(Classify(ctx, r).kind)
    && !ctx.decodes(ctx.conns[r.connId].1, r.payload)
  }

  /** One iteration of the second pass; None when a mapping error ends it. */
  function Step(ctx: Context, p: Pass, r: MessageRecord): Option<Pass>
  {
    match Classify(ctx, r)
    case NotData => Some(p)
    case UnknownConnection => Some(p.(stats := p.stats.(filteredOut := p.stats.filteredOut + 1)))
    case FilteredOut => Some(p)
    case Accepted(k) =>
      var p1 := p.(topics := p.topics + {ctx.conns[r.connId].0});
      if ctx.s.dryRun then Some(p1.(kept := p1.kept + 1))
      else if Fails(ctx, r) then None
      else Some(Rotate(ctx.s, Dispatch(ctx.s, OpenRecording(ctx.s, p1), k, |r.payload|)))
  }

  /** The state after the second pass over `rs`, or None if it was aborted. */
  function Run(ctx: Context, rs: seq<MessageRecord>): Option<Pass>
  {
    if |rs| == 0 then Some(Initial)
    else
      var prev := Run(ctx, rs[..|rs| - 1]);
      if prev.None? then None else Step(ctx, prev.value, rs[|rs| - 1])
  }

  /** One iteration of the second pass, as `convert_bag` writes it: a chain
    * of `continue`s, then opening the recording, the dispatch and the
    * rotation check. */
  method Process(ctx: Context, p: Pass, r: MessageRecord) returns (q: Pass, aborted: bool)
    ensures aborted <==> Step(ctx, p, r).None?
    ensures !aborted ==> q == Step(ctx, p, r).value
  {
    q, aborted := p, false;
    if !r.MessageData? {
      return;
    }
    if r.connId !in ctx.conns {
      q := q.(stats := q.stats.(filteredOut := q.stats.filteredOut + 1));
      return;
    }
    var topic := ctx.conns[r.connId].0;
    var tp := ctx.conns[r.connId].1;
    if |ctx.s.includeTopics| > 0 && topic !in ctx.s.includeTopics {
      return;
    }
    if topic in ctx.s.excludeTopics {
      return;
    }
    var tsRel := TsRel(r.time, ctx.startNs);
    if ctx.s.start.Some? && tsRel < ctx.s.start.value {
      return;
    }
    if ctx.s.end.Some? && tsRel > ctx.s.end.value {
      return;
    }
    q := q.(topics := q.topics + {topic});
    if ctx.s.dryRun {
      q := q.(kept := q.kept + 1);
      return;
    }
    q, aborted := Deliver(ctx, q, r, tp);
  }

  /** The part of an iteration after the filters, outside a dry run. */
  method Deliver(ctx: Context, p: Pass, r: MessageRecord, tp: string) returns (q: Pass, aborted: bool)
    requires r.MessageData? && r.connId in ctx.conns && tp == ctx.conns[r.connId].1 && !ctx.s.dryRun
    ensures var k := KindOf(tp);
      aborted <==> Fallible(k) && !ctx.decodes(tp, r.payload)
    ensures !aborted ==> q == Rotate(ctx.s, Dispatch(ctx.s, OpenRecording(ctx.s, p), KindOf(tp), |r.payload|))
  {
    q, aborted := p, false;
    var segmented := SegmentationEnabled(ctx.s);
    if !q.recOpen {
      if segmented {
        q := q.(recOpen := true, tmpPath := TmpName(ctx.s, q.index), finalPath := FinalName(ctx.s, q.index));
      } else {
        q := q.(recOpen := true);
      }
    }
    assert q == OpenRecording(ctx.s, p);
    var kind := KindOf(tp);
    if kind == OtherType {
      q := q.(stats := q.stats.(skippedType := q.stats.skippedType + 1));
    } else {
      if Fallible(kind) && !ctx.decodes(tp, r.payload) {
        return q, true;
      }
      q := q.(kept := q.kept + 1, stats := Bump(q.stats, kind, |r.payload|));
      if segmented {
        q := q.(units := q.units + 1, bytes := q.bytes + |r.payload|);
      }
    }
    assert q == Dispatch(ctx.s, OpenRecording(ctx.s, p), kind, |r.payload|);
    if segmented && RotationDue(ctx.s, q.units, q.bytes) && q.recOpen {
      var job := FlushJob((q.index + 1) % TWO_32, q.tmpPath, q.finalPath, q.bytes);
      q := q.(jobs := q.jobs + [job], index := q.index + 1, units := 0, bytes := 0,
              recOpen := false, tmpPath := "", finalPath := "");
    }
  }

  /** The second pass over all records. */
  method SecondPass(ctx: Context, rs: seq<MessageRecord>) returns (p: Pass, aborted: bool)
    ensures aborted <==> Run(ctx, rs).None?
    ensures !aborted ==> p == Run(ctx, rs).value
  {
    p := Initial;
    var i := 0;
    while i < |rs|
      invariant 0 <= i <= |rs|
      invariant Run(ctx, rs[..i]) == Some(p)
    {
      assert rs[..i + 1][..i] == rs[..i];
      var failed;
      p, failed := Process(ctx, p, rs[i]);
      if failed {
        assert Run(ctx, rs[..i + 1]).None?;
        AbortIsFinal(ctx, rs, i + 1);
        return p, true;
      }
      i := i + 1;
    }
    assert rs[..i] == rs;
    return p, false;
  }

  /** Once aborted, the run stays aborted. */
  lemma {:induction false} AbortIsFinal(ctx: Context, rs: seq<MessageRecord>, n: nat)
    requires n <= |rs|
    requires Run(ctx, rs[..n]).None?
    ensures Run(ctx, rs).None?
    decreases |rs| - n
  {
    if n < |rs| {
      assert rs[..n + 1][..n] == rs[..n];
      AbortIsFinal(ctx, rs, n + 1);
    } else {
      assert rs[..n] == rs;
    }
  }

  // ---------------------------------------------------------------------
  // The end of the run
  // ---------------------------------------------------------------------

  /** What the run leaves behind: the plan line's numbers, the counters, the
    * flush jobs submitted, the number of jobs waited for, and whether the
    * single recording was flushed. */
  datatype Report = Report(
    totalMsgs: nat,
    kept: nat,
    topics: set<string>,
    stats: Counters,
    jobs: seq<FlushJob>,
    totalJobs: nat,
    singleFlushed: bool)

  /** After the second pass: the last open segment is submitted only if it
    * holds something, and `total_jobs = segment_index + (segment_images > 0)`. */
  function Finish(s: Settings, total: nat, p: Pass): Report
  {
    var segmented := SegmentationEnabled(s);
    var jobs := if segmented && p.recOpen && p.units > 0
                then p.jobs + [FlushJob((p.index + 1) % TWO_32, p.tmpPath, p.finalPath, p.bytes)]
                else p.jobs;
    Report(total, p.kept, p.topics, p.stats, jobs,
           if segmented then p.index + (if p.units > 0 then 1 else 0) else 0,
           !s.dryRun && !segmented && p.recOpen)
  }

  datatype ConvertError = BagUnreadable | BadConfig(reason: ConfigError) | MappingFailed

  datatype Outcome = Done(report: Report) | Failed(error: ConvertError)

  function ContextFor(s: Settings, rs: seq<MessageRecord>, decodes: (string, Bytes) -> bool): Context
  {
    Context(s, ConnectionMap(rs), SessionStart(rs), decodes)
  }

  /** The whole conversion: read errors first, then the configuration
    * checks, then the two passes. */
  function Conversion(chunks: seq<ChunkRead>, s: Settings, decodes: (string, Bytes) -> bool): Outcome
  {
    match Flatten(chunks)
    case None => Failed(BagUnreadable)
    case Some(rs) =>
      if CheckConfig(s).Some? then Failed(BadConfig(CheckConfig(s).value))
      else
        match Run(ContextFor(s, rs, decodes), rs)
        case None => Failed(MappingFailed)
        case Some(p) => Done(Finish(s, DataCount(rs), p))
  }

  /** `convert_bag` without its I/O. */
  method ConvertBag(chunks: seq<ChunkRead>, s: Settings, decodes: (string, Bytes) -> bool) returns (r: Outcome)
    ensures r == Conversion(chunks, s, decodes)
  {
    var read := ReadMessages(chunks);
    if read.None? {
      return Failed(BagUnreadable);
    }
    var rs := read.value;
    var conns := CollectConnections(rs);
    var bad := CheckConfig(s);
    if bad.Some? {
      return Failed(BadConfig(bad.value));
    }
    var earliest, total := FirstPass(rs);
    var startNs := if earliest.Some? then earliest.value else 0;
    var ctx := Context(s, conns, startNs, decodes);
    var p, aborted := SecondPass(ctx, rs);
    if aborted {
      return Failed(MappingFailed);
    }
    return Done(Finish(s, total, p));
  }

  // ---------------------------------------------------------------------
  // Properties of the second pass
  // ---------------------------------------------------------------------

  /** The raw bytes recorded in a list of jobs. */
  function JobBytes(jobs: seq<FlushJob>): nat
  {
    if |jobs| == 0 then 0 else JobBytes(jobs[..|jobs| - 1]) + jobs[|jobs| - 1].rawBytes
  }

  /** What holds of the second pass's locals between two records: job i is
    * the segment with index i under its own names, a closed recording has
    * empty counters, the counters stay below the thresholds, an open segment
    * carries the names of the current index, without segmentation there are
    * no segments, every counted byte is in a job or the open segment, and a
    * dry run opens nothing. */
  predicate Coherent(s: Settings, p: Pass)
  {
    Settled(s, p) && (SegmentationEnabled(s) ==> !RotationDue(s, p.units, p.bytes))
  }

  /** `Coherent` except for the thresholds: what holds just before the
    * rotation check. */
  predicate Settled(s: Settings, p: Pass)
  {
    |p.jobs| == p.index
    && (forall i :: 0 <= i < |p.jobs| ==> p.jobs[i] == JobFor(s, i, p.jobs[i].rawBytes))
    && (!p.recOpen ==> p.units == 0 && p.bytes == 0)
    && (p.units == 0 ==> p.bytes == 0)
    && (SegmentationEnabled(s) && p.recOpen ==> p.tmpPath == TmpName(s, p.index) && p.finalPath == FinalName(s, p.index))
    && (!SegmentationEnabled(s) ==> p.index == 0 && p.units == 0 && p.bytes == 0)
    && (SegmentationEnabled(s) ==> JobBytes(p.jobs) + p.bytes == p.stats.rawBytes)
    && (s.dryRun ==> !p.recOpen && p.stats.rawBytes == 0)
  }

  lemma JobBytesAppend(jobs: seq<FlushJob>, j: FlushJob)
    ensures JobBytes(jobs + [j]) == JobBytes(jobs) + j.rawBytes
  {
    assert (jobs + [j])[..|jobs|] == jobs;
  }

  lemma OpenCoherent(s: Settings, p: Pass)
    requires Coherent(s, p) && !s.dryRun
    ensures Coherent(s, OpenRecording(s, p)) && OpenRecording(s, p).recOpen
  {
  }

  lemma DispatchSettled(s: Settings, p: Pass, k: Kind, len: nat)
    requires Coherent(s, p) && p.recOpen && !s.dryRun
    ensures Settled(s, Dispatch(s, p, k, len)) && Dispatch(s, p, k, len).recOpen
  {
  }

  lemma RotateCoherent(s: Settings, p: Pass)
    requires Settled(s, p)
    ensures Coherent(s, Rotate(s, p))
  {
    if SegmentationEnabled(s) && RotationDue(s, p.units, p.bytes) && p.recOpen {
      var job := FlushJob((p.index + 1) % TWO_32, p.tmpPath, p.finalPath, p.bytes);
      assert job == JobFor(s, p.index, p.bytes);
      JobBytesAppend(p.jobs, job);
    }
  }

  /** Every step keeps the second pass coherent. */
  lemma StepCoherent(ctx: Context, p: Pass, r: MessageRecord)
    requires Coherent(ctx.s, p)
    requires Step(ctx, p, r).Some?
    ensures Coherent(ctx.s, Step(ctx, p, r).value)
  {
    var s := ctx.s;
    var c := Classify(ctx, r);
    if c.Accepted? && !s.dryRun {
      var p1 := p.(topics := p.topics + {ctx.conns[r.connId].0});
      assert Coherent(s, p1);
      OpenCoherent(s, p1);
      var p2 := OpenRecording(s, p1);
      DispatchSettled(s, p2, c.kind, |r.payload|);
      RotateCoherent(s, Dispatch(s, p2, c.kind, |r.payload|));
    }
  }

  lemma {:induction false} RunCoherent(ctx: Context, rs: seq<MessageRecord>)
    requires Run(ctx, rs).Some?
    ensures Coherent(ctx.s, Run(ctx, rs).value)
  {
    if |rs| > 0 {
      RunCoherent(ctx, rs[..|rs| - 1]);
      StepCoherent(ctx, Run(ctx, rs[..|rs| - 1]).value, rs[|rs| - 1]);
    }
  }

  /** Rotation happens on a step iff the step counts a message of a
    * dispatched kind and the grown counters reach a threshold; the job then
    * carries the segment's index + 1, names and byte count, the index
    * advances and both counters restart at 0.  Otherwise nothing is
    * submitted. */
  lemma StepRotation(ctx: Context, p: Pass, r: MessageRecord)
    requires Coherent(ctx.s, p) && SegmentationEnabled(ctx.s)
    requires Step(ctx, p, r).Some?
    ensures var q := Step(ctx, p, r).value;
      var unit := Classify(ctx, r).Accepted? && Classify(ctx, r).kind != OtherType;
      (|q.jobs| == |p.jobs| + 1 <==> unit && RotationDue(ctx.s, p.units + 1, p.bytes + |r.payload|))
      && (|q.jobs| == |p.jobs| + 1 ==>
            q.jobs == p.jobs + [JobFor(ctx.s, p.index, p.bytes + |r.payload|)]
            && q.index == p.index + 1 && q.units == 0 && q.bytes == 0 && !q.recOpen)
      && (|q.jobs| != |p.jobs| + 1 ==> q.jobs == p.jobs && q.index == p.index)
  {
    var s := ctx.s;
    var c := Classify(ctx, r);
    if c.Accepted? {
      var p1 := p.(topics := p.topics + {ctx.conns[r.connId].0});
      var p2 := OpenRecording(s, p1);
      assert p2.tmpPath == TmpName(s, p.index) && p2.finalPath == FinalName(s, p.index);
    }
  }

  /** Whether `r` falls in class `c`, as a count. */
  function Hit(ctx: Context, r: MessageRecord, c: Class): nat
  {
    if Classify(ctx, r) == c then 1 else 0
  }

  /** How many records of the pass fall in class `c`. */
  function Occurrences(ctx: Context, rs: seq<MessageRecord>, c: Class): nat
  {
    if |rs| == 0 then 0
    else Occurrences(ctx, rs[..|rs| - 1], c) + Hit(ctx, rs[|rs| - 1], c)
  }

  /** How many records pass the filters. */
  function Admitted(ctx: Context, rs: seq<MessageRecord>): nat
  {
    if |rs| == 0 then 0
    else Admitted(ctx, rs[..|rs| - 1]) + (if Classify(ctx, rs[|rs| - 1]).Accepted? then 1 else 0)
  }

  /** How many records pass the filters and have one of the five dispatched kinds. */
  function Units(ctx: Context, rs: seq<MessageRecord>): nat
  {
    if |rs| == 0 then 0
    else Units(ctx, rs[..|rs| - 1])
         + (if Classify(ctx, rs[|rs| - 1]).Accepted? && Classify(ctx, rs[|rs| - 1]).kind != OtherType then 1 else 0)
  }

  /** An unknown connection only adds to `filtered_out`. */
  lemma {:induction false} RunFiltered(ctx: Context, rs: seq<MessageRecord>)
    requires Run(ctx, rs).Some?
    ensures Run(ctx, rs).value.stats.filteredOut == Occurrences(ctx, rs, UnknownConnection)
  {
    if |rs| > 0 {
      RunFiltered(ctx, rs[..|rs| - 1]);
      StepFiltered(ctx, Run(ctx, rs[..|rs| - 1]).value, rs[|rs| - 1]);
    }
  }

  /** One step adds 1 to `filtered_out` exactly for an unknown connection. */
  lemma StepFiltered(ctx: Context, p: Pass, r: MessageRecord)
    requires Step(ctx, p, r).Some?
    ensures Step(ctx, p, r).value.stats.filteredOut == p.stats.filteredOut + Hit(ctx, r, UnknownConnection)
  {
    var c := Classify(ctx, r);
    if c.Accepted? && !ctx.s.dryRun {
      var p2 := OpenRecording(ctx.s, p.(topics := p.topics + {ctx.conns[r.connId].0}));
      DispatchCounts(ctx.s, p2, c.kind, |r.payload|);
    }
  }

  /** In a dry run every admitted record adds 1 to `kept_msgs` and nothing
    * but `filtered_out` is counted. */
  lemma {:induction false} RunDryCounts(ctx: Context, rs: seq<MessageRecord>)
    requires ctx.s.dryRun && Run(ctx, rs).Some?
    ensures var p := Run(ctx, rs).value;
      p.kept == Admitted(ctx, rs) && p.stats == NoCounts.(filteredOut := p.stats.filteredOut)
  {
    if |rs| > 0 {
      RunDryCounts(ctx, rs[..|rs| - 1]);
    }
  }

  /** Outside a dry run, one step adds 1 to `kept_msgs` for a record of a
    * dispatched kind and 1 to the counter of the record's own class. */
  lemma StepKindCounts(ctx: Context, p: Pass, r: MessageRecord)
    requires !ctx.s.dryRun && Step(ctx, p, r).Some?
    ensures var q := Step(ctx, p, r).value; var c := Classify(ctx, r);
      q.kept == p.kept + (if c.Accepted? && c.kind != OtherType then 1 else 0)
      && q.stats.images == p.stats.images + Hit(ctx, r, Accepted(Image))
      && q.stats.compressed == p.stats.compressed + Hit(ctx, r, Accepted(Compressed))
      && q.stats.pointclouds == p.stats.pointclouds + Hit(ctx, r, Accepted(PointCloud))
      && q.stats.laserscans == p.stats.laserscans + Hit(ctx, r, Accepted(LaserScan))
      && q.stats.gpsFixes == p.stats.gpsFixes + Hit(ctx, r, Accepted(NavSatFix))
      && q.stats.skippedType == p.stats.skippedType + Hit(ctx, r, Accepted(OtherType))
  {
    var c := Classify(ctx, r);
    if c.Accepted? {
      var p2 := OpenRecording(ctx.s, p.(topics := p.topics + {ctx.conns[r.connId].0}));
      DispatchCounts(ctx.s, p2, c.kind, |r.payload|);
    }
  }

  /** Dispatching a message of kind `k` and checking for rotation adds 1 to
    * `kept_msgs` for a dispatched kind and 1 to the counter of `k`. */
  lemma DispatchCounts(s: Settings, p: Pass, k: Kind, len: nat)
    ensures var q := Rotate(s, Dispatch(s, p, k, len));
      q.kept == p.kept + (if k != OtherType then 1 else 0)
      && q.stats.images == p.stats.images + (if k == Image then 1 else 0)
      && q.stats.compressed == p.stats.compressed + (if k == Compressed then 1 else 0)
      && q.stats.pointclouds == p.stats.pointclouds + (if k == PointCloud then 1 else 0)
      && q.stats.laserscans == p.stats.laserscans + (if k == LaserScan then 1 else 0)
      && q.stats.gpsFixes == p.stats.gpsFixes + (if k == NavSatFix then 1 else 0)
      && q.stats.skippedType == p.stats.skippedType + (if k == OtherType then 1 else 0)
      && q.stats.filteredOut == p.stats.filteredOut
  {
    var p3 := Dispatch(s, p, k, len);
    assert Rotate(s, p3).kept == p3.kept && Rotate(s, p3).stats == p3.stats;
  }

  /** Outside a dry run `kept_msgs` counts the records of the five
    * dispatched kinds, each type counter its own kind and `skipped_type`
    * the admitted records of any other type. */
  lemma {:induction false} RunKindCounts(ctx: Context, rs: seq<MessageRecord>)
    requires !ctx.s.dryRun && Run(ctx, rs).Some?
    ensures var p := Run(ctx, rs).value;
      p.kept == Units(ctx, rs)
      && p.stats.images == Occurrences(ctx, rs, Accepted(Image))
      && p.stats.compressed == Occurrences(ctx, rs, Accepted(Compressed))
      && p.stats.pointclouds == Occurrences(ctx, rs, Accepted(PointCloud))
      && p.stats.laserscans == Occurrences(ctx, rs, Accepted(LaserScan))
      && p.stats.gpsFixes == Occurrences(ctx, rs, Accepted(NavSatFix))
      && p.stats.skippedType == Occurrences(ctx, rs, Accepted(OtherType))
  {
    if |rs| > 0 {
      var front := rs[..|rs| - 1];
      RunKindCounts(ctx, front);
      StepKindCounts(ctx, Run(ctx, front).value, rs[|rs| - 1]);
    }
  }

  /** One step adds 1 to `segment_index * k + segment_images` for a
    * message of a dispatched kind and 0 otherwise, when k is the only
    * threshold. */
  lemma StepUnits(ctx: Context, p: Pass, r: MessageRecord)
    requires SegmentationEnabled(ctx.s) && ctx.s.segmentBytes.None?
    requires Coherent(ctx.s, p) && Step(ctx, p, r).Some?
    ensures var q := Step(ctx, p, r).value; var k := SegSize(ctx.s);
      q.index * k + q.units
        == p.index * k + p.units
           + (if Classify(ctx, r).Accepted? && Classify(ctx, r).kind != OtherType then 1 else 0)
  {
    var q := Step(ctx, p, r).value;
    var k := SegSize(ctx.s);
    StepRotation(ctx, p, r);
    if |q.jobs| == |p.jobs| + 1 {
      UnitsRestart(p.index, p.units, k);
    } else {
      var c := Classify(ctx, r);
      if c.Accepted? {
        var p2 := OpenRecording(ctx.s, p.(topics := p.topics + {ctx.conns[r.connId].0}));
        RotateSkipped(ctx.s, Dispatch(ctx.s, p2, c.kind, |r.payload|));
      }
    }
  }

  /** Starting segment i + 1 with no units counts the k units of segment i. */
  lemma UnitsRestart(i: nat, u: nat, k: nat)
    requires u + 1 == k
    ensures (i + 1) * k + 0 == i * k + u + 1
  {
  }

  /** A rotation check that submits nothing leaves the state as it was. */
  lemma RotateSkipped(s: Settings, p: Pass)
    ensures |Rotate(s, p).jobs| == |p.jobs| ==> Rotate(s, p) == p
  {
  }

  /** With only a unit threshold k, `segment_index * k + segment_images` is
    * the number of records of the dispatched kinds. */
  lemma {:induction false} RunUnits(ctx: Context, rs: seq<MessageRecord>)
    requires SegmentationEnabled(ctx.s) && ctx.s.segmentBytes.None?
    requires Run(ctx, rs).Some?
    ensures var p := Run(ctx, rs).value;
      p.index * SegSize(ctx.s) + p.units == Units(ctx, rs)
  {
    if |rs| > 0 {
      var front := rs[..|rs| - 1];
      RunUnits(ctx, front);
      RunCoherent(ctx, front);
      StepUnits(ctx, Run(ctx, front).value, rs[|rs| - 1]);
    }
  }

  /** Whether record `r` passes the filters with topic `t`. */
  predicate AdmitsTopic(ctx: Context, r: MessageRecord, t: string)
  {
    Classify(ctx, r).Accepted? && ctx.conns[r.connId].0 == t
  }

  /** `topics` holds exactly the topics of the records that pass the
    * filters, dry run or not. */
  lemma {:induction false} RunTopics(ctx: Context, rs: seq<MessageRecord>, t: string)
    requires Run(ctx, rs).Some?
    ensures t in Run(ctx, rs).value.topics <==> exists i :: 0 <= i < |rs| && AdmitsTopic(ctx, rs[i], t)
  {
    if |rs| > 0 {
      var front := rs[..|rs| - 1];
      RunTopics(ctx, front, t);
      assert forall i :: 0 <= i < |front| ==> front[i] == rs[i];
      StepTopics(ctx, Run(ctx, front).value, rs[|rs| - 1]);
      if t in Run(ctx, rs).value.topics && t !in Run(ctx, front).value.topics {
        assert AdmitsTopic(ctx, rs[|rs| - 1], t);
      }
    }
  }

  /** One step adds the topic of an admitted record and nothing else. */
  lemma StepTopics(ctx: Context, p: Pass, r: MessageRecord)
    requires Step(ctx, p, r).Some?
    ensures Step(ctx, p, r).value.topics
            == p.topics + (if Classify(ctx, r).Accepted? then {ctx.conns[r.connId].0} else {})
  {
    var c := Classify(ctx, r);
    if c.Accepted? && !ctx.s.dryRun {
      var p1 := p.(topics := p.topics + {ctx.conns[r.connId].0});
      var p3 := Dispatch(ctx.s, OpenRecording(ctx.s, p1), c.kind, |r.payload|);
      assert Rotate(ctx.s, p3).topics == p1.topics;
    }
  }

  /** The pass is aborted iff some record's mapping fails. */
  lemma {:induction false} RunAborts(ctx: Context, rs: seq<MessageRecord>)
    ensures Run(ctx, rs).None? <==> exists i :: 0 <= i < |rs| && Fails(ctx, rs[i])
  {
    if |rs| > 0 {
      var front := rs[..|rs| - 1];
      RunAborts(ctx, front);
      assert forall i :: 0 <= i < |front| ==> front[i] == rs[i];
      if Run(ctx, front).None? {
        var i :| 0 <= i < |front| && Fails(ctx, front[i]);
        assert Fails(ctx, rs[i]);
      } else if Fails(ctx, rs[|rs| - 1]) {
        assert Run(ctx, rs).None?;
      } else {
        assert Run(ctx, rs).Some?;
      }
    }
  }

  /** A dry run never aborts, opens no recording, submits no job, and keeps
    * exactly the records that pass the filters. */
  lemma DryRun(ctx: Context, rs: seq<MessageRecord>)
    requires ctx.s.dryRun
    ensures Run(ctx, rs).Some?
    ensures var p := Run(ctx, rs).value;
      !p.recOpen && p.jobs == [] && p.index == 0 && p.kept == Admitted(ctx, rs)
    ensures !Finish(ctx.s, 0, Run(ctx, rs).value).singleFlushed
    ensures Finish(ctx.s, 0, Run(ctx, rs).value).totalJobs == 0
  {
    RunAborts(ctx, rs);
    RunCoherent(ctx, rs);
    RunDryCounts(ctx, rs);
  }

  /** With segmentation, the number of jobs waited for is the number
    * submitted, job i is part i + 1 under its names, and every counted byte
    * is in exactly one job; without it no job is submitted. */
  lemma FinalJobs(ctx: Context, rs: seq<MessageRecord>, total: nat)
    requires Run(ctx, rs).Some?
    ensures var f := Finish(ctx.s, total, Run(ctx, rs).value);
      (SegmentationEnabled(ctx.s) ==>
         |f.jobs| == f.totalJobs
         && (forall i :: 0 <= i < |f.jobs| ==> f.jobs[i] == JobFor(ctx.s, i, f.jobs[i].rawBytes))
         && JobBytes(f.jobs) == f.stats.rawBytes)
      && (!SegmentationEnabled(ctx.s) ==> f.jobs == [] && f.totalJobs == 0)
  {
    RunCoherent(ctx, rs);
    FinishJobs(ctx.s, total, Run(ctx, rs).value);
  }

  /** The final flush of a coherent pass completes the list of jobs. */
  lemma FinishJobs(s: Settings, total: nat, p: Pass)
    requires Coherent(s, p)
    ensures var f := Finish(s, total, p);
      (SegmentationEnabled(s) ==>
         |f.jobs| == f.totalJobs
         && (forall i :: 0 <= i < |f.jobs| ==> f.jobs[i] == JobFor(s, i, f.jobs[i].rawBytes))
         && JobBytes(f.jobs) == f.stats.rawBytes)
      && (!SegmentationEnabled(s) ==> f.jobs == [] && f.totalJobs == 0)
  {
    if SegmentationEnabled(s) && p.recOpen && p.units > 0 {
      var job := FlushJob((p.index + 1) % TWO_32, p.tmpPath, p.finalPath, p.bytes);
      assert job == JobFor(s, p.index, p.bytes);
      JobBytesAppend(p.jobs, job);
    }
  }

  /** `q * k + u` rounded up to whole multiples of k, for `u < k`. */
  lemma CeilDiv(q: nat, k: nat, u: nat)
    requires 0 <= u < k
    ensures (q * k + u + k - 1) / k == q + (if u > 0 then 1 else 0)
  {
    var n := q * k + u + k - 1;
    var d := if u > 0 then 1 else 0;
    var rem := if u > 0 then u - 1 else k - 1;
    assert n == (q + d) * k + rem;
    DivUnique(n, k, q + d, rem);
  }

  lemma DivUnique(n: int, k: int, a: int, b: int)
    requires k > 0 && 0 <= b < k && n == a * k + b
    ensures n / k == a
  {
    var q := n / k;
    var r := n % k;
    var d := q - a;
    assert d * k == b - r by {
      assert q * k + r == a * k + b;
      assert d * k == q * k - a * k;
    }
    if d > 0 {
      AtLeastOnce(d, k);
    } else if d < 0 {
      AtLeastOnce(-d, k);
    }
  }

  lemma AtLeastOnce(d: int, k: int)
    requires d >= 1 && k > 0
    ensures d * k >= k
  {
    assert d * k == (d - 1) * k + k;
  }

  /** With only a unit threshold k, the number of part files is
    * ceil(m / k) for m messages of the dispatched kinds. */
  lemma {:induction false} PartsCeil(ctx: Context, rs: seq<MessageRecord>, total: nat, k: nat)
    requires SegmentationEnabled(ctx.s) && ctx.s.segmentSize == Some(k) && k > 0 && ctx.s.segmentBytes.None?
    requires Run(ctx, rs).Some?
    ensures Finish(ctx.s, total, Run(ctx, rs).value).totalJobs == (Units(ctx, rs) + k - 1) / k
  {
    RunCoherent(ctx, rs);
    RunUnits(ctx, rs);
    var p := Run(ctx, rs).value;
    CeilDiv(p.index, k, p.units);
  }
}
