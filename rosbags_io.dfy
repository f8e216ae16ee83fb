/**
 * The `diagnose` and `inspect` commands: counting readable chunks, and the
 * per-topic message statistics of a bag.  Times are nanoseconds (`u64`);
 * the conversion to seconds is exact division here, where the source divides
 * in `f64`.
 */
module RosbagsIo {
  import opened Options
  import opened Bag

  // ---------------------------------------------------------------------
  // diagnose_bag
  // ---------------------------------------------------------------------

  /** `diagnose_bag`: counts chunk records up to and including the first one
    * that fails to read, and the readable ones before it. */
  method DiagnoseBag(chunks: seq<ChunkRead>) returns (total: nat, successful: nat)
    ensures successful <= total <= |chunks|
    ensures total - successful <= 1
    ensures forall i :: 0 <= i < successful ==> chunks[i].ChunkOk?
    ensures successful < total ==> chunks[successful].ChunkError?
    ensures successful == total ==> total == |chunks|
    ensures successful == total <==> forall i :: 0 <= i < |chunks| ==> chunks[i].ChunkOk?
  {
    total, successful := 0, 0;
    var i := 0;
    while i < |chunks|
      invariant 0 <= i <= |chunks|
      invariant total == successful == i
      invariant forall k :: 0 <= k < i ==> chunks[k].ChunkOk?
    {
      total := total + 1;
      if chunks[i].ChunkOk? {
        successful := successful + 1;
      } else {
        break;
      }
      i := i + 1;
    }
  }

  // ---------------------------------------------------------------------
  // inspect_bag
  // ---------------------------------------------------------------------

  /** Per-topic statistics: the type of the first message seen, the message
    * count, and the earliest and latest time in seconds. */
  datatype Stat = Stat(ty: string, count: nat, first: real, last: real)

  /** A printed `f64` that may be infinite. */
  datatype Extended = Fin(x: real) | PosInfinity | NegInfinity

  /** The printed summary of `inspect_bag`. */
  datatype Summary = Summary(start: Extended, end: real, duration: Extended, total: nat, stats: map<string, Stat>)

  function Seconds(time: nat): real
  {
    time as real / 1000000000.0
  }

  function Min(a: real, b: real): real { if a <= b then a else b }
  function Max(a: real, b: real): real { if a >= b then a else b }

  /** The running totals of the statistics pass: `total`, the stats map,
    * `bag_start_ns` (None for infinity), `global_first` (None for infinity)
    * and `global_last`. */
  datatype Tally = Tally(total: nat, stats: map<string, Stat>, bagStart: Option<nat>, first: Option<real>, last: real)

  const EmptyTally := Tally(0, map[], None, None, 0.0)

  predicate IsResolved(r: MessageRecord, conns: Connections)
  {
    r.MessageData? && r.connId in conns
  }

  predicate Resolves(r: MessageRecord, conns: Connections, topic: string)
  {
    IsResolved(r, conns) && conns[r.connId].0 == topic
  }

  /** `entry(topic).or_insert_with(..)` followed by the count and min/max
    * updates. */
  function AddSample(stats: map<string, Stat>, topic: string, tp: string, ts: real): map<string, Stat>
  {
    if topic in stats then
      var s := stats[topic];
      stats[topic := Stat(s.ty, s.count + 1, Min(s.first, ts), Max(s.last, ts))]
    else
      stats[topic := Stat(tp, 1, ts, ts)]
  }

  /** One message record of the statistics pass. */
  function Step(t: Tally, conns: Connections, r: MessageRecord): Tally
  {
    if !r.MessageData? then t
    else if r.connId !in conns then t.(total := t.total + 1)
    else
      var ts := Seconds(r.time);
      Tally(t.total + 2,
            AddSample(t.stats, conns[r.connId].0, conns[r.connId].1, ts),
            Some(if t.bagStart.Some? && t.bagStart.value <= r.time then t.bagStart.value else r.time),
            Some(if t.first.Some? then Min(t.first.value, ts) else ts),
            Max(t.last, ts))
  }

  function TallyOf(rs: seq<MessageRecord>, conns: Connections): Tally
  {
    if |rs| == 0 then EmptyTally else Step(TallyOf(rs[..|rs| - 1], conns), conns, rs[|rs| - 1])
  }

  function ShiftStat(s: Stat, origin: real): Stat
  {
    s.(first := s.first - origin, last := s.last - origin)
  }

  /** Relative times and duration, as printed. */
  function Summarize(t: Tally): Summary
  {
    if t.bagStart.Some? then
      var origin := Seconds(t.bagStart.value);
      var first := if t.first.Some? then Fin(t.first.value - origin) else PosInfinity;
      var last := t.last - origin;
      Summary(first, last, if first.Fin? then Fin(last - first.x) else NegInfinity, t.total,
              map k | k in t.stats :: ShiftStat(t.stats[k], origin))
    else
      Summary(if t.first.Some? then Fin(t.first.value) else PosInfinity, t.last,
              if t.first.Some? then Fin(t.last - t.first.value) else NegInfinity, t.total, t.stats)
  }

  /** `inspect_bag` without printing: None when a chunk or message fails to
    * read. */
  method InspectBag(chunks: seq<ChunkRead>) returns (r: Option<Summary>)
    ensures Flatten(chunks).None? ==> r.None?
    ensures Flatten(chunks).Some? ==>
      var rs := Flatten(chunks).value;
      r == Some(Summarize(TallyOf(rs, ConnectionMap(rs))))
  {
    var read := ReadMessages(chunks);
    if read.None? {
      return None;
    }
    var rs := read.value;
    var conns := CollectConnections(rs);

    var tally := StatisticsPass(rs, conns);
    var summary := Relativize(tally);
    r := Some(summary);
  }

  /** The second `for record in chunk_records()` pass of `inspect_bag`. */
  method StatisticsPass(rs: seq<MessageRecord>, conns: Connections) returns (t: Tally)
    ensures t == TallyOf(rs, conns)
  {
    var stats: map<string, Stat> := map[];
    var bagStart: Option<nat> := None;
    var globalFirst: Option<real> := None;
    var globalLast := 0.0;
    var total := 0;
    var i := 0;
    while i < |rs|
      invariant 0 <= i <= |rs|
      invariant TallyOf(rs[..i], conns) == Tally(total, stats, bagStart, globalFirst, globalLast)
    {
      assert rs[..i + 1][..i] == rs[..i];
      var m := rs[i];
      if m.MessageData? {
        total := total + 1;
        if m.connId in conns {
          var (topic, tp) := conns[m.connId];
          bagStart := Some(if bagStart.Some? && bagStart.value <= m.time then bagStart.value else m.time);
          var ts := Seconds(m.time);
          if topic in stats {
            var s := stats[topic];
            stats := stats[topic := Stat(s.ty, s.count + 1, Min(s.first, ts), Max(s.last, ts))];
          } else {
            stats := stats[topic := Stat(tp, 1, ts, ts)];
          }
          globalFirst := Some(if globalFirst.Some? then Min(globalFirst.value, ts) else ts);
          globalLast := Max(globalLast, ts);
          total := total + 1;
        }
      }
      i := i + 1;
    }
    assert rs[..i] == rs;

    t := Tally(total, stats, bagStart, globalFirst, globalLast);
  }

  /** Relative times (`values_mut` over the stats) and the duration. */
  method Relativize(t: Tally) returns (s: Summary)
    ensures s == Summarize(t)
  {
    var stats := t.stats;
    var bagStart := t.bagStart;
    var globalFirst := t.first;
    var globalLast := t.last;
    var total := t.total;
    var start: Extended := if globalFirst.Some? then Fin(globalFirst.value) else PosInfinity;
    var end := globalLast;
    if bagStart.Some? {
      var origin := Seconds(bagStart.value);
      if start.Fin? {
        start := Fin(start.x - origin);
      }
      end := end - origin;
      stats := ShiftAll(stats, origin);
    }
    var duration := if start.Fin? then Fin(end - start.x) else NegInfinity;
    s := Summary(start, end, duration, total, stats);
  }

  /** `for stat in stats.values_mut() { stat.first -= ..; stat.last -= .. }` */
  method ShiftAll(stats: map<string, Stat>, origin: real) returns (shifted: map<string, Stat>)
    ensures shifted == map k | k in stats :: ShiftStat(stats[k], origin)
  {
    var todo := stats.Keys;
    shifted := map[];
    while todo != {}
      invariant todo <= stats.Keys
      invariant shifted.Keys == stats.Keys - todo
      invariant forall k :: k in shifted ==> shifted[k] == ShiftStat(stats[k], origin)
      decreases |todo|
    {
      var k :| k in todo;
      shifted := shifted[k := ShiftStat(stats[k], origin)];
      todo := todo - {k};
    }
  }

  // ---------------------------------------------------------------------
  // Properties of the statistics pass
  // ---------------------------------------------------------------------

  /** What the counts of the statistics pass count: data records, data
    * records whose connection is known, and those of one topic. */
  datatype Counted = AnyData | Resolved | OnTopic(topic: string)

  predicate CountedBy(r: MessageRecord, conns: Connections, c: Counted)
  {
    match c
    case AnyData => r.MessageData?
    case Resolved => IsResolved(r, conns)
    case OnTopic(topic) => Resolves(r, conns, topic)
  }

  /** The indices below `n` of the records `c` counts. */
  ghost function Indices(rs: seq<MessageRecord>, conns: Connections, c: Counted, n: nat): set<int>
    requires n <= |rs|
  {
    set i | 0 <= i < n && CountedBy(rs[i], conns, c)
  }

  lemma IndicesStep(rs: seq<MessageRecord>, conns: Connections, c: Counted, n: nat)
    requires n < |rs|
    ensures Indices(rs, conns, c, n + 1) == Indices(rs, conns, c, n) + (if CountedBy(rs[n], conns, c) then {n} else {})
    ensures n !in Indices(rs, conns, c, n)
  {
  }

  lemma CardAddNew(s: set<int>, x: int)
    requires x !in s
    ensures |s + {x}| == |s| + 1
  {
  }

  lemma IndicesPrefix(rs: seq<MessageRecord>, conns: Connections, c: Counted, n: nat)
    requires n <= |rs|
    ensures Indices(rs[..n], conns, c, n) == Indices(rs, conns, c, n)
  {
    assert forall i :: 0 <= i < n ==> rs[..n][i] == rs[i];
  }

  /** The counts over all records, extended by one more record. */
  lemma IndicesLast(rs: seq<MessageRecord>, conns: Connections, c: Counted)
    requires |rs| > 0
    ensures |Indices(rs, conns, c, |rs|)|
         == |Indices(rs[..|rs| - 1], conns, c, |rs| - 1)| + (if CountedBy(rs[|rs| - 1], conns, c) then 1 else 0)
    ensures Indices(rs, conns, c, |rs|)
         == Indices(rs[..|rs| - 1], conns, c, |rs| - 1) + (if CountedBy(rs[|rs| - 1], conns, c) then {|rs| - 1} else {})
  {
    var n := |rs| - 1;
    IndicesPrefix(rs, conns, c, n);
    IndicesStep(rs, conns, c, n);
    if CountedBy(rs[n], conns, c) {
      CardAddNew(Indices(rs, conns, c, n), n);
    } else {
      assert Indices(rs, conns, c, n) + {} == Indices(rs, conns, c, n);
    }
  }

  /** `total` counts unresolved data records once and resolved ones twice. */
  lemma {:induction false} TotalCounts(rs: seq<MessageRecord>, conns: Connections)
    ensures TallyOf(rs, conns).total
         == |set i | 0 <= i < |rs| && rs[i].MessageData?| + |set i | 0 <= i < |rs| && IsResolved(rs[i], conns)|
  {
    TotalIndices(rs, conns);
    assert Indices(rs, conns, AnyData, |rs|) == set i | 0 <= i < |rs| && rs[i].MessageData?;
    assert Indices(rs, conns, Resolved, |rs|) == set i | 0 <= i < |rs| && IsResolved(rs[i], conns);
  }

  lemma {:induction false} TotalIndices(rs: seq<MessageRecord>, conns: Connections)
    ensures TallyOf(rs, conns).total == |Indices(rs, conns, AnyData, |rs|)| + |Indices(rs, conns, Resolved, |rs|)|
  {
    if |rs| > 0 {
      TotalIndices(rs[..|rs| - 1], conns);
      IndicesLast(rs, conns, AnyData);
      IndicesLast(rs, conns, Resolved);
    }
  }

  /** A topic has statistics iff some data record resolves to it, and its
    * count is the number of such records. */
  lemma {:induction false} StatCounts(rs: seq<MessageRecord>, conns: Connections, topic: string)
    ensures topic in TallyOf(rs, conns).stats <==> exists i :: 0 <= i < |rs| && Resolves(rs[i], conns, topic)
    ensures topic in TallyOf(rs, conns).stats ==>
      TallyOf(rs, conns).stats[topic].count == |set i | 0 <= i < |rs| && Resolves(rs[i], conns, topic)|
  {
    StatIndices(rs, conns, topic);
    var s := Indices(rs, conns, OnTopic(topic), |rs|);
    assert s == set i | 0 <= i < |rs| && Resolves(rs[i], conns, topic);
    if exists i :: 0 <= i < |rs| && Resolves(rs[i], conns, topic) {
      var i :| 0 <= i < |rs| && Resolves(rs[i], conns, topic);
      assert i in s;
    }
  }

  lemma {:induction false} StatIndices(rs: seq<MessageRecord>, conns: Connections, topic: string)
    ensures topic in TallyOf(rs, conns).stats <==> Indices(rs, conns, OnTopic(topic), |rs|) != {}
    ensures topic in TallyOf(rs, conns).stats ==>
      TallyOf(rs, conns).stats[topic].count == |Indices(rs, conns, OnTopic(topic), |rs|)|
  {
    if |rs| > 0 {
      StatIndices(rs[..|rs| - 1], conns, topic);
      IndicesLast(rs, conns, OnTopic(topic));
    }
  }

  /** `first` and `last` of a topic are the minimum and maximum of its
    * message times. */
  lemma {:induction false} StatBounds(rs: seq<MessageRecord>, conns: Connections, topic: string)
    requires topic in TallyOf(rs, conns).stats
    ensures var s := TallyOf(rs, conns).stats[topic];
      && s.first <= s.last
      && (forall i :: 0 <= i < |rs| && Resolves(rs[i], conns, topic) ==> s.first <= Seconds(rs[i].time) <= s.last)
      && (exists i :: 0 <= i < |rs| && Resolves(rs[i], conns, topic) && s.first == Seconds(rs[i].time))
      && (exists i :: 0 <= i < |rs| && Resolves(rs[i], conns, topic) && s.last == Seconds(rs[i].time))
  {
    var n := |rs| - 1;
    var front := rs[..n];
    assert forall i :: 0 <= i < n ==> front[i] == rs[i];
    if topic in TallyOf(front, conns).stats {
      StatBounds(front, conns, topic);
    } else {
      StatCounts(front, conns, topic);
    }
  }

  /** A topic's type is the type of the connection of its first message. */
  lemma {:induction false} StatType(rs: seq<MessageRecord>, conns: Connections, topic: string)
    requires topic in TallyOf(rs, conns).stats
    ensures exists i :: (0 <= i < |rs| && Resolves(rs[i], conns, topic)
                         && (forall j :: 0 <= j < i ==> !Resolves(rs[j], conns, topic))
                         && TallyOf(rs, conns).stats[topic].ty == conns[rs[i].connId].1)
  {
    var n := |rs| - 1;
    var front := rs[..n];
    assert forall i :: 0 <= i < n ==> front[i] == rs[i];
    StatCounts(front, conns, topic);
    if topic in TallyOf(front, conns).stats {
      StatType(front, conns, topic);
    }
  }

  /** The bag start is the earliest time of a resolved data record, and is
    * unset iff there is none. */
  lemma {:induction false} BagStartIsMinimum(rs: seq<MessageRecord>, conns: Connections)
    ensures TallyOf(rs, conns).bagStart.None? <==> forall i :: 0 <= i < |rs| ==> !IsResolved(rs[i], conns)
    ensures TallyOf(rs, conns).first.Some? <==> TallyOf(rs, conns).bagStart.Some?
    ensures TallyOf(rs, conns).bagStart.Some? ==>
      var b := TallyOf(rs, conns).bagStart.value;
      && (forall i :: 0 <= i < |rs| && IsResolved(rs[i], conns) ==> b <= rs[i].time)
      && (exists i :: 0 <= i < |rs| && IsResolved(rs[i], conns) && b == rs[i].time)
      && TallyOf(rs, conns).first == Some(Seconds(b))
  {
    if |rs| > 0 {
      var n := |rs| - 1;
      var front := rs[..n];
      assert forall i :: 0 <= i < n ==> front[i] == rs[i];
      BagStartIsMinimum(front, conns);
      var t := TallyOf(front, conns);
      if IsResolved(rs[n], conns) && t.bagStart.Some? {
        var b := t.bagStart.value;
        var m := rs[n].time;
        if b <= m {
          assert Seconds(b) <= Seconds(m);
        } else {
          assert Seconds(m) <= Seconds(b);
        }
      }
    }
  }

  /** When at least one message resolves, the printed start is 0 and the
    * duration is the spread of resolved message times; otherwise the start is
    * +inf and the duration -inf. */
  lemma SummaryTimes(rs: seq<MessageRecord>, conns: Connections)
    ensures var t := TallyOf(rs, conns);
      var s := Summarize(t);
      (t.bagStart.Some? ==> s.start == Fin(0.0) && s.duration == Fin(s.end) && s.end >= 0.0)
      && (t.bagStart.None? ==> s.start == PosInfinity && s.duration == NegInfinity && s.end == 0.0)
  {
    BagStartIsMinimum(rs, conns);
    LastBound(rs, conns);
  }

  lemma {:induction false} LastBound(rs: seq<MessageRecord>, conns: Connections)
    ensures TallyOf(rs, conns).first.Some? ==> TallyOf(rs, conns).first.value <= TallyOf(rs, conns).last
    ensures TallyOf(rs, conns).first.None? ==> TallyOf(rs, conns).last == 0.0
  {
    if |rs| > 0 {
      LastBound(rs[..|rs| - 1], conns);
    }
  }
}
