/**
 * Choosing the transform of one edge at a query time from its buffered
 * samples (`interpolate_samples`), in the three modes of `--tf-mode`.
 *
 * Rigid transforms are kept symbolic: an `Iso` says which stored samples a
 * result is built from and how (inverse, composition, interpolation), not
 * the floating-point matrix nalgebra would compute.
 */
module TfSelect {
  import opened Options
  import opened TfMessage

  /** A buffered transform: the bag time it was received at (0 for static
    * edges) and the translation and rotation as read. */
  datatype TfSample = TfSample(t: real, transform: Transform)

  /** A rigid transform, as the term that produces it: a stored sample, the
    * inverse or composition (`outer * inner`) of others, a blend of two
    * samples, or the pose read from a navigation message. */
  datatype Iso =
    | Identity
    | Of(sample: TfSample)
    | Inverse(inner: Iso)
    | Compose(outer: Iso, inner: Iso)
    | Interp(before: TfSample, after: TfSample, frac: real)
    | Local(pose: Transform)

  /** `TfMode`; `Exact` is the source's `TfMode::None`: only a sample taken
    * at the query time itself is used. */
  datatype TfMode = Nearest | Interpolate | Exact

  /** 1e-9 seconds, the tolerance for "the same time". */
  const EPS: real := 0.000000001

  function Abs(x: real): real
  {
    if x < 0.0 then -x else x
  }

  /** `(s.t - at_time).abs()`. */
  function Gap(s: TfSample, at: real): real
  {
    Abs(s.t - at)
  }

  // ---------------------------------------------------------------------
  // The three selections, each as the index it picks
  // ---------------------------------------------------------------------

  /** `samples.iter().find(|s| (s.t - at).abs() < 1e-9)`: the first sample
    * within the tolerance of the query time. */
  function FirstExact(samples: seq<TfSample>, at: real): (r: Option<nat>)
    ensures r.None? <==> forall j :: 0 <= j < |samples| ==> Gap(samples[j], at) >= EPS
    ensures r.Some? ==> r.value < |samples| && Gap(samples[r.value], at) < EPS
                        && forall j :: 0 <= j < r.value ==> Gap(samples[j], at) >= EPS
  {
    if |samples| == 0 then None
    else if Gap(samples[0], at) < EPS then Some(0)
    else
      var r := FirstExact(samples[1..], at);
      assert forall j :: 1 <= j < |samples| ==> samples[j] == samples[1..][j - 1];
      if r.None? then None else Some(r.value + 1)
  }

  /** The Nearest loop: a sample replaces the best so far only when strictly
    * closer, so ties go to the earliest. */
  function NearestIndex(samples: seq<TfSample>, at: real): (r: Option<nat>)
    ensures r.Some? ==> r.value < |samples|
  {
    if |samples| == 0 then None
    else
      var b := NearestIndex(samples[..|samples| - 1], at);
      var i := |samples| - 1;
      if b.None? || Gap(samples[i], at) < Gap(samples[b.value], at) then Some(i) else b
  }

  /** The first half of the Interpolate loop: the latest sample at or before
    * the query time (the first of equal times). */
  function BeforeIndex(samples: seq<TfSample>, at: real): (r: Option<nat>)
    ensures r.Some? ==> r.value < |samples| && samples[r.value].t <= at
  {
    if |samples| == 0 then None
    else
      var b := BeforeIndex(samples[..|samples| - 1], at);
      var i := |samples| - 1;
      if samples[i].t <= at && (b.None? || samples[i].t > samples[b.value].t) then Some(i) else b
  }

  /** The second half: the earliest sample at or after the query time. */
  function AfterIndex(samples: seq<TfSample>, at: real): (r: Option<nat>)
    ensures r.Some? ==> r.value < |samples| && samples[r.value].t >= at
  {
    if |samples| == 0 then None
    else
      var a := AfterIndex(samples[..|samples| - 1], at);
      var i := |samples| - 1;
      if samples[i].t >= at && (a.None? || samples[i].t < samples[a.value].t) then Some(i) else a
  }

  /** What `interpolate_samples` returns. */
  function Select(samples: seq<TfSample>, at: real, mode: TfMode): Option<Iso>
  {
    match mode
    case Exact =>
      var k := FirstExact(samples, at);
      if k.Some? then Some(Of(samples[k.value])) else None
    case Nearest =>
      var k := NearestIndex(samples, at);
      if k.Some? then Some(Of(samples[k.value])) else None
    case Interpolate =>
      var b := BeforeIndex(samples, at);
      var a := AfterIndex(samples, at);
      if b.Some? && a.Some? && Abs(samples[a.value].t - samples[b.value].t) > EPS then
        var sb, sa := samples[b.value], samples[a.value];
        Some(Interp(sb, sa, (at - sb.t) / (sa.t - sb.t)))
      else if b.Some? then Some(Of(samples[b.value]))
      else if a.Some? then Some(Of(samples[a.value]))
      else None
  }

  // ---------------------------------------------------------------------
  // What the selections mean
  // ---------------------------------------------------------------------

  /** Nearest picks a sample of least distance to the query time, the first
    * of them, and finds one whenever there is any sample. */
  lemma {:induction false} NearestIsFirstClosest(samples: seq<TfSample>, at: real)
    ensures NearestIndex(samples, at).None? <==> |samples| == 0
    ensures NearestIndex(samples, at).Some? ==>
      var k := NearestIndex(samples, at).value;
      (forall j :: 0 <= j < |samples| ==> Gap(samples[k], at) <= Gap(samples[j], at))
      && (forall j :: 0 <= j < k ==> Gap(samples[j], at) > Gap(samples[k], at))
  {
    if |samples| > 0 {
      var front := samples[..|samples| - 1];
      NearestIsFirstClosest(front, at);
      assert forall j :: 0 <= j < |front| ==> front[j] == samples[j];
    }
  }

  /** Before is the latest sample not after the query time (first among equal
    * times), and there is one iff some sample is not after it. */
  lemma {:induction false} BeforeIsLatest(samples: seq<TfSample>, at: real)
    ensures BeforeIndex(samples, at).None? <==> forall j :: 0 <= j < |samples| ==> samples[j].t > at
    ensures BeforeIndex(samples, at).Some? ==>
      var k := BeforeIndex(samples, at).value;
      samples[k].t <= at
      && (forall j :: 0 <= j < |samples| && samples[j].t <= at ==> samples[j].t <= samples[k].t)
      && (forall j :: 0 <= j < k && samples[j].t <= at ==> samples[j].t < samples[k].t)
  {
    if |samples| > 0 {
      var front := samples[..|samples| - 1];
      BeforeIsLatest(front, at);
      assert forall j :: 0 <= j < |front| ==> front[j] == samples[j];
    }
  }

  /** After is the earliest sample not before the query time (first among
    * equal times), and there is one iff some sample is not before it. */
  lemma {:induction false} AfterIsEarliest(samples: seq<TfSample>, at: real)
    ensures AfterIndex(samples, at).None? <==> forall j :: 0 <= j < |samples| ==> samples[j].t < at
    ensures AfterIndex(samples, at).Some? ==>
      var k := AfterIndex(samples, at).value;
      samples[k].t >= at
      && (forall j :: 0 <= j < |samples| && samples[j].t >= at ==> samples[j].t >= samples[k].t)
      && (forall j :: 0 <= j < k && samples[j].t >= at ==> samples[j].t > samples[k].t)
  {
    if |samples| > 0 {
      var front := samples[..|samples| - 1];
      AfterIsEarliest(front, at);
      assert forall j :: 0 <= j < |front| ==> front[j] == samples[j];
    }
  }

  /** Without samples no mode yields a transform; with samples Nearest and
    * Interpolate always do. */
  lemma SelectFinds(samples: seq<TfSample>, at: real)
    ensures |samples| == 0 ==> forall mode :: Select(samples, at, mode).None?
    ensures |samples| > 0 ==> Select(samples, at, Nearest).Some? && Select(samples, at, Interpolate).Some?
  {
    NearestIsFirstClosest(samples, at);
    BeforeIsLatest(samples, at);
    AfterIsEarliest(samples, at);
    if |samples| > 0 {
      assert samples[0].t <= at || samples[0].t >= at;
    }
  }

  /** Interpolation happens only between a sample before and a later sample
    * after the query time, with a fraction in [0, 1]; the two are the
    * Before and After samples. */
  lemma InterpolateBrackets(samples: seq<TfSample>, at: real)
    ensures Select(samples, at, Interpolate).Some? && Select(samples, at, Interpolate).value.Interp? ==>
      var iso := Select(samples, at, Interpolate).value;
      iso.before.t <= at <= iso.after.t && iso.before.t + EPS < iso.after.t
      && 0.0 <= iso.frac <= 1.0
      && iso.before == samples[BeforeIndex(samples, at).value]
      && iso.after == samples[AfterIndex(samples, at).value]
  {
    var b := BeforeIndex(samples, at);
    var a := AfterIndex(samples, at);
    if b.Some? && a.Some? && Abs(samples[a.value].t - samples[b.value].t) > EPS {
      Fraction(samples[b.value].t, at, samples[a.value].t);
    }
  }

  lemma Fraction(lo: real, x: real, hi: real)
    requires lo <= x <= hi && lo < hi
    ensures 0.0 <= (x - lo) / (hi - lo) <= 1.0
  {
    var f := (x - lo) / (hi - lo);
    assert f * (hi - lo) == x - lo;
  }

  // ---------------------------------------------------------------------
  // The loops
  // ---------------------------------------------------------------------

  /** The Nearest loop; "best so far is infinitely far" is `best == None`. */
  method NearestLoop(samples: seq<TfSample>, at: real) returns (best: Option<nat>)
    ensures best == NearestIndex(samples, at)
  {
    best := None;
    var bestDiff := 0.0;
    var i := 0;
    while i < |samples|
      invariant 0 <= i <= |samples|
      invariant best == NearestIndex(samples[..i], at)
      invariant best.Some? ==> best.value < i && bestDiff == Gap(samples[best.value], at)
    {
      assert samples[..i + 1][..i] == samples[..i];
      assert forall j :: 0 <= j < i ==> samples[..i + 1][j] == samples[j];
      var diff := Gap(samples[i], at);
      if best.None? || diff < bestDiff {
        bestDiff := diff;
        best := Some(i);
      }
      i := i + 1;
    }
    assert samples[..i] == samples;
  }

  /** The Interpolate loop, tracking Before and After together. */
  method BracketLoop(samples: seq<TfSample>, at: real) returns (before: Option<nat>, after: Option<nat>)
    ensures before == BeforeIndex(samples, at)
    ensures after == AfterIndex(samples, at)
  {
    before, after := None, None;
    var i := 0;
    while i < |samples|
      invariant 0 <= i <= |samples|
      invariant before == BeforeIndex(samples[..i], at)
      invariant after == AfterIndex(samples[..i], at)
      invariant before.Some? ==> before.value < i
      invariant after.Some? ==> after.value < i
    {
      assert samples[..i + 1][..i] == samples[..i];
      assert forall j :: 0 <= j < i ==> samples[..i + 1][j] == samples[j];
      var s := samples[i];
      if s.t <= at && (before.None? || s.t > samples[before.value].t) {
        before := Some(i);
      }
      if s.t >= at && (after.None? || s.t < samples[after.value].t) {
        after := Some(i);
      }
      i := i + 1;
    }
    assert samples[..i] == samples;
  }

  /** `interpolate_samples`. */
  method InterpolateSamples(samples: seq<TfSample>, at: real, mode: TfMode) returns (r: Option<Iso>)
    ensures r == Select(samples, at, mode)
  {
    match mode {
      case Exact =>
        var k := FirstExact(samples, at);
        r := if k.Some? then Some(Of(samples[k.value])) else None;
      case Nearest =>
        var k := NearestLoop(samples, at);
        r := if k.Some? then Some(Of(samples[k.value])) else None;
      case Interpolate =>
        var b, a := BracketLoop(samples, at);
        if b.Some? && a.Some? && Abs(samples[a.value].t - samples[b.value].t) > EPS {
          var sb, sa := samples[b.value], samples[a.value];
          var frac := (at - sb.t) / (sa.t - sb.t);
          r := Some(Interp(sb, sa, frac));
        } else if b.Some? {
          r := Some(Of(samples[b.value]));
        } else if a.Some? {
          r := Some(Of(samples[a.value]));
        } else {
          r := None;
        }
    }
  }
}
