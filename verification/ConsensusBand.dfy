/** The interval sweep that picks the gathering band (workbench/research/support/newhug.py,
    suggest_gather_band), with exact reals and zero tolerances. */
module ConsensusBand {
  import opened InputErrors
  import opened Integers
  import opened Options
  import opened RealLists

  datatype Interval = Interval(low: real, high: real)

  /** One positive-length piece of the coverage profile. */
  datatype Step = Step(low: real, high: real, count: int)

  /** A connected run of supported pieces: its ends, largest count and count-weighted length. */
  datatype Run = Run(low: real, high: real, top: int, weight: real)

  datatype Report = Report(band: Option<(real, real)>, peak: int, required: int, profile: seq<Step>)

  // ----- counting

  function LowsUpTo(intervals: seq<Interval>, x: real): nat {
    if intervals == [] then 0
    else LowsUpTo(intervals[..|intervals| - 1], x) + (if intervals[|intervals| - 1].low <= x then 1 else 0)
  }

  function HighsUpTo(intervals: seq<Interval>, x: real): nat {
    if intervals == [] then 0
    else HighsUpTo(intervals[..|intervals| - 1], x) + (if intervals[|intervals| - 1].high <= x then 1 else 0)
  }

  function LowsAt(intervals: seq<Interval>, x: real): nat {
    if intervals == [] then 0
    else LowsAt(intervals[..|intervals| - 1], x) + (if intervals[|intervals| - 1].low == x then 1 else 0)
  }

  function HighsAt(intervals: seq<Interval>, x: real): nat {
    if intervals == [] then 0
    else HighsAt(intervals[..|intervals| - 1], x) + (if intervals[|intervals| - 1].high == x then 1 else 0)
  }

  /** The intervals that contain [u, v]. */
  function Containing(intervals: seq<Interval>, u: real, v: real): nat {
    if intervals == [] then 0
    else
      var last := intervals[|intervals| - 1];
      Containing(intervals[..|intervals| - 1], u, v) + (if last.low <= u && v <= last.high then 1 else 0)
  }

  /** Intervals given the wrong way round whose turned-around range contains [u, v]; each counts as -1. */
  function Reversed(intervals: seq<Interval>, u: real, v: real): nat {
    if intervals == [] then 0
    else
      var last := intervals[|intervals| - 1];
      Reversed(intervals[..|intervals| - 1], u, v) + (if last.high <= u && v <= last.low then 1 else 0)
  }

  function Endpoints(intervals: seq<Interval>): seq<real> {
    if intervals == [] then []
    else
      var last := intervals[|intervals| - 1];
      Endpoints(intervals[..|intervals| - 1]) + [last.low, last.high]
  }

  /** No interval begins or ends strictly between u and v. */
  ghost predicate Quiet(intervals: seq<Interval>, u: real, v: real) {
    forall k :: 0 <= k < |intervals| ==> !(u < intervals[k].low < v) && !(u < intervals[k].high < v)
  }

  /** The net count at u is what the sweep has accumulated; on a quiet piece it counts the containing intervals. */
  lemma {:induction false} NetCountsContaining(intervals: seq<Interval>, u: real, v: real)
    requires u < v && Quiet(intervals, u, v)
    ensures LowsUpTo(intervals, u) - HighsUpTo(intervals, u) == Containing(intervals, u, v) - Reversed(intervals, u, v)
  {
    if intervals != [] {
      NetCountsContaining(intervals[..|intervals| - 1], u, v);
    }
  }

  lemma {:induction false} NextPosition(intervals: seq<Interval>, u: real, v: real)
    requires u < v && Quiet(intervals, u, v)
    ensures LowsUpTo(intervals, v) == LowsUpTo(intervals, u) + LowsAt(intervals, v)
    ensures HighsUpTo(intervals, v) == HighsUpTo(intervals, u) + HighsAt(intervals, v)
  {
    if intervals != [] {
      NextPosition(intervals[..|intervals| - 1], u, v);
    }
  }

  lemma {:induction false} FirstPosition(intervals: seq<Interval>, v: real)
    requires forall k :: 0 <= k < |intervals| ==> intervals[k].low >= v && intervals[k].high >= v
    ensures LowsUpTo(intervals, v) == LowsAt(intervals, v) && HighsUpTo(intervals, v) == HighsAt(intervals, v)
  {
    if intervals != [] {
      FirstPosition(intervals[..|intervals| - 1], v);
    }
  }

  lemma {:induction false} EndpointsListed(intervals: seq<Interval>)
    ensures forall k :: 0 <= k < |intervals| ==>
      intervals[k].low in Endpoints(intervals) && intervals[k].high in Endpoints(intervals)
  {
    if intervals != [] {
      EndpointsListed(intervals[..|intervals| - 1]);
    }
  }

  // ----- the events and the sweep

  ghost predicate EventsOf(intervals: seq<Interval>, events: map<real, (int, int)>) {
    && (forall x :: x in events <==> x in Endpoints(intervals))
    && (forall x :: x in events ==> events[x] == (LowsAt(intervals, x), HighsAt(intervals, x)))
    && (forall x :: x !in events ==> LowsAt(intervals, x) == 0 && HighsAt(intervals, x) == 0)
  }

  /** Counting one interval's two ends. */
  method CountEnds(ghost before: seq<Interval>, i: Interval,
                   events: map<real, (int, int)>) returns (events': map<real, (int, int)>)
    requires EventsOf(before, events)
    ensures EventsOf(before + [i], events')
  {
    assert (before + [i])[..|before|] == before;
    var atLow := if i.low in events then events[i.low] else (0, 0);
    events' := events[i.low := (atLow.0 + 1, atLow.1)];
    var atHigh := if i.high in events' then events'[i.high] else (0, 0);
    events' := events'[i.high := (atHigh.0, atHigh.1 + 1)];
  }

  /** Start and end counts per position, as the dictionary of the source. */
  method CollectEvents(intervals: seq<Interval>) returns (events: map<real, (int, int)>)
    ensures forall x :: x in events <==> x in Endpoints(intervals)
    ensures forall x :: x in events ==> events[x] == (LowsAt(intervals, x), HighsAt(intervals, x))
    ensures forall x :: x !in events ==> LowsAt(intervals, x) == 0 && HighsAt(intervals, x) == 0
  {
    events := map[];
    for n := 0 to |intervals|
      invariant EventsOf(intervals[..n], events)
    {
      assert intervals[..n + 1] == intervals[..n] + [intervals[n]];
      events := CountEnds(intervals[..n], intervals[n], events);
    }
    assert intervals[..|intervals|] == intervals;
  }

  /** What the sweep has accumulated after the position x. */
  function Net(intervals: seq<Interval>, x: real): int { LowsUpTo(intervals, x) - HighsUpTo(intervals, x) }

  /** The profile of the sweep: consecutive positions with the net count after the first of them. */
  ghost predicate IsProfile(intervals: seq<Interval>, positions: seq<real>, profile: seq<Step>, n: nat)
    requires n <= |positions|
  {
    && |profile| == (if n == |positions| && n > 0 then n - 1 else n)
    && forall i ::
      0 <= i < |profile| ==> profile[i] == Step(positions[i], positions[i + 1], Net(intervals, positions[i]))
  }

  lemma QuietBetween(intervals: seq<Interval>, positions: seq<real>, i: nat)
    requires positions == SortedUnique(Endpoints(intervals)) && i + 1 < |positions|
    ensures positions[i] < positions[i + 1] && Quiet(intervals, positions[i], positions[i + 1])
  {
    EndpointsListed(intervals);
    forall k | 0 <= k < |intervals|
      ensures !(positions[i] < intervals[k].low < positions[i + 1])
      ensures !(positions[i] < intervals[k].high < positions[i + 1])
    {
      if positions[i] < intervals[k].low < positions[i + 1] { BetweenNeighbours(positions, i, intervals[k].low); }
      if positions[i] < intervals[k].high < positions[i + 1] { BetweenNeighbours(positions, i, intervals[k].high); }
    }
  }

  lemma StartOfSweep(intervals: seq<Interval>, positions: seq<real>)
    requires positions == SortedUnique(Endpoints(intervals)) && positions != []
    ensures LowsUpTo(intervals, positions[0]) == LowsAt(intervals, positions[0])
    ensures HighsUpTo(intervals, positions[0]) == HighsAt(intervals, positions[0])
  {
    EndpointsListed(intervals);
    forall k | 0 <= k < |intervals| ensures intervals[k].low >= positions[0] && intervals[k].high >= positions[0] {
      assert intervals[k].low in positions && intervals[k].high in positions;
    }
    FirstPosition(intervals, positions[0]);
  }

  method Sweep(intervals: seq<Interval>) returns (profile: seq<Step>)
    ensures var positions := SortedUnique(Endpoints(intervals)); IsProfile(intervals, positions, profile, |positions|)
  {
    var events := CollectEvents(intervals);
    var positions := SortedUnique(Endpoints(intervals));
    var active := 0;
    profile := [];
    for i := 0 to |positions|
      invariant IsProfile(intervals, positions, profile, i)
      invariant i > 0 ==> active == Net(intervals, positions[i - 1])
      invariant i == 0 ==> active == 0
    {
      var position := positions[i];
      assert position in positions;
      var (starts, ends) := events[position];
      active := active + starts - ends;
      if i == 0 {
        StartOfSweep(intervals, positions);
      } else {
        QuietBetween(intervals, positions, i - 1);
        NextPosition(intervals, positions[i - 1], position);
      }
      if i + 1 < |positions| {
        profile := profile + [Step(position, positions[i + 1], active)];
      }
    }
  }

  // ----- connected runs of supported pieces

  /** The pieces touch: each begins where the previous one ends, and each has positive length. */
  ghost predicate Chained(profile: seq<Step>) {
    && (forall i :: 0 <= i < |profile| ==> profile[i].low < profile[i].high)
    && (forall i, j :: 0 <= i && j == i + 1 < |profile| ==> profile[i].high == profile[j].low)
  }

  /** Among the first n pieces, pieces i..j-1 are supported and neither neighbour is. */
  ghost predicate MaximalRun(profile: seq<Step>, n: nat, required: int, i: nat, j: nat)
    requires n <= |profile|
  {
    && i < j <= n
    && (forall k :: i <= k < j ==> profile[k].count >= required)
    && (i > 0 ==> profile[i - 1].count < required)
    && (j < n ==> profile[j].count < required)
  }

  function Top(profile: seq<Step>, i: nat, j: nat): int
    requires i < j <= |profile|
  {
    if j == i + 1 then profile[i].count else Greater(Top(profile, i, j - 1), profile[j - 1].count)
  }

  function Weight(profile: seq<Step>, i: nat, j: nat): real
    requires i <= j <= |profile|
  {
    if i == j then 0.0
    else Weight(profile, i, j - 1) + Area(profile[j - 1])
  }

  function RunOf(profile: seq<Step>, i: nat, j: nat): Run
    requires i < j <= |profile|
  {
    Run(profile[i].low, profile[j - 1].high, Top(profile, i, j), Weight(profile, i, j))
  }

  lemma {:induction false} TopIsLargest(profile: seq<Step>, i: nat, j: nat)
    requires i < j <= |profile|
    ensures forall k :: i <= k < j ==> profile[k].count <= Top(profile, i, j)
    ensures exists k :: i <= k < j && profile[k].count == Top(profile, i, j)
  {
    if j == i + 1 {
      assert profile[i].count == Top(profile, i, j);
    } else {
      TopIsLargest(profile, i, j - 1);
      if Top(profile, i, j) == profile[j - 1].count {
        assert i <= j - 1 < j;
      } else {
        var k :| i <= k < j - 1 && profile[k].count == Top(profile, i, j - 1);
        assert profile[k].count == Top(profile, i, j);
      }
    }
  }

  /** Lexicographic order by largest count, weight and length. */
  predicate Better(a: Run, b: Run) {
    || a.top > b.top
    || (a.top == b.top && a.weight > b.weight)
    || (a.top == b.top && a.weight == b.weight && a.high - a.low > b.high - b.low)
  }

  function Area(step: Step): real { (step.high - step.low) * step.count as real }

  /** One turn of the component loop: extend the last component if it touches, otherwise begin a new one. */
  function Absorb(components: seq<Run>, step: Step): (r: seq<Run>) {
    var n := |components| - 1;
    if components != [] && components[n].high == step.low then
      components[n := Run(components[n].low, step.high, Greater(components[n].top, step.count),
                          components[n].weight + Area(step))]
    else components + [Run(step.low, step.high, step.count, Area(step))]
  }

  /** The index ranges of the components after the first n pieces. */
  ghost function Spans(profile: seq<Step>, required: int, n: nat): seq<(nat, nat)>
    requires n <= |profile|
  {
    if n == 0 then []
    else
      var before := Spans(profile, required, n - 1);
      var last := |before| - 1;
      if profile[n - 1].count < required then before
      else if before != [] && before[last].1 == n - 1 then before[last := (before[last].0, n)]
      else before + [(n - 1, n)]
  }

  /** Every range is a maximal run, and consecutive ranges leave a gap. */
  lemma {:induction false} SpanFacts(profile: seq<Step>, required: int, n: nat, k: nat)
    requires n <= |profile| && k < |Spans(profile, required, n)|
    ensures var s := Spans(profile, required, n);
      MaximalRun(profile, n, required, s[k].0, s[k].1) && (k + 1 < |s| ==> s[k].1 < s[k + 1].0)
  {
    var before := Spans(profile, required, n - 1);
    if k < |before| {
      SpanFacts(profile, required, n - 1, k);
    }
    if k + 1 < |before| {
      SpanFacts(profile, required, n - 1, k + 1);
    }
  }

  /** Every supported piece lies in a range. */
  lemma {:induction false} SpansCover(profile: seq<Step>, required: int, n: nat, m: nat) returns (k: nat)
    requires m < n <= |profile| && profile[m].count >= required
    ensures var s := Spans(profile, required, n); k < |s| && s[k].0 <= m < s[k].1
  {
    if m == n - 1 {
      k := |Spans(profile, required, n)| - 1;
      SpanFacts(profile, required, n, k);
    } else {
      k := SpansCover(profile, required, n - 1, m);
    }
  }

  /** The component list represents the ranges. */
  ghost predicate Represents(profile: seq<Step>, spans: seq<(nat, nat)>, components: seq<Run>) {
    && |components| == |spans|
    && forall k :: 0 <= k < |spans| ==>
         spans[k].0 < spans[k].1 <= |profile| && components[k] == RunOf(profile, spans[k].0, spans[k].1)
  }

  lemma RepresentsMore(profile: seq<Step>, spans: seq<(nat, nat)>, components: seq<Run>, i: nat, j: nat, run: Run)
    requires Represents(profile, spans, components) && i < j <= |profile| && run == RunOf(profile, i, j)
    ensures Represents(profile, spans + [(i, j)], components + [run])
    ensures spans != [] ==> var n := |spans| - 1; Represents(profile, spans[n := (i, j)], components[n := run])
  {
  }

  lemma AbsorbRepresents(profile: seq<Step>, required: int, n: nat, components: seq<Run>)
    requires n < |profile| && Chained(profile) && profile[n].count >= required
    requires Represents(profile, Spans(profile, required, n), components)
    ensures Represents(profile, Spans(profile, required, n + 1), Absorb(components, profile[n]))
  {
    var spans := Spans(profile, required, n);
    var last := |spans| - 1;
    if spans != [] {
      SpanFacts(profile, required, n, last);
      HighTellsEnd(profile, n, spans[last].1);
    }
    if spans != [] && spans[last].1 == n {
      ExtendsLast(profile, spans, components, n);
    } else {
      NewRun(profile, n);
      RepresentsMore(profile, spans, components, n, n + 1, RunOf(profile, n, n + 1));
      assert spans != [] ==> components[last].high == profile[spans[last].1 - 1].high;
    }
  }

  lemma ExtendsLast(profile: seq<Step>, spans: seq<(nat, nat)>, components: seq<Run>, n: nat)
    requires n < |profile| && Chained(profile) && spans != [] && spans[|spans| - 1].1 == n
    requires Represents(profile, spans, components)
    ensures var last := |spans| - 1;
      Represents(profile, spans[last := (spans[last].0, n + 1)], Absorb(components, profile[n]))
  {
    var i := spans[|spans| - 1].0;
    RunGrows(profile, i, n);
    RepresentsMore(profile, spans, components, i, n + 1, RunOf(profile, i, n + 1));
    assert profile[n - 1].high == profile[n].low;
  }

  lemma SupportedRunExists(profile: seq<Step>, required: int, m: nat)
    requires m < |profile| && profile[m].count >= required
    ensures Spans(profile, required, |profile|) != []
  {
    var k := SpansCover(profile, required, |profile|, m);
  }

  /** Two maximal runs with a common piece are the same run. */
  lemma MaximalRunsMeet(profile: seq<Step>, required: int, i: nat, j: nat, i': nat, j': nat, m: nat)
    requires MaximalRun(profile, |profile|, required, i, j) && MaximalRun(profile, |profile|, required, i', j')
    requires i <= m < j && i' <= m < j'
    ensures i == i' && j == j'
  {
  }

  lemma NewRun(profile: seq<Step>, n: nat)
    requires n < |profile|
    ensures RunOf(profile, n, n + 1) == Run(profile[n].low, profile[n].high, profile[n].count, Area(profile[n]))
  {
    assert Weight(profile, n, n) == 0.0;
  }

  lemma RunGrows(profile: seq<Step>, i: nat, n: nat)
    requires i < n < |profile|
    ensures var r := RunOf(profile, i, n);
      RunOf(profile, i, n + 1)
        == Run(r.low, profile[n].high, Greater(r.top, profile[n].count), r.weight + Area(profile[n]))
  {
    assert Weight(profile, i, n + 1) == Weight(profile, i, n) + Area(profile[n]);
  }

  lemma HighTellsEnd(profile: seq<Step>, n: nat, j: nat)
    requires Chained(profile) && 0 < j <= n < |profile|
    ensures profile[j - 1].high == profile[n].low <==> j == n
  {
    if j < n {
      LowsIncrease(profile, j, n);
      assert profile[j - 1].high == profile[j].low;
    }
  }

  lemma {:induction false} LowsIncrease(profile: seq<Step>, i: nat, j: nat)
    requires Chained(profile) && i < j < |profile|
    ensures profile[i].low < profile[j].low
  {
    assert profile[j - 1].high == profile[j].low;
    if i < j - 1 {
      LowsIncrease(profile, i, j - 1);
    }
  }

  method Components(profile: seq<Step>, required: int) returns (components: seq<Run>)
    requires Chained(profile)
    ensures Represents(profile, Spans(profile, required, |profile|), components)
  {
    components := [];
    for n := 0 to |profile|
      invariant Represents(profile, Spans(profile, required, n), components)
    {
      if profile[n].count >= required {
        AbsorbRepresents(profile, required, n, components);
        components := Absorb(components, profile[n]);
      }
    }
  }

  /** The first of the best components, as max(..., key=...) returns it. */
  method BestRun(components: seq<Run>) returns (best: nat)
    requires components != []
    ensures best < |components|
    ensures forall k :: 0 <= k < |components| ==> !Better(components[k], components[best])
    ensures forall k :: 0 <= k < best ==> Better(components[best], components[k])
  {
    best := 0;
    for n := 1 to |components|
      invariant best < n
      invariant forall k :: 0 <= k < n ==> !Better(components[k], components[best])
      invariant forall k :: 0 <= k < best ==> Better(components[best], components[k])
    {
      if Better(components[n], components[best]) {
        best := n;
      }
    }
  }

  // ----- the whole suggestion

  /** The largest count on a positive-length piece, 0 for an empty profile. */
  ghost predicate IsPeak(profile: seq<Step>, peak: int) {
    if profile == [] then peak == 0
    else (forall k :: 0 <= k < |profile| ==> profile[k].count <= peak) && exists k ::
      0 <= k < |profile| && profile[k].count == peak
  }

  method Peak(profile: seq<Step>) returns (peak: int)
    ensures IsPeak(profile, peak)
  {
    if profile == [] {
      return 0;
    }
    peak := profile[0].count;
    for n := 1 to |profile|
      invariant forall k :: 0 <= k < n ==> profile[k].count <= peak
      invariant exists k :: 0 <= k < n && profile[k].count == peak
    {
      if profile[n].count > peak {
        peak := profile[n].count;
      }
    }
  }

  function Required(peak: int, fraction: real): int { Greater(1, Ceiling(peak as real * fraction)) }

  /** The required support never exceeds a positive peak. */
  lemma RequiredIsReachable(peak: int, fraction: real)
    requires 0.0 < fraction <= 1.0
    ensures Required(peak, fraction) >= 1 && (peak >= 1 ==> Required(peak, fraction) <= peak)
  {
    if peak >= 1 {
      var slack := peak as real * (1.0 - fraction);
      assert slack >= 0.0;
      assert peak as real * fraction == peak as real - slack;
    }
  }

  /** The run is maximal and attains the peak; no run is better, and every earlier run is worse. */
  ghost predicate IsBest(profile: seq<Step>, required: int, peak: int, i: nat, j: nat) {
    && MaximalRun(profile, |profile|, required, i, j) && Top(profile, i, j) == peak
    && forall i': nat, j': nat :: MaximalRun(profile, |profile|, required, i', j') ==>
         !Better(RunOf(profile, i', j'), RunOf(profile, i, j)) &&
         (i' < i ==> Better(RunOf(profile, i, j), RunOf(profile, i', j')))
  }

  ghost predicate IsBand(profile: seq<Step>, required: int, peak: int, band: (real, real)) {
    exists i: nat, j: nat :: IsBest(profile, required, peak, i, j) && band == (profile[i].low, profile[j - 1].high)
  }

  /** The report of a consensus: profile, peak, required support, and a best band unless the peak is below one. */
  ghost predicate IsConsensus(intervals: seq<Interval>, fraction: real, report: Report) {
    var positions := SortedUnique(Endpoints(intervals));
    && IsProfile(intervals, positions, report.profile, |positions|)
    && IsPeak(report.profile, report.peak) && report.required == Required(report.peak, fraction)
    && (report.band == None <==> report.peak < 1)
    && (report.band.Some? ==> IsBand(report.profile, report.required, report.peak, report.band.value))
  }

  method SuggestGatherBand(intervals: seq<Interval>, fraction: real) returns (r: Result<Report>)
    ensures r.InputError? <==> !(0.0 < fraction <= 1.0)
    ensures r.Ok? ==> IsConsensus(intervals, fraction, r.value) && IsPlain(intervals, fraction, r.value)
  {
    if !(0.0 < fraction <= 1.0) {
      return InputError;
    }
    var profile := Sweep(intervals);
    ProfileIsChained(intervals, profile);
    var peak := Peak(profile);
    var required := Required(peak, fraction);
    RequiredIsReachable(peak, fraction);
    var components := Components(profile, required);
    if components == [] {
      NoRunNoPeak(profile, required, peak);
      r := Ok(Report(None, peak, required, profile));
      RequiredIsShare(peak, fraction);
      ConsensusIsPlain(intervals, fraction, r.value);
      return;
    }
    var best := BestRun(components);
    BestIsBand(profile, required, peak, components, best);
    r := Ok(Report(Some((components[best].low, components[best].high)), peak, required, profile));
    RequiredIsShare(peak, fraction);
    ConsensusIsPlain(intervals, fraction, r.value);
  }

  lemma ProfileIsChained(intervals: seq<Interval>, profile: seq<Step>)
    requires var positions := SortedUnique(Endpoints(intervals)); IsProfile(intervals, positions, profile, |positions|)
    ensures Chained(profile)
  {
    var positions := SortedUnique(Endpoints(intervals));
    forall i | 0 <= i < |profile| ensures profile[i].low < profile[i].high {
      assert profile[i] == Step(positions[i], positions[i + 1], Net(intervals, positions[i]));
    }
    forall i, j | 0 <= i && j == i + 1 < |profile| ensures profile[i].high == profile[j].low {
      assert profile[i] == Step(positions[i], positions[i + 1], Net(intervals, positions[i]));
      assert profile[j] == Step(positions[j], positions[j + 1], Net(intervals, positions[j]));
    }
  }

  lemma NoRunNoPeak(profile: seq<Step>, required: int, peak: int)
    requires Spans(profile, required, |profile|) == [] && IsPeak(profile, peak)
    requires peak >= 1 ==> required <= peak
    ensures peak < 1
  {
    if peak >= 1 {
      var m :| 0 <= m < |profile| && profile[m].count == peak;
      SupportedRunExists(profile, required, m);
    }
  }

  lemma BestAttainsPeak(profile: seq<Step>, required: int, peak: int, components: seq<Run>, best: nat)
    requires Represents(profile, Spans(profile, required, |profile|), components) && best < |components|
    requires IsPeak(profile, peak) && required >= 1 && (peak >= 1 ==> required <= peak)
    requires forall k :: 0 <= k < |components| ==> !Better(components[k], components[best])
    ensures peak >= 1 && components[best].top == peak
  {
    var spans := Spans(profile, required, |profile|);
    SpanFacts(profile, required, |profile|, best);
    TopIsLargest(profile, spans[best].0, spans[best].1);
    assert profile[spans[best].0].count >= 1;
    var m :| 0 <= m < |profile| && profile[m].count == peak;
    var k := SpansCover(profile, required, |profile|, m);
    TopIsLargest(profile, spans[k].0, spans[k].1);
    assert components[k].top >= peak;
  }

  lemma BestIsBand(profile: seq<Step>, required: int, peak: int, components: seq<Run>, best: nat)
    requires Represents(profile, Spans(profile, required, |profile|), components) && best < |components|
    requires IsPeak(profile, peak) && required >= 1 && (peak >= 1 ==> required <= peak)
    requires forall k :: 0 <= k < |components| ==> !Better(components[k], components[best])
    requires forall k :: 0 <= k < best ==> Better(components[best], components[k])
    ensures peak >= 1 && IsBand(profile, required, peak, (components[best].low, components[best].high))
  {
    var spans := Spans(profile, required, |profile|);
    var i, j := spans[best].0, spans[best].1;
    BestAttainsPeak(profile, required, peak, components, best);
    SpanFacts(profile, required, |profile|, best);
    forall i': nat, j': nat | MaximalRun(profile, |profile|, required, i', j')
      ensures !Better(RunOf(profile, i', j'), RunOf(profile, i, j))
      ensures i' < i ==> Better(RunOf(profile, i, j), RunOf(profile, i', j'))
    {
      var l := RunIsSpan(profile, required, i', j');
      assert components[l] == RunOf(profile, i', j');
      if i' < i {
        SpansOrdered(profile, required, best, l);
      }
    }
    assert IsBest(profile, required, peak, i, j);
  }

  lemma RunIsSpan(profile: seq<Step>, required: int, i: nat, j: nat) returns (l: nat)
    requires MaximalRun(profile, |profile|, required, i, j)
    ensures l < |Spans(profile, required, |profile|)| && Spans(profile, required, |profile|)[l] == (i, j)
  {
    l := SpansCover(profile, required, |profile|, i);
    SpanFacts(profile, required, |profile|, l);
    var s := Spans(profile, required, |profile|)[l];
    MaximalRunsMeet(profile, required, i, j, s.0, s.1, i);
  }

  lemma {:induction false} SpansOrdered(profile: seq<Step>, required: int, k: nat, l: nat)
    requires var s := Spans(profile, required, |profile|); k < |s| && l < |s| && s[l].0 < s[k].0
    ensures l < k
    decreases l
  {
    if k <= l {
      SpanFacts(profile, required, |profile|, k);
      if k < l {
        SpanFacts(profile, required, |profile|, l - 1);
        SpanFacts(profile, required, |profile|, l);
        SpansOrdered(profile, required, k, l - 1);
      }
    }
  }

  // ----- what the counts mean

  ghost predicate Proper(intervals: seq<Interval>) {
    forall k :: 0 <= k < |intervals| ==> intervals[k].low <= intervals[k].high
  }

  /** Every coverage count is the number of intervals containing the piece, minus those given backwards over it. */
  lemma CountsContaining(intervals: seq<Interval>, profile: seq<Step>, i: nat)
    requires var positions := SortedUnique(Endpoints(intervals)); IsProfile(intervals, positions, profile, |positions|)
    requires i < |profile|
    ensures var low, high := profile[i].low, profile[i].high;
      profile[i].count == Containing(intervals, low, high) - Reversed(intervals, low, high)
    ensures Proper(intervals) ==> Reversed(intervals, profile[i].low, profile[i].high) == 0
  {
    var positions := SortedUnique(Endpoints(intervals));
    QuietBetween(intervals, positions, i);
    NetCountsContaining(intervals, positions[i], positions[i + 1]);
    if Proper(intervals) {
      NoneReversed(intervals, positions[i], positions[i + 1]);
    }
  }

  lemma {:induction false} NoneReversed(intervals: seq<Interval>, u: real, v: real)
    requires Proper(intervals) && u < v
    ensures Reversed(intervals, u, v) == 0
  {
    if intervals != [] {
      NoneReversed(intervals[..|intervals| - 1], u, v);
    }
  }

  /** The peak is the true maximum overlap: no range of positive length lies in more of the intervals. */
  lemma PeakIsMaximalOverlap(intervals: seq<Interval>, profile: seq<Step>, peak: int, u: real, v: real)
    requires var positions := SortedUnique(Endpoints(intervals)); IsProfile(intervals, positions, profile, |positions|)
    requires Proper(intervals) && IsPeak(profile, peak) && u < v
    ensures Containing(intervals, u, v) <= peak || Containing(intervals, u, v) == 0
  {
    var positions := SortedUnique(Endpoints(intervals));
    EndpointsListed(intervals);
    if Containing(intervals, u, v) > 0 {
      var k := SomeContaining(intervals, u, v);
      assert intervals[k].low in positions && intervals[k].high in positions;
      Bounds(positions, intervals[k].low);
      Bounds(positions, intervals[k].high);
      var i := FindInterval(positions, u);
      if u == positions[i + 1] {
        i := i + 1;
        assert i + 1 < |positions| by { Bounds(positions, v); AtMostLast(positions, i, intervals[k].high); }
      }
      QuietBetween(intervals, positions, i);
      WidensToPiece(intervals, u, v, positions[i], positions[i + 1]);
      CountsContaining(intervals, profile, i);
    }
  }

  lemma AtMostLast(s: seq<real>, i: nat, x: real)
    requires Increasing(s) && i < |s| && x in s && s[i] < x
    ensures i + 1 < |s|
  {
    var k :| 0 <= k < |s| && s[k] == x;
    assert k > i;
  }

  lemma Bounds(s: seq<real>, x: real)
    requires Increasing(s)
    ensures x in s ==> s[0] <= x <= s[|s| - 1]
  {
    if x in s {
      var k :| 0 <= k < |s| && s[k] == x;
      assert s[0] <= s[k] && s[k] <= s[|s| - 1];
    }
  }

  lemma {:induction false} SomeContaining(intervals: seq<Interval>, u: real, v: real) returns (k: nat)
    requires Containing(intervals, u, v) > 0
    ensures k < |intervals| && intervals[k].low <= u && v <= intervals[k].high
  {
    var last := |intervals| - 1;
    if intervals[last].low <= u && v <= intervals[last].high {
      k := last;
    } else {
      k := SomeContaining(intervals[..last], u, v);
    }
  }

  /** An interval containing [u, v] contains the whole quiet piece around u. */
  lemma {:induction false} WidensToPiece(intervals: seq<Interval>, u: real, v: real, a: real, b: real)
    requires a <= u < b && u < v && Quiet(intervals, a, b)
    ensures Containing(intervals, u, v) <= Containing(intervals, a, b)
  {
    if intervals != [] {
      WidensToPiece(intervals[..|intervals| - 1], u, v, a, b);
    }
  }

  // ----- the suggestion in plain terms

  ghost predicate IsEnd(intervals: seq<Interval>, x: real) {
    exists k :: 0 <= k < |intervals| && (intervals[k].low == x || intervals[k].high == x)
  }

  /** The piece lies between neighbouring ends; its count is the number of intervals around it, less the number of those
      given the wrong way round. */
  ghost predicate IsPiece(intervals: seq<Interval>, piece: Step) {
    && IsEnd(intervals, piece.low) && IsEnd(intervals, piece.high) && piece.low < piece.high
    && (forall k :: 0 <= k < |intervals| ==>
          !(piece.low < intervals[k].low < piece.high) && !(piece.low < intervals[k].high < piece.high))
    && var low, high := piece.low, piece.high;
       piece.count == |set k | 0 <= k < |intervals| && intervals[k].low <= low && high <= intervals[k].high|
                      - |set k | 0 <= k < |intervals| && intervals[k].high <= low && high <= intervals[k].low|
  }

  /** The pieces lie one after the other, and one begins at every end but the last. */
  ghost predicate IsCoverage(intervals: seq<Interval>, profile: seq<Step>) {
    && (forall k :: 0 <= k < |profile| ==> IsPiece(intervals, profile[k]))
    && (forall i, j :: 0 <= i < j < |profile| ==> profile[i].high <= profile[j].low)
    && forall x, y :: IsEnd(intervals, x) && IsEnd(intervals, y) && x < y ==> Begins(profile, x)
  }

  ghost predicate Begins(profile: seq<Step>, x: real) { exists k :: 0 <= k < |profile| && profile[k].low == x }

  /** The count-weighted length of the first pieces. */
  ghost predicate IsSum(profile: seq<Step>, sums: seq<real>) {
    && |sums| == |profile| + 1 && sums[0] == 0.0
    && forall k :: 0 <= k < |profile| ==>
         sums[k + 1] == sums[k] + (profile[k].high - profile[k].low) * profile[k].count as real
  }

  /** Adjacent pieces that all have the support, one of which has the peak. */
  ghost predicate Stretch(profile: seq<Step>, required: int, peak: int, i: nat, j: nat) {
    && i < j <= |profile| && (forall k :: i <= k < j ==> profile[k].count >= required)
    && exists k :: i <= k < j && profile[k].count == peak
  }

  /** Of all stretches that reach the peak this one is heaviest, then longest, then first. */
  ghost predicate Wins(profile: seq<Step>, required: int, peak: int, sums: seq<real>, i: nat, j: nat) {
    && IsSum(profile, sums) && Stretch(profile, required, peak, i, j)
    && forall a: nat, b: nat :: Stretch(profile, required, peak, a, b) ==>
         Beats(sums[j] - sums[i], profile[j - 1].high - profile[i].low, i,
               sums[b] - sums[a], profile[b - 1].high - profile[a].low, a)
  }

  /** Heavier, or as heavy and longer, or the same and not later. */
  predicate Beats(weight: real, length: real, at: int, other: real, extent: real, there: int) {
    other < weight || (other == weight && (extent < length || (extent == length && at <= there)))
  }

  /** The whole report without the sweep's own functions. */
  ghost predicate IsPlain(intervals: seq<Interval>, fraction: real, report: Report) {
    && IsCoverage(intervals, report.profile)
    && IsPeak(report.profile, report.peak) && IsShare(report.peak, fraction, report.required)
    && (report.band == None <==> report.peak < 1)
    && (report.band.Some? ==> IsWinner(report.profile, report.required, report.peak, report.band.value))
  }

  predicate IsShare(peak: int, fraction: real, required: int) { IsSupport(peak as real * fraction, required) }

  /** The least integer that is positive and not below the share. */
  predicate IsSupport(share: real, required: int) {
    required >= 1 && required as real >= share && (required == 1 || (required - 1) as real < share)
  }

  ghost predicate IsWinner(profile: seq<Step>, required: int, peak: int, band: (real, real)) {
    exists sums: seq<real>, i: nat, j: nat ::
      Wins(profile, required, peak, sums, i, j) && band == (profile[i].low, profile[j - 1].high)
  }

  /** The places among the first n intervals that the test selects. */
  ghost function Chosen(intervals: seq<Interval>, n: nat, test: Interval -> bool): set<int>
    requires n <= |intervals|
  {
    set k | 0 <= k < n && test(intervals[k])
  }

  lemma OneMoreChosen(intervals: seq<Interval>, test: Interval -> bool)
    requires intervals != []
    ensures var n := |intervals| - 1;
      |Chosen(intervals, n + 1, test)| == |Chosen(intervals[..n], n, test)| + if test(intervals[n]) then 1 else 0
  {
    var n := |intervals| - 1;
    var more := if test(intervals[n]) then {n} else {};
    assert Chosen(intervals, n + 1, test) == Chosen(intervals[..n], n, test) + more;
  }

  lemma {:induction false} ContainingIsCount(intervals: seq<Interval>, u: real, v: real)
    ensures Containing(intervals, u, v) == |Chosen(intervals, |intervals|, (i: Interval) => i.low <= u && v <= i.high)|
  {
    if intervals != [] {
      ContainingIsCount(intervals[..|intervals| - 1], u, v);
      OneMoreChosen(intervals, (i: Interval) => i.low <= u && v <= i.high);
    }
  }

  lemma {:induction false} ReversedIsCount(intervals: seq<Interval>, u: real, v: real)
    ensures Reversed(intervals, u, v) == |Chosen(intervals, |intervals|, (i: Interval) => i.high <= u && v <= i.low)|
  {
    if intervals != [] {
      ReversedIsCount(intervals[..|intervals| - 1], u, v);
      OneMoreChosen(intervals, (i: Interval) => i.high <= u && v <= i.low);
    }
  }

  lemma CountsAround(intervals: seq<Interval>, u: real, v: real)
    ensures Containing(intervals, u, v)
         == |set k | 0 <= k < |intervals| && intervals[k].low <= u && v <= intervals[k].high|
    ensures Reversed(intervals, u, v)
         == |set k | 0 <= k < |intervals| && intervals[k].high <= u && v <= intervals[k].low|
  {
    ContainingIsCount(intervals, u, v);
    ReversedIsCount(intervals, u, v);
    assert Chosen(intervals, |intervals|, (i: Interval) => i.low <= u && v <= i.high)
        == set k | 0 <= k < |intervals| && intervals[k].low <= u && v <= intervals[k].high;
    assert Chosen(intervals, |intervals|, (i: Interval) => i.high <= u && v <= i.low)
        == set k | 0 <= k < |intervals| && intervals[k].high <= u && v <= intervals[k].low;
  }

  lemma {:induction false} EndpointIsEnd(intervals: seq<Interval>, x: real)
    ensures x in Endpoints(intervals) <==> IsEnd(intervals, x)
  {
    EndpointsListed(intervals);
    if x in Endpoints(intervals) {
      var n := |intervals| - 1;
      EndpointIsEnd(intervals[..n], x);
      if x in Endpoints(intervals[..n]) {
        var k :| 0 <= k < n && (intervals[..n][k].low == x || intervals[..n][k].high == x);
        assert intervals[k] == intervals[..n][k];
      }
    }
  }

  lemma PositionsAreEnds(intervals: seq<Interval>, positions: seq<real>, x: real)
    requires positions == SortedUnique(Endpoints(intervals))
    ensures x in positions <==> IsEnd(intervals, x)
  {
    EndpointIsEnd(intervals, x);
  }

  lemma PieceOfProfile(intervals: seq<Interval>, positions: seq<real>, profile: seq<Step>, k: nat)
    requires positions == SortedUnique(Endpoints(intervals)) && IsProfile(intervals, positions, profile, |positions|)
    requires k < |profile|
    ensures IsPiece(intervals, profile[k])
  {
    CountsContaining(intervals, profile, k);
    CountsAround(intervals, profile[k].low, profile[k].high);
    QuietBetween(intervals, positions, k);
    PositionsAreEnds(intervals, positions, positions[k]);
    PositionsAreEnds(intervals, positions, positions[k + 1]);
  }

  lemma ProfileIsCoverage(intervals: seq<Interval>, profile: seq<Step>)
    requires var positions := SortedUnique(Endpoints(intervals)); IsProfile(intervals, positions, profile, |positions|)
    ensures IsCoverage(intervals, profile)
  {
    var positions := SortedUnique(Endpoints(intervals));
    forall k | 0 <= k < |profile| ensures IsPiece(intervals, profile[k]) {
      PieceOfProfile(intervals, positions, profile, k);
    }
    forall i, j | 0 <= i < j < |profile| ensures profile[i].high <= profile[j].low {
      PiecesFollow(intervals, positions, profile, i, j);
    }
    forall x, y | IsEnd(intervals, x) && IsEnd(intervals, y) && x < y
      ensures Begins(profile, x)
    {
      BeginsAt(intervals, positions, profile, x, y);
    }
  }

  lemma BeginsAt(intervals: seq<Interval>, positions: seq<real>, profile: seq<Step>, x: real, y: real)
    requires positions == SortedUnique(Endpoints(intervals)) && IsProfile(intervals, positions, profile, |positions|)
    requires IsEnd(intervals, x) && IsEnd(intervals, y) && x < y
    ensures Begins(profile, x)
  {
    PositionsAreEnds(intervals, positions, x);
    PositionsAreEnds(intervals, positions, y);
    var k :| 0 <= k < |positions| && positions[k] == x;
    AtMostLast(positions, k, y);
    assert profile[k] == Step(positions[k], positions[k + 1], Net(intervals, positions[k]));
  }

  lemma PiecesFollow(intervals: seq<Interval>, positions: seq<real>, profile: seq<Step>, i: nat, j: nat)
    requires Increasing(positions) && IsProfile(intervals, positions, profile, |positions|) && i < j < |profile|
    ensures profile[i].high <= profile[j].low
  {
    assert profile[i] == Step(positions[i], positions[i + 1], Net(intervals, positions[i]));
    assert profile[j] == Step(positions[j], positions[j + 1], Net(intervals, positions[j]));
  }

  lemma {:induction false} WeightSplits(profile: seq<Step>, a: nat, i: nat, b: nat)
    requires a <= i <= b <= |profile|
    ensures Weight(profile, a, b) == Weight(profile, a, i) + Weight(profile, i, b)
  {
    if i < b {
      WeightSplits(profile, a, i, b - 1);
    }
  }

  lemma {:induction false} WeightIsPositive(profile: seq<Step>, a: nat, b: nat)
    requires a <= b <= |profile| && forall k :: a <= k < b ==> profile[k].count >= 1 && profile[k].low < profile[k].high
    ensures if a == b then Weight(profile, a, b) == 0.0 else Weight(profile, a, b) > 0.0
  {
    if a < b {
      WeightIsPositive(profile, a, b - 1);
      AreaIsPositive(profile[b - 1]);
    }
  }

  lemma AreaIsPositive(step: Step)
    requires step.count >= 1 && step.low < step.high
    ensures Area(step) > 0.0
  {
  }

  lemma StaysInRun(profile: seq<Step>, required: int, peak: int, a: nat, b: nat, i: nat, j: nat)
    requires Stretch(profile, required, peak, a, b) && MaximalRun(profile, |profile|, required, i, j) && i <= a < j
    ensures b <= j
  {
  }

  /** A stretch lies in a maximal run, and weighs less than it unless it is all of it. */
  lemma StretchInRun(profile: seq<Step>, required: int, peak: int, a: nat, b: nat) returns (i: nat, j: nat)
    requires Chained(profile) && required >= 1 && Stretch(profile, required, peak, a, b)
    ensures MaximalRun(profile, |profile|, required, i, j) && i <= a && b <= j && Top(profile, i, j) >= peak
    ensures (i, j) == (a, b) || Weight(profile, a, b) < Weight(profile, i, j)
  {
    var l := SpansCover(profile, required, |profile|, a);
    SpanFacts(profile, required, |profile|, l);
    i, j := Spans(profile, required, |profile|)[l].0, Spans(profile, required, |profile|)[l].1;
    StaysInRun(profile, required, peak, a, b, i, j);
    TopIsLargest(profile, i, j);
    WeightSplits(profile, i, a, j);
    WeightSplits(profile, a, b, j);
    WeightIsPositive(profile, i, a);
    WeightIsPositive(profile, b, j);
  }

  lemma RunBeats(profile: seq<Step>, i: nat, j: nat, a: nat, b: nat)
    requires i < j <= |profile| && a < b <= |profile| && Top(profile, a, b) >= Top(profile, i, j)
    requires !Better(RunOf(profile, a, b), RunOf(profile, i, j))
    requires a < i ==> Better(RunOf(profile, i, j), RunOf(profile, a, b))
    ensures Beats(Weight(profile, i, j), profile[j - 1].high - profile[i].low, i,
                  Weight(profile, a, b), profile[b - 1].high - profile[a].low, a)
  {
  }

  lemma BestBeats(profile: seq<Step>, required: int, peak: int, i: nat, j: nat, a: nat, b: nat)
    requires Chained(profile) && required >= 1 && IsBest(profile, required, peak, i, j)
    requires Stretch(profile, required, peak, a, b)
    ensures Beats(Weight(profile, i, j), profile[j - 1].high - profile[i].low, i,
                  Weight(profile, a, b), profile[b - 1].high - profile[a].low, a)
  {
    var i', j' := StretchInRun(profile, required, peak, a, b);
    RunBeats(profile, i, j, i', j');
  }

  lemma SumsOf(profile: seq<Step>) returns (sums: seq<real>)
    ensures IsSum(profile, sums)
    ensures forall a, b :: 0 <= a <= b <= |profile| ==> sums[b] - sums[a] == Weight(profile, a, b)
  {
    sums := seq(|profile| + 1, k requires 0 <= k <= |profile| => Weight(profile, 0, k));
    forall a, b | 0 <= a <= b <= |profile| ensures sums[b] - sums[a] == Weight(profile, a, b) {
      WeightSplits(profile, 0, a, b);
    }
  }

  lemma BestWins(profile: seq<Step>, required: int, peak: int, i: nat, j: nat) returns (sums: seq<real>)
    requires Chained(profile) && required >= 1 && IsPeak(profile, peak) && IsBest(profile, required, peak, i, j)
    ensures Wins(profile, required, peak, sums, i, j)
  {
    sums := SumsOf(profile);
    TopIsLargest(profile, i, j);
    forall a: nat, b: nat | Stretch(profile, required, peak, a, b)
      ensures Beats(sums[j] - sums[i], profile[j - 1].high - profile[i].low, i,
                    sums[b] - sums[a], profile[b - 1].high - profile[a].low, a)
    {
      BestBeats(profile, required, peak, i, j, a, b);
    }
  }

  lemma BandWins(profile: seq<Step>, required: int, peak: int, band: (real, real))
    requires Chained(profile) && required >= 1 && IsPeak(profile, peak) && IsBand(profile, required, peak, band)
    ensures IsWinner(profile, required, peak, band)
  {
    var i: nat, j: nat :| IsBest(profile, required, peak, i, j) && band == (profile[i].low, profile[j - 1].high);
    var sums := BestWins(profile, required, peak, i, j);
  }

  lemma RequiredIsShare(peak: int, fraction: real)
    ensures IsShare(peak, fraction, Required(peak, fraction))
  {
  }

  lemma ConsensusIsPlain(intervals: seq<Interval>, fraction: real, report: Report)
    requires IsConsensus(intervals, fraction, report) && IsShare(report.peak, fraction, report.required)
    ensures IsPlain(intervals, fraction, report)
  {
    ProfileIsCoverage(intervals, report.profile);
    ProfileIsChained(intervals, report.profile);
    if report.band.Some? {
      BandWins(report.profile, report.required, report.peak, report.band.value);
    }
  }
}
