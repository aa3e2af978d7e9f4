/**
 The adaptive tuner: a ring of the last samples, the window over it, percentiles by selection,
 and the retry and time-out settings it steers.
 */
module Adaptive {
  import opened Quickselect

  const MAX_SAMPLES: nat := 2048

  datatype Sample = Sample(ts: int, durationMs: real, ok: bool)

  datatype Options = Options(
    enabled: bool, windowMs: int, targetP99Ms: real, minRetries: int, maxRetries: int,
    minTimeoutMs: nat, maxTimeoutMs: nat, recomputeIntervalMs: int)

  datatype Snapshot = Snapshot(p50: real, p95: real, p99: real, errorRate: real, sampleSize: nat, retries: int, timeoutMs: nat)

  function Min(x: int, y: int): int { if x <= y then x else y }
  function Max(x: int, y: int): int { if x >= y then x else y }

  // ----- windows and percentiles -----

  /** The last `n` elements of `s`. */
  function LastOf<T>(s: seq<T>, n: nat): (r: seq<T>)
    ensures |r| <= n && |r| <= |s|
  {
    if |s| <= n then s else s[|s| - n..]
  }

  /** The durations of the samples at or after `cutoff`, in order. */
  function DurationsSince(samples: seq<Sample>, cutoff: int): (r: seq<real>)
    ensures |r| <= |samples|
  {
    if samples == [] then []
    else
      var n := |samples| - 1;
      DurationsSince(samples[..n], cutoff) + if samples[n].ts < cutoff then [] else [samples[n].durationMs]
  }

  function ErrorsSince(samples: seq<Sample>, cutoff: int): nat {
    if samples == [] then 0
    else
      var n := |samples| - 1;
      ErrorsSince(samples[..n], cutoff) + if samples[n].ts < cutoff || samples[n].ok then 0 else 1
  }

  /** `Math.min(length - 1, Math.floor((p / 100) * length))`. */
  function Rank(p: nat, length: nat): (k: nat)
    requires length > 0
    ensures k < length
  {
    var k := (p as real / 100.0 * length as real).Floor;
    if k < 0 then 0 else if k > length - 1 then length - 1 else k
  }

  /** The percentile read off the sorted durations, as `snapshot` reports it. */
  function SortedPercentile(durations: seq<real>, p: nat, target: real): real {
    if durations == [] then target else Sorted(durations)[Rank(p, |durations|)]
  }

  /** The percentile by in-place selection, as `recompute` uses it. */
  method Percentile(durations: array<real>, p: nat, target: real) returns (r: real)
    modifies durations
    ensures r == SortedPercentile(old(durations[..]), p, target)
    ensures multiset(durations[..]) == multiset(old(durations[..]))
  {
    if durations.Length == 0 { return target; }
    r := SelectKth(durations, Rank(p, durations.Length));
  }

  /** The percentile of a fresh copy of the window. */
  method PercentileOf(window: seq<real>, p: nat, target: real) returns (r: real)
    ensures r == SortedPercentile(window, p, target)
  {
    var durations := new real[|window|](i requires 0 <= i < |window| => window[i]);
    assert durations[..] == window;
    r := Percentile(durations, p, target);
  }

  // ----- steering -----

  function ErrorRate(errors: nat, sampleSize: nat): real
    requires sampleSize > 0
  {
    errors as real / sampleSize as real
  }

  /** The reported error rate, zero for an empty window. */
  function RateOf(errors: nat, sampleSize: nat): real {
    if sampleSize == 0 then 0.0 else ErrorRate(errors, sampleSize)
  }

  /** Slow windows lengthen the time-out by half, fast ones shorten it by a fifth, within its range. */
  function NextTimeout(o: Options, t: nat, p99: real): (r: int)
    requires o.minTimeoutMs <= t <= o.maxTimeoutMs
    ensures o.minTimeoutMs <= r <= o.maxTimeoutMs
    ensures r > t ==> p99 > o.targetP99Ms * 1.5
    ensures r < t ==> p99 < o.targetP99Ms * 0.5
  {
    if p99 > o.targetP99Ms * 1.5 && t < o.maxTimeoutMs then Min(o.maxTimeoutMs, 3 * t / 2)
    else if p99 < o.targetP99Ms * 0.5 then Max(o.minTimeoutMs, 4 * t / 5)
    else t
  }

  /** Many errors take a retry away; only a healthy window gives one back. */
  function NextRetries(o: Options, retries: int, p99: real, errorRate: real): (r: int)
    requires o.minRetries <= retries
    ensures o.minRetries <= r <= Max(retries, o.maxRetries)
    ensures r < retries ==> errorRate > 0.1
    ensures r > retries ==> errorRate < 0.01 && p99 <= o.targetP99Ms
  {
    if errorRate > 0.1 then Max(o.minRetries, retries - 1)
    else if errorRate < 0.01 && p99 <= o.targetP99Ms && retries < o.maxRetries then retries + 1
    else retries
  }

  datatype Settings = Settings(timeoutMs: nat, retries: int)

  predicate SettingsOk(o: Options, s: Settings) {
    o.minTimeoutMs <= s.timeoutMs <= o.maxTimeoutMs && o.minRetries <= s.retries
  }

  /** The settings after a look at the samples held: ten of them in the window are needed. */
  function Steered(o: Options, s: Settings, held: seq<Sample>, now: int): Settings
    requires SettingsOk(o, s)
  {
    var d := DurationsSince(held, now - o.windowMs);
    if |d| < 10 then s
    else
      var p99 := SortedPercentile(d, 99, o.targetP99Ms);
      Settings(NextTimeout(o, s.timeoutMs, p99),
               NextRetries(o, s.retries, p99, ErrorRate(ErrorsSince(held, now - o.windowMs), |d|)))
  }

  // ----- the tuner over any observations -----

  /** The settings, everything observed, when they were last looked at, and how many observations ago. */
  datatype Tuner = Tuner(settings: Settings, seen: seq<Sample>, lastRecomputeAt: int, sinceRecompute: nat)

  predicate OptionsOk(o: Options) {
    o.minTimeoutMs <= o.maxTimeoutMs
  }

  function InitialTimeout(o: Options): nat {
    Max(o.minTimeoutMs, Min(o.maxTimeoutMs, (o.targetP99Ms * 4.0).Floor))
  }

  function Started(o: Options): Tuner {
    Tuner(Settings(InitialTimeout(o), Max(o.minRetries, 2)), [], 0, 0)
  }

  /** A look is due on the first ten samples, then every 64 or when the interval has passed. */
  predicate LookDue(o: Options, t: Tuner, now: int) {
    |LastOf(t.seen, MAX_SAMPLES)| >= 10
    && (t.lastRecomputeAt == 0 || t.sinceRecompute >= 64 || now - t.lastRecomputeAt >= o.recomputeIntervalMs)
  }

  /** The tuner after a look. With fewer than ten samples in the window nothing changes. */
  function Looked(o: Options, t: Tuner, now: int): Tuner
    requires SettingsOk(o, t.settings)
  {
    var held := LastOf(t.seen, MAX_SAMPLES);
    if |DurationsSince(held, now - o.windowMs)| < 10 then t
    else Tuner(Steered(o, t.settings, held, now), t.seen, now, 0)
  }

  /** The tuner after it has stored a sample. */
  function Recorded(t: Tuner, x: Sample): Tuner {
    Tuner(t.settings, t.seen + [x], t.lastRecomputeAt, t.sinceRecompute + 1)
  }

  function Observed(o: Options, t: Tuner, x: Sample): (r: Tuner)
    requires SettingsOk(o, t.settings)
    ensures SettingsOk(o, r.settings)
  {
    if !o.enabled then t
    else if LookDue(o, Recorded(t, x), x.ts) then Looked(o, Recorded(t, x), x.ts)
    else Recorded(t, x)
  }

  function Tuned(o: Options, xs: seq<Sample>): (t: Tuner)
    requires OptionsOk(o)
    ensures SettingsOk(o, t.settings)
  {
    if xs == [] then Started(o) else Observed(o, Tuned(o, xs[..|xs| - 1]), xs[|xs| - 1])
  }

  /** One observation moves the retries no further above the maximum than they were. */
  lemma ObservedRetries(o: Options, t: Tuner, x: Sample)
    requires SettingsOk(o, t.settings)
    ensures Observed(o, t, x).settings.retries <= Max(t.settings.retries, o.maxRetries)
  {
  }

  lemma {:induction false} RetriesBound(o: Options, xs: seq<Sample>)
    requires OptionsOk(o)
    ensures o.minRetries <= Tuned(o, xs).settings.retries <= Max(o.maxRetries, Max(o.minRetries, 2))
  {
    if xs != [] {
      RetriesBound(o, xs[..|xs| - 1]);
      ObservedRetries(o, Tuned(o, xs[..|xs| - 1]), xs[|xs| - 1]);
    }
  }

  /** Over any observations the retries never exceed the maximum. */
  ghost predicate NeverAboveMax(o: Options)
    requires OptionsOk(o)
  {
    forall xs: seq<Sample> :: Tuned(o, xs).settings.retries <= o.maxRetries
  }

  /** It is so exactly when the initial two retries, or the minimum if larger, are within the maximum. */
  lemma NeverAboveMaxIff(o: Options)
    requires OptionsOk(o)
    ensures NeverAboveMax(o) <==> Max(o.minRetries, 2) <= o.maxRetries
  {
    assert Tuned(o, []).settings.retries == Max(o.minRetries, 2);
    forall xs: seq<Sample> ensures Tuned(o, xs).settings.retries <= Max(o.maxRetries, Max(o.minRetries, 2)) {
      RetriesBound(o, xs);
    }
  }

  /** With the default minimum and a maximum of one, a new tuner already retries twice. */
  lemma MaximumOfOneIsExceeded(o: Options)
    requires OptionsOk(o) && o.minRetries == 1 && o.maxRetries == 1
    ensures Tuned(o, []).settings.retries == 2 && !NeverAboveMax(o)
  {
    NeverAboveMaxIff(o);
  }

  // ----- the ring -----

  function Slot(start: nat, i: nat): (r: nat)
    requires start < MAX_SAMPLES && i <= MAX_SAMPLES
    ensures r < MAX_SAMPLES && r == if start + i < MAX_SAMPLES then start + i else start + i - MAX_SAMPLES
  {
    (start + i) % MAX_SAMPLES
  }

  /** The ring's live slots hold `samples`, oldest first. */
  ghost predicate Rings(ring: seq<Sample>, start: nat, size: nat, samples: seq<Sample>)
    requires |ring| == MAX_SAMPLES && start < MAX_SAMPLES && size <= MAX_SAMPLES
  {
    |samples| == size && forall i {:trigger samples[i]} :: 0 <= i < size ==> samples[i] == ring[Slot(start, i)]
  }

  lemma RingAppends(ring: seq<Sample>, start: nat, size: nat, samples: seq<Sample>, x: Sample)
    requires |ring| == MAX_SAMPLES && start < MAX_SAMPLES && size < MAX_SAMPLES && Rings(ring, start, size, samples)
    ensures Rings(ring[Slot(start, size) := x], start, size + 1, samples + [x])
  {
  }

  lemma RingOverwrites(ring: seq<Sample>, start: nat, samples: seq<Sample>, x: Sample)
    requires |ring| == MAX_SAMPLES && start < MAX_SAMPLES && Rings(ring, start, MAX_SAMPLES, samples)
    ensures Slot(start, MAX_SAMPLES) == start
    ensures Rings(ring[start := x], Slot(start, 1), MAX_SAMPLES, samples[1..] + [x])
  {
    var all := samples[1..] + [x];
    var next := Slot(start, 1);
    forall i | 0 <= i < MAX_SAMPLES ensures all[i] == ring[start := x][Slot(next, i)] {
      if i < MAX_SAMPLES - 1 { assert all[i] == samples[i + 1]; }
    }
  }

  class AdaptiveTuner {
    const options: Options
    const ring: array<Sample>
    var start: nat
    var size: nat
    var currentRetries: int
    var currentTimeoutMs: nat
    var observationsSinceRecompute: nat
    var lastRecomputeAt: int

    /** Everything ever observed. */
    ghost var seen: seq<Sample>

    /** The ring holds the last `MAX_SAMPLES` observations, and the settings stay in their ranges. */
    ghost predicate Valid()
      reads this, ring
    {
      && options.minTimeoutMs <= options.maxTimeoutMs
      && ring.Length == MAX_SAMPLES && start < MAX_SAMPLES && size <= MAX_SAMPLES
      && Rings(ring[..], start, size, LastOf(seen, MAX_SAMPLES))
      && options.minTimeoutMs <= currentTimeoutMs <= options.maxTimeoutMs
      && options.minRetries <= currentRetries <= Max(options.maxRetries, Max(options.minRetries, 2))
    }

    /** The samples held now. */
    ghost function Held(): seq<Sample>
      reads this
    {
      LastOf(seen, MAX_SAMPLES)
    }

    /** The tuner as a value. */
    ghost function View(): Tuner
      reads this
    {
      Tuner(Settings(currentTimeoutMs, currentRetries), seen, lastRecomputeAt, observationsSinceRecompute)
    }

    constructor (options: Options, blank: Sample)
      requires OptionsOk(options)
      ensures Valid() && fresh(ring) && this.options == options && View() == Started(options)
    {
      this.options := options;
      ring := new Sample[MAX_SAMPLES](_ => blank);
      start, size := 0, 0;
      currentRetries := Max(options.minRetries, 2);
      var wanted := (options.targetP99Ms * 4.0).Floor;
      currentTimeoutMs := Max(options.minTimeoutMs, Min(options.maxTimeoutMs, wanted));
      observationsSinceRecompute, lastRecomputeAt := 0, 0;
      seen := [];
    }

    method Observe(durationMs: real, ok: bool, now: int)
      requires Valid()
      modifies this, ring
      ensures Valid() && View() == Observed(options, old(View()), Sample(now, durationMs, ok))
    {
      if !options.enabled { return; }
      var x := Sample(now, durationMs, ok);
      Record(x);
      observationsSinceRecompute := observationsSinceRecompute + 1;
      assert View() == Recorded(old(View()), x) && size == |Held()|;
      if size >= 10 && (lastRecomputeAt == 0 || observationsSinceRecompute >= 64 || now - lastRecomputeAt >= options.recomputeIntervalMs) {
        Recompute(now);
      }
    }

    method Record(x: Sample)
      requires Valid()
      modifies ring, this`start, this`size, this`seen
      ensures Valid() && seen == old(seen) + [x]
    {
      ghost var held := Held();
      var slot := Slot(start, size);
      if size < MAX_SAMPLES {
        RingAppends(ring[..], start, size, held, x);
        ghost var slots := ring[..];
        ring[slot] := x;
        assert ring[..] == slots[slot := x];
        size := size + 1;
        assert held + [x] == LastOf(seen + [x], MAX_SAMPLES);
      } else {
        RingOverwrites(ring[..], start, held, x);
        ghost var slots := ring[..];
        ring[slot] := x;
        assert ring[..] == slots[slot := x];
        start := Slot(start, 1);
        assert held[1..] + [x] == LastOf(seen + [x], MAX_SAMPLES);
      }
      seen := seen + [x];
    }

    /** One pass over the ring: the durations inside the window, and how many of them were errors. */
    method Window(now: int) returns (durations: seq<real>, errors: nat)
      requires Valid()
      ensures durations == DurationsSince(Held(), now - options.windowMs)
      ensures errors == ErrorsSince(Held(), now - options.windowMs)
    {
      var cutoff := now - options.windowMs;
      durations, errors := [], 0;
      ghost var held := Held();
      for i := 0 to size
        invariant durations == DurationsSince(held[..i], cutoff)
        invariant errors == ErrorsSince(held[..i], cutoff)
      {
        var s := ring[Slot(start, i)];
        assert s == held[i];
        assert held[..i + 1][..i] == held[..i] && held[..i + 1][i] == s;
        if s.ts < cutoff { continue; }
        durations := durations + [s.durationMs];
        if !s.ok { errors := errors + 1; }
      }
      assert held[..size] == held;
    }

    /** Steers the settings by one step; they never leave their ranges. */
    method Recompute(now: int)
      requires Valid()
      modifies this`currentTimeoutMs, this`currentRetries, this`lastRecomputeAt, this`observationsSinceRecompute
      ensures Valid()
      ensures View() == Looked(options, old(View()), now)
    {
      if size < 10 { return; }
      var window, errors := Window(now);
      if |window| < 10 { return; }
      var p99 := PercentileOf(window, 99, options.targetP99Ms);
      lastRecomputeAt, observationsSinceRecompute := now, 0;
      Steer(p99, ErrorRate(errors, |window|));
    }

    method Steer(p99: real, err: real)
      requires options.minTimeoutMs <= currentTimeoutMs <= options.maxTimeoutMs && options.minRetries <= currentRetries
      modifies this`currentTimeoutMs, this`currentRetries
      ensures currentTimeoutMs == NextTimeout(options, old(currentTimeoutMs), p99)
      ensures currentRetries == NextRetries(options, old(currentRetries), p99, err)
    {
      var target := options.targetP99Ms;
      if p99 > target * 1.5 && currentTimeoutMs < options.maxTimeoutMs {
        currentTimeoutMs := Min(options.maxTimeoutMs, 3 * currentTimeoutMs / 2);
      } else if p99 < target * 0.5 && currentTimeoutMs > options.minTimeoutMs {
        currentTimeoutMs := Max(options.minTimeoutMs, 4 * currentTimeoutMs / 5);
      }
      if err > 0.1 && currentRetries > options.minRetries {
        currentRetries := currentRetries - 1;
      } else if err < 0.01 && p99 <= target && currentRetries < options.maxRetries {
        currentRetries := currentRetries + 1;
      }
    }

    method TakeSnapshot(now: int) returns (r: Snapshot)
      requires Valid()
      ensures var d := DurationsSince(Held(), now - options.windowMs);
              && r.p50 == SortedPercentile(d, 50, options.targetP99Ms)
              && r.p95 == SortedPercentile(d, 95, options.targetP99Ms)
              && r.p99 == SortedPercentile(d, 99, options.targetP99Ms)
              && r.sampleSize == |d| && r.errorRate == RateOf(ErrorsSince(Held(), now - options.windowMs), |d|)
              && r.retries == currentRetries && r.timeoutMs == currentTimeoutMs
    {
      var durations, errors := Window(now);
      var target := options.targetP99Ms;
      r := Snapshot(SortedPercentile(durations, 50, target), SortedPercentile(durations, 95, target),
                    SortedPercentile(durations, 99, target), RateOf(errors, |durations|), |durations|, currentRetries, currentTimeoutMs);
    }
  }
}
