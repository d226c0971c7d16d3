/**
 * The period-selection and refinement part of the YIN estimator
 * (`yinPitchDetection`). The cumulative-mean-normalised difference scores
 * `d[tau]` (one per lag, `d.Length == maxPeriod`) are an input: computing
 * them is floating-point signal arithmetic that the model does not cover.
 *
 * Selection: scan the lags from `minPeriod` for the first score under the
 * threshold 0.15 and walk on while the scores keep falling; if that yields no
 * lag (or lag 0), take the first lag of smallest score. A chosen lag strictly
 * inside the search range is refined by parabolic interpolation.
 */
module Yin {
  import opened JsBuiltins

  /** `{ frequency, confidence }`; `{0, 0}` means no pitch was found. */
  datatype PitchResult = PitchResult(frequency: real, confidence: real)

  const NoPitch: PitchResult := PitchResult(0.0, 0.0)

  /** The absolute threshold of the YIN search. */
  const Threshold: real := 0.15

  /** `Math.floor(sampleRate / freq)`: the lag, in samples, of one period at
      `freq`; at `maxFreq` it is the shortest lag searched, at `minFreq` one
      past the longest. */
  function PeriodLag(sampleRate: real, freq: real): (p: nat)
    requires sampleRate > 0.0 && freq > 0.0
    ensures p as real <= sampleRate / freq < p as real + 1.0
  {
    (sampleRate / freq).Floor
  }

  /** The first lag at or after `lo` whose score is under the threshold, `|d|` if none. */
  function FirstBelow(d: seq<real>, lo: nat): (t: nat)
    requires lo <= |d|
    ensures lo <= t <= |d|
    ensures forall k :: lo <= k < t ==> d[k] >= Threshold
    ensures t < |d| ==> d[t] < Threshold
    decreases |d| - lo
  {
    if lo == |d| then lo else if d[lo] < Threshold then lo else FirstBelow(d, lo + 1)
  }

  /** Some lag of the search range scores under the threshold. */
  ghost predicate HasBelow(d: seq<real>, lo: nat)
  {
    lo <= |d| && FirstBelow(d, lo) < |d|
  }

  /** The threshold branch picks `p`: the scores fall strictly from the first
      lag under the threshold down to `p`, and stop falling there. */
  ghost predicate ThresholdChoice(d: seq<real>, lo: nat, p: nat)
  {
    && HasBelow(d, lo)
    && FirstBelow(d, lo) <= p < |d|
    && (forall k :: FirstBelow(d, lo) <= k < p ==> d[k + 1] < d[k])
    && (p + 1 == |d| || d[p + 1] >= d[p])
  }

  /** `p` is the first lag of smallest score in `[lo, |d|)`. */
  ghost predicate FirstMinimum(d: seq<real>, lo: nat, p: nat)
  {
    && lo <= p < |d|
    && (forall t :: lo <= t < |d| ==> d[p] <= d[t])
    && (forall t :: lo <= t < p ==> d[t] > d[p])
  }

  /** The global-minimum fallback picks `p` (0 on an empty range). */
  ghost predicate FallbackChoice(d: seq<real>, lo: nat, p: nat)
  {
    if lo < |d| then FirstMinimum(d, lo, p) else p == 0
  }

  /** The lag `yinPitchDetection` settles on: the threshold branch when it
      yields a non-zero lag, otherwise the fallback. */
  ghost predicate Selected(d: seq<real>, lo: nat, p: nat)
  {
    if HasBelow(d, lo) && !ThresholdChoice(d, lo, 0) then ThresholdChoice(d, lo, p)
    else FallbackChoice(d, lo, p)
  }

  /** The absolute-threshold loop with its local-minimum walk. */
  method ThresholdPeriod(d: seq<real>, lo: nat) returns (period: nat)
    ensures HasBelow(d, lo) ==> ThresholdChoice(d, lo, period)
    ensures !HasBelow(d, lo) ==> period == 0
  {
    period := 0;
    var tau := lo;
    while tau < |d|
      invariant lo <= tau
      invariant lo <= |d| ==> tau <= |d|
      invariant forall k :: lo <= k < tau && k < |d| ==> d[k] >= Threshold
    {
      if d[tau] < Threshold {
        ghost var first := tau;
        while tau + 1 < |d| && d[tau + 1] < d[tau]
          invariant first <= tau < |d|
          invariant forall k :: first <= k < tau ==> d[k + 1] < d[k]
        {
          tau := tau + 1;
        }
        period := tau;
        break;
      }
      tau := tau + 1;
    }
  }

  /** The fallback loop: the first lag of smallest score (`minVal` starts at +infinity). */
  method GlobalMinimumPeriod(d: seq<real>, lo: nat) returns (period: nat)
    ensures FallbackChoice(d, lo, period)
  {
    period := 0;
    var minVal: Option<real> := None;
    var tau := lo;
    while tau < |d|
      invariant lo <= tau
      invariant lo <= |d| ==> tau <= |d|
      invariant minVal.None? <==> tau == lo
      invariant minVal.None? ==> period == 0
      invariant minVal.Some? ==> lo <= period < tau <= |d| && minVal.value == d[period]
      invariant minVal.Some? ==> forall t :: lo <= t < tau ==> d[period] <= d[t]
      invariant minVal.Some? ==> forall t :: lo <= t < period ==> d[t] > d[period]
    {
      if minVal.None? || d[tau] < minVal.value {
        minVal := Some(d[tau]);
        period := tau;
      }
      tau := tau + 1;
    }
  }

  lemma ThresholdChoiceUnique(d: seq<real>, lo: nat, p: nat, q: nat)
    requires ThresholdChoice(d, lo, p) && ThresholdChoice(d, lo, q)
    ensures p == q
  {
  }

  lemma FirstMinimumUnique(d: seq<real>, lo: nat, p: nat, q: nat)
    requires FirstMinimum(d, lo, p) && FirstMinimum(d, lo, q)
    ensures p == q
  {
    assert d[p] == d[q];
  }

  /** Both selection loops together: the threshold choice if it is not 0, else the fallback. */
  method SelectPeriod(d: seq<real>, lo: nat) returns (period: nat)
    ensures Selected(d, lo, period)
  {
    period := ThresholdPeriod(d, lo);
    if period == 0 {
      period := GlobalMinimumPeriod(d, lo);
    } else if HasBelow(d, lo) && ThresholdChoice(d, lo, 0) {
      ThresholdChoiceUnique(d, lo, 0, period);
    }
  }

  /** At most one lag is selected. */
  lemma SelectedUnique(d: seq<real>, lo: nat, p: nat, q: nat)
    requires Selected(d, lo, p) && Selected(d, lo, q)
    ensures p == q
  {
    if HasBelow(d, lo) && !ThresholdChoice(d, lo, 0) {
      ThresholdChoiceUnique(d, lo, p, q);
    } else if lo < |d| {
      FirstMinimumUnique(d, lo, p, q);
    }
  }

  /** The selected lag is 0 or lies in `[minPeriod, maxPeriod)`. */
  lemma SelectedInRange(d: seq<real>, lo: nat, p: nat)
    requires Selected(d, lo, p)
    ensures p == 0 || lo <= p < |d|
  {
  }

  /** On the threshold branch the chosen lag scores under the threshold and is
      a local minimum to its right. */
  lemma {:induction false} ThresholdChoiceIsLocalMinimum(d: seq<real>, lo: nat, p: nat)
    requires ThresholdChoice(d, lo, p)
    ensures d[p] < Threshold
    ensures p + 1 == |d| || d[p + 1] >= d[p]
    ensures forall t :: lo <= t < FirstBelow(d, lo) ==> d[t] >= Threshold
  {
    var first := FirstBelow(d, lo);
    var k := first;
    while k < p
      invariant first <= k <= p
      invariant d[k] <= d[first]
    {
      assert d[k + 1] < d[k];
      k := k + 1;
    }
  }

  /** `period` plus the parabolic-interpolation offset, when the lag has
      neighbours on both sides and the offset is a number of magnitude under 1. */
  function RefinedLag(d: seq<real>, period: nat): (lag: real)
    requires period < |d|
    ensures lag == period as real || (1 < period < |d| - 1 && period as real - 1.0 < lag < period as real + 1.0)
    ensures period >= 1 ==> lag > 0.0
  {
    if 1 < period < |d| - 1 then
      var y0, y1, y2 := d[period - 1], d[period], d[period + 1];
      var denominator := 2.0 * (2.0 * y1 - y2 - y0);
      // a zero denominator makes the offset infinite or NaN in JavaScript: no refinement
      if denominator == 0.0 then period as real
      else
        var p := (y2 - y0) / denominator;
        if Abs(p) < 1.0 then period as real + p else period as real
    else period as real
  }

  function Max0(x: real): (m: real)
    ensures m >= 0.0 && m >= x && (m == x || m == 0.0)
  {
    if x < 0.0 then 0.0 else x
  }

  /** What `yinPitchDetection` returns once the lag `p` is chosen. */
  function PitchFromPeriod(sampleRate: real, d: seq<real>, p: nat): PitchResult
  {
    if p == 0 || p >= |d| then NoPitch
    else PitchResult(sampleRate / RefinedLag(d, p), Max0(1.0 - d[p]))
  }

  /** `yinPitchDetection(signal)` for a signal of `signalLength` samples whose
      normalised difference scores are `d`. */
  method YinPitchDetection(signalLength: nat, sampleRate: real, minFreq: real, maxFreq: real, d: seq<real>)
    returns (r: PitchResult)
    requires sampleRate > 0.0 && minFreq > 0.0 && maxFreq > 0.0
    requires |d| == PeriodLag(sampleRate, minFreq)
    ensures |d| >= signalLength ==> r == NoPitch
    ensures |d| < signalLength ==>
      exists p :: Selected(d, PeriodLag(sampleRate, maxFreq), p) && r == PitchFromPeriod(sampleRate, d, p)
    ensures r == NoPitch || (r.frequency > 0.0 && r.confidence >= 0.0)
  {
    var minPeriod := PeriodLag(sampleRate, maxFreq);
    var maxPeriod := PeriodLag(sampleRate, minFreq);
    if maxPeriod >= signalLength {
      return NoPitch;
    }
    var period := SelectPeriod(d, minPeriod);
    SelectedInRange(d, minPeriod, period);
    if period == 0 {
      return NoPitch;
    }
    var betterTau := RefinedLag(d, period);
    var confidence := 1.0 - d[period];
    r := PitchResult(sampleRate / betterTau, Max0(confidence));
    assert r == PitchFromPeriod(sampleRate, d, period);
  }
}
