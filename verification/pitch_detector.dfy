/**
 * The note-stabilisation core of `PitchDetector`: the smoothing of successive
 * pitch estimates (`applySmoothingFilter`, `updateHistories`), the note
 * locker (`decideOnNote`) and the reset done by `stop`.
 *
 * `decideOnNote` is specified by the pure step function `Decide` over the
 * pair (note buffer, last reported note); the class method is proved to
 * perform exactly that step, and the properties of the locker are lemmas
 * about `Decide` and about `Run`, its fold over a sequence of frames.
 * The signal level in dB is an input of each frame (its RMS computation is
 * not modelled), and so is the pitch estimate.
 */
module PitchDetection {
  import opened JsBuiltins
  import opened NoteQuantizer
  import opened Yin

  const NoteConfidenceThreshold: real := 0.6
  /** Largest pitch distance, in semitones, between consecutive buffered readings. */
  const NoteStabilityPitchThreshold: real := 0.5
  /** Readings needed to lock a note. */
  const NoteBufferSize: nat := 6
  /** Readings kept after a lock (`noteBuffer.slice(-2)`). */
  const LockOverlap: nat := 2
  /** Signal level, in dB, at or below which a frame counts as silence. */
  const SilenceLevelDb: real := -60.0
  const HistoryDepth: nat := 5
  /** Jump, in Hz, beyond which smoothing is bypassed. */
  const SmoothingBypassHz: real := 50.0

  /** A buffered reading: the quantised note and the frequency it came from. */
  datatype Reading = Reading(note: NoteInfo, frequency: real)
  {
    function Name(): string { note.Name() }
  }

  /** `lastStableNote`: what the detector last reported as sounding. */
  datatype StableNote = StableNote(name: string, confidence: real, frequency: real, cents: int)

  /** The value `lastStableNote` takes on silence: `{ name: '--', confidence: 0, frequency: 0 }`. */
  const SilentNote: StableNote := StableNote("--", 0.0, 0.0, 0)

  /** What `onNoteDetected` receives: a silence update or a locked note. */
  datatype NoteEvent = Silence | Locked(note: NoteInfo, frequency: real, confidence: real)
  {
    function Name(): string { if Silence? then "--" else note.Name() }
  }

  /** One analysis frame as `decideOnNote` sees it. */
  datatype Frame = Frame(pitch: PitchResult, level: real)

  /** A frame that is loud and confident enough to be read as a note. */
  predicate Qualifies(pitch: PitchResult, level: real)
  {
    pitch.confidence > NoteConfidenceThreshold && level > SilenceLevelDb
  }

  /** `Math.abs(12 * Math.log2(fNew / fLast)) < 0.5`. Where JavaScript gets
      NaN or an infinity (a zero `fLast`, a non-positive ratio) the
      comparison is false. */
  predicate WithinStability(t: Tuning, fNew: real, fLast: real)
  {
    fLast != 0.0 && fNew / fLast > 0.0 && Abs(12.0 * t.log2(fNew / fLast)) < NoteStabilityPitchThreshold
  }

  /** Every buffered reading is within the stability threshold of the one before it. */
  ghost predicate Chained(t: Tuning, buffer: seq<Reading>)
  {
    forall i :: 0 < i < |buffer| ==> LinkedAt(t, buffer, i)
  }

  /** Reading `i` continues reading `i - 1`. */
  ghost predicate LinkedAt(t: Tuning, buffer: seq<Reading>, i: nat)
    requires 0 < i < |buffer|
  {
    WithinStability(t, buffer[i].frequency, buffer[i - 1].frequency)
  }

  /** The reading taken from a qualifying frame. */
  function ReadingOf(t: Tuning, pitch: PitchResult): Reading
  {
    Reading(FrequencyToNote(t, pitch.frequency), pitch.frequency)
  }

  /** Every buffered reading is its frequency quantised with `t`, as
      `ReadingOf` makes it. */
  predicate Quantized(t: Tuning, buffer: seq<Reading>)
  {
    forall r :: r in buffer ==> r.note == FrequencyToNote(t, r.frequency)
  }

  /** The buffer after a qualifying reading: appended when it continues the
      last reading's pitch, otherwise the buffer restarts from it. */
  function Accumulate(t: Tuning, buffer: seq<Reading>, reading: Reading): seq<Reading>
  {
    if |buffer| > 0 && !WithinStability(t, reading.frequency, buffer[|buffer| - 1].frequency) then [reading]
    else buffer + [reading]
  }

  /** `noteBuffer.map(n => n.name)`. */
  function Names(buffer: seq<Reading>): (names: seq<string>)
    ensures |names| == |buffer|
    ensures forall i :: 0 <= i < |buffer| ==> names[i] == buffer[i].Name()
  {
    seq(|buffer|, i requires 0 <= i < |buffer| => buffer[i].Name())
  }

  function Occurrences(s: seq<string>, x: string): nat
  {
    multiset(s)[x]
  }

  /** The count of `s[i]` among `s[..i + 1]`, as the left-to-right tally has it at step `i`. */
  function RunningCount(s: seq<string>, i: nat): nat
    requires i < |s|
  {
    Occurrences(s[..i + 1], s[i])
  }

  /** The tally loop of `decideOnNote` as a function: the name and count
      after scanning `s` from the left, a name replacing the current one only
      when its running count strictly exceeds the best so far. */
  function ModeScan(s: seq<string>): (r: (string, nat))
    decreases |s|
  {
    if s == [] then ("", 0)
    else
      var prev := ModeScan(s[..|s| - 1]);
      var count := Occurrences(s, s[|s| - 1]);
      if count > prev.1 then (s[|s| - 1], count) else prev
  }

  /** `x` occurs in `s` at least as often as any other name. */
  ghost predicate IsModal(s: seq<string>, x: string)
  {
    x in s && forall y :: Occurrences(s, y) <= Occurrences(s, x)
  }

  /** `x` is the first name whose running count reaches its final count
      while no earlier running count had reached it. */
  ghost predicate FirstToReach(s: seq<string>, x: string)
  {
    exists j :: 0 <= j < |s| && s[j] == x && RunningCount(s, j) == Occurrences(s, x) &&
      forall i :: 0 <= i < j ==> RunningCount(s, i) < Occurrences(s, x)
  }

  lemma PrefixCountBound(s: seq<string>, i: nat)
    requires i < |s|
    ensures RunningCount(s, i) <= Occurrences(s, s[i])
  {
    assert s == s[..i + 1] + s[i + 1..];
    assert multiset(s) == multiset(s[..i + 1]) + multiset(s[i + 1..]);
  }

  lemma AppendOccurrences(p: seq<string>, x: string)
    ensures forall y :: Occurrences(p + [x], y) == Occurrences(p, y) + (if y == x then 1 else 0)
  {
    assert multiset(p + [x]) == multiset(p) + multiset{x};
  }

  /** Running counts are unaffected by what comes after. */
  lemma RunningCountOfPrefix(s: seq<string>, n: nat, i: nat)
    requires i < n <= |s|
    ensures RunningCount(s[..n], i) == RunningCount(s, i)
  {
    assert s[..n][..i + 1] == s[..i + 1];
  }

  /** The tally's result is a most frequent name, counted correctly. */
  lemma {:induction false} ModeScanIsModal(s: seq<string>)
    requires |s| > 0
    ensures ModeScan(s).1 == Occurrences(s, ModeScan(s).0)
    ensures IsModal(s, ModeScan(s).0)
    decreases |s|
  {
    var p, x := s[..|s| - 1], s[|s| - 1];
    assert s == p + [x];
    AppendOccurrences(p, x);
    if |s| == 1 {
      assert p == [];
    } else {
      ModeScanIsModal(p);
      var prev := ModeScan(p);
      if Occurrences(s, x) <= prev.1 {
        assert prev.0 != x;
        assert prev.0 in p;
      }
    }
  }

  /** Before the last name, no running count exceeds the best count of the shorter scan. */
  lemma EarlierCountsBounded(s: seq<string>)
    requires |s| > 1
    ensures forall i :: 0 <= i < |s| - 1 ==> RunningCount(s, i) <= ModeScan(s[..|s| - 1]).1
  {
    var p := s[..|s| - 1];
    ModeScanIsModal(p);
    forall i | 0 <= i < |s| - 1
      ensures RunningCount(s, i) <= ModeScan(p).1
    {
      RunningCountOfPrefix(s, |s| - 1, i);
      PrefixCountBound(p, i);
    }
  }

  /** Appending another name leaves a first-to-reach name first to reach. */
  lemma FirstToReachExtends(p: seq<string>, x: string, y: string)
    requires FirstToReach(p, y) && x != y
    ensures FirstToReach(p + [x], y)
  {
    var s := p + [x];
    AppendOccurrences(p, x);
    var j :| 0 <= j < |p| && p[j] == y && RunningCount(p, j) == Occurrences(p, y) &&
      forall i :: 0 <= i < j ==> RunningCount(p, i) < Occurrences(p, y);
    assert s[..|p|] == p;
    RunningCountOfPrefix(s, |p|, j);
    forall i | 0 <= i < j
      ensures RunningCount(s, i) < Occurrences(s, y)
    {
      RunningCountOfPrefix(s, |p|, i);
    }
  }

  /** Among the most frequent names, the tally keeps the one whose count got there first. */
  lemma {:induction false} ModeScanFirstToReach(s: seq<string>)
    requires |s| > 0
    ensures FirstToReach(s, ModeScan(s).0)
    decreases |s|
  {
    var n := |s|;
    var p, x := s[..n - 1], s[n - 1];
    assert s == p + [x];
    AppendOccurrences(p, x);
    if n == 1 {
      assert s[..1] == s;
      assert RunningCount(s, 0) == 1;
    } else {
      ModeScanIsModal(p);
      ModeScanFirstToReach(p);
      var prev := ModeScan(p);
      if Occurrences(s, x) > prev.1 {
        EarlierCountsBounded(s);
        assert s[..n] == s;
        assert RunningCount(s, n - 1) == Occurrences(s, x);
      } else {
        assert prev.0 != x;
        FirstToReachExtends(p, x, prev.0);
      }
    }
  }

  /** The tally's result is the first-to-reach most frequent name. */
  lemma ModeScanIsFirstModal(s: seq<string>)
    requires |s| > 0
    ensures ModeScan(s).1 == Occurrences(s, ModeScan(s).0)
    ensures IsModal(s, ModeScan(s).0)
    ensures FirstToReach(s, ModeScan(s).0)
  {
    ModeScanIsModal(s);
    ModeScanFirstToReach(s);
  }

  /** The tally's result occurs in the scanned names. */
  lemma ModeScanOccurs(s: seq<string>)
    requires |s| > 0
    ensures Occurrences(s, ModeScan(s).0) > 0
  {
    ModeScanIsModal(s);
  }

  /** There is only one first-to-reach most frequent name: the tie-break is deterministic. */
  lemma FirstModalUnique(s: seq<string>, x: string, y: string)
    requires IsModal(s, x) && FirstToReach(s, x)
    requires IsModal(s, y) && FirstToReach(s, y)
    ensures x == y
  {
    var jx :| 0 <= jx < |s| && s[jx] == x && RunningCount(s, jx) == Occurrences(s, x) &&
      forall i :: 0 <= i < jx ==> RunningCount(s, i) < Occurrences(s, x);
    var jy :| 0 <= jy < |s| && s[jy] == y && RunningCount(s, jy) == Occurrences(s, y) &&
      forall i :: 0 <= i < jy ==> RunningCount(s, i) < Occurrences(s, y);
    assert Occurrences(s, x) == Occurrences(s, y);
    assert jx == jy;
  }

  /** `noteBuffer.filter(n => n.name === name)`. */
  function Matching(buffer: seq<Reading>, name: string): seq<Reading>
    decreases |buffer|
  {
    if buffer == [] then []
    else
      var rest := buffer[..|buffer| - 1];
      var last := buffer[|buffer| - 1];
      Matching(rest, name) + (if last.Name() == name then [last] else [])
  }

  /** The filter keeps only readings of the buffer with that name, as many
      as the name occurs among the buffered names. */
  lemma {:induction false} MatchingIsFilter(buffer: seq<Reading>, name: string)
    ensures |Matching(buffer, name)| == Occurrences(Names(buffer), name)
    ensures forall r :: r in Matching(buffer, name) ==> r in buffer && r.Name() == name
    decreases |buffer|
  {
    if buffer != [] {
      var rest := buffer[..|buffer| - 1];
      var last := buffer[|buffer| - 1];
      MatchingIsFilter(rest, name);
      assert Names(buffer) == Names(rest) + [last.Name()];
      assert multiset(Names(buffer)) == multiset(Names(rest)) + multiset{last.Name()};
    }
  }

  /** `readings.reduce((sum, n) => sum + n.frequency, 0)`. */
  function SumFrequencies(readings: seq<Reading>): real
    decreases |readings|
  {
    if readings == [] then 0.0
    else SumFrequencies(readings[..|readings| - 1]) + readings[|readings| - 1].frequency
  }

  function MinFrequency(readings: seq<Reading>): (m: real)
    requires |readings| > 0
    ensures forall r :: r in readings ==> m <= r.frequency
    ensures exists r :: r in readings && m == r.frequency
    decreases |readings|
  {
    if |readings| == 1 then readings[0].frequency
    else
      var rest := MinFrequency(readings[1..]);
      assert forall r :: r in readings ==> r == readings[0] || r in readings[1..];
      if readings[0].frequency <= rest then readings[0].frequency else rest
  }

  function MaxFrequency(readings: seq<Reading>): (m: real)
    requires |readings| > 0
    ensures forall r :: r in readings ==> r.frequency <= m
    ensures exists r :: r in readings && m == r.frequency
    decreases |readings|
  {
    if |readings| == 1 then readings[0].frequency
    else
      var rest := MaxFrequency(readings[1..]);
      assert forall r :: r in readings ==> r == readings[0] || r in readings[1..];
      if readings[0].frequency >= rest then readings[0].frequency else rest
  }

  /** The average frequency of some readings. */
  function MeanFrequency(readings: seq<Reading>): real
    requires |readings| > 0
  {
    SumFrequencies(readings) / |readings| as real
  }

  lemma {:induction false} SumBetween(readings: seq<Reading>, lo: real, hi: real)
    requires forall r :: r in readings ==> lo <= r.frequency <= hi
    ensures |readings| as real * lo <= SumFrequencies(readings) <= |readings| as real * hi
    decreases |readings|
  {
    if readings != [] {
      var rest, last := readings[..|readings| - 1], readings[|readings| - 1];
      assert forall r :: r in rest ==> r in readings;
      SumBetween(rest, lo, hi);
      assert last in readings;
      assert SumFrequencies(readings) == SumFrequencies(rest) + last.frequency;
      ScaleByOneMore(|readings| as real, |rest| as real, lo);
      ScaleByOneMore(|readings| as real, |rest| as real, hi);
      assert |readings| as real * lo <= SumFrequencies(rest) + last.frequency;
      assert SumFrequencies(rest) + last.frequency <= |readings| as real * hi;
    } else {
      assert |readings| as real == 0.0;
    }
  }

  lemma ScaleByOneMore(m: real, n: real, x: real)
    requires m == n + 1.0
    ensures m * x == n * x + x
  {
  }

  lemma QuotientBounds(sum: real, n: real, lo: real, hi: real)
    requires n > 0.0 && n * lo <= sum <= n * hi
    ensures lo <= sum / n <= hi
  {
    var q := sum / n;
    assert q * n == sum;
  }

  /** The mean of some readings lies within any bounds on all of them. */
  lemma MeanWithinBounds(readings: seq<Reading>, lo: real, hi: real)
    requires |readings| > 0
    requires forall r :: r in readings ==> lo <= r.frequency <= hi
    ensures lo <= MeanFrequency(readings) <= hi
  {
    SumBetween(readings, lo, hi);
    QuotientBounds(SumFrequencies(readings), |readings| as real, lo, hi);
  }

  /** The name the locked note is taken from: the most frequent buffered name. */
  function ModalName(buffer: seq<Reading>): string
  {
    ModeScan(Names(buffer)).0
  }

  /** The readings whose name is the modal name (never none). */
  function ModalReadings(buffer: seq<Reading>): (m: seq<Reading>)
    requires |buffer| > 0
    ensures |m| > 0
  {
    ModeScanOccurs(Names(buffer));
    MatchingIsFilter(buffer, ModalName(buffer));
    Matching(buffer, ModalName(buffer))
  }

  /** The event emitted when the buffer is full: the modal readings' mean
      frequency, re-quantised, with confidence 1. */
  function LockedEvent(t: Tuning, buffer: seq<Reading>): (e: NoteEvent)
    requires |buffer| > 0
  {
    var avg := MeanFrequency(ModalReadings(buffer));
    Locked(FrequencyToNote(t, avg), avg, 1.0)
  }

  /** The locker's state: `noteBuffer` and `lastStableNote`. */
  datatype Stability = Stability(buffer: seq<Reading>, last: StableNote)

  /** The state after one frame, and the callback it fires, if any. */
  datatype Step = Step(state: Stability, event: Option<NoteEvent>)

  /** The first half of `decideOnNote`: a qualifying frame is buffered and
      becomes the last reported note; any other frame clears the buffer and
      reports silence if a note was being reported. */
  function Admit(t: Tuning, s: Stability, pitch: PitchResult, level: real): Step
  {
    if !Qualifies(pitch, level) then
      if s.last.name != "--" then Step(Stability([], SilentNote), Some(Silence))
      else Step(Stability([], s.last), None)
    else
      var reading := ReadingOf(t, pitch);
      var last := StableNote(reading.Name(), pitch.confidence, pitch.frequency, reading.note.Cents());
      Step(Stability(Accumulate(t, s.buffer, reading), last), None)
  }

  /** The second half: a full buffer locks a note and keeps its last two readings. */
  function LockIfFull(t: Tuning, step: Step): Step
  {
    var buffer := step.state.buffer;
    if |buffer| >= NoteBufferSize then
      Step(Stability(buffer[|buffer| - LockOverlap..], step.state.last), Some(LockedEvent(t, buffer)))
    else step
  }

  /** One call of `decideOnNote`. */
  function Decide(t: Tuning, s: Stability, pitch: PitchResult, level: real): (r: Step)
    ensures |r.state.buffer| < NoteBufferSize
    ensures r.event.Some? && r.event.value.Locked? ==> r.event.value.confidence == 1.0
  {
    LockIfFull(t, Admit(t, s, pitch, level))
  }

  /** A frame that does not qualify empties the buffer, and reports silence
      exactly when the last reported note was not already silence. */
  lemma DecideOnSilence(t: Tuning, s: Stability, pitch: PitchResult, level: real)
    requires !Qualifies(pitch, level)
    ensures Decide(t, s, pitch, level).state.buffer == []
    ensures Decide(t, s, pitch, level).state.last.name == "--"
    ensures Decide(t, s, pitch, level).event == if s.last.name != "--" then Some(Silence) else None
  {
  }

  /** A qualifying frame within the threshold of the last buffered reading is
      appended; below the lock size nothing is reported. */
  lemma DecideAppends(t: Tuning, s: Stability, pitch: PitchResult, level: real)
    requires Qualifies(pitch, level)
    requires |s.buffer| > 0 && WithinStability(t, pitch.frequency, s.buffer[|s.buffer| - 1].frequency)
    requires |s.buffer| + 1 < NoteBufferSize
    ensures Decide(t, s, pitch, level).state.buffer == s.buffer + [ReadingOf(t, pitch)]
    ensures Decide(t, s, pitch, level).event.None?
  {
  }

  /** A qualifying frame that jumps by the threshold or more (or meets an empty
      buffer) restarts the buffer from that one reading. */
  lemma DecideRestartsOnJump(t: Tuning, s: Stability, pitch: PitchResult, level: real)
    requires Qualifies(pitch, level)
    requires |s.buffer| == 0 || !WithinStability(t, pitch.frequency, s.buffer[|s.buffer| - 1].frequency)
    ensures Decide(t, s, pitch, level).state.buffer == [ReadingOf(t, pitch)]
    ensures Decide(t, s, pitch, level).event.None?
  {
  }

  /** The sixth continuous reading locks: one event with confidence 1, named
      after the first most frequent name in the buffer, at the mean frequency
      of the readings of that name (which lies between their extremes); the
      buffer keeps its last two readings. */
  lemma DecideLocks(t: Tuning, s: Stability, pitch: PitchResult, level: real)
    requires Qualifies(pitch, level)
    requires |s.buffer| == NoteBufferSize - 1
    requires WithinStability(t, pitch.frequency, s.buffer[|s.buffer| - 1].frequency)
    ensures var full := s.buffer + [ReadingOf(t, pitch)];
      var r := Decide(t, s, pitch, level);
      && r.state.buffer == full[NoteBufferSize - LockOverlap..]
      && r.event.Some? && r.event.value.Locked? && r.event.value.confidence == 1.0
      && IsModal(Names(full), ModalName(full)) && FirstToReach(Names(full), ModalName(full))
      && r.event.value.frequency == MeanFrequency(Matching(full, ModalName(full)))
      && MinFrequency(ModalReadings(full)) <= r.event.value.frequency <= MaxFrequency(ModalReadings(full))
      && r.event.value.note == FrequencyToNote(t, r.event.value.frequency)
      && (MonotoneLog(t) && Quantized(t, s.buffer) ==> r.event.value.Name() == ModalName(full))
  {
    DecideFillsAndLocks(t, s, pitch, level);
    var full := s.buffer + [ReadingOf(t, pitch)];
    ModeScanIsFirstModal(Names(full));
    var modal := ModalReadings(full);
    MeanWithinBounds(modal, MinFrequency(modal), MaxFrequency(modal));
    if MonotoneLog(t) && Quantized(t, s.buffer) {
      AccumulateKeepsQuantized(t, s.buffer, ReadingOf(t, pitch));
      LockedNameIsModal(t, full);
    }
  }

  /** With a monotone logarithm, the locked note carries the modal name: the
      mean of the modal readings lies between two readings of that name. */
  lemma LockedNameIsModal(t: Tuning, buffer: seq<Reading>)
    requires |buffer| > 0 && MonotoneLog(t) && Quantized(t, buffer)
    ensures LockedEvent(t, buffer).Name() == ModalName(buffer)
  {
    var name := ModalName(buffer);
    var modal := ModalReadings(buffer);
    MatchingIsFilter(buffer, name);
    var lo, hi := MinFrequency(modal), MaxFrequency(modal);
    var rlo :| rlo in modal && lo == rlo.frequency;
    var rhi :| rhi in modal && hi == rhi.frequency;
    MeanWithinBounds(modal, lo, hi);
    BetweenSameName(t, lo, MeanFrequency(modal), hi);
  }

  lemma AccumulateKeepsQuantized(t: Tuning, buffer: seq<Reading>, reading: Reading)
    requires Quantized(t, buffer) && reading.note == FrequencyToNote(t, reading.frequency)
    ensures Quantized(t, buffer + [reading]) && Quantized(t, Accumulate(t, buffer, reading))
  {
  }

  /** Every reading `decideOnNote` buffers is quantised with the detector's tuning. */
  lemma DecideKeepsQuantized(t: Tuning, s: Stability, pitch: PitchResult, level: real)
    requires Quantized(t, s.buffer)
    ensures Quantized(t, Decide(t, s, pitch, level).state.buffer)
  {
    if Qualifies(pitch, level) {
      var buffer := Accumulate(t, s.buffer, ReadingOf(t, pitch));
      AccumulateKeepsQuantized(t, s.buffer, ReadingOf(t, pitch));
      if |buffer| >= NoteBufferSize {
        assert forall r :: r in buffer[|buffer| - LockOverlap..] ==> r in buffer;
      }
    }
  }

  /** The reading that fills the buffer locks a note and leaves its last two readings. */
  lemma DecideFillsAndLocks(t: Tuning, s: Stability, pitch: PitchResult, level: real)
    requires Qualifies(pitch, level)
    requires |s.buffer| == NoteBufferSize - 1
    requires WithinStability(t, pitch.frequency, s.buffer[|s.buffer| - 1].frequency)
    ensures var full := s.buffer + [ReadingOf(t, pitch)];
      var r := Decide(t, s, pitch, level);
      && r.state.buffer == full[NoteBufferSize - LockOverlap..]
      && r.event == Some(LockedEvent(t, full))
  {
  }

  /** `decideOnNote` keeps every pair of neighbouring buffered readings within
      the stability threshold. */
  lemma DecideKeepsChained(t: Tuning, s: Stability, pitch: PitchResult, level: real)
    requires Chained(t, s.buffer)
    ensures Chained(t, Decide(t, s, pitch, level).state.buffer)
  {
    if Qualifies(pitch, level) {
      var buffer := Accumulate(t, s.buffer, ReadingOf(t, pitch));
      AccumulateKeepsChained(t, s.buffer, ReadingOf(t, pitch));
      if |buffer| >= NoteBufferSize {
        SuffixKeepsChained(t, buffer, |buffer| - LockOverlap);
      }
    }
  }

  lemma AccumulateKeepsChained(t: Tuning, buffer: seq<Reading>, reading: Reading)
    requires Chained(t, buffer)
    ensures Chained(t, Accumulate(t, buffer, reading))
  {
    var next := Accumulate(t, buffer, reading);
    forall i | 0 < i < |next|
      ensures LinkedAt(t, next, i)
    {
      assert next == buffer + [reading];
      if i < |buffer| {
        assert LinkedAt(t, buffer, i);
      }
    }
  }

  lemma SuffixKeepsChained(t: Tuning, buffer: seq<Reading>, k: nat)
    requires Chained(t, buffer) && k <= |buffer|
    ensures Chained(t, buffer[k..])
  {
    var kept := buffer[k..];
    forall i | 0 < i < |kept|
      ensures LinkedAt(t, kept, i)
    {
      assert LinkedAt(t, buffer, k + i);
    }
  }

  /** The outcome of a sequence of frames: the final state and the callbacks fired, in order. */
  datatype RunResult = RunResult(state: Stability, events: seq<NoteEvent>)

  function Run(t: Tuning, s: Stability, frames: seq<Frame>): RunResult
    decreases |frames|
  {
    if frames == [] then RunResult(s, [])
    else
      var step := Decide(t, s, frames[0].pitch, frames[0].level);
      var rest := Run(t, step.state, frames[1..]);
      RunResult(rest.state, (if step.event.Some? then [step.event.value] else []) + rest.events)
  }

  /** A run of frames that do not qualify reports silence at most once: on its
      first frame, and only if a note was being reported before. */
  lemma {:induction false} SilenceIsEdgeTriggered(t: Tuning, s: Stability, frames: seq<Frame>)
    requires forall i :: 0 <= i < |frames| ==> !Qualifies(frames[i].pitch, frames[i].level)
    ensures Run(t, s, frames).events == if |frames| > 0 && s.last.name != "--" then [Silence] else []
    decreases |frames|
  {
    if frames != [] {
      var step := Decide(t, s, frames[0].pitch, frames[0].level);
      DecideOnSilence(t, s, frames[0].pitch, frames[0].level);
      SilenceIsEdgeTriggered(t, step.state, frames[1..]);
    }
  }

  /** The frames continue each other's pitch, and the first continues the
      buffer's last reading. */
  ghost predicate Continuous(t: Tuning, buffer: seq<Reading>, frames: seq<Frame>)
  {
    && (|buffer| > 0 && |frames| > 0 ==> WithinStability(t, frames[0].pitch.frequency, buffer[|buffer| - 1].frequency))
    && (forall i :: 0 < i < |frames| ==> FollowsAt(t, frames, i))
  }

  /** Frame `i` continues the pitch of frame `i - 1`. */
  ghost predicate FollowsAt(t: Tuning, frames: seq<Frame>, i: nat)
    requires 0 < i < |frames|
  {
    WithinStability(t, frames[i].pitch.frequency, frames[i - 1].pitch.frequency)
  }

  /** Qualifying, continuous frames that bring the buffer to six readings fire
      exactly one callback, a locked note, on the last of them. */
  lemma {:induction false} ContinuousStreakLocksOnce(t: Tuning, s: Stability, frames: seq<Frame>)
    requires |frames| > 0 && |s.buffer| + |frames| == NoteBufferSize
    requires forall i :: 0 <= i < |frames| ==> Qualifies(frames[i].pitch, frames[i].level)
    requires Continuous(t, s.buffer, frames)
    ensures |Run(t, s, frames).events| == 1
    ensures Run(t, s, frames).events[0].Locked? && Run(t, s, frames).events[0].confidence == 1.0
    decreases |frames|
  {
    var step := Decide(t, s, frames[0].pitch, frames[0].level);
    RunFirstStep(t, s, frames);
    if |frames| > 1 {
      StreakContinues(t, s, frames);
      ContinuousStreakLocksOnce(t, step.state, frames[1..]);
    } else {
      DecideFillsAndLocks(t, s, frames[0].pitch, frames[0].level);
      assert frames[1..] == [];
    }
  }

  /** Short of a full buffer, the first frame of the streak is appended
      silently and the rest of the streak continues it. */
  lemma StreakContinues(t: Tuning, s: Stability, frames: seq<Frame>)
    requires 1 < |frames| && |s.buffer| + |frames| == NoteBufferSize
    requires forall i :: 0 <= i < |frames| ==> Qualifies(frames[i].pitch, frames[i].level)
    requires Continuous(t, s.buffer, frames)
    ensures var step := Decide(t, s, frames[0].pitch, frames[0].level);
      && step.event.None?
      && step.state.buffer == s.buffer + [ReadingOf(t, frames[0].pitch)]
      && Continuous(t, step.state.buffer, frames[1..])
  {
    var step := Decide(t, s, frames[0].pitch, frames[0].level);
    if |s.buffer| > 0 {
      DecideAppends(t, s, frames[0].pitch, frames[0].level);
    } else {
      DecideRestartsOnJump(t, s, frames[0].pitch, frames[0].level);
    }
    assert FollowsAt(t, frames, 1);
    forall i | 0 < i < |frames[1..]|
      ensures FollowsAt(t, frames[1..], i)
    {
      assert FollowsAt(t, frames, i + 1);
    }
  }

  /** A run fires the first frame's callback, if any, ahead of the rest. */
  lemma RunFirstStep(t: Tuning, s: Stability, frames: seq<Frame>)
    requires |frames| > 0
    ensures var step := Decide(t, s, frames[0].pitch, frames[0].level);
      Run(t, s, frames).events ==
        (if step.event.Some? then [step.event.value] else []) + Run(t, step.state, frames[1..]).events
  {
  }

  /** One more name: its count goes up by one, and it becomes the tally's
      result when that count beats the best so far. */
  lemma ModeScanStep(names: seq<string>, i: nat)
    requires i < |names|
    ensures forall y :: Occurrences(names[..i + 1], y) == Occurrences(names[..i], y) + (if y == names[i] then 1 else 0)
    ensures var count := Occurrences(names[..i], names[i]) + 1;
      ModeScan(names[..i + 1]) == if count > ModeScan(names[..i]).1 then (names[i], count) else ModeScan(names[..i])
  {
    assert names[..i + 1] == names[..i] + [names[i]];
    AppendOccurrences(names[..i], names[i]);
    assert names[..i + 1][..i] == names[..i];
  }

  /** The tally loop of `decideOnNote` (`modeMap`, `maxCount`, `modeNoteName`). */
  method TallyMode(names: seq<string>) returns (mode: string)
    requires |names| > 0
    ensures mode == ModeScan(names).0
    ensures IsModal(names, mode) && FirstToReach(names, mode)
  {
    var modeMap: map<string, nat> := map[];
    var maxCount: nat := 0;
    mode := names[0];
    var i := 0;
    while i < |names|
      invariant 0 <= i <= |names|
      invariant forall x :: (if x in modeMap then modeMap[x] else 0) == Occurrences(names[..i], x)
      invariant maxCount == ModeScan(names[..i]).1
      invariant i > 0 ==> mode == ModeScan(names[..i]).0
    {
      var name := names[i];
      ModeScanStep(names, i);
      var count := (if name in modeMap then modeMap[name] else 0) + 1;
      modeMap := modeMap[name := count];
      if count > maxCount {
        maxCount := count;
        mode := name;
      }
      i := i + 1;
    }
    assert names[..i] == names;
    ModeScanIsFirstModal(names);
  }

  /** The lock step of `decideOnNote` on a full buffer: tally the names, keep
      the readings of the modal name, average their frequencies and quantise
      the average. */
  method LockNote(t: Tuning, buffer: seq<Reading>) returns (event: NoteEvent)
    requires |buffer| > 0
    ensures event == LockedEvent(t, buffer)
  {
    var mode := TallyMode(Names(buffer));
    var matchingNotes := Matching(buffer, mode);
    assert matchingNotes == ModalReadings(buffer);
    var avgFreq := SumFrequencies(matchingNotes) / |matchingNotes| as real;
    var finalNoteInfo := FrequencyToNote(t, avgFreq);
    event := Locked(finalNoteInfo, avgFreq, 1.0);
  }

  class PitchDetector {
    /** The reference pitch and logarithm used for quantisation. */
    const tuning: Tuning
    /** `smoothingFactor` (`options.smoothing`, 0.7 by default). */
    const smoothingFactor: real

    var isRunning: bool
    var smoothedPitchHistory: seq<PitchResult>
    var noteBuffer: seq<Reading>
    var lastStableNote: StableNote

    ghost predicate Valid()
      reads this
    {
      && |smoothedPitchHistory| <= HistoryDepth
      && |noteBuffer| < NoteBufferSize
      && Chained(tuning, noteBuffer)
      && Quantized(tuning, noteBuffer)
    }

    function State(): Stability
      reads this
    {
      Stability(noteBuffer, lastStableNote)
    }

    constructor (tuning: Tuning, smoothingFactor: real)
      ensures Valid()
      ensures this.tuning == tuning && this.smoothingFactor == smoothingFactor
      ensures !isRunning && smoothedPitchHistory == [] && noteBuffer == [] && lastStableNote == SilentNote
    {
      this.tuning := tuning;
      this.smoothingFactor := smoothingFactor;
      isRunning := false;
      smoothedPitchHistory := [];
      noteBuffer := [];
      lastStableNote := SilentNote;
    }

    /** `stop()`: no state is carried into the next session. */
    method Stop()
      modifies this
      ensures Valid()
      ensures !isRunning && smoothedPitchHistory == [] && noteBuffer == [] && lastStableNote == SilentNote
    {
      isRunning := false;
      lastStableNote := SilentNote;
      noteBuffer := [];
      smoothedPitchHistory := [];
    }

    /** `applySmoothingFilter(pitchResult)`: exponential smoothing towards the
        last smoothed estimate, bypassed on an empty history or a jump of more
        than 50 Hz. */
    function ApplySmoothingFilter(pitch: PitchResult): (r: PitchResult)
      reads this
      ensures r.confidence == pitch.confidence
      ensures |smoothedPitchHistory| == 0 ==> r == pitch
      ensures |smoothedPitchHistory| > 0 ==>
        var lastFreq := smoothedPitchHistory[|smoothedPitchHistory| - 1].frequency;
        if Abs(lastFreq - pitch.frequency) > SmoothingBypassHz then r == pitch
        else r.frequency == smoothingFactor * lastFreq + (1.0 - smoothingFactor) * pitch.frequency
    {
      if |smoothedPitchHistory| == 0 then pitch
      else
        var lastFreq := smoothedPitchHistory[|smoothedPitchHistory| - 1].frequency;
        if Abs(lastFreq - pitch.frequency) > SmoothingBypassHz then pitch
        else PitchResult(smoothingFactor * lastFreq + (1.0 - smoothingFactor) * pitch.frequency, pitch.confidence)
    }

    /** `updateHistories(smoothed)`: append, then drop the oldest beyond five. */
    method UpdateHistories(smoothed: PitchResult)
      requires Valid()
      modifies this`smoothedPitchHistory
      ensures Valid()
      ensures smoothedPitchHistory ==
        if |old(smoothedPitchHistory)| < HistoryDepth then old(smoothedPitchHistory) + [smoothed]
        else old(smoothedPitchHistory)[1..] + [smoothed]
    {
      smoothedPitchHistory := smoothedPitchHistory + [smoothed];
      if |smoothedPitchHistory| > HistoryDepth {
        smoothedPitchHistory := smoothedPitchHistory[1..];
      }
    }

    /** The first half of `decideOnNote`: buffer a qualifying reading, or
        clear the buffer and report silence once. */
    method AdmitFrame(pitch: PitchResult, level: real) returns (event: Option<NoteEvent>)
      requires Valid()
      modifies this`noteBuffer, this`lastStableNote
      ensures Step(State(), event) == Admit(tuning, old(State()), pitch, level)
    {
      event := None;
      if pitch.confidence > NoteConfidenceThreshold && level > SilenceLevelDb {
        var noteInfo := FrequencyToNote(tuning, pitch.frequency);
        var currentReading := Reading(noteInfo, pitch.frequency);
        lastStableNote := StableNote(currentReading.Name(), pitch.confidence, pitch.frequency, noteInfo.Cents());
        if |noteBuffer| > 0 {
          var lastNote := noteBuffer[|noteBuffer| - 1];
          if WithinStability(tuning, currentReading.frequency, lastNote.frequency) {
            noteBuffer := noteBuffer + [currentReading];
          } else {
            noteBuffer := [currentReading];
          }
        } else {
          noteBuffer := noteBuffer + [currentReading];
        }
      } else {
        noteBuffer := [];
        if lastStableNote.name != "--" {
          lastStableNote := SilentNote;
          event := Some(Silence);
        }
      }
    }

    /** The second half of `decideOnNote`: a full buffer locks a note and
        keeps its last two readings; `pending` is the event of the first half. */
    method LockFullBuffer(pending: Option<NoteEvent>) returns (event: Option<NoteEvent>)
      modifies this`noteBuffer
      ensures Step(State(), event) == LockIfFull(tuning, Step(old(State()), pending))
    {
      event := pending;
      if |noteBuffer| >= NoteBufferSize {
        ghost var full := noteBuffer;
        var locked := LockNote(tuning, noteBuffer);
        event := Some(locked);
        noteBuffer := noteBuffer[|noteBuffer| - LockOverlap..];
        assert State() == Stability(full[|full| - LockOverlap..], old(lastStableNote));
      }
    }

    /** `decideOnNote(pitchResult)` at signal level `level` (dB). */
    method DecideOnNote(pitch: PitchResult, level: real) returns (event: Option<NoteEvent>)
      requires Valid()
      modifies this`noteBuffer, this`lastStableNote
      ensures Valid()
      ensures Step(State(), event) == Decide(tuning, old(State()), pitch, level)
    {
      DecideKeepsChained(tuning, State(), pitch, level);
      DecideKeepsQuantized(tuning, State(), pitch, level);
      event := AdmitFrame(pitch, level);
      event := LockFullBuffer(event);
    }
  }

  /** With a factor in [0, 1], a smoothed frequency lies between the last
      smoothed value and the new estimate, within 50 Hz of both. */
  lemma SmoothingStaysBetween(d: PitchDetector, pitch: PitchResult)
    requires 0.0 <= d.smoothingFactor <= 1.0
    requires |d.smoothedPitchHistory| > 0
    ensures var lastFreq := d.smoothedPitchHistory[|d.smoothedPitchHistory| - 1].frequency;
      var f := d.ApplySmoothingFilter(pitch).frequency;
      && (f == pitch.frequency || (Abs(f - lastFreq) <= SmoothingBypassHz && Abs(f - pitch.frequency) <= SmoothingBypassHz))
      && ((lastFreq <= f <= pitch.frequency) || (pitch.frequency <= f <= lastFreq))
  {
    var lastFreq := d.smoothedPitchHistory[|d.smoothedPitchHistory| - 1].frequency;
    var a := d.smoothingFactor;
    if Abs(lastFreq - pitch.frequency) <= SmoothingBypassHz {
      var f := a * lastFreq + (1.0 - a) * pitch.frequency;
      assert f - pitch.frequency == a * (lastFreq - pitch.frequency);
      assert f - lastFreq == (1.0 - a) * (pitch.frequency - lastFreq);
      assert d.ApplySmoothingFilter(pitch).frequency == f;
      ScaleShrinks(a, lastFreq - pitch.frequency);
      ScaleShrinks(1.0 - a, pitch.frequency - lastFreq);
      assert Abs(f - pitch.frequency) <= Abs(lastFreq - pitch.frequency);
      assert Abs(f - lastFreq) <= Abs(lastFreq - pitch.frequency);
    }
  }

  /** Scaling by a factor in [0, 1] moves a value towards 0 without crossing it. */
  lemma ScaleShrinks(a: real, x: real)
    requires 0.0 <= a <= 1.0
    ensures x >= 0.0 ==> 0.0 <= a * x <= x
    ensures x <= 0.0 ==> x <= a * x <= 0.0
  {
    assert x - a * x == (1.0 - a) * x;
  }
}
