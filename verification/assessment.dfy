/**
 * `AssessmentMode`: the exercise-progress state machine that walks through
 * the notes of an exercise score and advances whenever the pitch detector
 * locks onto the expected note. The score's notes are VexFlow keys such as
 * `"c/4"` or `"eb/5"`, parsed into names comparable with the detector's
 * (`"C4"`, `"D#5"`).
 *
 * The DOM updates (button text, result panel, the width of the accuracy bar)
 * are not modelled; the accuracy percentage and the colour band that
 * `updateAccuracy` would show are kept as a field, and the `onNoteMatch` /
 * `onComplete` callbacks become the outcome returned by `HandleNoteDetected`.
 */
module Assessment {
  import opened JsBuiltins
  import opened NoteQuantizer
  import opened PitchDetection
  import opened Sequences

  /** What `parseVexFlowKey` returns; a missing or non-numeric octave is NaN (`None`). */
  datatype ParsedKey = ParsedKey(name: string, octave: Option<int>, fullName: string)

  /** The `flatMap` lookup: the five flats normalised to sharps, so that
      names compare with the detector's; `None` for any other name. */
  function FlatToSharp(name: string): Option<string>
  {
    if name == "DB" then Some("C#") else if name == "EB" then Some("D#")
    else if name == "GB" then Some("F#") else if name == "AB" then Some("G#")
    else if name == "BB" then Some("A#") else None
  }

  /** The flat normalisation of `parseVexFlowKey`, on the upper-cased name. */
  function NormaliseFlat(name: string): (n: string)
    ensures FlatToSharp(name).Some? ==> n == FlatToSharp(name).value
    ensures FlatToSharp(name).None? ==> n == name
  {
    if |name| > 1 && 'B' in name && FlatToSharp(name).Some? then FlatToSharp(name).value else name
  }

  /** `parseVexFlowKey(key)`. */
  function ParseVexFlowKey(key: string): (k: ParsedKey)
    ensures k.fullName == k.name + NumberText(k.octave)
    ensures '/' !in key ==> k.octave.None?
  {
    var name := NormaliseFlat(ToUpper(SlashField0(key)));
    var octave := if SlashField1(key).Some? then ParseInt(SlashField1(key).value) else None;
    ParsedKey(name, octave, name + NumberText(octave))
  }

  lemma NoSlashInIntToString(i: int)
    ensures '/' !in IntToString(i)
  {
    var s := IntToString(i);
    if i < 0 {
      assert s == "-" + NatToString(-i);
      assert forall k :: 1 <= k < |s| ==> IsDigit(s[k]);
    }
  }

  /** A key `name/octave` parses to the normalised, upper-cased name and the
      octave it was written with. */
  lemma ParseWrittenKey(name: string, octave: int)
    requires '/' !in name
    ensures var k := ParseVexFlowKey(name + "/" + IntToString(octave));
      && k.name == NormaliseFlat(ToUpper(name))
      && k.octave == Some(octave)
      && k.fullName == NormaliseFlat(ToUpper(name)) + IntToString(octave)
  {
    NoSlashInIntToString(octave);
    SplitJoined(name, IntToString(octave));
    ParseIntOfIntToString(octave);
  }

  /** The five flats are spelled as the sharp of the same pitch, and every
      other name (`CB`, `B`, `FB`, ...) is left as it is. */
  lemma FlatsNormalised()
    ensures NormaliseFlat("DB") == "C#" && NormaliseFlat("EB") == "D#" && NormaliseFlat("GB") == "F#"
    ensures NormaliseFlat("AB") == "G#" && NormaliseFlat("BB") == "A#"
    ensures NormaliseFlat("CB") == "CB" && NormaliseFlat("FB") == "FB" && NormaliseFlat("B") == "B"
    ensures forall n :: FlatToSharp(n).Some? ==> NormaliseFlat(n) in PitchClassNames
  {
  }

  /** The lower-case VexFlow spelling of a pitch class (`c`, `c#`, ...). */
  function SharpKeyName(pc: PitchClass): string
  {
    ToLower(PitchClassNames[pc])
  }

  lemma UpperOfLowerPitchClass(pc: PitchClass)
    ensures ToUpper(SharpKeyName(pc)) == PitchClassNames[pc]
    ensures '/' !in SharpKeyName(pc)
    ensures NormaliseFlat(PitchClassNames[pc]) == PitchClassNames[pc]
  {
    var n := PitchClassNames[pc];
    assert forall k :: 0 <= k < |n| ==> ('A' <= n[k] <= 'G' || n[k] == '#');
    assert ToUpper(SharpKeyName(pc)) == n;
  }

  /** An exercise note written in sharps is matched by the detector's name for
      that pitch class and octave: the two notations agree. */
  lemma SharpKeyMatchesDetectorName(pc: PitchClass, octave: int, cents: int)
    ensures ParseVexFlowKey(SharpKeyName(pc) + "/" + IntToString(octave)).fullName == Note(pc, octave, cents).Name()
  {
    UpperOfLowerPitchClass(pc);
    ParseWrittenKey(SharpKeyName(pc), octave);
  }

  /** The pitch class a lower-case flat spelling stands for. */
  function FlatPitchClass(flat: string): PitchClass
    requires flat in {"db", "eb", "gb", "ab", "bb"}
  {
    if flat == "db" then 1 else if flat == "eb" then 3 else if flat == "gb" then 6
    else if flat == "ab" then 8 else 10
  }

  lemma UpperOfPair(a: char, b: char)
    ensures ToUpper([a, b]) == [UpperChar(a), UpperChar(b)]
  {
  }

  /** Upper-casing and normalising a lower-case flat spelling gives the sharp of the same pitch class. */
  lemma FlatSpellingNormalised(flat: string)
    requires flat in {"db", "eb", "gb", "ab", "bb"}
    ensures NormaliseFlat(ToUpper(flat)) == PitchClassNames[FlatPitchClass(flat)]
  {
    UpperOfPair(flat[0], flat[1]);
    assert flat == [flat[0], flat[1]];
  }

  /** The same holds for the flat spelling of the five black keys (`db` for C#, ...). */
  lemma FlatKeyMatchesDetectorName(flat: string, octave: int, cents: int)
    requires flat in {"db", "eb", "gb", "ab", "bb"}
    ensures ParseVexFlowKey(flat + "/" + IntToString(octave)).fullName ==
      Note(FlatPitchClass(flat), octave, cents).Name()
  {
    ParseWrittenKey(flat, octave);
    FlatSpellingNormalised(flat);
  }

  /** One entry of `exerciseNotes`. */
  datatype ExerciseNote = ExerciseNote(name: string, octave: Option<int>, fullName: string,
                                       midiNote: Option<int>, originalKey: string)

  /** The parts of the score `extractExerciseNotes` reads; absent properties are `None`. */
  datatype ScoreNote = ScoreNote(key: string, midiNote: Option<int>)
  datatype ScoreMeasure = ScoreMeasure(notes: Option<seq<ScoreNote>>)
  datatype ExerciseScore = ExerciseScore(measures: Option<seq<ScoreMeasure>>)

  function ExerciseNoteOf(note: ScoreNote): ExerciseNote
  {
    var k := ParseVexFlowKey(note.key);
    ExerciseNote(k.name, k.octave, k.fullName, note.midiNote, note.key)
  }

  /** The notes of a measure, none when it has no `notes`. */
  function MeasureNotes(m: ScoreMeasure): seq<ScoreNote>
  {
    if m.notes.Some? then m.notes.value else []
  }

  /** The exercise notes of one measure, in order. */
  function MeasureEntries(m: ScoreMeasure): (entries: seq<ExerciseNote>)
    ensures |entries| == |MeasureNotes(m)|
    ensures forall j :: 0 <= j < |entries| ==> entries[j] == ExerciseNoteOf(MeasureNotes(m)[j])
  {
    seq(|MeasureNotes(m)|, j requires 0 <= j < |MeasureNotes(m)| => ExerciseNoteOf(MeasureNotes(m)[j]))
  }

  /** Each measure's exercise notes. */
  function EntriesOf(ms: seq<ScoreMeasure>): (parts: seq<seq<ExerciseNote>>)
    ensures |parts| == |ms|
  {
    seq(|ms|, i requires 0 <= i < |ms| => MeasureEntries(ms[i]))
  }

  /** The exercise notes of some measures, measure by measure. */
  function NotesOfMeasures(ms: seq<ScoreMeasure>): seq<ExerciseNote>
  {
    Concat(EntriesOf(ms))
  }

  /** What `extractExerciseNotes` returns: nothing without score data or measures. */
  function ExerciseNotes(scoreData: Option<ExerciseScore>): seq<ExerciseNote>
  {
    if scoreData.Some? && scoreData.value.measures.Some? then NotesOfMeasures(scoreData.value.measures.value)
    else []
  }

  /** The score notes of each measure. */
  function NotesPerMeasure(ms: seq<ScoreMeasure>): (parts: seq<seq<ScoreNote>>)
    ensures |parts| == |ms|
  {
    seq(|ms|, i requires 0 <= i < |ms| => MeasureNotes(ms[i]))
  }

  /** The number of notes in the first `i` measures. */
  function NotesBefore(ms: seq<ScoreMeasure>, i: nat): nat
    requires i <= |ms|
  {
    LengthBefore(NotesPerMeasure(ms), i)
  }

  lemma NotesBeforeIsLength(ms: seq<ScoreMeasure>, i: nat)
    requires i <= |ms|
    ensures NotesBefore(ms, i) == LengthBefore(EntriesOf(ms), i)
  {
    LengthBeforeSameLengths(NotesPerMeasure(ms), EntriesOf(ms), i);
  }

  /** One entry per score note, in measure-then-note order: note `j` of
      measure `i` is entry `NotesBefore(ms, i) + j`, and there are no others. */
  lemma NotesOfMeasuresInOrder(ms: seq<ScoreMeasure>, i: nat, j: nat)
    requires i < |ms| && j < |MeasureNotes(ms[i])|
    ensures |NotesOfMeasures(ms)| == NotesBefore(ms, |ms|)
    ensures NotesBefore(ms, i) + j < |NotesOfMeasures(ms)|
    ensures NotesOfMeasures(ms)[NotesBefore(ms, i) + j] == ExerciseNoteOf(MeasureNotes(ms[i])[j])
  {
    ConcatInOrder(EntriesOf(ms), i, j);
    NotesBeforeIsLength(ms, i);
    NotesBeforeIsLength(ms, |ms|);
  }

  /** One more measure adds its entries at the end. */
  lemma NotesOfMeasuresStep(ms: seq<ScoreMeasure>, i: nat)
    requires i < |ms|
    ensures NotesOfMeasures(ms[..i + 1]) == NotesOfMeasures(ms[..i]) + MeasureEntries(ms[i])
  {
    assert EntriesOf(ms[..i + 1])[..i] == EntriesOf(ms[..i]);
    assert EntriesOf(ms[..i + 1])[i] == MeasureEntries(ms[i]);
  }

  /** The inner `forEach` of `extractExerciseNotes`: the notes of one measure pushed in order. */
  method PushMeasureNotes(notes: seq<ExerciseNote>, measure: ScoreMeasure) returns (result: seq<ExerciseNote>)
    ensures result == notes + MeasureEntries(measure)
  {
    result := notes;
    ghost var entries := MeasureEntries(measure);
    if measure.notes.Some? {
      var scoreNotes := measure.notes.value;
      var j := 0;
      while j < |scoreNotes|
        invariant 0 <= j <= |scoreNotes| == |entries|
        invariant result == notes + entries[..j]
      {
        PushExtendsPrefix(notes, entries, j);
        result := result + [ExerciseNoteOf(scoreNotes[j])];
        j := j + 1;
      }
      assert entries[..j] == entries;
    }
  }

  /** `extractExerciseNotes()`: nested `forEach` with `push`. */
  method ExtractExerciseNotes(scoreData: Option<ExerciseScore>) returns (notes: seq<ExerciseNote>)
    ensures notes == ExerciseNotes(scoreData)
  {
    notes := [];
    if scoreData.Some? && scoreData.value.measures.Some? {
      var measures := scoreData.value.measures.value;
      var i := 0;
      while i < |measures|
        invariant 0 <= i <= |measures|
        invariant notes == NotesOfMeasures(measures[..i])
      {
        NotesOfMeasuresStep(measures, i);
        notes := PushMeasureNotes(notes, measures[i]);
        i := i + 1;
      }
      assert measures[..i] == measures;
    }
  }

  /** `notesMatch(detected, expected)`: the detector's name against the full name. */
  predicate NotesMatch(detected: NoteEvent, expected: ExerciseNote)
  {
    detected.Name() == expected.fullName
  }

  /** A locked note matches an exercise note written in sharps exactly when it
      is that pitch class in that octave: the octave must match too. */
  lemma MatchIsPitchClassAndOctave(detected: NoteEvent, pc: PitchClass, octave: int, midi: Option<int>)
    requires detected.Locked? && detected.note.Note?
    ensures var key := SharpKeyName(pc) + "/" + IntToString(octave);
      NotesMatch(detected, ExerciseNoteOf(ScoreNote(key, midi))) <==>
        detected.note.noteIndex == pc && detected.note.octave == octave
  {
    var target := Note(pc, octave, detected.note.cents);
    SharpKeyMatchesDetectorName(pc, octave, detected.note.cents);
    if detected.note.Name() == target.Name() {
      NameDeterminesNote(detected.note, target);
    }
  }

  /** `Math.round(correct / total * 100)`, 0 for an empty exercise. */
  function Accuracy(correct: nat, total: nat): (a: int)
    ensures total == 0 ==> a == 0
    ensures total > 0 ==> Abs(a as real - correct as real / total as real * 100.0) <= 0.5
    ensures correct <= total ==> 0 <= a <= 100
    ensures 0 < total && correct == total ==> a == 100
    ensures total > 0 ==> a == JsRound(correct as real / total as real * 100.0)
  {
    if total > 0 then
      var ratio := correct as real / total as real;
      assert correct <= total ==> ratio <= 1.0;
      assert correct == total ==> ratio == 1.0;
      JsRound(ratio * 100.0)
    else 0
  }

  /** The colour class `updateAccuracy` puts on the bar. */
  datatype Band = Success | Warning | Danger

  function BandOf(accuracy: int): (b: Band)
    ensures b == Success <==> accuracy >= 80
    ensures b == Warning <==> 60 <= accuracy < 80
    ensures b == Danger <==> accuracy < 60
  {
    if accuracy >= 80 then Success else if accuracy >= 60 then Warning else Danger
  }

  /** A higher accuracy never shows a worse band. */
  lemma BandMonotone(a: int, b: int)
    requires a <= b
    ensures BandOf(a) == Danger || BandOf(b) != Danger
    ensures BandOf(a) == Success ==> BandOf(b) == Success
  {
  }

  /** What the accuracy bar shows. */
  datatype Display = Display(accuracy: int, band: Band)

  function DisplayFor(correct: nat, total: nat): Display
  {
    Display(Accuracy(correct, total), BandOf(Accuracy(correct, total)))
  }

  /** What a detected note leads to: the `onNoteMatch` and `onComplete` callbacks. */
  datatype Outcome =
    | Ignored
    | Mismatch
    | Matched(expected: ExerciseNote)
    | Completed(expected: ExerciseNote, finalAccuracy: int, correct: nat, total: nat)

  /** The default smoothing factor of a detector created by `start`. */
  const DefaultSmoothing: real := 0.7

  class AssessmentMode {
    const exerciseNotes: seq<ExerciseNote>
    const totalNotes: nat
    var isRunning: bool
    var currentNoteIndex: nat
    var correctNotes: nat
    /** What `updateAccuracy` last showed, `None` before the first call. */
    var display: Option<Display>
    var pitchDetector: PitchDetector?

    ghost predicate Valid()
      reads this
    {
      && totalNotes == |exerciseNotes|
      && correctNotes == currentNoteIndex <= totalNotes
      && (display.Some? ==> display.value == DisplayFor(correctNotes, totalNotes))
    }

    constructor (scoreData: Option<ExerciseScore>)
      ensures Valid()
      ensures exerciseNotes == ExerciseNotes(scoreData) && totalNotes == |exerciseNotes|
      ensures !isRunning && currentNoteIndex == 0 && correctNotes == 0
      ensures display.None? && pitchDetector == null
    {
      var notes := ExtractExerciseNotes(scoreData);
      exerciseNotes := notes;
      totalNotes := |notes|;
      isRunning := false;
      currentNoteIndex := 0;
      correctNotes := 0;
      display := None;
      pitchDetector := null;
    }

    /** `start()`: refuses an empty exercise; otherwise creates a detector and,
        once the microphone is `initialized`, resets the counters and runs.
        When initialisation fails, the detector's `onError` handler that
        `start` installs calls `stop()`. */
    method Start(tuning: Tuning, initialized: bool)
      requires Valid()
      modifies this
      ensures Valid()
      ensures totalNotes == 0 ==> unchanged(this)
      ensures totalNotes > 0 && initialized ==> fresh(pitchDetector) && pitchDetector.noteBuffer == []
      ensures totalNotes > 0 && !initialized ==>
        && !isRunning && pitchDetector == null
        && currentNoteIndex == old(currentNoteIndex) && correctNotes == old(correctNotes) && display == old(display)
      ensures totalNotes > 0 && initialized ==>
        isRunning && currentNoteIndex == 0 && correctNotes == 0 && display == Some(DisplayFor(0, totalNotes))
    {
      if totalNotes == 0 {
        return;
      }
      pitchDetector := new PitchDetector(tuning, DefaultSmoothing);
      if !initialized {
        Stop();
        return;
      }
      currentNoteIndex := 0;
      correctNotes := 0;
      UpdateAccuracy();
      isRunning := true;
    }

    /** `stop()`: stops and drops the detector; the counters are kept. */
    method Stop()
      requires Valid()
      modifies this, pitchDetector
      ensures Valid()
      ensures !isRunning && pitchDetector == null
      ensures currentNoteIndex == old(currentNoteIndex) && correctNotes == old(correctNotes)
      ensures display == old(display)
      ensures old(pitchDetector) != null ==>
        old(pitchDetector).noteBuffer == [] && old(pitchDetector).lastStableNote == SilentNote
    {
      if pitchDetector != null {
        pitchDetector.Stop();
        pitchDetector := null;
      }
      isRunning := false;
    }

    /** `updateAccuracy()`. */
    method UpdateAccuracy()
      requires correctNotes <= totalNotes
      modifies this`display
      ensures display == Some(DisplayFor(correctNotes, totalNotes))
    {
      var accuracy := if totalNotes > 0 then JsRound(correctNotes as real / totalNotes as real * 100.0) else 0;
      var band := if accuracy >= 80 then Success else if accuracy >= 60 then Warning else Danger;
      display := Some(Display(accuracy, band));
    }

    /** `handleNoteDetected(noteInfo)`; `None` stands for a null `noteInfo`. */
    method HandleNoteDetected(noteInfo: Option<NoteEvent>) returns (outcome: Outcome)
      requires Valid()
      modifies this, pitchDetector
      ensures Valid()
      ensures old(noteInfo.None? || noteInfo.value.Name() == "--" || currentNoteIndex >= totalNotes) ==>
        outcome == Ignored && unchanged(this)
      ensures outcome == Mismatch ==> unchanged(this)
      ensures outcome.Matched? || outcome.Completed? ==>
        && old(currentNoteIndex) < totalNotes
        && noteInfo.Some? && NotesMatch(noteInfo.value, exerciseNotes[old(currentNoteIndex)])
        && outcome.expected == exerciseNotes[old(currentNoteIndex)]
        && currentNoteIndex == old(currentNoteIndex) + 1 && correctNotes == old(correctNotes) + 1
      ensures outcome.Mismatch? ==>
        old(currentNoteIndex) < totalNotes && !NotesMatch(noteInfo.value, exerciseNotes[old(currentNoteIndex)])
      ensures outcome.Completed? <==> (outcome.Matched? || outcome.Completed?) && currentNoteIndex == totalNotes
      ensures outcome.Completed? ==>
        !isRunning && pitchDetector == null && outcome.correct == outcome.total == totalNotes &&
        outcome.finalAccuracy == 100
      ensures outcome.Matched? ==> isRunning == old(isRunning) && pitchDetector == old(pitchDetector)
      ensures !old(noteInfo.None? || noteInfo.value.Name() == "--" || currentNoteIndex >= totalNotes) ==>
        if NotesMatch(noteInfo.value, exerciseNotes[old(currentNoteIndex)]) then
          && (outcome.Matched? || outcome.Completed?)
          && currentNoteIndex == old(currentNoteIndex) + 1 && correctNotes == old(correctNotes) + 1
          && display == Some(DisplayFor(correctNotes, totalNotes))
        else outcome == Mismatch
    {
      if noteInfo.None? || noteInfo.value.Name() == "--" || currentNoteIndex >= totalNotes {
        return Ignored;
      }
      var expectedNote := exerciseNotes[currentNoteIndex];
      if NotesMatch(noteInfo.value, expectedNote) {
        correctNotes := correctNotes + 1;
        currentNoteIndex := currentNoteIndex + 1;
        UpdateAccuracy();
        if currentNoteIndex >= totalNotes {
          Stop();
          var finalAccuracy := JsRound(correctNotes as real / totalNotes as real * 100.0);
          outcome := Completed(expectedNote, finalAccuracy, correctNotes, totalNotes);
        } else {
          outcome := Matched(expectedNote);
        }
      } else {
        outcome := Mismatch;
      }
    }
  }

  /** Since the position only advances on a correct note, the accuracy shown
      is the share of the exercise already sung, and a finished exercise
      always reads 100. */
  lemma AccuracyIsProgress(m: AssessmentMode)
    requires m.Valid() && m.totalNotes > 0
    ensures m.display.Some? ==> m.display.value.accuracy == Accuracy(m.currentNoteIndex, m.totalNotes)
    ensures m.currentNoteIndex == m.totalNotes ==> Accuracy(m.correctNotes, m.totalNotes) == 100
  {
  }
}
