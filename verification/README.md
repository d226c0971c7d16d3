# Sight-singing trainer core, in Dafny

This project models the decision logic of a sight-singing web application and
proves properties of it. The application has three parts: a browser pitch
detector, an exercise-progress tracker that scores a sung exercise note by
note, and a score editor. It also models the two authorisation rules of its
user API.

The model has four components:

- **Pitch detector** (`static/js/pitch_detector.js`), in modules
  `NoteQuantizer`, `Yin` and `PitchDetection`.
  - `frequencyToNote` maps a rounded semitone offset from A4 to a pitch class
    and an octave in scientific pitch notation.
  - The YIN period search covers the absolute threshold, the walk to the local
    minimum, the global-minimum fallback and the guarded parabolic refinement.
  - The `PitchDetector` class covers the bypassable exponential smoother, the
    five-deep history and `stop`.
  - The note-stabilisation state machine `decideOnNote` does three things.
    It buffers continuous readings. It clears the buffer on silence with an
    edge-triggered silence report. It locks after six readings on the first
    most frequent name, with the mean of the readings of that name.
- **Exercise progress** (`static/js/assessment_mode.js`), in module
  `Assessment`. It covers:
  - VexFlow key parsing with flat-to-sharp normalisation;
  - the exercise-note extraction;
  - the exact-name matching;
  - the counters `currentNoteIndex`/`correctNotes`;
  - the rounded accuracy percentage and its colour band.
- **Score editor** (`frontend/static/js/score_editor.js`), in modules
  `ScoreNotes`, `ScoreLayout`, `Voices`, `MidiExport` and `ScoreEditing`. It
  covers:
  - note creation with MIDI 1.0 numbers (middle C = 60) and tick lengths at
    480 ticks a quarter;
  - the click-to-row mapping;
  - adding, editing and deleting notes and measures in place, with their index
    guards;
  - the per-measure stable sort and tick re-layout;
  - the measure-capacity check of the click path;
  - the vertical step and the accidental cycle;
  - the active-voice list and the available-voice list;
  - the event list of `exportToMidi`, shaped like a Standard MIDI File.
- **Authorisation** (`users/permissions.py`), in module `Permissions`: the
  rules `IsUserOrAdmin.has_object_permission` and
  `IsTeacherOrAdmin.has_permission`.

`JsBuiltins` and `Sequences` hold what the modules share:

- `JsBuiltins`: JavaScript's `Math.round` and its truncating `%`, `parseInt`,
  `String(n)`, `split('/')` and ASCII case mapping, written out;
- `Sequences`: concatenation of a list of lists.

Each JavaScript object that the source updates in place is a Dafny `class`:
`PitchDetector`, `AssessmentMode` and `ScoreEditor`. The class fields hold
the buffers, counters and score. Each method states the new state in terms of
specification functions, and lemmas prove the application's promises about
those functions. The classes perform the code as written, including the
defects listed under "## Findings"; the intended behaviour is stated by
separate functions and lemmas beside them.

Three inputs are parameters:

- the logarithm and the reference pitch, in the `Tuning` datatype;
- the signal level;
- the YIN difference scores.

JavaScript's NaN is `None` wherever a value can become NaN.

## Model

| member | source | states |
|---|---|---|
| JsBuiltins.JsRound | static/js/pitch_detector.js:329 | `Math.round` gives the integer within half of `x`, halves rounding up |
| JsBuiltins.TruncRem | static/js/pitch_detector.js:338 | JavaScript `%` agrees with the mathematical remainder on non-negative operands; on negative ones it is the value in (-m, 0] that differs from the dividend by a multiple of m, i.e. `-((-a) % m)` |
| JsBuiltins.ParseIntOfIntToString | static/js/assessment_mode.js:62 | `parseInt` reads the decimal text of any integer back as that integer |
| JsBuiltins.IntToStringInjective | static/js/assessment_mode.js:78 | distinct octaves give distinct texts in a full note name |
| JsBuiltins.SplitJoined | static/js/assessment_mode.js:60-62 | `split('/')` of `a/b` gives back `a` and `b` when neither holds a slash |
| JsBuiltins.SlashField1 | static/js/assessment_mode.js:62 | the second field is missing exactly when the key has no slash |
| JsBuiltins.ToUpper | static/js/assessment_mode.js:61 | upper-casing maps every character and keeps the length |
| NoteQuantizer.NoteIndexOf | static/js/pitch_detector.js:338-339 | the index after the negative fix-up is `(r + 9) mod 12`, always in 0..11 |
| NoteQuantizer.OctaveOf | static/js/pitch_detector.js:349 | the octave is the floor of `(r + 9) / 12` plus 4 |
| NoteQuantizer.NoteAt | static/js/pitch_detector.js:338-357 | the (pitch class, octave) pair stands for exactly `r` semitones from A4 |
| NoteQuantizer.Quantize | static/js/pitch_detector.js:328-332 | the semitone is `Math.round` of the note number and the cents are `Math.round` of 100 times the deviation from it, so they lie in [-50, 50] within half a cent of the deviation |
| NoteQuantizer.FrequencyToNote | static/js/pitch_detector.js:320-358 | the sentinel is returned exactly for `freq <= 0`; otherwise the note is the quantisation (`Quantize`) of `12 * log2(freq / A4)`: the rounded semitone, with cents in [-50, 50] |
| NoteQuantizer.NoteAtOfPair | static/js/pitch_detector.js:338-350 | `r = 12 * (octave - 4) + noteIndex - 9` is recovered from the pair |
| NoteQuantizer.OctaveChangesAtC | static/js/pitch_detector.js:338-349 | one semitone up advances the pitch class by one, and the octave goes up exactly when the class wraps to C |
| NoteQuantizer.ReferenceNames | static/js/pitch_detector.js:342-350 | offset 0 is A4, -9 is C4, -21 is C3, -10 is B3 and 3 is C5 |
| NoteQuantizer.NameDeterminesNote | static/js/pitch_detector.js:350 | two notes have the same name exactly when they have the same pitch class and octave; no note is named like the sentinel |
| NoteQuantizer.SemitoneDeterminesNote | static/js/pitch_detector.js:338-350 | two notes at the same semitone offset have the same pitch class and octave |
| NoteQuantizer.BetweenSameName | static/js/pitch_detector.js:320-358 | with a non-decreasing `log2`, a frequency between two frequencies with the same note name has that name too |
| Yin.PeriodLag | static/js/pitch_detector.js:162-163 | the lag bounds are the floors of `sampleRate / maxFreq` and `sampleRate / minFreq` |
| Yin.FirstBelow | static/js/pitch_detector.js:185-186 | the first lag at or after `minPeriod` scoring under 0.15, with none before it |
| Yin.ThresholdPeriod | static/js/pitch_detector.js:184-194 | the threshold loop returns the threshold choice when a lag scores under 0.15, and 0 otherwise |
| Yin.GlobalMinimumPeriod | static/js/pitch_detector.js:197-205 | the fallback loop returns the first lag of least score |
| Yin.SelectPeriod | static/js/pitch_detector.js:184-205 | both loops together choose the selected lag |
| Yin.SelectedUnique | static/js/pitch_detector.js:184-205 | the selection is deterministic: at most one lag satisfies it |
| Yin.SelectedInRange | static/js/pitch_detector.js:184-205 | the chosen period is 0 or in `[minPeriod, maxPeriod)` |
| Yin.ThresholdChoiceIsLocalMinimum | static/js/pitch_detector.js:186-191 | on the threshold branch, `d[period] < 0.15` and either `period + 1 = maxPeriod` or `d[period + 1] >= d[period]` |
| Yin.RefinedLag | static/js/pitch_detector.js:210-221 | refinement applies only when `1 < period < maxPeriod - 1`, and the refined lag lies in `(period - 1, period + 1)` |
| Yin.YinPitchDetection | static/js/pitch_detector.js:161-227 | `{0, 0}` when `maxPeriod >= signal.length`; otherwise the result from the selected lag, with positive frequency and non-negative confidence |
| PitchDetection.ModeScanIsFirstModal | static/js/pitch_detector.js:293-303 | the tally loop yields a most frequent name, counted correctly, that reached its count first |
| PitchDetection.FirstModalUnique | static/js/pitch_detector.js:297-303 | the tie-break is deterministic |
| PitchDetection.TallyMode | static/js/pitch_detector.js:293-303 | the `modeMap` loop returns the first-to-reach most frequent name |
| PitchDetection.MatchingIsFilter | static/js/pitch_detector.js:306 | the filter keeps exactly the readings with that name, as many as the name occurs |
| PitchDetection.MeanWithinBounds | static/js/pitch_detector.js:307 | the average frequency lies between the least and the greatest of the averaged readings |
| PitchDetection.LockNote | static/js/pitch_detector.js:291-313 | the lock step emits the locked event of the buffer |
| PitchDetection.Decide | static/js/pitch_detector.js:252-318 | after one call the buffer holds fewer than 6 readings, and a locked note has confidence 1 |
| PitchDetection.DecideOnSilence | static/js/pitch_detector.js:255-288 | a non-qualifying frame empties the buffer and reports silence only if the last note was not silence |
| PitchDetection.DecideAppends | static/js/pitch_detector.js:269-274 | a reading within 0.5 semitones of the last buffered one is appended |
| PitchDetection.DecideRestartsOnJump | static/js/pitch_detector.js:269-280 | a jump of at least 0.5 semitones, or an empty buffer, gives the buffer `[reading]` |
| PitchDetection.DecideLocks | static/js/pitch_detector.js:291-316 | the sixth continuous reading fires exactly one locked event, with the modal name's reading, the mean frequency and confidence 1, and leaves the last two readings; with a non-decreasing `log2` and a buffer of quantised readings, the locked name is the modal name |
| PitchDetection.LockedNameIsModal | static/js/pitch_detector.js:305-313 | with a non-decreasing `log2`, quantising the mean frequency of the modal readings gives back the modal name |
| PitchDetection.DecideKeepsChained | static/js/pitch_detector.js:269-316 | adjacent buffered readings stay within the stability threshold |
| PitchDetection.DecideKeepsQuantized | static/js/pitch_detector.js:256-316 | every buffered reading keeps the note `frequencyToNote` gives its frequency |
| PitchDetection.SilenceIsEdgeTriggered | static/js/pitch_detector.js:281-288 | a run of k non-qualifying frames reports silence at most once |
| PitchDetection.ContinuousStreakLocksOnce | static/js/pitch_detector.js:269-316 | continuous qualifying frames that fill the buffer to six fire exactly one event, a lock with confidence 1 |
| PitchDetection.PitchDetector.constructor | static/js/pitch_detector.js:6-49 | the detector starts stopped, with empty buffers and the silent `lastStableNote` |
| PitchDetection.PitchDetector.Stop | static/js/pitch_detector.js:111-128 | `stop` clears both buffers and resets `lastStableNote` to `--` |
| PitchDetection.PitchDetector.ApplySmoothingFilter | static/js/pitch_detector.js:229-243 | input unchanged with no history or a jump over 50 Hz; otherwise `a * last + (1 - a) * f` with the confidence kept |
| PitchDetection.SmoothingStaysBetween | static/js/pitch_detector.js:239-240 | with a factor in [0, 1] the smoothed frequency lies between the last smoothed one and the input |
| PitchDetection.PitchDetector.UpdateHistories | static/js/pitch_detector.js:245-250 | the history gains the new entry last and keeps at most 5 entries |
| PitchDetection.PitchDetector.AdmitFrame | static/js/pitch_detector.js:252-288 | the admission half of `decideOnNote` leaves the buffer, the last note and the silence callback of `Admit` on the old state |
| PitchDetection.PitchDetector.LockFullBuffer | static/js/pitch_detector.js:290-316 | a full buffer fires the locked event and keeps its last two readings; otherwise nothing changes |
| PitchDetection.PitchDetector.DecideOnNote | static/js/pitch_detector.js:252-318 | the new buffer, the last note and the callback fired are those of `Decide` on the old state |
| Assessment.NormaliseFlat | static/js/assessment_mode.js:65-69 | a name in the flat map becomes its sharp; any other name is left as it is |
| Assessment.ParseVexFlowKey | static/js/assessment_mode.js:58-80 | `fullName` is the name followed by the octave text, and a key without a slash has a NaN octave |
| Assessment.ParseWrittenKey | static/js/assessment_mode.js:58-80 | `name/octave` parses to the upper-cased, normalised name and that octave |
| Assessment.FlatsNormalised | static/js/assessment_mode.js:65-69 | DB, EB, GB, AB and BB map to C#, D#, F#, G# and A#; CB, FB and B are left unchanged |
| Assessment.SharpKeyMatchesDetectorName | static/js/assessment_mode.js:58-80 | a sharp-spelled exercise key has the full name the detector gives that pitch |
| Assessment.FlatKeyMatchesDetectorName | static/js/assessment_mode.js:58-80 | the same for the five lower-case flat spellings |
| Assessment.MeasureEntries | static/js/assessment_mode.js:41-51 | one entry per note of the measure, in order; none without `notes` |
| Assessment.NotesOfMeasuresInOrder | static/js/assessment_mode.js:37-56 | note j of measure i is entry (notes before measure i) + j, and the count is the total of the notes |
| Assessment.PushMeasureNotes | static/js/assessment_mode.js:42-51 | the inner loop appends the measure's entries |
| Assessment.ExtractExerciseNotes | static/js/assessment_mode.js:37-56 | the nested loops return the exercise notes; the list is empty without score data or measures |
| Assessment.MatchIsPitchClassAndOctave | static/js/assessment_mode.js:150-154 | a locked note matches an exercise note exactly when the pitch class and the octave agree |
| Assessment.Accuracy | static/js/assessment_mode.js:157-159 | 0 for an empty exercise; otherwise `Math.round` of the exact `correct / total * 100` (not of its double rounding), within half of `100 * correct / total`, in 0..100 when correct ≤ total, and 100 when all are correct |
| Assessment.BandOf | static/js/assessment_mode.js:165-167 | success iff ≥ 80, warning iff 60–79, danger iff < 60 |
| Assessment.BandMonotone | static/js/assessment_mode.js:165-167 | a higher accuracy never shows a worse band |
| Assessment.AssessmentMode.constructor | static/js/assessment_mode.js:2-11 | the exercise notes are extracted, `totalNotes` is their number, and both counters are 0 |
| Assessment.AssessmentMode.Start | static/js/assessment_mode.js:82-112 | an empty exercise changes nothing; a failed initialisation stops the run, with no detector and the counters unchanged; after initialisation both counters are 0, a fresh detector has an empty buffer and the run is on |
| Assessment.AssessmentMode.Stop | static/js/assessment_mode.js:114-125 | the detector is stopped and dropped, `isRunning` is false, and the counters are kept |
| Assessment.AssessmentMode.UpdateAccuracy | static/js/assessment_mode.js:156-168 | the display shows the accuracy (rounded from the exact ratio) and band of the counters |
| Assessment.AssessmentMode.HandleNoteDetected | static/js/assessment_mode.js:127-148 | null, `--` or a finished exercise change nothing; a match advances both counters by one and shows the new progress; a mismatch changes nothing and reports `Mismatch`; completion happens exactly when the index reaches the total |
| Assessment.AccuracyIsProgress | static/js/assessment_mode.js:136-146 | the accuracy shown is the progress through the exercise, and 100 at the end |
| ScoreNotes.DurationTicks | frontend/static/js/score_editor.js:223-229 | the table is defined exactly on w, h, q, 8 and 16, and is positive there |
| ScoreNotes.DurationsHalve | frontend/static/js/score_editor.js:223-229 | w, h, q, 8 and 16 are 4, 2, 1, ½ and ¼ times the ppq |
| ScoreNotes.GetDurationTicks | frontend/static/js/score_editor.js:486-495 | the table value, or the ppq for an unknown code |
| ScoreNotes.PitchOffsetTable | frontend/static/js/score_editor.js:200-218 | the seventeen names and their semitones, and no other name |
| ScoreNotes.CreateNoteData | frontend/static/js/score_editor.js:198-238 | the note keeps key, duration and accidental, sits at tick 0 and has the table's tick length |
| ScoreNotes.MidiOfReading | frontend/static/js/score_editor.js:219-222 | midiNote = (octave + 1) * 12 + offset, +1 for `#` and -1 for `b` |
| ScoreNotes.MiddleC | frontend/static/js/score_editor.js:219-222 | `c/4` gives 60 |
| ScoreNotes.A440 | frontend/static/js/score_editor.js:219-222 | `a/4` gives 69 |
| ScoreNotes.SharpArgumentMatchesFlatName | frontend/static/js/score_editor.js:200-222 | `c` with `#` and `db` without an accidental give the same number |
| ScoreNotes.MidiAgreesWithDetector | frontend/static/js/score_editor.js:219-220 | the editor's MIDI numbers agree with the detector's semitone grid (A4 = 69) |
| ScoreNotes.YToRow | frontend/static/js/score_editor.js:192-194 | the row is the half-line clamped into 0..14 |
| ScoreNotes.YToNote | frontend/static/js/score_editor.js:188-196 | the key is one of the fifteen staff rows |
| ScoreNotes.YToRowMonotone | frontend/static/js/score_editor.js:192-194 | a lower click never gives a higher row |
| ScoreNotes.StaffRowsDescend | frontend/static/js/score_editor.js:193 | the rows run from F5 down to F3, one letter per row, descending in pitch |
| ScoreNotes.AccidentalOf | frontend/static/js/score_editor.js:624 | `#` if the name holds one, else `b` if it holds one, else none |
| ScoreNotes.ClampOctave | frontend/static/js/score_editor.js:645 | the octave is clamped into 3..6, and NaN stays NaN |
| ScoreNotes.StepPosition | frontend/static/js/score_editor.js:629-645 | the stepped letter is a scale letter and the octave lies in 3..6 |
| ScoreNotes.StepKeyAsWritten | frontend/static/js/score_editor.js:621-646 | the step with the regex stripping any `b` keeps the octave in 3..6 |
| ScoreNotes.StepKey | frontend/static/js/score_editor.js:621-646 | the step with the letter read apart keeps the octave in 3..6 |
| ScoreNotes.SpellingKeyReadsBack | frontend/static/js/score_editor.js:646 | the written key reads back as the letter, accidental and octave |
| ScoreNotes.StepOctaveInRange | frontend/static/js/score_editor.js:645-646 | the stepped key's octave is in 3..6 |
| ScoreNotes.StepMidiFromKey | frontend/static/js/score_editor.js:649-655 | the stored midiNote is `createNoteData`'s number for the stepped letter's plain key, plus the kept accidental's shift |
| ScoreNotes.StepDownFromC | frontend/static/js/score_editor.js:631-633 | stepping down from C wraps to B of the octave below |
| ScoreNotes.StepUpFromBFlatAsWritten | frontend/static/js/score_editor.js:623-636 | as written, B-flat steps up to C-flat of the next octave |
| ScoreNotes.StepUpFromNaturalBAsWritten | frontend/static/js/score_editor.js:623-627 | as written, natural B steps up to C-flat of the same octave, twelve semitones below the B |
| ScoreNotes.NaturalB4StepsToCFlat4 | frontend/static/js/score_editor.js:623-655 | `b/4` (71) stepped up becomes `cb/4` (59) |
| ScoreNotes.StepDownFromNaturalBAsWritten | frontend/static/js/score_editor.js:623-633 | as written, natural B in octaves 4..6 steps down to B-flat of the octave below, MIDI `12 * octave + 10`, thirteen semitones below the B |
| ScoreNotes.StepDownFromNaturalB | frontend/static/js/score_editor.js:629-633 | with the letter read apart, natural B steps down to A of the same octave, two semitones below |
| ScoreNotes.NaturalB4StepsDownToBFlat3 | frontend/static/js/score_editor.js:623-655 | `b/4` stepped down becomes `bb/3` (58) where `a/4` (69) was meant |
| ScoreNotes.StepUpFromB | frontend/static/js/score_editor.js:634-636 | intended half of the finding: with the letter read apart, stepping up from B wraps to C of the next octave, keeping the accidental |
| ScoreNotes.StepUpIsOneLetter | frontend/static/js/score_editor.js:621-655 | a step up from a natural letter: as written, it raises the MIDI number by the letter's gap (1 from E, 2 otherwise) except from B, where it drops 12 to C-flat; with the letter read apart it raises it by 1 from E and B and by 2 otherwise |
| ScoreNotes.AsWrittenAgreesOffB | frontend/static/js/score_editor.js:621-683 | for every key whose name is a scale letter other than `b` followed by at most one `#` or `b`, the regex-stripping step and accidental recomputation as written agree with the intended ones |
| ScoreNotes.CycleAccidental | frontend/static/js/score_editor.js:673-676 | the new accidental is in `['b', '', '#']` at index `(i + dir + 3) mod 3` |
| ScoreNotes.CycleThreeSteps | frontend/static/js/score_editor.js:673-676 | three steps the same way return to the start |
| ScoreNotes.CycleStepBack | frontend/static/js/score_editor.js:673-676 | a step one way is undone by a step the other way |
| ScoreNotes.AccidentalOnNaturalBAsWritten | frontend/static/js/score_editor.js:678-686 | as written, a natural B gets a NaN midiNote on any accidental change |
| ScoreNotes.AccidentalMidiOfLetterKey | frontend/static/js/score_editor.js:678-686 | with the letter read apart, the new midiNote is `createNoteData`'s for the new accidental |
| ScoreLayout.InsertIsPermutation | frontend/static/js/score_editor.js:327 | one insertion adds exactly the note |
| ScoreLayout.SortIsPermutation | frontend/static/js/score_editor.js:327 | the sort keeps the multiset of notes |
| ScoreLayout.SortIsSorted | frontend/static/js/score_editor.js:327 | the sort orders by ticks |
| ScoreLayout.SortIsStable | frontend/static/js/score_editor.js:327 | notes with equal ticks keep their order |
| ScoreLayout.SortOfSorted | frontend/static/js/score_editor.js:327 | notes already in order are left as they are |
| ScoreLayout.RelayoutTicks | frontend/static/js/score_editor.js:328-332 | the first note is at 0, each next at the previous ticks plus its tick length, and nothing but the ticks changes |
| ScoreLayout.RelayoutIsSorted | frontend/static/js/score_editor.js:328-332 | with no negative duration the laid-out notes are in order |
| ScoreLayout.RelayoutTwice | frontend/static/js/score_editor.js:328-332 | the tick assignment is idempotent |
| ScoreLayout.LayoutIdempotent | frontend/static/js/score_editor.js:325-334 | `updateNotePositions` twice equals once |
| ScoreLayout.LayoutIsSorted | frontend/static/js/score_editor.js:325-334 | the measure comes out in order of ticks |
| ScoreLayout.LayoutKeepsNotes | frontend/static/js/score_editor.js:325-334 | each measure keeps its multiset of notes, apart from the ticks |
| ScoreLayout.LayoutIsLaidOut | frontend/static/js/score_editor.js:325-334 | each note sits where the ones before it end |
| ScoreLayout.EndOfLastIsTotal | frontend/static/js/score_editor.js:472-476 | in a laid-out measure `newPosition` is the total length |
| ScoreLayout.ClickAddStaysLast | frontend/static/js/score_editor.js:469-482 | a note added at `newPosition` stays last and the layout leaves it there |
| ScoreLayout.ClickAddWithinMeasure | frontend/static/js/score_editor.js:477-482 | after an accepted click the measure is no longer than 4 * ppq |
| ScoreLayout.LaidOutIsFixed | frontend/static/js/score_editor.js:325-334 | a laid-out measure is unchanged by the layout |
| ScoreLayout.DeleteKeepsOthers | frontend/static/js/score_editor.js:295-296 | after a splice the others keep their order and close the gap |
| ScoreLayout.AddNoteGoesSecond | frontend/static/js/score_editor.js:245-247 | a note pushed at tick 0 sorts in right after the first note |
| Voices.WithoutCounts | frontend/static/js/score_editor.js:1082-1092 | the filter removes every copy of the value and keeps each other entry as often as it occurs |
| Voices.WithoutAbsent | frontend/static/js/score_editor.js:1082-1092 | a list without the value passes unchanged |
| Voices.VoiceChangeEffect | frontend/static/js/score_editor.js:1067-1094 | checking `all` gives `['all']` and unchecking it gives `[]`; checking v drops `all` and appends v; unchecking v removes every v |
| Voices.CollectVoicesFacts | frontend/static/js/score_editor.js:1050-1058 | the collection adds each truthy voice once, with no duplicates and no empty id |
| Voices.CollectVoicesFirstSeen | frontend/static/js/score_editor.js:1050-1058 | voices come out in the order the notes first use them |
| Voices.AvailableVoicesFacts | frontend/static/js/score_editor.js:1048-1059 | the distinct truthy voice ids of the score in first-seen order |
| Voices.AddMeasureVoices | frontend/static/js/score_editor.js:1052-1056 | the inner loop adds one measure's voices to the set |
| MidiExport.MicrosecondsPerBeat | frontend/static/js/score_editor.js:1119 | `Math.round(60000000 / tempo)`, within half of `60000000 / tempo`; `None` exactly for a NaN tempo (NaN) or a zero tempo (Infinity) |
| MidiExport.DefaultTempo | frontend/static/js/score_editor.js:1119 | 120 beats a minute gives 500000 |
| MidiExport.FourFourNumbers | frontend/static/js/score_editor.js:1125-1126 | `"4/4"` reads as numerator 4 and denominator 4 |
| MidiExport.HeaderEvents | frontend/static/js/score_editor.js:1104-1134 | there are three header events |
| MidiExport.NoteEvents | frontend/static/js/score_editor.js:1139-1162 | two events per note |
| MidiExport.TrackShape | frontend/static/js/score_editor.js:1104-1169 | the track has length 4 + 2N: three header events, a pair per note, then `endOfTrack` |
| MidiExport.TrackNotePairs | frontend/static/js/score_editor.js:1142-1159 | event 3 + 2k is note k's note-on and event 4 + 2k its note-off, with the same `noteNumber`; the note-off delta is `durationTicks` |
| MidiExport.PlacedNotesOrder | frontend/static/js/score_editor.js:1139-1140 | notes are emitted measure by measure, note by note |
| MidiExport.TrackTiming | frontend/static/js/score_editor.js:1137-1161 | summing the deltas, note k's note-on sounds at its ticks and its note-off at ticks plus `durationTicks` |
| MidiExport.AppendNoteEvents | frontend/static/js/score_editor.js:1140-1162 | the inner loop appends one measure's note events, each note-on at the note's in-measure ticks less `currentTick`, and advances `currentTick` to the end of the last note |
| MidiExport.ExportAsWrittenGoesBack | frontend/static/js/score_editor.js:1139-1150 | as written, the second measure's first note-on has delta -480 |
| MidiExport.ExportPlacesSecondMeasure | frontend/static/js/score_editor.js:1139-1150 | with the measure offset, the same note-on has delta 3 * ppq |
| MidiExport.ExportDeltasNonNegative | frontend/static/js/score_editor.js:1137-1169 | with the measure offset, laid-out measures no longer than 4/4 give no negative delta |
| ScoreEditing.Positioned | frontend/static/js/score_editor.js:325-334 | every measure is re-laid out and nothing else changes |
| ScoreEditing.PositionedFacts | frontend/static/js/score_editor.js:325-334 | the measure count, the time signatures and each measure's notes are kept, and applying the layout twice is applying it once |
| ScoreEditing.EditedNote | frontend/static/js/score_editor.js:270-280 | the edited note keeps its ticks and voice and takes the new key, duration, accidental, MIDI number and tick length |
| ScoreEditing.SteppedNoteFacts | frontend/static/js/score_editor.js:621-655 | as written, the stepped note's key reads back as the new spelling with its octave in 3..6, and its midiNote is `createNoteData`'s number for the stepped letter's plain key, plus the kept accidental's shift |
| ScoreEditing.ReaccentedNote | frontend/static/js/score_editor.js:672-686 | as written, only the accidental and midiNote change, and the accidental is in the cycle |
| ScoreEditing.ReaccentedMatchesCreate | frontend/static/js/score_editor.js:678-686 | as written, on a plain-letter key other than B the recomputed midiNote is `createNoteData`'s for the new accidental, and on natural B it is NaN |
| ScoreEditing.PositionedAfterEdit | frontend/static/js/score_editor.js:282 | after an edit of one measure, only that measure is re-laid out, and every measure stays laid out |
| ScoreEditing.AssignTicks | frontend/static/js/score_editor.js:328-332 | the tick loop gives each note its place end to end from 0 |
| ScoreEditing.ScoreEditor.constructor | frontend/static/js/score_editor.js:13-37 | one empty 4/4 measure, tempo 120, quarter notes, no accidental, no selection, active voices `['all']` |
| ScoreEditing.ScoreEditor.UpdateNotePositions | frontend/static/js/score_editor.js:325-334 | the measures become `Positioned` of the old ones |
| ScoreEditing.ScoreEditor.AddNote | frontend/static/js/score_editor.js:240-249 | an out-of-range index changes nothing; otherwise the new note is pushed and the measure re-laid out |
| ScoreEditing.ScoreEditor.AddNoteAtPosition | frontend/static/js/score_editor.js:251-261 | the same, with the new note at `tickPosition` before the layout |
| ScoreEditing.ScoreEditor.EditNote | frontend/static/js/score_editor.js:263-287 | an out-of-range index changes nothing; otherwise the note becomes the edited note, missing values default to the old ones, and the measure is re-laid out |
| ScoreEditing.ScoreEditor.DeleteNote | frontend/static/js/score_editor.js:289-299 | an out-of-range index changes nothing; otherwise exactly the indexed note is removed, the measure is re-laid out and the selection cleared |
| ScoreEditing.ScoreEditor.AddMeasure | frontend/static/js/score_editor.js:304-310 | one empty measure is added with measure 0's time signature |
| ScoreEditing.ScoreEditor.ClearScore | frontend/static/js/score_editor.js:312-320 | on confirmation, one empty 4/4 measure; otherwise unchanged |
| ScoreEditing.ScoreEditor.SelectNote | frontend/static/js/score_editor.js:454-458 | the edit tool selects the clicked note |
| ScoreEditing.ScoreEditor.AddNoteByClick | frontend/static/js/score_editor.js:469-483 | the add happens exactly when `newPosition` plus the duration fits 4 * ppq; the note goes at the end of the last note with the key under the click |
| ScoreEditing.ScoreEditor.MoveSelectedNoteVertically | frontend/static/js/score_editor.js:610-659 | no selection changes nothing; a stale selection is cleared; otherwise only the selected note's key and midiNote change, to the ones the code as written computes |
| ScoreEditing.ScoreEditor.ChangeNoteAccidental | frontend/static/js/score_editor.js:661-690 | the same guards; otherwise only the selected note's accidental and midiNote change, to the next accidental in the cycle and the midiNote the code as written computes |
| ScoreEditing.ScoreEditor.AdjustTempo | frontend/static/js/score_editor.js:789-795 | the tempo becomes `parseInt` of the slider text |
| ScoreEditing.ScoreEditor.HandleVoiceChange | frontend/static/js/score_editor.js:1061-1095 | the active voices become `VoicesAfterChange` of the old ones |
| ScoreEditing.ScoreEditor.GetAvailableVoices | frontend/static/js/score_editor.js:1048-1059 | the nested loops return the available voices of the score |
| MidiExport.ExportMeasures | frontend/static/js/score_editor.js:1136-1169 | as written, the loop over measures and notes yields exactly `ExportAsWritten`: the header, one note-on/note-off pair per note measure by measure at its in-measure ticks, then the end of the track |
| MidiExport.ExportAgreesOnOneMeasure | frontend/static/js/score_editor.js:1137-1161 | on a one-measure score the export as written and the export with measure offsets are the same |
| ScoreEditing.ScoreEditor.ExportToMidi | frontend/static/js/score_editor.js:1100-1169 | as written, the export of the score with every note at its in-measure ticks, so a later measure's first note-on can have a negative delta |
| Permissions.HasObjectPermission | users/permissions.py:9-17 | allowed iff the requester is staff or the record is theirs (its `user`, or the account itself when it has no `user`) |
| Permissions.StaffAlwaysAllowed | users/permissions.py:11-27 | staff are always allowed, whatever the record, authentication or type |
| Permissions.OneOwnerPerRecord | users/permissions.py:15-17 | apart from staff, only one user can act on a record |
| Permissions.UnownedIsStaffOnly | users/permissions.py:15-16 | a record whose `user` is empty is open to staff only |
| Permissions.HasPermission | users/permissions.py:24-30 | allowed iff staff or an authenticated teacher; the anonymous user never passes |
| Permissions.NonStaffTeacherRule | users/permissions.py:30 | a non-staff requester passes iff it is an account of type `teacher`, so students and anonymous requests are refused |

## Left out

- Floating-point signal maths is not modelled. This covers the Hann window,
  the difference and CMND sums, and the RMS/dB level. The difference scores
  and the signal level are inputs, and `Math.log2` is a parameter of `Tuning`.
  Frequencies and scores are `real`, so rounding error is not modelled.
- Audio capture and scheduling are not modelled. This covers `initialize`,
  `start`, `analyze`, `requestAnimationFrame`, `AudioContext` and the biquad
  filters.
- `calculateSignalLevel` is not modelled; the level is an input.
- Rendering and interaction in the editor are not modelled. This covers VexFlow
  rendering, highlighting, DOM events, keyboard dispatch and the hit-testing of
  `handleStaveClick` against rendered notes. Note that ArrowUp calls the
  vertical step with -1 and ArrowDown with 1.
- `ScoreEditing.ScoreEditor.SelectNote` only models the edit-tool branch of
  `handleStaveClick`. The delete branch is `DeleteNote`.
- Playback, assessment timing and file output are not modelled. This covers
  Tone.js playback, `setTimeout`, `calculateAssessmentScore`,
  `findExpectedNote`, the microphone-driven `startAssessment`, the blob
  download of `saveExercise`, and the midi-writer library. `exportToMidi`
  only builds the event list and then raises an alert, which is not modelled.
- The DOM and button updates of `AssessmentMode.start`/`stop` are not modelled.
  `PitchDetector.initialize` is a boolean parameter of `Start`.
- The Django views, serializers, forms, URL routing and admin registration are
  not modelled.
- In `Permissions`, the request user is modelled only by its primary key,
  staff flag and `user_type`. User equality is by primary key, as Django
  compares model instances.
- `ScoreNotes.CreateNoteData`: an unknown duration code would give an
  `undefined` tick length. That makes the tick arithmetic NaN and the sort
  comparator inconsistent. The editor operations therefore require one of
  the five codes.
- The `accidental` argument's `null` and `''` are both the empty string;
  nothing the model reads tells them apart.
- `ScoreEditing.ScoreEditor.ChangeNoteAccidental`: only the directions ±1 that
  the arrow keys pass are modelled.
- `Assessment.Accuracy` (and so `Assessment.AssessmentMode.UpdateAccuracy`):
  the model rounds the exact ratio `correct / total * 100`, while the program
  rounds its IEEE double, which can fall just under an exact .5 and round
  down: 23 of 40 gives 57 in the program and 58 here (also 46/80, 69/120,
  29/200). None of these crosses a band boundary at 60 or 80.
- `Assessment.AssessmentMode.UpdateAccuracy`: shows `Accuracy`, so it shares
  the rounding gap above.
- `JsBuiltins.ParseInt`: only a run of decimal digits with an optional sign
  is read. Leading whitespace, a `0x` prefix and a radix argument are not
  modelled; the slider text and the octave field of a key are decimal.
- `JsBuiltins.ToUpper`: only ASCII letters are mapped; note names are ASCII.
- `JsBuiltins.ToLower`: only ASCII letters are mapped; note names are ASCII.
- `PitchDetection.DecideLocks`: the locked name equals the modal name only
  when `Tuning.log2` is non-decreasing, as `Math.log2` is; `log2` is otherwise
  an arbitrary parameter.
- `MidiExport.JsNumber`: `Number()` is modelled only on decimal digits. Any
  other text is NaN.
- The `voice` field of a note is never assigned by the editor. Notes are
  created with the empty voice, so `getAvailableVoices` returns nothing on an
  edited score. The model keeps the field so that voiced scores loaded from
  elsewhere are covered.

## Findings

| source | as written | input that shows it | evidently intended | confidence | as-written member | corrected member |
|---|---|---|---|---|---|---|
| frontend/static/js/score_editor.js:1139-1150 | each measure's notes keep their in-measure ticks, so the note-on delta of the first note of measure 2 and later goes back in time | two 4/4 measures holding one quarter `c/4` each: the second note-on has delta -480 | measure i placed i * 4 * ppq into the piece, as playback does, so no delta is negative | not executed | MidiExport.ExportAsWrittenGoesBack | MidiExport.ExportDeltasNonNegative |
| frontend/static/js/score_editor.js:623-627 | `replace(/[#b]/, '')` strips the natural letter `b` itself, and `includes('b')` then reads it as a flat | `b/4` stepped up (ArrowDown) becomes `cb/4`, MIDI 59 instead of 72 | `c/5` (B wraps to C of the next octave), accidental kept | not executed | ScoreNotes.NaturalB4StepsToCFlat4 | ScoreNotes.StepUpFromB |
| frontend/static/js/score_editor.js:623-633 | the same stripped letter is not in the scale, so its index -1 stepped down wraps to `b` of the octave below, and `includes('b')` adds a flat | `b/4` stepped down (ArrowUp) becomes `bb/3`, MIDI 58 instead of 69 | `a/4`, the letter below in the same octave | not executed | ScoreNotes.NaturalB4StepsDownToBFlat3 | ScoreNotes.StepDownFromNaturalB |
| frontend/static/js/score_editor.js:679-683 | the same regex strips the letter `b`, so the lookup misses and the MIDI number becomes NaN | `b/4` with any accidental change gets midiNote NaN | 71 plus the accidental's shift | not executed | ScoreNotes.AccidentalOnNaturalBAsWritten | ScoreNotes.AccidentalMidiOfLetterKey |
