/**
 * The score-data state of `scoreEditor` and the operations that change it in
 * place: adding, editing and deleting notes with their index guards, adding
 * and clearing measures, re-laying out every measure, adding a note by a
 * click within the measure's capacity, stepping the selected note up or
 * down the scale, cycling its accidental, the tempo, the active voices,
 * the voice list and the MIDI event list.
 *
 * The class invariant `Valid` is what every edit leaves behind: at least one
 * measure, every measure laid out end to end from tick 0, every note with
 * one of the five duration codes and its tick length, and a current
 * duration that is one of the codes.
 */
module ScoreEditing {
  import opened JsBuiltins
  import opened Sequences
  import opened ScoreNotes
  import opened ScoreLayout
  import opened Voices
  import MidiExport

  /** `selectedNoteInfo`. */
  datatype NoteRef = NoteRef(measureIndex: int, noteIndex: int)

  /** A note whose tick length is the one its duration code gives. */
  predicate CodedNote(n: NoteData)
  {
    IsDurationCode(n.duration) && DurationTicks(n.duration) == Some(n.durationTicks)
  }

  /** A measure as every edit leaves it. */
  predicate MeasureInvariant(m: Measure)
  {
    LaidOut(m.notes) && forall k :: 0 <= k < |m.notes| ==> CodedNote(m.notes[k])
  }

  predicate AllInvariant(ms: seq<Measure>)
  {
    forall i :: 0 <= i < |ms| ==> MeasureInvariant(ms[i])
  }

  /** The note-index guard of `editNote`, `deleteNote` and the keyboard edits. */
  predicate InRange(ms: seq<Measure>, measureIndex: int, noteIndex: int)
  {
    0 <= measureIndex < |ms| && 0 <= noteIndex < |ms[measureIndex].notes|
  }

  /** `updateNotePositions` over the whole score. */
  function Positioned(ms: seq<Measure>): (r: seq<Measure>)
    ensures |r| == |ms|
    ensures forall i :: 0 <= i < |ms| ==> r[i] == ms[i].(notes := LayoutMeasure(ms[i].notes))
  {
    seq(|ms|, i requires 0 <= i < |ms| => ms[i].(notes := LayoutMeasure(ms[i].notes)))
  }

  /** Re-laying out keeps the measure count, each measure's time signature and
      each measure's notes up to their ticks, and a second re-layout changes
      nothing. */
  lemma PositionedFacts(ms: seq<Measure>)
    requires forall i :: 0 <= i < |ms| ==> DurationsNonNegative(ms[i].notes)
    ensures |Positioned(ms)| == |ms|
    ensures forall i :: 0 <= i < |ms| ==>
      && Positioned(ms)[i].timeSignature == ms[i].timeSignature
      && multiset(Unticked(Positioned(ms)[i].notes)) == multiset(Unticked(ms[i].notes))
    ensures Positioned(Positioned(ms)) == Positioned(ms)
  {
    forall i | 0 <= i < |ms|
      ensures multiset(Unticked(Positioned(ms)[i].notes)) == multiset(Unticked(ms[i].notes))
      ensures Positioned(Positioned(ms))[i] == Positioned(ms)[i]
    {
      LayoutKeepsNotes(ms[i].notes);
      LayoutIdempotent(ms[i].notes);
    }
  }

  /** A measure that satisfies the invariant has no negative duration. */
  lemma InvariantDurations(m: Measure)
    requires MeasureInvariant(m)
    ensures DurationsNonNegative(m.notes)
  {
    forall k | 0 <= k < |m.notes|
      ensures m.notes[k].durationTicks >= 0
    {
      assert CodedNote(m.notes[k]);
    }
  }

  /** Laying out coded notes gives a measure that satisfies the invariant. */
  lemma LayoutGivesInvariant(m: Measure, notes: seq<NoteData>)
    requires forall k :: 0 <= k < |notes| ==> CodedNote(notes[k])
    ensures MeasureInvariant(m.(notes := LayoutMeasure(notes)))
  {
    LayoutIsLaidOut(notes);
    SortIsPermutation(notes);
    var laid := LayoutMeasure(notes);
    forall k | 0 <= k < |laid|
      ensures CodedNote(laid[k])
    {
      var sorted := SortByTicks(notes);
      assert laid[k] == sorted[k].(ticks := StartOf(sorted, k));
      assert sorted[k] in multiset(notes);
    }
  }

  lemma {:induction false} StartOfSameDurations(ns: seq<NoteData>, k: nat, n: NoteData, j: nat)
    requires k < |ns| && j <= |ns| && n.durationTicks == ns[k].durationTicks
    ensures StartOf(ns[k := n], j) == StartOf(ns, j)
    decreases j
  {
    if j > 0 {
      StartOfSameDurations(ns, k, n, j - 1);
    }
  }

  /** A note replaced by one with the same ticks and tick length leaves the
      measure laid out. */
  lemma ReplaceKeepsInvariant(m: Measure, k: nat, n: NoteData)
    requires MeasureInvariant(m) && k < |m.notes|
    requires n.ticks == m.notes[k].ticks && n.durationTicks == m.notes[k].durationTicks && CodedNote(n)
    ensures MeasureInvariant(m.(notes := m.notes[k := n]))
  {
    var ns := m.notes[k := n];
    forall j | 0 <= j < |ns|
      ensures ns[j].ticks == StartOf(ns, j)
    {
      StartOfSameDurations(m.notes, k, n, j);
    }
  }

  /** The note `editNote` stores: the old note with the key, duration,
      accidental, MIDI number and tick length of a freshly created one. */
  function EditedNote(old_: NoteData, key: string, duration: string, accidental: string): (n: NoteData)
    requires IsDurationCode(duration)
    ensures CodedNote(n) && n.ticks == old_.ticks && n.voice == old_.voice
    ensures n.key == key && n.duration == duration && n.accidental == accidental
    ensures n.midiNote == MidiNumber(key, accidental)
  {
    var created := CreateNoteData(key, duration, accidental);
    old_.(key := created.key, duration := created.duration, accidental := created.accidental,
          midiNote := created.midiNote, durationTicks := created.durationTicks)
  }

  /** The note after `moveSelectedNoteVertically(direction)`, as written: the
      stepped key and the MIDI number of its spelling; everything else kept. */
  function SteppedNote(n: NoteData, direction: int): (r: NoteData)
    ensures r.(key := n.key, midiNote := n.midiNote) == n
  {
    var s := StepKeyAsWritten(n.key, direction);
    n.(key := s.Key(), midiNote := s.Midi())
  }

  /** The stepped note's key reads back as the new spelling, its octave stays
      in 3..6, and its MIDI number is the one `createNoteData` gives the
      plain letter with the spelling's accidental. */
  lemma SteppedNoteFacts(n: NoteData, direction: int, plainKey: string, octave: int)
    requires StepKeyAsWritten(n.key, direction).octave == Some(octave)
    requires KeyReads(plainKey, Scale[StepKeyAsWritten(n.key, direction).letter], octave)
    ensures var s := StepKeyAsWritten(n.key, direction);
      && SlashField0(SteppedNote(n, direction).key) == Scale[s.letter] + s.accidental
      && KeyOctave(SteppedNote(n, direction).key) == Some(octave) && 3 <= octave <= 6
      && SteppedNote(n, direction).midiNote == MidiNumber(plainKey, s.accidental)
  {
    var s := StepKeyAsWritten(n.key, direction);
    SpellingKeyReadsBack(s);
    StepMidiFromKey(s, plainKey, octave);
  }

  /** The note after `changeNoteAccidental(direction)`, as written: the next
      accidental of the cycle and the MIDI number of the name left once its
      first `#` or `b` is removed, with that accidental. */
  function ReaccentedNote(n: NoteData, direction: int): (r: NoteData)
    requires direction == 1 || direction == -1
    ensures r.(accidental := n.accidental, midiNote := n.midiNote) == n
    ensures r.accidental in Accidentals
  {
    var a := CycleAccidental(n.accidental, direction);
    n.(accidental := a, midiNote := AccidentalMidiAsWritten(n.key, a))
  }

  /** For a note whose key is a plain letter other than B, the recomputed
      MIDI number is the one `createNoteData` gives the key with the new
      accidental; a natural B gets NaN. */
  lemma ReaccentedMatchesCreate(n: NoteData, direction: int, letter: nat, octave: int)
    requires direction == 1 || direction == -1
    requires letter < |Scale| && KeyReads(n.key, Scale[letter], octave)
    ensures letter < |Scale| - 1 ==>
      ReaccentedNote(n, direction).midiNote == MidiNumber(n.key, ReaccentedNote(n, direction).accidental)
    ensures letter == |Scale| - 1 ==> ReaccentedNote(n, direction).midiNote.None?
  {
    var a := ReaccentedNote(n, direction).accidental;
    assert Scale[letter] + "" == Scale[letter];
    if letter < |Scale| - 1 {
      AsWrittenAgreesOffB(n.key, letter, "", direction, a);
      AccidentalMidiOfLetterKey(n.key, letter, "", octave, a);
      LetterKeyMidi(n.key, letter, octave, a);
    } else {
      AccidentalOnNaturalBAsWritten(n.key, octave, a);
    }
  }

  /** Every measure but `i` is laid out, so the re-layout after an edit of
      measure `i` changes only that measure. */
  lemma PositionedAfterEdit(ms: seq<Measure>, i: nat, notes: seq<NoteData>)
    requires i < |ms| && AllInvariant(ms)
    requires forall k :: 0 <= k < |notes| ==> CodedNote(notes[k])
    ensures Positioned(ms[i := ms[i].(notes := notes)]) == ms[i := ms[i].(notes := LayoutMeasure(notes))]
    ensures AllInvariant(ms[i := ms[i].(notes := LayoutMeasure(notes))])
  {
    var edited := ms[i := ms[i].(notes := notes)];
    forall j | 0 <= j < |ms| && j != i
      ensures LayoutMeasure(ms[j].notes) == ms[j].notes
    {
      InvariantDurations(ms[j]);
      LaidOutIsFixed(ms[j].notes);
    }
    LayoutGivesInvariant(ms[i], notes);
  }

  /** The tick assignment of `updateNotePositions` for one measure's sorted
      notes: each note starts where the one before it ends, the first at 0. */
  method AssignTicks(notes: seq<NoteData>) returns (laid: seq<NoteData>)
    ensures laid == Relayout(notes)
  {
    laid := notes;
    var currentTick := 0;
    var k := 0;
    while k < |notes|
      invariant k <= |notes| && |laid| == |notes|
      invariant currentTick == StartOf(notes, k)
      invariant forall j {:trigger laid[j]} :: 0 <= j < k ==> laid[j] == notes[j].(ticks := StartOf(notes, j))
      invariant forall j {:trigger laid[j]} :: k <= j < |notes| ==> laid[j] == notes[j]
    {
      laid := laid[k := laid[k].(ticks := currentTick)];
      assert laid[k] == notes[k].(ticks := StartOf(notes, k));
      assert laid[k].durationTicks == notes[k].durationTicks;
      currentTick := currentTick + laid[k].durationTicks;
      k := k + 1;
    }
  }

  class ScoreEditor {
    var measures: seq<Measure>
    var tempo: Option<int>
    var currentDuration: string
    var currentAccidental: string
    var selected: Option<NoteRef>
    var activeVoices: seq<string>

    predicate Valid()
      reads this
    {
      && |measures| > 0
      && IsDurationCode(currentDuration)
      && AllInvariant(measures)
    }

    /** The state `init` sets up: one empty 4/4 measure at 120 beats a minute,
        quarter notes without accidental, nothing selected, all voices active. */
    constructor()
      ensures Valid()
      ensures measures == [Measure([], "4/4")] && tempo == Some(120)
      ensures currentDuration == "q" && currentAccidental == "" && selected == None
      ensures activeVoices == [AllVoices]
    {
      measures := [Measure([], "4/4")];
      tempo := Some(120);
      currentDuration := "q";
      currentAccidental := "";
      selected := None;
      activeVoices := [AllVoices];
    }

    /** `updateNotePositions()`: each measure stable-sorted by ticks
        (`Array.prototype.sort`), then its ticks reassigned end to end. */
    method UpdateNotePositions()
      modifies this`measures
      ensures measures == Positioned(old(measures))
    {
      ghost var before := measures;
      var i := 0;
      while i < |measures|
        invariant i <= |measures| == |before|
        invariant forall j :: 0 <= j < i ==> measures[j] == before[j].(notes := LayoutMeasure(before[j].notes))
        invariant forall j :: i <= j < |measures| ==> measures[j] == before[j]
      {
        var sorted := SortByTicks(measures[i].notes);
        var laid := AssignTicks(sorted);
        measures := measures[i := measures[i].(notes := laid)];
        i := i + 1;
      }
    }

    /** `addNote(measureIndex, key, duration, accidental)`: a new note at tick
        0 pushed onto the measure, which is then laid out again; an index out
        of range changes nothing. */
    method AddNote(measureIndex: int, key: string, duration: string, accidental: string)
      requires Valid() && IsDurationCode(duration)
      modifies this`measures
      ensures Valid()
      ensures 0 <= measureIndex < |old(measures)| ==>
        var m := old(measures)[measureIndex];
        measures == old(measures)[measureIndex := m.(notes := LayoutMeasure(m.notes + [CreateNoteData(key, duration, accidental)]))]
      ensures !(0 <= measureIndex < |old(measures)|) ==> measures == old(measures)
    {
      if measureIndex < 0 || measureIndex >= |measures| {
        return;
      }
      var noteData := CreateNoteData(key, duration, accidental);
      var m := measures[measureIndex];
      PositionedAfterEdit(measures, measureIndex, m.notes + [noteData]);
      measures := measures[measureIndex := m.(notes := m.notes + [noteData])];
      UpdateNotePositions();
    }

    /** `addNoteAtPosition(...)`: the same with the new note at `tickPosition`,
        which decides where the stable sort puts it. */
    method AddNoteAtPosition(measureIndex: int, key: string, duration: string, accidental: string, tickPosition: int)
      requires Valid() && IsDurationCode(duration)
      modifies this`measures
      ensures Valid()
      ensures 0 <= measureIndex < |old(measures)| ==>
        var m := old(measures)[measureIndex];
        var n := CreateNoteData(key, duration, accidental).(ticks := tickPosition);
        measures == old(measures)[measureIndex := m.(notes := LayoutMeasure(m.notes + [n]))]
      ensures !(0 <= measureIndex < |old(measures)|) ==> measures == old(measures)
    {
      if measureIndex < 0 || measureIndex >= |measures| {
        return;
      }
      var noteData := CreateNoteData(key, duration, accidental);
      noteData := noteData.(ticks := tickPosition);
      var m := measures[measureIndex];
      PositionedAfterEdit(measures, measureIndex, m.notes + [noteData]);
      measures := measures[measureIndex := m.(notes := m.notes + [noteData])];
      UpdateNotePositions();
    }

    /** `editNote(...)`: a missing duration (`""`) or accidental (`None`)
        keeps the note's own; the note keeps its ticks and voice; the measure
        is laid out again. An index out of range changes nothing. */
    method EditNote(measureIndex: int, noteIndex: int, newKey: string, newDuration: string, newAccidental: Option<string>)
      requires Valid() && (newDuration == "" || IsDurationCode(newDuration))
      modifies this`measures
      ensures Valid()
      ensures InRange(old(measures), measureIndex, noteIndex) ==>
        var m := old(measures)[measureIndex];
        var n := m.notes[noteIndex];
        var edited := EditedNote(n, newKey, if newDuration == "" then n.duration else newDuration,
                                 if newAccidental.Some? then newAccidental.value else n.accidental);
        measures == old(measures)[measureIndex := m.(notes := LayoutMeasure(m.notes[noteIndex := edited]))]
      ensures !InRange(old(measures), measureIndex, noteIndex) ==> measures == old(measures)
    {
      if measureIndex < 0 || measureIndex >= |measures| ||
         noteIndex < 0 || noteIndex >= |measures[measureIndex].notes| {
        return;
      }
      var m := measures[measureIndex];
      var n := m.notes[noteIndex];
      assert CodedNote(n);
      var duration := if newDuration == "" then n.duration else newDuration;
      var accidental := if newAccidental.Some? then newAccidental.value else n.accidental;
      var edited := EditedNote(n, newKey, duration, accidental);
      var notes := m.notes[noteIndex := edited];
      PositionedAfterEdit(measures, measureIndex, notes);
      measures := measures[measureIndex := m.(notes := notes)];
      UpdateNotePositions();
    }

    /** `deleteNote(measureIndex, noteIndex)`: the note spliced out, the
        measure laid out again and the selection cleared; an index out of range
        changes nothing, the selection included. */
    method DeleteNote(measureIndex: int, noteIndex: int)
      requires Valid()
      modifies this`measures, this`selected
      ensures Valid()
      ensures InRange(old(measures), measureIndex, noteIndex) ==>
        var m := old(measures)[measureIndex];
        && measures == old(measures)[measureIndex := m.(notes := LayoutMeasure(m.notes[..noteIndex] + m.notes[noteIndex + 1..]))]
        && selected == None
      ensures !InRange(old(measures), measureIndex, noteIndex) ==>
        measures == old(measures) && selected == old(selected)
    {
      if measureIndex < 0 || measureIndex >= |measures| ||
         noteIndex < 0 || noteIndex >= |measures[measureIndex].notes| {
        return;
      }
      var m := measures[measureIndex];
      var notes := m.notes[..noteIndex] + m.notes[noteIndex + 1..];
      assert forall k :: 0 <= k < |notes| ==> notes[k] in m.notes;
      PositionedAfterEdit(measures, measureIndex, notes);
      measures := measures[measureIndex := m.(notes := notes)];
      UpdateNotePositions();
      selected := None;
    }

    /** `addMeasure()`: an empty measure with measure 0's time signature. */
    method AddMeasure()
      requires Valid()
      modifies this`measures
      ensures Valid()
      ensures measures == old(measures) + [Measure([], old(measures)[0].timeSignature)]
    {
      measures := measures + [Measure([], measures[0].timeSignature)];
    }

    /** `clearScore()`: `confirmed` is the answer to the confirmation dialog. */
    method ClearScore(confirmed: bool)
      requires Valid()
      modifies this`measures
      ensures Valid()
      ensures confirmed ==> measures == [Measure([], "4/4")]
      ensures !confirmed ==> measures == old(measures)
    {
      if confirmed {
        measures := [Measure([], "4/4")];
      }
    }

    /** A click on note `noteIndex` of measure `measureIndex` with the edit tool. */
    method SelectNote(measureIndex: int, noteIndex: int)
      modifies this`selected
      ensures selected == Some(NoteRef(measureIndex, noteIndex))
    {
      selected := Some(NoteRef(measureIndex, noteIndex));
    }

    /** The add path of `handleStaveClick`: the key under the click, placed at
        the end of the measure's last note, refused when it would end past a
        4/4 measure. `added` tells whether the note went in. */
    method AddNoteByClick(measureIndex: nat, y: real, staveTop: real, lineHeight: real) returns (added: bool)
      requires Valid() && measureIndex < |measures| && lineHeight > 0.0
      modifies this`measures
      ensures Valid()
      ensures added == ClickFits(old(measures)[measureIndex].notes, currentDuration)
      ensures added ==>
        var ns := old(measures)[measureIndex].notes;
        var n := CreateNoteData(YToNote(y, staveTop, lineHeight), currentDuration, currentAccidental).(ticks := EndOfLast(ns));
        && measures == old(measures)[measureIndex := old(measures)[measureIndex].(notes := ns + [n])]
        && TotalTicks(measures[measureIndex].notes) <= MeasureTicks
      ensures !added ==> measures == old(measures)
    {
      var noteKey := YToNote(y, staveTop, lineHeight);
      var m := measures[measureIndex];
      var newPosition := 0;
      if |m.notes| > 0 {
        var lastNote := m.notes[|m.notes| - 1];
        newPosition := lastNote.ticks + lastNote.durationTicks;
      }
      var measureDuration := Ppq * 4;
      if newPosition + GetDurationTicks(currentDuration) > measureDuration {
        return false;
      }
      ghost var n := CreateNoteData(noteKey, currentDuration, currentAccidental).(ticks := newPosition);
      InvariantDurations(m);
      ClickAddStaysLast(m.notes, n);
      ClickAddWithinMeasure(m.notes, n, currentDuration);
      AddNoteAtPosition(measureIndex, noteKey, currentDuration, currentAccidental, newPosition);
      added := true;
    }

    /** `moveSelectedNoteVertically(direction)`: nothing without a selection,
        the selection dropped when it no longer points at a note, else the
        note's key and MIDI number stepped as the code writes them. */
    method MoveSelectedNoteVertically(direction: int)
      requires Valid()
      modifies this`measures, this`selected
      ensures Valid()
      ensures old(selected).None? ==> measures == old(measures) && selected == old(selected)
      ensures old(selected).Some? && !InRange(old(measures), old(selected).value.measureIndex, old(selected).value.noteIndex) ==>
        measures == old(measures) && selected == None
      ensures old(selected).Some? && InRange(old(measures), old(selected).value.measureIndex, old(selected).value.noteIndex) ==>
        var r := old(selected).value;
        var m := old(measures)[r.measureIndex];
        && selected == old(selected)
        && measures == old(measures)[r.measureIndex := m.(notes := m.notes[r.noteIndex := SteppedNote(m.notes[r.noteIndex], direction)])]
    {
      if selected.None? {
        return;
      }
      var measureIndex, noteIndex := selected.value.measureIndex, selected.value.noteIndex;
      if measureIndex < 0 || measureIndex >= |measures| ||
         noteIndex < 0 || noteIndex >= |measures[measureIndex].notes| {
        selected := None;
        return;
      }
      var m := measures[measureIndex];
      var note := SteppedNote(m.notes[noteIndex], direction);
      assert CodedNote(m.notes[noteIndex]);
      ReplaceKeepsInvariant(m, noteIndex, note);
      measures := measures[measureIndex := m.(notes := m.notes[noteIndex := note])];
    }

    /** `changeNoteAccidental(direction)` for the single steps the arrow keys
        send, with the same guards, the accidental cycled and the MIDI number
        recomputed as the code writes it. */
    method ChangeNoteAccidental(direction: int)
      requires Valid() && (direction == 1 || direction == -1)
      modifies this`measures, this`selected
      ensures Valid()
      ensures old(selected).None? ==> measures == old(measures) && selected == old(selected)
      ensures old(selected).Some? && !InRange(old(measures), old(selected).value.measureIndex, old(selected).value.noteIndex) ==>
        measures == old(measures) && selected == None
      ensures old(selected).Some? && InRange(old(measures), old(selected).value.measureIndex, old(selected).value.noteIndex) ==>
        var r := old(selected).value;
        var m := old(measures)[r.measureIndex];
        && selected == old(selected)
        && measures == old(measures)[r.measureIndex := m.(notes := m.notes[r.noteIndex := ReaccentedNote(m.notes[r.noteIndex], direction)])]
    {
      if selected.None? {
        return;
      }
      var measureIndex, noteIndex := selected.value.measureIndex, selected.value.noteIndex;
      if measureIndex < 0 || measureIndex >= |measures| ||
         noteIndex < 0 || noteIndex >= |measures[measureIndex].notes| {
        selected := None;
        return;
      }
      var m := measures[measureIndex];
      var note := ReaccentedNote(m.notes[noteIndex], direction);
      assert CodedNote(m.notes[noteIndex]);
      ReplaceKeepsInvariant(m, noteIndex, note);
      measures := measures[measureIndex := m.(notes := m.notes[noteIndex := note])];
    }

    /** `adjustTempo`: the slider's text read with `parseInt`. */
    method AdjustTempo(text: string)
      modifies this`tempo
      ensures tempo == ParseInt(text)
    {
      tempo := ParseInt(text);
    }

    /** `handleVoiceChange` for the checkbox `voiceId` now `checked`. */
    method HandleVoiceChange(voiceId: string, checked: bool)
      modifies this`activeVoices
      ensures activeVoices == VoicesAfterChange(old(activeVoices), voiceId, checked)
    {
      if voiceId == AllVoices {
        if checked {
          activeVoices := [AllVoices];
        } else {
          activeVoices := [];
        }
      } else {
        if checked {
          activeVoices := Without(activeVoices, AllVoices);
          activeVoices := activeVoices + [voiceId];
        } else {
          activeVoices := Without(activeVoices, voiceId);
        }
      }
    }

    /** `getAvailableVoices()`: measure by measure, each note's voice added to
        an insertion-ordered set. */
    method GetAvailableVoices() returns (voices: seq<string>)
      ensures voices == AvailableVoices(measures)
    {
      var ms := measures;
      ghost var parts := seq(|ms|, i requires 0 <= i < |ms| => ms[i].notes);
      voices := [];
      var i := 0;
      while i < |ms|
        invariant i <= |ms|
        invariant voices == CollectVoices([], Concat(parts[..i]))
      {
        assert Concat(parts[..i + 1]) == Concat(parts[..i]) + ms[i].notes by {
          assert parts[..i + 1][..i] == parts[..i];
        }
        CollectVoicesAppend([], Concat(parts[..i]), ms[i].notes);
        voices := AddMeasureVoices(voices, ms[i].notes);
        i := i + 1;
      }
      assert parts[..i] == parts;
    }

    /** `exportToMidi()`: the header, the time signature of measure 0, a
        note-on/note-off pair per note, measure by measure, each note at its
        in-measure `ticks`, and the end of the track. */
    method ExportToMidi() returns (midi: MidiExport.MidiData)
      requires |measures| > 0
      ensures midi == MidiExport.ExportAsWritten(measures, tempo)
    {
      midi := MidiExport.ExportMeasures(measures, tempo);
    }
  }
}
