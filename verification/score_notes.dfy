/**
 * The note records of the score editor and the pure operations on them:
 * the duration table (`getDurationTicks`), the key-to-MIDI-number mapping of
 * `createNoteData` (MIDI 1.0 numbering, middle C `c/4` = 60), the staff row
 * under a click (`yToNote`), and the two respellings driven by the arrow keys:
 * the vertical step of `moveSelectedNoteVertically` and the accidental cycle
 * of `changeNoteAccidental`.
 *
 * A key is VexFlow text `<name>/<octave>`, e.g. `"c#/4"`. A `null` accidental
 * and the empty accidental behave alike everywhere in the editor and are both
 * `""` here; a note without a voice has voice `""`.
 */
module ScoreNotes {
  import opened JsBuiltins
  import NoteQuantizer

  /** Ticks per quarter note (`state.ppq`). */
  const Ppq: int := 480

  /** One entry of `measure.notes`. */
  datatype NoteData = NoteData(
    key: string,
    duration: string,
    accidental: string,
    midiNote: Option<int>,
    ticks: int,
    durationTicks: int,
    voice: string)

  /** The duration codes the editor offers: whole, half, quarter, eighth, sixteenth. */
  predicate IsDurationCode(d: string)
  {
    d == "w" || d == "h" || d == "q" || d == "8" || d == "16"
  }

  /** The duration table, `undefined` (`None`) for any other code. */
  function DurationTicks(d: string): (t: Option<int>)
    ensures t.Some? <==> IsDurationCode(d)
    ensures t.Some? ==> t.value > 0
  {
    if d == "w" then Some(Ppq * 4)
    else if d == "h" then Some(Ppq * 2)
    else if d == "q" then Some(Ppq)
    else if d == "8" then Some(Ppq / 2)
    else if d == "16" then Some(Ppq / 4)
    else None
  }

  /** Each code is twice the next shorter one, the quarter is one beat, and
      all five are whole numbers of ticks. */
  lemma DurationsHalve()
    ensures DurationTicks("w").value == 2 * DurationTicks("h").value
    ensures DurationTicks("h").value == 2 * DurationTicks("q").value
    ensures DurationTicks("q").value == Ppq
    ensures DurationTicks("q").value == 2 * DurationTicks("8").value
    ensures DurationTicks("8").value == 2 * DurationTicks("16").value
  {
  }

  /** `getDurationTicks(duration)`: the table value, one beat for an unknown code. */
  function GetDurationTicks(d: string): (t: int)
    ensures t > 0
    ensures IsDurationCode(d) ==> Some(t) == DurationTicks(d)
    ensures !IsDurationCode(d) ==> t == Ppq
  {
    var t := DurationTicks(d);
    if t.Some? then t.value else Ppq
  }

  /** The scale position of a lower-case natural letter, `c` = 0 up to `b` = 6. */
  function LetterIndex(c: char): (i: int)
    ensures -1 <= i < 7
  {
    if c == 'c' then 0 else if c == 'd' then 1 else if c == 'e' then 2 else if c == 'f' then 3
    else if c == 'g' then 4 else if c == 'a' then 5 else if c == 'b' then 6 else -1
  }

  /** Semitones above C of the natural letters, from C up. */
  const ScaleOffsets: seq<int> := [0, 2, 4, 5, 7, 9, 11]

  /** The natural letters of the scale, from C up. */
  const Scale: seq<string> := ["c", "d", "e", "f", "g", "a", "b"]

  /** The `noteToMidi` table of `createNoteData`: semitones above C of a
      lower-case natural letter, of the sharps C# D# F# G# A# and of the flats
      Db Eb Gb Ab Bb; `undefined` (`None`) for anything else. */
  function PitchOffset(name: string): (o: Option<int>)
    ensures o.Some? ==> 0 <= o.value < 12
  {
    if |name| == 0 || |name| > 2 || LetterIndex(name[0]) < 0 then None
    else
      var natural := ScaleOffsets[LetterIndex(name[0])];
      if |name| == 1 then Some(natural)
      else if name[1] == '#' && name[0] != 'e' && name[0] != 'b' then Some(natural + 1)
      else if name[1] == 'b' && name[0] != 'c' && name[0] != 'f' then Some(natural - 1)
      else None
  }

  /** The table entry by entry, and nothing else: the seventeen names and
      their offsets. */
  lemma PitchOffsetTable(name: string)
    ensures PitchOffset(name).Some? <==>
      name in ["c", "c#", "db", "d", "d#", "eb", "e", "f", "f#", "gb", "g", "g#", "ab", "a", "a#", "bb", "b"]
    ensures PitchOffset("c") == Some(0) && PitchOffset("c#") == Some(1) && PitchOffset("db") == Some(1)
    ensures PitchOffset("d") == Some(2) && PitchOffset("d#") == Some(3) && PitchOffset("eb") == Some(3)
    ensures PitchOffset("e") == Some(4) && PitchOffset("f") == Some(5)
    ensures PitchOffset("f#") == Some(6) && PitchOffset("gb") == Some(6)
    ensures PitchOffset("g") == Some(7) && PitchOffset("g#") == Some(8) && PitchOffset("ab") == Some(8)
    ensures PitchOffset("a") == Some(9) && PitchOffset("a#") == Some(10) && PitchOffset("bb") == Some(10)
    ensures PitchOffset("b") == Some(11)
  {
    if PitchOffset(name).Some? {
      if |name| == 1 {
        assert name == [name[0]];
      } else {
        assert name == [name[0], name[1]];
      }
    }
  }

  /** The semitone shift of an accidental argument: up for `#`, down for `b`. */
  function AccidentalShift(accidental: string): (s: int)
    ensures s == (if accidental == "#" then 1 else if accidental == "b" then -1 else 0)
  {
    if |accidental| != 1 then 0
    else if accidental[0] == '#' then 1
    else if accidental[0] == 'b' then -1
    else 0
  }

  /** The octave field of a key read with `parseInt` (NaN when it is missing or not a number). */
  function KeyOctave(key: string): Option<int>
  {
    var field := SlashField1(key);
    if field.Some? then ParseInt(field.value) else None
  }

  /** The `midiNote` of `createNoteData(key, duration, accidental)`: NaN
      (`None`) when the octave is not a number or the name is not in the table. */
  function MidiNumber(key: string, accidental: string): Option<int>
  {
    var octave := KeyOctave(key);
    var offset := PitchOffset(ToLower(SlashField0(key)));
    if octave.None? || offset.None? then None
    else Some((octave.value + 1) * 12 + offset.value + AccidentalShift(accidental))
  }

  /** `createNoteData(key, duration, accidental)` for one of the editor's
      duration codes: the note sits at tick 0 until the next re-layout. */
  function CreateNoteData(key: string, duration: string, accidental: string): (n: NoteData)
    requires IsDurationCode(duration)
    ensures n.key == key && n.duration == duration && n.accidental == accidental
    ensures n.ticks == 0 && n.voice == ""
    ensures n.durationTicks > 0 && Some(n.durationTicks) == DurationTicks(duration)
  {
    NoteData(key, duration, accidental, MidiNumber(key, accidental), 0, DurationTicks(duration).value, "")
  }

  /** `key` reads as the note name `name` in octave `octave`: `name` before the
      slash and a number `octave` after it. */
  predicate KeyReads(key: string, name: string, octave: int)
  {
    SlashField0(key) == name && KeyOctave(key) == Some(octave)
  }

  /** Any key read as a name of the table in some octave has the MIDI number
      `12 * (octave + 1)` plus the table offset of the name plus the accidental
      shift. */
  lemma MidiOfReading(key: string, accidental: string, name: string, octave: int, offset: int)
    requires KeyReads(key, name, octave) && PitchOffset(ToLower(name)) == Some(offset)
    ensures MidiNumber(key, accidental) == Some((octave + 1) * 12 + offset + AccidentalShift(accidental))
  {
  }

  lemma NoSlashInNumberText(x: Option<int>)
    ensures '/' !in NumberText(x)
  {
  }

  /** A key written as `name/octave` reads back as that name and octave. */
  lemma {:induction false} WrittenKeyReads(name: string, octave: int)
    requires '/' !in name
    ensures KeyReads(name + "/" + IntToString(octave), name, octave)
  {
    NoSlashInNumberText(Some(octave));
    SplitJoined(name, IntToString(octave));
    ParseIntOfIntToString(octave);
  }

  /** A key written as `name/octave` has the MIDI number `12 * (octave + 1)`
      plus the table offset of its name plus the accidental shift. */
  lemma MidiOfWrittenKey(name: string, octave: int, accidental: string, offset: int)
    requires '/' !in name && PitchOffset(ToLower(name)) == Some(offset)
    ensures MidiNumber(name + "/" + IntToString(octave), accidental)
      == Some((octave + 1) * 12 + offset + AccidentalShift(accidental))
  {
    WrittenKeyReads(name, octave);
    MidiOfReading(name + "/" + IntToString(octave), accidental, name, octave, offset);
  }

  /** A key with a one-digit octave. */
  lemma DigitKeyReads(key: string, name: string, octave: nat)
    requires octave < 10 && '/' !in name && key == name + "/" + [DigitChar(octave)]
    ensures KeyReads(key, name, octave)
  {
    assert IntToString(octave) == [DigitChar(octave)];
    WrittenKeyReads(name, octave);
  }

  /** Middle C is 60 in MIDI 1.0 numbering... */
  lemma MiddleC()
    ensures MidiNumber("c/4", "") == Some(60)
  {
    assert ToLower("c") == "c" && PitchOffset("c") == Some(0);
    DigitKeyReads("c/4", "c", 4);
    MidiOfReading("c/4", "", "c", 4, 0);
  }

  /** ...and the A above it, the 440 Hz reference, is 69. */
  lemma A440()
    ensures MidiNumber("a/4", "") == Some(69)
  {
    assert ToLower("a") == "a" && PitchOffset("a") == Some(9);
    DigitKeyReads("a/4", "a", 4);
    MidiOfReading("a/4", "", "a", 4, 9);
  }

  /** A sharp given as the accidental argument and the flat spelling of the
      same key agree, in every octave: `c/4` raised and `db/4` are both 61. */
  lemma SharpArgumentMatchesFlatName(cKey: string, dbKey: string, octave: int)
    requires KeyReads(cKey, "c", octave) && KeyReads(dbKey, "db", octave)
    ensures MidiNumber(cKey, "#") == MidiNumber(dbKey, "") == Some((octave + 1) * 12 + 1)
  {
    assert ToLower("c") == "c" && PitchOffset("c") == Some(0);
    assert ToLower("db") == "db" && PitchOffset("db") == Some(1);
    MidiOfReading(cKey, "#", "c", octave, 0);
    MidiOfReading(dbKey, "", "db", octave, 1);
    assert AccidentalShift("#") == 1 && AccidentalShift("") == 0;
  }

  /** What the tables say about each scale letter. */
  lemma ScaleLetterFacts(letter: nat)
    requires letter < |Scale|
    ensures |Scale[letter]| == 1 && '/' !in Scale[letter] && ToLower(Scale[letter]) == Scale[letter]
    ensures PitchOffset(Scale[letter]) == Some(ScaleOffsets[letter])
    ensures LetterOffset(Scale[letter]) == Some(ScaleOffsets[letter])
    ensures IndexInScale(Scale[letter]) == letter
  {
    assert ToLower(Scale[letter]) == [LowerChar(Scale[letter][0])];
  }

  /** A key read as a plain scale letter has the letter's semitone above C in its octave. */
  lemma LetterKeyMidi(key: string, letter: nat, octave: int, accidental: string)
    requires letter < |Scale| && KeyReads(key, Scale[letter], octave)
    ensures MidiNumber(key, accidental)
      == Some((octave + 1) * 12 + ScaleOffsets[letter] + AccidentalShift(accidental))
  {
    ScaleLetterFacts(letter);
    MidiOfReading(key, accidental, Scale[letter], octave, ScaleOffsets[letter]);
  }

  /** The lower-case sharp spelling of each pitch class of the pitch detector
      is in the table, at that pitch class. */
  lemma PitchOffsetOfDetectorName(pc: NoteQuantizer.PitchClass)
    ensures PitchOffset(ToLower(NoteQuantizer.PitchClassNames[pc])) == Some(pc)
    ensures '/' !in ToLower(NoteQuantizer.PitchClassNames[pc])
  {
    var name := NoteQuantizer.PitchClassNames[pc];
    var lower := ToLower(name);
    assert |lower| == |name|;
    if |name| == 1 {
      assert lower == [LowerChar(name[0])];
    } else {
      assert lower == [LowerChar(name[0]), LowerChar(name[1])];
    }
  }

  /** The editor's MIDI numbers and the pitch detector's semitone grid agree:
      a key read as the detector's name of `pc`, lower-cased, in `octave` is
      69 (A4) plus that note's distance from A4 in semitones. */
  lemma MidiAgreesWithDetector(key: string, pc: NoteQuantizer.PitchClass, octave: int)
    requires KeyReads(key, ToLower(NoteQuantizer.PitchClassNames[pc]), octave)
    ensures MidiNumber(key, "") == Some(69 + NoteQuantizer.Note(pc, octave, 0).Semitone())
  {
    var name := ToLower(NoteQuantizer.PitchClassNames[pc]);
    assert PitchOffset(name) == Some(pc) by {
      PitchOffsetOfDetectorName(pc);
    }
    MidiOfReading(key, "", name, octave, pc);
  }


  /** The keys of the staff rows from the top line down (`baseNotes`). */
  const StaffKeys: seq<string> :=
    ["f/5", "e/5", "d/5", "c/5", "b/4", "a/4", "g/4", "f/4", "e/4", "d/4", "c/4", "b/3", "a/3", "g/3", "f/3"]

  /** `Math.round(relativeY / (lineHeight / 2))`: the half-line under the click. */
  function HalfLine(y: real, staveTop: real, lineHeight: real): int
    requires lineHeight > 0.0
  {
    JsRound((y - staveTop) / (lineHeight / 2.0))
  }

  /** The row index of `yToNote`: the half-line, clamped into the rows. */
  function YToRow(y: real, staveTop: real, lineHeight: real): (row: nat)
    requires lineHeight > 0.0
    ensures row < |StaffKeys|
    ensures 0 <= HalfLine(y, staveTop, lineHeight) < |StaffKeys| ==> row == HalfLine(y, staveTop, lineHeight)
    ensures HalfLine(y, staveTop, lineHeight) < 0 ==> row == 0
    ensures HalfLine(y, staveTop, lineHeight) >= |StaffKeys| ==> row == |StaffKeys| - 1
  {
    var position := HalfLine(y, staveTop, lineHeight);
    if position < 0 then 0 else if position > |StaffKeys| - 1 then |StaffKeys| - 1 else position
  }

  /** `yToNote(y, stave)` for a stave whose top line is at `staveTop` and whose
      lines are `lineHeight` apart. */
  function YToNote(y: real, staveTop: real, lineHeight: real): (key: string)
    requires lineHeight > 0.0
    ensures key in StaffKeys
  {
    StaffKeys[YToRow(y, staveTop, lineHeight)]
  }

  /** A click lower on the stave never gives a higher row... */
  lemma YToRowMonotone(y1: real, y2: real, staveTop: real, lineHeight: real)
    requires lineHeight > 0.0 && y1 <= y2
    ensures YToRow(y1, staveTop, lineHeight) <= YToRow(y2, staveTop, lineHeight)
  {
    var h := lineHeight / 2.0;
    assert (y1 - staveTop) / h <= (y2 - staveTop) / h by {
      assert (y2 - staveTop) / h - (y1 - staveTop) / h == (y2 - y1) / h;
    }
  }

  /** The MIDI numbers of the staff rows, top row first. */
  const StaffMidi: seq<int> := [77, 76, 74, 72, 71, 69, 67, 65, 64, 62, 60, 59, 57, 55, 53]

  /** Row `row` is a natural letter: F5 at the top down to F3, one letter a row. */
  lemma StaffKeySpelling(row: nat, letter: nat, octave: nat)
    requires row < |StaffKeys| && letter == (3 - row) % 7
    requires octave == if row < 4 then 5 else if row < 11 then 4 else 3
    ensures StaffKeys[row] == Scale[letter] + "/" + [DigitChar(octave)]
    ensures StaffMidi[row] == (octave + 1) * 12 + ScaleOffsets[letter]
  {
  }

  /** ...and the rows go down in pitch, so a click lower on the stave never
      gives a higher note. */
  lemma StaffRowsDescend(row: nat)
    requires row < |StaffKeys|
    ensures MidiNumber(StaffKeys[row], "") == Some(StaffMidi[row])
    ensures row > 0 ==> StaffMidi[row] < StaffMidi[row - 1]
  {
    var letter := (3 - row) % 7;
    var octave := if row < 4 then 5 else if row < 11 then 4 else 3;
    StaffKeySpelling(row, letter, octave);
    DigitKeyReads(StaffKeys[row], Scale[letter], octave);
    LetterKeyMidi(StaffKeys[row], letter, octave, "");
    if row > 0 {
      StaffMidiDescends(row);
    }
  }

  lemma StaffMidiDescends(row: nat)
    requires 0 < row < |StaffMidi|
    ensures StaffMidi[row] < StaffMidi[row - 1]
  {
    if row < 4 {
      assert row == 1 || row == 2 || row == 3;
    } else if row < 8 {
      assert row == 4 || row == 5 || row == 6 || row == 7;
    } else if row < 12 {
      assert row == 8 || row == 9 || row == 10 || row == 11;
    } else {
      assert row == 12 || row == 13 || row == 14;
    }
  }


  /*
   * The vertical step (`moveSelectedNoteVertically`).
   */

  /** `scale.indexOf(name)`: -1 when `name` is not a scale letter. */
  function IndexInScale(name: string): (i: int)
    ensures -1 <= i < |Scale|
    ensures i >= 0 ==> Scale[i] == name
    ensures i == -1 ==> name !in Scale
  {
    if |name| == 1 then
      var i := LetterIndex(name[0]);
      assert i >= 0 ==> Scale[i] == [name[0]] == name;
      i
    else -1
  }

  predicate IsAccidentalChar(c: char) { c == '#' || c == 'b' }

  /** Index of the first `#` or `b` of `s`, `|s|` if there is none. */
  function FirstAccidental(s: string): (k: nat)
    ensures k <= |s|
    ensures forall j :: 0 <= j < k ==> !IsAccidentalChar(s[j])
    ensures k < |s| ==> IsAccidentalChar(s[k])
    decreases |s|
  {
    if s == [] then 0 else if IsAccidentalChar(s[0]) then 0 else 1 + FirstAccidental(s[1..])
  }

  /** `s.replace(/[#b]/, '')`: the first `#` or `b` removed, wherever it is. */
  function RemoveFirstAccidental(s: string): (r: string)
  {
    var k := FirstAccidental(s);
    if k == |s| then s else s[..k] + s[k + 1..]
  }

  /** The accidental of a note name: `#` if it holds one, else `b` if it holds one, else none. */
  function AccidentalOf(name: string): (a: string)
    ensures a == "" || a == "#" || a == "b"
    ensures a == "" <==> '#' !in name && 'b' !in name
  {
    if '#' in name then "#" else if 'b' in name then "b" else ""
  }

  /** A key as the step writes it: a scale letter, an accidental, an octave
      that is an integer or NaN. */
  datatype Spelling = Spelling(letter: nat, accidental: string, octave: Option<int>)
  {
    predicate Valid()
    {
      letter < |Scale| && (accidental == "" || accidental == "#" || accidental == "b")
    }

    /** `` `${scale[i]}${accidental}/${octave}` ``. */
    function Key(): string
      requires Valid()
    {
      Scale[letter] + accidental + "/" + NumberText(octave)
    }

    /** The `midiNote` the step stores: the letter's semitone, the octave, the accidental. */
    function Midi(): Option<int>
      requires Valid()
    {
      if octave.None? then None
      else Some((octave.value + 1) * 12 + ScaleOffsets[letter] + AccidentalShift(accidental))
    }
  }

  /** `Math.max(3, Math.min(octave, 6))`, NaN staying NaN. */
  function ClampOctave(octave: Option<int>): (o: Option<int>)
    ensures o.Some? <==> octave.Some?
    ensures o.Some? ==> 3 <= o.value <= 6
    ensures o.Some? && 3 <= octave.value <= 6 ==> o == octave
  {
    if octave.None? then None
    else if octave.value < 3 then Some(3)
    else if octave.value > 6 then Some(6)
    else octave
  }

  /** `octave + k` on a number or NaN. */
  function AddToOctave(octave: Option<int>, k: int): Option<int>
  {
    if octave.Some? then Some(octave.value + k) else None
  }

  /** The branch logic of the step: the letter index `index + direction`,
      wrapped into the neighbouring octave for a single step, clamped at the
      ends of the scale otherwise, then the octave clamped into 3..6. */
  function StepPosition(index: int, octave: Option<int>, direction: int): (r: (nat, Option<int>))
    ensures r.0 < |Scale|
    ensures r.1.Some? <==> octave.Some?
    ensures r.1.Some? ==> 3 <= r.1.value <= 6
  {
    var i := index + direction;
    if direction == -1 && i < 0 then (|Scale| - 1, ClampOctave(AddToOctave(octave, -1)))
    else if direction == 1 && i >= |Scale| then (0, ClampOctave(AddToOctave(octave, 1)))
    else if i < 0 then (0, ClampOctave(if octave.Some? && octave.value < 3 then Some(3) else octave))
    else if i >= |Scale| then (|Scale| - 1, ClampOctave(if octave.Some? && octave.value > 6 then Some(6) else octave))
    else (i, ClampOctave(octave))
  }

  /** `moveSelectedNoteVertically(direction)` on the key of the selected note,
      as written: the base letter is the name with its first `#` or `b`
      removed, which also removes the letter of a natural B. */
  function StepKeyAsWritten(key: string, direction: int): (s: Spelling)
    ensures s.Valid()
    ensures s.octave.Some? <==> KeyOctave(key).Some?
    ensures s.octave.Some? ==> 3 <= s.octave.value <= 6
  {
    var name := SlashField0(key);
    var base := RemoveFirstAccidental(name);
    var r := StepPosition(IndexInScale(ToLower(base)), KeyOctave(key), direction);
    Spelling(r.0, AccidentalOf(name), r.1)
  }

  /** The letter and the accidental read apart: the first character of the
      name is the letter and the rest holds the accidental. */
  function StepKey(key: string, direction: int): (s: Spelling)
    ensures s.Valid()
    ensures s.octave.Some? <==> KeyOctave(key).Some?
    ensures s.octave.Some? ==> 3 <= s.octave.value <= 6
  {
    var name := SlashField0(key);
    var letter := if name == [] then name else name[..1];
    var rest := if name == [] then name else name[1..];
    var r := StepPosition(IndexInScale(ToLower(letter)), KeyOctave(key), direction);
    Spelling(r.0, AccidentalOf(rest), r.1)
  }

  /** The key the step writes reads back as that spelling. */
  lemma {:induction false} SpellingKeyReadsBack(s: Spelling)
    requires s.Valid()
    ensures SlashField0(s.Key()) == Scale[s.letter] + s.accidental
    ensures KeyOctave(s.Key()) == s.octave
  {
    NoSlashInNumberText(s.octave);
    SplitJoined(Scale[s.letter] + s.accidental, NumberText(s.octave));
    if s.octave.Some? {
      ParseIntOfIntToString(s.octave.value);
    } else {
      assert ParseInt("NaN") == None by {
        assert DigitPrefix("NaN") == [];
      }
    }
  }

  /** The octave of the stepped key is always in 3..6 (or NaN when the old
      key had none), whichever reading of the name is used. */
  lemma StepOctaveInRange(key: string, direction: int)
    ensures var o := KeyOctave(StepKeyAsWritten(key, direction).Key());
      o.Some? ==> 3 <= o.value <= 6
    ensures var o := KeyOctave(StepKey(key, direction).Key());
      o.Some? ==> 3 <= o.value <= 6
  {
    SpellingKeyReadsBack(StepKeyAsWritten(key, direction));
    SpellingKeyReadsBack(StepKey(key, direction));
  }

  /** The stored MIDI number is the one `createNoteData` gives a key read as
      the plain letter of the new spelling, with its accidental as the argument. */
  lemma StepMidiFromKey(s: Spelling, key: string, octave: int)
    requires s.Valid() && s.octave == Some(octave) && KeyReads(key, Scale[s.letter], octave)
    ensures s.Midi() == MidiNumber(key, s.accidental)
  {
    LetterKeyMidi(key, s.letter, octave, s.accidental);
  }

  /** Stepping down from C, with any accidental, wraps to B of the octave below. */
  lemma StepDownFromC(key: string, accidental: string, octave: int)
    requires accidental == "" || accidental == "#" || accidental == "b"
    requires 4 <= octave <= 6 && KeyReads(key, "c" + accidental, octave)
    ensures StepKeyAsWritten(key, -1) == Spelling(6, accidental, Some(octave - 1))
    ensures StepKey(key, -1) == Spelling(6, accidental, Some(octave - 1))
  {
    var name := "c" + accidental;
    assert FirstAccidental(name) == |name| - 1 || accidental == "";
    assert RemoveFirstAccidental(name) == "c";
    assert ToLower("c") == "c";
    assert name[..1] == "c" && name[1..] == accidental;
  }

  /** The regex strip removes the letter of the name `b` itself, and the
      `includes` tests read that letter as a flat. */
  lemma StrippedNaturalB()
    ensures IndexInScale(ToLower(RemoveFirstAccidental("b"))) == -1
    ensures AccidentalOf("b") == "b"
  {
    assert FirstAccidental("b") == 0;
    assert RemoveFirstAccidental("b") == "";
    assert ToLower("") == "";
  }

  /** On `bb` the strip leaves the letter `b`, read as a flat. */
  lemma StrippedBFlat()
    ensures IndexInScale(ToLower(RemoveFirstAccidental("bb"))) == 6
    ensures AccidentalOf("bb") == "b"
  {
    assert FirstAccidental("bb") == 0;
    assert RemoveFirstAccidental("bb") == "b";
    assert ToLower("b") == "b";
  }

  /** The as-written step of a key read as `name` in `octave`, one field at a time. */
  lemma StepKeyAsWrittenOf(key: string, direction: int, name: string, octave: int)
    requires KeyReads(key, name, octave)
    ensures var r := StepPosition(IndexInScale(ToLower(RemoveFirstAccidental(name))), Some(octave), direction);
      StepKeyAsWritten(key, direction) == Spelling(r.0, AccidentalOf(name), r.1)
  {
  }

  /** The branches of the step that the B cases take: the top letter wraps
      up, and the index -1 of a stripped name steps to C or wraps down to B. */
  lemma StepPositionAtEnds(octave: int)
    requires 3 <= octave <= 6
    ensures octave < 6 ==> StepPosition(6, Some(octave), 1) == (0, Some(octave + 1))
    ensures StepPosition(-1, Some(octave), 1) == (0, Some(octave))
    ensures octave > 3 ==> StepPosition(-1, Some(octave), -1) == (6, Some(octave - 1))
  {
  }

  /** As written, stepping up from B-flat wraps to C-flat of the octave above. */
  lemma StepUpFromBFlatAsWritten(key: string, octave: int)
    requires 3 <= octave <= 5 && KeyReads(key, "bb", octave)
    ensures StepKeyAsWritten(key, 1) == Spelling(0, "b", Some(octave + 1))
  {
    StepKeyAsWrittenOf(key, 1, "bb", octave);
    StrippedBFlat();
    StepPositionAtEnds(octave);
  }

  /** As written, a natural B stepped up becomes C-flat of the SAME octave,
      an octave below the step up that was asked for: `b/4` (MIDI 71) becomes
      `cb/4` (MIDI 59). */
  lemma StepUpFromNaturalBAsWritten(key: string, octave: int)
    requires 3 <= octave <= 6 && KeyReads(key, "b", octave)
    ensures StepKeyAsWritten(key, 1) == Spelling(0, "b", Some(octave))
    ensures StepKeyAsWritten(key, 1).Key() == "cb/" + IntToString(octave)
    ensures MidiNumber(key, "") == Some((octave + 1) * 12 + 11)
    ensures StepKeyAsWritten(key, 1).Midi() == Some((octave + 1) * 12 - 1)
  {
    StepKeyAsWrittenOf(key, 1, "b", octave);
    StrippedNaturalB();
    StepPositionAtEnds(octave);
    LetterKeyMidi(key, 6, octave, "");
  }

  /** The same on the key `b/4`. */
  lemma NaturalB4StepsToCFlat4()
    ensures StepKeyAsWritten("b/4", 1).Key() == "cb/4"
    ensures StepKeyAsWritten("b/4", 1).Midi() == Some(59)
    ensures MidiNumber("b/4", "") == Some(71)
  {
    DigitKeyReads("b/4", "b", 4);
    StepUpFromNaturalBAsWritten("b/4", 4);
    assert IntToString(4) == "4";
  }

  /** As written, a natural B stepped down becomes B-flat of the octave below
      (shown here for octaves 4..6): the stripped letter is not in the scale,
      its index -1 steps to -2 and wraps to `b`, and the letter `b` is
      then read as a flat. */
  lemma StepDownFromNaturalBAsWritten(key: string, octave: int)
    requires 4 <= octave <= 6 && KeyReads(key, "b", octave)
    ensures StepKeyAsWritten(key, -1) == Spelling(6, "b", Some(octave - 1))
    ensures StepKeyAsWritten(key, -1).Key() == "bb/" + IntToString(octave - 1)
    ensures StepKeyAsWritten(key, -1).Midi() == Some(octave * 12 + 10)
  {
    StepKeyAsWrittenOf(key, -1, "b", octave);
    StrippedNaturalB();
    StepPositionAtEnds(octave);
  }

  /** With the letter read apart, a natural B steps down to A of the same
      octave. */
  lemma StepDownFromNaturalB(key: string, octave: int)
    requires 3 <= octave <= 6 && KeyReads(key, "b", octave)
    ensures StepKey(key, -1) == Spelling(5, "", Some(octave))
    ensures StepKey(key, -1).Key() == "a/" + IntToString(octave)
    ensures StepKey(key, -1).Midi() == Some((octave + 1) * 12 + 9)
  {
    assert "b"[..1] == "b" && "b"[1..] == "";
    assert ToLower("b") == "b";
  }

  /** The same on the key `b/4`: it becomes `bb/3` (MIDI 58) where `a/4`
      (MIDI 69) was meant. */
  lemma NaturalB4StepsDownToBFlat3()
    ensures StepKeyAsWritten("b/4", -1).Key() == "bb/3"
    ensures StepKeyAsWritten("b/4", -1).Midi() == Some(58)
    ensures StepKey("b/4", -1).Key() == "a/4"
    ensures StepKey("b/4", -1).Midi() == Some(69)
  {
    DigitKeyReads("b/4", "b", 4);
    StepDownFromNaturalBAsWritten("b/4", 4);
    StepDownFromNaturalB("b/4", 4);
    assert IntToString(3) == "3" && IntToString(4) == "4";
  }

  /** With the letter read apart from the accidental, stepping up from B (any
      accidental) wraps to C of the octave above. */
  lemma StepUpFromB(key: string, accidental: string, octave: int)
    requires accidental == "" || accidental == "#" || accidental == "b"
    requires 3 <= octave <= 5 && KeyReads(key, "b" + accidental, octave)
    ensures StepKey(key, 1) == Spelling(0, accidental, Some(octave + 1))
  {
    var name := "b" + accidental;
    assert name[..1] == "b" && name[1..] == accidental;
    assert ToLower("b") == "b";
  }

  /** A step up from a natural note in 3..6, short of the top of the range.
      With the letter read apart it goes to the next letter and raises the
      MIDI number by one or two semitones (one exactly from E and from B). As
      written it does the same from every letter but B, and from B it drops
      the MIDI number by an octave less a semitone's rise: 12 semitones down. */
  lemma StepUpIsOneLetter(key: string, letter: nat, octave: int)
    requires letter < |Scale| && 3 <= octave <= 6 && KeyReads(key, Scale[letter], octave)
    requires letter == |Scale| - 1 ==> octave < 6
    ensures StepKey(key, 1).Midi().Some?
    ensures StepKey(key, 1).Midi().value - (octave + 1) * 12 - ScaleOffsets[letter]
      == (if letter == 2 || letter == 6 then 1 else 2)
    ensures StepKeyAsWritten(key, 1).Midi().Some?
    ensures StepKeyAsWritten(key, 1).Midi().value - (octave + 1) * 12 - ScaleOffsets[letter]
      == (if letter == 6 then -12 else if letter == 2 then 1 else 2)
  {
    var name := Scale[letter];
    var r := StepPosition(letter, Some(octave), 1);
    ScaleLetterFacts(letter);
    assert name[..1] == name && name[1..] == "";
    assert AccidentalOf("") == "";
    assert StepKey(key, 1) == Spelling(r.0, "", r.1);
    NaturalStepUp(letter, octave);
    if letter < |Scale| - 1 {
      assert name + "" == name;
      AsWrittenAgreesOffB(key, letter, "", 1, "");
    } else {
      StepUpFromNaturalBAsWritten(key, octave);
    }
  }

  lemma NaturalStepUp(letter: nat, octave: int)
    requires letter < |Scale| && 3 <= octave <= 6
    requires letter == |Scale| - 1 ==> octave < 6
    ensures var r := StepPosition(letter, Some(octave), 1);
      Spelling(r.0, "", r.1).Midi().Some? &&
      Spelling(r.0, "", r.1).Midi().value - (octave + 1) * 12 - ScaleOffsets[letter]
        == (if letter == 2 || letter == 6 then 1 else 2)
  {
  }


  /*
   * The accidental cycle (`changeNoteAccidental`).
   */

  /** The cycle of `changeNoteAccidental`: flat, natural, sharp. */
  const Accidentals: seq<string> := ["b", "", "#"]

  /** `accidentals.indexOf(a)`: -1 for a value outside the cycle. */
  function AccidentalIndex(a: string): (i: int)
    ensures -1 <= i < |Accidentals|
    ensures i >= 0 ==> Accidentals[i] == a
    ensures i == -1 ==> a !in Accidentals
  {
    if a == "b" then 0 else if a == "" then 1 else if a == "#" then 2 else -1
  }

  /** The new accidental: index `(i + direction + 3) % 3` with JavaScript's
      remainder, for the single steps the arrow keys send. */
  function CycleAccidental(a: string, direction: int): (r: string)
    requires direction == 1 || direction == -1
    ensures r in Accidentals
    ensures a in Accidentals ==> AccidentalIndex(r) == (AccidentalIndex(a) + direction) % 3
    ensures a !in Accidentals ==> r == (if direction == 1 then "b" else "")
  {
    Accidentals[TruncRem(AccidentalIndex(a) + direction + |Accidentals|, |Accidentals|)]
  }

  /** The six steps of the cycle. */
  lemma CycleTable()
    ensures CycleAccidental("b", 1) == "" && CycleAccidental("", 1) == "#" && CycleAccidental("#", 1) == "b"
    ensures CycleAccidental("b", -1) == "#" && CycleAccidental("", -1) == "b" && CycleAccidental("#", -1) == ""
  {
  }

  /** Three steps the same way come back to where they started. */
  lemma CycleThreeSteps(a: string, direction: int)
    requires a in Accidentals && (direction == 1 || direction == -1)
    ensures CycleAccidental(CycleAccidental(CycleAccidental(a, direction), direction), direction) == a
  {
    CycleTable();
    assert a == "b" || a == "" || a == "#";
  }

  /** A step one way is undone by a step the other way. */
  lemma CycleStepBack(a: string, direction: int)
    requires a in Accidentals && (direction == 1 || direction == -1)
    ensures CycleAccidental(CycleAccidental(a, direction), -direction) == a
  {
    CycleTable();
    assert a == "b" || a == "" || a == "#";
  }

  /** The `noteToMidiBase` table: semitones above C of a natural letter. */
  function LetterOffset(name: string): (o: Option<int>)
    ensures o.Some? <==> name in Scale
    ensures o.Some? ==> o.value == ScaleOffsets[IndexInScale(name)]
  {
    var i := IndexInScale(name);
    if i >= 0 then Some(ScaleOffsets[i]) else None
  }

  /** The `midiNote` `changeNoteAccidental` stores for a note with key `key`
      and new accidental `accidental`, as written: the letter is the name with
      its first `#` or `b` removed, which leaves nothing of a natural B. */
  function AccidentalMidiAsWritten(key: string, accidental: string): Option<int>
  {
    var octave := KeyOctave(key);
    var offset := LetterOffset(ToLower(RemoveFirstAccidental(SlashField0(key))));
    if octave.None? || offset.None? then None
    else Some((octave.value + 1) * 12 + offset.value + AccidentalShift(accidental))
  }

  /** The same with the letter read as the first character of the name. */
  function AccidentalMidi(key: string, accidental: string): Option<int>
  {
    var name := SlashField0(key);
    var octave := KeyOctave(key);
    var offset := LetterOffset(ToLower(if name == [] then name else name[..1]));
    if octave.None? || offset.None? then None
    else Some((octave.value + 1) * 12 + offset.value + AccidentalShift(accidental))
  }

  /** As written, a natural B loses its MIDI number on any accidental change
      (the name left after removing the `b` is not in the table), where the
      letter read apart gives B moved by the new accidental: `b/4` made sharp
      gets NaN instead of 72. */
  lemma AccidentalOnNaturalBAsWritten(key: string, octave: int, accidental: string)
    requires KeyReads(key, "b", octave)
    ensures AccidentalMidiAsWritten(key, accidental) == None
    ensures AccidentalMidi(key, accidental) == Some((octave + 1) * 12 + 11 + AccidentalShift(accidental))
  {
    assert AccidentalMidiAsWritten(key, accidental) == None by {
      assert RemoveFirstAccidental("b") == "";
      assert ToLower("") == "";
    }
    assert Scale[6] + "" == "b";
    AccidentalMidiOfLetterKey(key, 6, "", octave, accidental);
  }

  /** With the letter read apart, the MIDI number after an accidental change
      is the letter's number moved by the new accidental, for a key read as any
      scale letter with any accidental spelled in its name: the number
      `createNoteData` gives the plain letter key with that accidental. */
  lemma AccidentalMidiOfLetterKey(key: string, letter: nat, spelled: string, octave: int, accidental: string)
    requires letter < |Scale| && (spelled == "" || spelled == "#" || spelled == "b")
    requires KeyReads(key, Scale[letter] + spelled, octave)
    ensures AccidentalMidi(key, accidental)
      == Some((octave + 1) * 12 + ScaleOffsets[letter] + AccidentalShift(accidental))
  {
    ScaleLetterFacts(letter);
    assert (Scale[letter] + spelled)[..1] == Scale[letter];
  }

  /** Off the letter B the code as written and the letter read apart agree:
      in a name spelled as a letter from C to A and an accidental, the first
      `#` or `b` is the accidental, so removing it leaves the letter. Only a
      name that starts with `b` tells the two apart. */
  lemma AsWrittenAgreesOffB(key: string, letter: nat, spelled: string, direction: int, accidental: string)
    requires letter < |Scale| - 1 && (spelled == "" || spelled == "#" || spelled == "b")
    requires SlashField0(key) == Scale[letter] + spelled
    ensures StepKeyAsWritten(key, direction) == StepKey(key, direction)
    ensures AccidentalMidiAsWritten(key, accidental) == AccidentalMidi(key, accidental)
  {
    var name := Scale[letter] + spelled;
    ScaleLetterFacts(letter);
    assert !IsAccidentalChar(name[0]);
    assert FirstAccidental(name) == 1 + FirstAccidental(name[1..]);
    assert name[1..] == spelled && name[..1] == Scale[letter];
    assert RemoveFirstAccidental(name) == Scale[letter];
    assert ('#' in name <==> '#' in spelled) && ('b' in name <==> 'b' in spelled);
    assert AccidentalOf(name) == AccidentalOf(spelled);
  }
}
