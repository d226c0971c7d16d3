/**
 * The event list `exportToMidi` builds: a one-track, format-1 Standard MIDI
 * File description at `ppq` ticks per beat, holding a track name, the tempo,
 * the time signature, a note-on/note-off pair per note in measure-then-note
 * order, and the end of the track. Each event carries a `deltaTime`: the ticks
 * since the event before it.
 *
 * The code measures every note-on from the end of the previous note but
 * takes the note's position from its `ticks`, which restart at 0 in every
 * measure: the measure offset is missing. `PlacedNotes` takes the length of a
 * measure as a parameter: 0 for the code as written, which the editor's
 * export performs, and `4 * ppq` for the export with each measure placed
 * after the one before it.
 */
module MidiExport {
  import opened JsBuiltins
  import opened Sequences
  import opened ScoreNotes
  import opened ScoreLayout

  /** One entry of the track array. A missing or NaN number is `None`. */
  datatype MidiEvent =
    | TrackName(deltaTime: int, text: string)
    | SetTempo(deltaTime: int, microsecondsPerBeat: Option<int>)
    | TimeSignature(deltaTime: int, numerator: Option<int>, denominator: Option<int>, metronome: int, thirtyseconds: int)
    | NoteOn(deltaTime: int, noteNumber: Option<int>, velocity: int, channel: int)
    | NoteOff(deltaTime: int, noteNumber: Option<int>, velocity: int, channel: int)
    | EndOfTrack(deltaTime: int)

  datatype MidiHeader = MidiHeader(format: int, numTracks: int, ticksPerBeat: int)

  /** The `midi` object: a header and the list of tracks. */
  datatype MidiData = MidiData(header: MidiHeader, tracks: seq<seq<MidiEvent>>)

  /** `Number(s)` on decimal text: 0 for the empty string, the value of a
      string of digits, NaN (`None`) for anything else. */
  function JsNumber(s: string): (r: Option<int>)
    ensures s == "" ==> r == Some(0)
    ensures r.Some? && s != "" ==> forall i :: 0 <= i < |s| ==> IsDigit(s[i])
  {
    if s == [] then Some(0)
    else if forall i :: 0 <= i < |s| ==> IsDigit(s[i]) then Some(DigitsValue(s))
    else None
  }

  /** `timeSignature.split('/').map(Number)`, first two fields; a missing
      denominator is `Number(undefined)`, NaN. */
  function TimeSignatureNumbers(timeSignature: string): (Option<int>, Option<int>)
  {
    var denominator := SlashField1(timeSignature);
    (JsNumber(SlashField0(timeSignature)), if denominator.Some? then JsNumber(denominator.value) else None)
  }

  /** The editor's only time signature reads as four beats of a quarter. */
  lemma FourFourNumbers()
    ensures TimeSignatureNumbers("4/4") == (Some(4), Some(4))
  {
    SplitJoined("4", "4");
    assert "4" + "/" + "4" == "4/4";
    assert DigitsValue("4") == 4 by {
      assert "4"[..0] == [];
    }
  }

  /** `Math.round(60000000 / tempo)`: microseconds per quarter note. A tempo of
      0 gives Infinity and a NaN tempo NaN; both are `None`. */
  function MicrosecondsPerBeat(tempo: Option<int>): (us: Option<int>)
    ensures us.Some? <==> tempo.Some? && tempo.value != 0
    ensures us.Some? ==> us.value == JsRound(60000000.0 / tempo.value as real)
    ensures us.Some? ==> Abs(us.value as real - 60000000.0 / tempo.value as real) <= 0.5
  {
    if tempo.None? || tempo.value == 0 then None
    else Some(JsRound(60000000.0 / tempo.value as real))
  }

  /** The default tempo of 120 beats a minute is half a second a beat. */
  lemma DefaultTempo()
    ensures MicrosecondsPerBeat(Some(120)) == Some(500000)
  {
  }

  /** The three events before the notes. */
  function HeaderEvents(tempo: Option<int>, timeSignature: string): (es: seq<MidiEvent>)
    ensures |es| == 3
  {
    var numbers := TimeSignatureNumbers(timeSignature);
    [ TrackName(0, "Score Editor Export"),
      SetTempo(0, MicrosecondsPerBeat(tempo)),
      TimeSignature(0, numbers.0, numbers.1, 24, 8) ]
  }

  /** The notes moved `offset` ticks later. */
  function Shifted(ns: seq<NoteData>, offset: int): (r: seq<NoteData>)
    ensures |r| == |ns|
    ensures forall k :: 0 <= k < |ns| ==> r[k] == ns[k].(ticks := ns[k].ticks + offset)
  {
    seq(|ns|, k requires 0 <= k < |ns| => ns[k].(ticks := ns[k].ticks + offset))
  }

  /** Each measure's notes, measure `i` moved `i * measureLength` ticks later. */
  function PlacedMeasures(ms: seq<Measure>, measureLength: int): (parts: seq<seq<NoteData>>)
    ensures |parts| == |ms|
    ensures forall i :: 0 <= i < |ms| ==> parts[i] == Shifted(ms[i].notes, i * measureLength)
  {
    seq(|ms|, i requires 0 <= i < |ms| => Shifted(ms[i].notes, i * measureLength))
  }

  /** The notes of all measures in measure-then-note order, at the ticks the export gives them. */
  function PlacedNotes(ms: seq<Measure>, measureLength: int): seq<NoteData>
  {
    Concat(PlacedMeasures(ms, measureLength))
  }

  /** `currentTick` after the notes `ns`, starting from `current`: the end of the last one. */
  function EndAfter(ns: seq<NoteData>, current: int): int
  {
    if ns == [] then current else ns[|ns| - 1].ticks + ns[|ns| - 1].durationTicks
  }

  /** The two events of one note, the previous one ending at `current`. */
  function NotePair(n: NoteData, current: int): seq<MidiEvent>
  {
    [NoteOn(n.ticks - current, n.midiNote, 80, 0), NoteOff(n.durationTicks, n.midiNote, 0, 0)]
  }

  /** The note events of `ns`, `currentTick` starting at `current`. */
  function NoteEvents(ns: seq<NoteData>, current: int): (es: seq<MidiEvent>)
    ensures |es| == 2 * |ns|
    decreases |ns|
  {
    if ns == [] then []
    else
      var init := ns[..|ns| - 1];
      NoteEvents(init, current) + NotePair(ns[|ns| - 1], EndAfter(init, current))
  }

  /** The whole track; measure 0 supplies the time signature. */
  function Track(ms: seq<Measure>, tempo: Option<int>, measureLength: int): seq<MidiEvent>
    requires |ms| > 0
  {
    HeaderEvents(tempo, ms[0].timeSignature) + NoteEvents(PlacedNotes(ms, measureLength), 0) + [EndOfTrack(0)]
  }

  function MidiOf(track: seq<MidiEvent>): MidiData
  {
    MidiData(MidiHeader(1, 1, Ppq), [track])
  }

  /** `exportToMidi` as written: no measure offset. */
  function ExportAsWritten(ms: seq<Measure>, tempo: Option<int>): MidiData
    requires |ms| > 0
  {
    MidiOf(Track(ms, tempo, 0))
  }

  /** `exportToMidi` with measure `i` placed `i` measures of 4/4 into the piece. */
  function Export(ms: seq<Measure>, tempo: Option<int>): MidiData
    requires |ms| > 0
  {
    MidiOf(Track(ms, tempo, MeasureTicks))
  }

  /*
   * The shape of the track.
   */

  lemma {:induction false} NoteEventsPrefix(ns: seq<NoteData>, current: int, m: nat)
    requires m <= |ns|
    ensures NoteEvents(ns, current)[..2 * m] == NoteEvents(ns[..m], current)
    decreases |ns|
  {
    if m < |ns| {
      var init := ns[..|ns| - 1];
      NoteEventsPrefix(init, current, m);
      assert init[..m] == ns[..m];
      assert NoteEvents(ns, current)[..2 * m] == NoteEvents(init, current)[..2 * m];
    } else {
      assert ns[..m] == ns;
    }
  }

  /** Note `k` gives events `2k` and `2k + 1`: a note-on and a note-off for
      its MIDI number, the note-off `durationTicks` after the note-on. */
  lemma NoteEventsPairs(ns: seq<NoteData>, current: int, k: nat)
    requires k < |ns|
    ensures NoteEvents(ns, current)[2 * k] == NoteOn(ns[k].ticks - EndAfter(ns[..k], current), ns[k].midiNote, 80, 0)
    ensures NoteEvents(ns, current)[2 * k + 1] == NoteOff(ns[k].durationTicks, ns[k].midiNote, 0, 0)
  {
    NoteEventsPrefix(ns, current, k + 1);
    var pre := ns[..k + 1];
    assert pre[..k] == ns[..k];
    assert NoteEvents(pre, current) == NoteEvents(ns[..k], current) + NotePair(ns[k], EndAfter(ns[..k], current));
    assert NoteEvents(ns, current)[2 * k] == NoteEvents(ns, current)[..2 * (k + 1)][2 * k];
    assert NoteEvents(ns, current)[2 * k + 1] == NoteEvents(ns, current)[..2 * (k + 1)][2 * k + 1];
  }

  /** Measure `i`'s notes appear in order after those of the measures before it. */
  lemma PlacedNotesOrder(ms: seq<Measure>, measureLength: int, i: nat, j: nat)
    requires i < |ms| && j < |ms[i].notes|
    ensures |PlacedNotes(ms, measureLength)| == LengthBefore(PlacedMeasures(ms, measureLength), |ms|)
    ensures LengthBefore(PlacedMeasures(ms, measureLength), i) + j < |PlacedNotes(ms, measureLength)|
    ensures PlacedNotes(ms, measureLength)[LengthBefore(PlacedMeasures(ms, measureLength), i) + j]
      == ms[i].notes[j].(ticks := ms[i].notes[j].ticks + i * measureLength)
  {
    ConcatInOrder(PlacedMeasures(ms, measureLength), i, j);
  }

  /** The track: three header events, two per note, the end of the track:
      `4 + 2N` events for `N` notes. */
  lemma TrackShape(ms: seq<Measure>, tempo: Option<int>, measureLength: int)
    requires |ms| > 0
    ensures var t := Track(ms, tempo, measureLength);
      && |t| == 4 + 2 * |PlacedNotes(ms, measureLength)|
      && t[0].TrackName? && t[1] == SetTempo(0, MicrosecondsPerBeat(tempo)) && t[2].TimeSignature?
      && t[|t| - 1] == EndOfTrack(0)
  {
  }

  /** Event `3 + 2k` is the note-on of note `k` and event `4 + 2k` its
      note-off, with the same note number. */
  lemma TrackNotePairs(ms: seq<Measure>, tempo: Option<int>, measureLength: int, k: nat)
    requires |ms| > 0 && k < |PlacedNotes(ms, measureLength)|
    ensures var t := Track(ms, tempo, measureLength);
      var n := PlacedNotes(ms, measureLength)[k];
      && 4 + 2 * k < |t|
      && t[3 + 2 * k].NoteOn? && t[3 + 2 * k].noteNumber == n.midiNote && t[3 + 2 * k].velocity == 80
      && t[4 + 2 * k] == NoteOff(n.durationTicks, n.midiNote, 0, 0)
  {
    NoteEventsPairs(PlacedNotes(ms, measureLength), 0, k);
  }

  /*
   * When the events sound.
   */

  /** The sum of the delta times: the tick of the last event. */
  function SumDeltas(es: seq<MidiEvent>): int
    decreases |es|
  {
    if es == [] then 0 else SumDeltas(es[..|es| - 1]) + es[|es| - 1].deltaTime
  }

  lemma {:induction false} SumDeltasAppend(a: seq<MidiEvent>, b: seq<MidiEvent>)
    ensures SumDeltas(a + b) == SumDeltas(a) + SumDeltas(b)
    decreases |b|
  {
    if b == [] {
      assert a + b == a;
    } else {
      SumDeltasAppend(a, b[..|b| - 1]);
      assert (a + b)[..|a + b| - 1] == a + b[..|b| - 1];
    }
  }

  lemma SumDeltasPair(x: MidiEvent, y: MidiEvent)
    ensures SumDeltas([x, y]) == x.deltaTime + y.deltaTime
  {
    assert [x, y][..1] == [x];
    assert SumDeltas([x]) == x.deltaTime by {
      assert [x][..0] == [];
    }
  }

  /** After the note events the clock is at the end of the last note. */
  lemma {:induction false} NoteEventsEnd(ns: seq<NoteData>, current: int)
    ensures current + SumDeltas(NoteEvents(ns, current)) == EndAfter(ns, current)
    decreases |ns|
  {
    if ns != [] {
      var init := ns[..|ns| - 1];
      NoteEventsEnd(init, current);
      var pair := NotePair(ns[|ns| - 1], EndAfter(init, current));
      SumDeltasAppend(NoteEvents(init, current), pair);
      SumDeltasPair(pair[0], pair[1]);
      assert pair == [pair[0], pair[1]];
    }
  }

  /** Every note-on sounds at its note's ticks and every note-off at the
      note's end, counting the deltas from `current`. */
  lemma NoteEventsTiming(ns: seq<NoteData>, current: int, k: nat)
    requires k < |ns|
    ensures current + SumDeltas(NoteEvents(ns, current)[..2 * k + 1]) == ns[k].ticks
    ensures current + SumDeltas(NoteEvents(ns, current)[..2 * k + 2]) == ns[k].ticks + ns[k].durationTicks
  {
    var es := NoteEvents(ns, current);
    var before := NoteEvents(ns[..k], current);
    NoteEventsPrefix(ns, current, k);
    NoteEventsEnd(ns[..k], current);
    NoteEventsPairs(ns, current, k);
    assert es[..2 * k + 1] == before + [es[2 * k]];
    assert es[..2 * k + 2] == before + [es[2 * k], es[2 * k + 1]];
    SumDeltasAppend(before, [es[2 * k]]);
    SumDeltasAppend(before, [es[2 * k], es[2 * k + 1]]);
    assert [es[2 * k], es[2 * k + 1]][..1] == [es[2 * k]];
    assert [es[2 * k]][..0] == [];
    if k > 0 {
      assert ns[..k][k - 1] == ns[k - 1];
    }
  }

  /** Events that all have a zero delta time take no time. */
  lemma {:induction false} SilentEvents(es: seq<MidiEvent>)
    requires forall i :: 0 <= i < |es| ==> es[i].deltaTime == 0
    ensures SumDeltas(es) == 0
    decreases |es|
  {
    if es != [] {
      SilentEvents(es[..|es| - 1]);
    }
  }

  /** In the whole track, note `k`'s note-on sounds at its placed ticks and
      its note-off at its placed end: the header events take no time. */
  lemma TrackTiming(ms: seq<Measure>, tempo: Option<int>, measureLength: int, k: nat)
    requires |ms| > 0 && k < |PlacedNotes(ms, measureLength)|
    ensures var t := Track(ms, tempo, measureLength);
      var n := PlacedNotes(ms, measureLength)[k];
      && 4 + 2 * k < |t|
      && SumDeltas(t[..4 + 2 * k]) == n.ticks
      && SumDeltas(t[..5 + 2 * k]) == n.ticks + n.durationTicks
  {
    var ns := PlacedNotes(ms, measureLength);
    var es := NoteEvents(ns, 0);
    var header := HeaderEvents(tempo, ms[0].timeSignature);
    var t := header + es + [EndOfTrack(0)];
    NoteEventsTiming(ns, 0, k);
    SilentEvents(header);
    assert |header| == 3;
    PrefixOfConcat(header, es, [EndOfTrack(0)], 2 * k + 1);
    PrefixOfConcat(header, es, [EndOfTrack(0)], 2 * k + 2);
    SumDeltasAppend(header, es[..2 * k + 1]);
    SumDeltasAppend(header, es[..2 * k + 2]);
  }

  /** Note events of consecutive runs of notes join up. */
  lemma {:induction false} NoteEventsAppend(a: seq<NoteData>, b: seq<NoteData>, current: int)
    ensures NoteEvents(a + b, current) == NoteEvents(a, current) + NoteEvents(b, EndAfter(a, current))
    decreases |b|
  {
    if b == [] {
      assert a + b == a;
    } else {
      var init := b[..|b| - 1];
      NoteEventsAppend(a, init, current);
      assert (a + b)[..|a + b| - 1] == a + init;
      EndAfterAppend(a, init, current);
    }
  }

  /** The note events of the first `i` measures. */
  function EventsBefore(ms: seq<Measure>, measureLength: int, i: nat): seq<MidiEvent>
    requires i <= |ms|
  {
    NoteEvents(Concat(PlacedMeasures(ms, measureLength)[..i]), 0)
  }

  /** `currentTick` after the first `i` measures. */
  function TickBefore(ms: seq<Measure>, measureLength: int, i: nat): int
    requires i <= |ms|
  {
    EndAfter(Concat(PlacedMeasures(ms, measureLength)[..i]), 0)
  }

  /** One more measure of the outer loop of the export: its events follow
      those of the measures before it, from where they ended. */
  lemma PlacedPrefixStep(ms: seq<Measure>, measureLength: int, i: nat)
    requires i < |ms|
    ensures EventsBefore(ms, measureLength, i + 1)
      == EventsBefore(ms, measureLength, i) + NoteEvents(Shifted(ms[i].notes, i * measureLength), TickBefore(ms, measureLength, i))
    ensures TickBefore(ms, measureLength, i + 1)
      == EndAfter(Shifted(ms[i].notes, i * measureLength), TickBefore(ms, measureLength, i))
  {
    var parts := PlacedMeasures(ms, measureLength);
    assert Concat(parts[..i + 1]) == Concat(parts[..i]) + parts[i] by {
      assert parts[..i + 1][..i] == parts[..i];
    }
    NoteEventsAppend(Concat(parts[..i]), parts[i], 0);
    EndAfterAppend(Concat(parts[..i]), parts[i], 0);
  }

  /** Before any measure nothing is emitted and the clock is at 0; after all
      of them the events are those of the whole track. */
  lemma PlacedPrefixEnds(ms: seq<Measure>, tempo: Option<int>, measureLength: int)
    requires |ms| > 0
    ensures EventsBefore(ms, measureLength, 0) == [] && TickBefore(ms, measureLength, 0) == 0
    ensures Track(ms, tempo, measureLength)
      == HeaderEvents(tempo, ms[0].timeSignature) + EventsBefore(ms, measureLength, |ms|) + [EndOfTrack(0)]
  {
    var parts := PlacedMeasures(ms, measureLength);
    assert parts[..0] == [];
    assert parts[..|ms|] == parts;
  }

  /** The inner loop of the export: the events of one measure's notes, each
      at its own `ticks`, appended to `track`. */
  method AppendNoteEvents(track: seq<MidiEvent>, currentTick: int, notes: seq<NoteData>)
    returns (newTrack: seq<MidiEvent>, newTick: int)
    ensures newTrack == track + NoteEvents(notes, currentTick)
    ensures newTick == EndAfter(notes, currentTick)
  {
    newTrack, newTick := track, currentTick;
    var j := 0;
    while j < |notes|
      invariant j <= |notes|
      invariant newTrack == track + NoteEvents(notes[..j], currentTick)
      invariant newTick == EndAfter(notes[..j], currentTick)
    {
      var note := notes[j];
      newTrack := newTrack + [NoteOn(note.ticks - newTick, note.midiNote, 80, 0), NoteOff(note.durationTicks, note.midiNote, 0, 0)];
      newTick := note.ticks;
      newTick := newTick + note.durationTicks;
      assert notes[..j + 1][..j] == notes[..j];
      j := j + 1;
    }
    assert notes[..j] == notes;
  }

  /** Notes moved by nothing stay where they are. */
  lemma ShiftedByZero(ns: seq<NoteData>)
    ensures Shifted(ns, 0) == ns
  {
  }

  /** The measure loop of `exportToMidi` as written: the note events of
      measure after measure with no measure offset, then the header in front
      of them and the end of the track. */
  method ExportMeasures(ms: seq<Measure>, tempo: Option<int>) returns (midi: MidiData)
    requires |ms| > 0
    ensures midi == ExportAsWritten(ms, tempo)
  {
    var events := [];
    var currentTick := 0;
    PlacedPrefixEnds(ms, tempo, 0);
    var i := 0;
    while i < |ms|
      invariant i <= |ms|
      invariant events == EventsBefore(ms, 0, i)
      invariant currentTick == TickBefore(ms, 0, i)
    {
      PlacedPrefixStep(ms, 0, i);
      ShiftedByZero(ms[i].notes);
      events, currentTick := AppendNoteEvents(events, currentTick, ms[i].notes);
      i := i + 1;
    }
    var track := HeaderEvents(tempo, ms[0].timeSignature) + events + [EndOfTrack(0)];
    midi := MidiOf(track);
  }

  /*
   * The missing measure offset.
   */

  /** A quarter note `c/4` at the start of a measure. */
  const QuarterC4: NoteData := NoteData("c/4", "q", "", Some(60), 0, Ppq, "")

  /** Two 4/4 measures holding one quarter note each, as the editor lays them out. */
  const TwoQuarters: seq<Measure> := [Measure([QuarterC4], "4/4"), Measure([QuarterC4], "4/4")]

  lemma TwoQuartersPlaced(measureLength: int)
    ensures PlacedNotes(TwoQuarters, measureLength)
      == [QuarterC4, QuarterC4.(ticks := measureLength)]
  {
    var parts := PlacedMeasures(TwoQuarters, measureLength);
    assert parts[0] == [QuarterC4];
    assert parts[1] == [QuarterC4.(ticks := measureLength)];
    assert parts[..1][..0] == [];
    assert parts[..2] == parts;
    assert Concat(parts[..1]) == [QuarterC4];
  }

  /** As written, the second note's note-on has a delta of -480 ticks: it is
      placed before the end of the first note instead of a measure later, so
      both measures sound at once. */
  lemma ExportAsWrittenGoesBack()
    ensures ExportAsWritten(TwoQuarters, Some(120)).tracks[0][5] == NoteOn(-480, Some(60), 80, 0)
  {
    TwoQuartersPlaced(0);
    NoteEventsPairs(PlacedNotes(TwoQuarters, 0), 0, 1);
    assert [QuarterC4, QuarterC4.(ticks := 0)][..1] == [QuarterC4];
  }

  /** With the measure offset, the second note starts right after a whole
      measure: a rest of three beats after the first quarter. */
  lemma ExportPlacesSecondMeasure()
    ensures Export(TwoQuarters, Some(120)).tracks[0][5] == NoteOn(3 * Ppq, Some(60), 80, 0)
  {
    TwoQuartersPlaced(MeasureTicks);
    NoteEventsPairs(PlacedNotes(TwoQuarters, MeasureTicks), 0, 1);
    assert [QuarterC4, QuarterC4.(ticks := MeasureTicks)][..1] == [QuarterC4];
  }

  /** `currentTick` when note `k` of `ns` is reached: the end of note `k - 1`,
      or `current` for the first note. */
  function PrevEnd(ns: seq<NoteData>, k: nat, current: int): (t: int)
    requires k <= |ns|
    ensures t == EndAfter(ns[..k], current)
  {
    if k == 0 then current else ns[k - 1].ticks + ns[k - 1].durationTicks
  }

  /** Every note of `ns` starts at or after the end of the one before it (or
      at or after `current` for the first) and has no negative duration. */
  predicate InOrder(ns: seq<NoteData>, current: int)
  {
    && DurationsNonNegative(ns)
    && forall k {:trigger PrevEnd(ns, k, current)} :: 0 <= k < |ns| ==> ns[k].ticks >= PrevEnd(ns, k, current)
  }

  /** No delta time in the note events is negative when the notes are in order. */
  lemma {:induction false} InOrderDeltas(ns: seq<NoteData>, current: int)
    requires InOrder(ns, current)
    ensures forall i :: 0 <= i < |NoteEvents(ns, current)| ==> NoteEvents(ns, current)[i].deltaTime >= 0
    decreases |ns|
  {
    if ns != [] {
      var init := ns[..|ns| - 1];
      forall k | 0 <= k < |init|
        ensures init[k].ticks >= PrevEnd(init, k, current)
      {
        assert ns[k].ticks >= PrevEnd(ns, k, current);
      }
      InOrderDeltas(init, current);
      assert ns[|ns| - 1].ticks >= PrevEnd(ns, |ns| - 1, current);
    }
  }

  lemma EndAfterAppend(a: seq<NoteData>, b: seq<NoteData>, current: int)
    ensures EndAfter(a + b, current) == EndAfter(b, EndAfter(a, current))
  {
    if b == [] {
      assert a + b == a;
    }
  }

  lemma InOrderAppend(a: seq<NoteData>, b: seq<NoteData>, current: int)
    requires InOrder(a, current) && InOrder(b, EndAfter(a, current))
    ensures InOrder(a + b, current)
  {
    var ab := a + b;
    forall k | 0 <= k < |ab|
      ensures ab[k].ticks >= PrevEnd(ab, k, current)
    {
      if k < |a| {
        assert ab[k].ticks >= PrevEnd(a, k, current);
      } else {
        assert ab[k].ticks >= PrevEnd(b, k - |a|, EndAfter(a, current));
      }
    }
  }

  lemma InOrderFromEarlier(b: seq<NoteData>, early: int, late: int)
    requires early <= late && InOrder(b, late)
    ensures InOrder(b, early)
  {
    forall k | 0 <= k < |b|
      ensures b[k].ticks >= PrevEnd(b, k, early)
    {
      assert b[k].ticks >= PrevEnd(b, k, late);
    }
  }

  /** A laid-out measure moved to `offset` is in order from `offset` and ends
      at `offset` plus its total length. */
  lemma LaidOutShifted(ns: seq<NoteData>, offset: int)
    requires LaidOut(ns) && DurationsNonNegative(ns)
    ensures InOrder(Shifted(ns, offset), offset)
    ensures EndAfter(Shifted(ns, offset), offset) == offset + TotalTicks(ns)
  {
    var s := Shifted(ns, offset);
    forall k | 0 <= k < |s|
      ensures s[k].ticks >= PrevEnd(s, k, offset)
    {
    }
  }

  /** A measure laid out by `updateNotePositions` and no longer than 4/4. */
  predicate WellFormedMeasure(m: Measure)
  {
    LaidOut(m.notes) && DurationsNonNegative(m.notes) && TotalTicks(m.notes) <= MeasureTicks
  }

  /** The notes of a part placed at `offset` are in order and end within one measure. */
  predicate PartFits(part: seq<NoteData>, offset: int)
  {
    InOrder(part, offset) && EndAfter(part, offset) <= offset + MeasureTicks
  }

  lemma {:induction false} PartsInOrder(parts: seq<seq<NoteData>>, n: nat)
    requires n <= |parts|
    requires forall i :: 0 <= i < |parts| ==> PartFits(parts[i], i * MeasureTicks)
    ensures InOrder(Concat(parts[..n]), 0) && EndAfter(Concat(parts[..n]), 0) <= n * MeasureTicks
    decreases n
  {
    if n > 0 {
      var before := Concat(parts[..n - 1]);
      var part := parts[n - 1];
      var offset := (n - 1) * MeasureTicks;
      PartsInOrder(parts, n - 1);
      assert Concat(parts[..n]) == before + part by {
        assert parts[..n][..n - 1] == parts[..n - 1];
      }
      assert PartFits(part, offset);
      InOrderFromEarlier(part, EndAfter(before, 0), offset);
      InOrderAppend(before, part, 0);
      EndAfterAppend(before, part, 0);
    } else {
      assert parts[..0] == [];
    }
  }

  /** Every well-formed measure fits its place. */
  lemma PlacedMeasuresFit(ms: seq<Measure>)
    requires forall i :: 0 <= i < |ms| ==> WellFormedMeasure(ms[i])
    ensures forall i :: 0 <= i < |ms| ==> PartFits(PlacedMeasures(ms, MeasureTicks)[i], i * MeasureTicks)
  {
    forall i | 0 <= i < |ms|
      ensures PartFits(PlacedMeasures(ms, MeasureTicks)[i], i * MeasureTicks)
    {
      LaidOutShifted(ms[i].notes, i * MeasureTicks);
    }
  }

  /** With the measure offset, the notes of well-formed measures are in order. */
  lemma PlacedNotesInOrder(ms: seq<Measure>)
    requires forall i :: 0 <= i < |ms| ==> WellFormedMeasure(ms[i])
    ensures InOrder(PlacedNotes(ms, MeasureTicks), 0)
  {
    var parts := PlacedMeasures(ms, MeasureTicks);
    PlacedMeasuresFit(ms);
    PartsInOrder(parts, |ms|);
    assert parts[..|ms|] == parts;
  }

  /** A track whose notes are in order has no negative delta time. */
  lemma TrackDeltasNonNegative(ms: seq<Measure>, tempo: Option<int>, measureLength: int)
    requires |ms| > 0 && InOrder(PlacedNotes(ms, measureLength), 0)
    ensures forall i :: 0 <= i < |Track(ms, tempo, measureLength)| ==> Track(ms, tempo, measureLength)[i].deltaTime >= 0
  {
    var es := NoteEvents(PlacedNotes(ms, measureLength), 0);
    InOrderDeltas(PlacedNotes(ms, measureLength), 0);
    var track := HeaderEvents(tempo, ms[0].timeSignature) + es + [EndOfTrack(0)];
    forall i | 0 <= i < |track|
      ensures track[i].deltaTime >= 0
    {
      if 3 <= i < 3 + |es| {
        assert track[i] == es[i - 3];
      }
    }
  }

  /** A score of one measure has no measure offset to miss: the export as
      written is the export with the offset. */
  lemma ExportAgreesOnOneMeasure(ms: seq<Measure>, tempo: Option<int>)
    requires |ms| == 1
    ensures ExportAsWritten(ms, tempo) == Export(ms, tempo)
  {
    assert PlacedMeasures(ms, 0) == PlacedMeasures(ms, MeasureTicks);
  }

  /** With the measure offset, a score whose measures are laid out and no
      longer than 4/4 exports with no negative delta time. */
  lemma ExportDeltasNonNegative(ms: seq<Measure>, tempo: Option<int>)
    requires |ms| > 0 && forall i :: 0 <= i < |ms| ==> WellFormedMeasure(ms[i])
    ensures forall i :: 0 <= i < |Export(ms, tempo).tracks[0]| ==> Export(ms, tempo).tracks[0][i].deltaTime >= 0
  {
    PlacedNotesInOrder(ms);
    TrackDeltasNonNegative(ms, tempo, MeasureTicks);
  }
}
