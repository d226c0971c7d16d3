/**
 * Note quantisation of the pitch detector (`frequencyToNote`): a frequency is
 * placed on the equal-tempered semitone grid around the reference A4, the
 * nearest semitone gives the pitch class and the octave in scientific pitch
 * notation (the octave number changes between B and C), and the remainder
 * gives the deviation in cents.
 *
 * The base-2 logarithm is not computed by the model: a `Tuning` carries it as
 * an arbitrary function, and every result here holds whatever values it takes.
 */
module NoteQuantizer {
  import opened JsBuiltins

  /** An index into the C-rooted pitch-class table. */
  type PitchClass = i: int | 0 <= i < 12

  const PitchClassNames: seq<string> :=
    ["C", "C#", "D", "D#", "E", "F", "F#", "G", "G#", "A", "A#", "B"]

  /** Index of A in `PitchClassNames`: the semitone grid is counted from A4. */
  const IndexOfA: int := 9

  /** A strictly positive frequency in Hz. */
  type Hz = r: real | r > 0.0 witness 440.0

  /** The reference pitch `A4` (440 Hz unless configured) and the logarithm `Math.log2`. */
  datatype Tuning = Tuning(a4: Hz, log2: real -> real) {
    /** `12 * Math.log2(freq / A4)`: the signed distance from A4 in semitones. */
    function NoteNumber(freq: real): real
    {
      12.0 * log2(freq / a4)
    }
  }

  /** What `frequencyToNote` returns: the "no note" sentinel (name `--`, cents 0,
      octave 0) or a pitch class, an octave and a cents deviation. */
  datatype NoteInfo = NoNote | Note(noteIndex: PitchClass, octave: int, cents: int)
  {
    /** The `name` field: pitch class followed by the octave, e.g. `"C4"`, `"F#5"`. */
    function Name(): string
    {
      if NoNote? then "--" else PitchClassNames[noteIndex] + IntToString(octave)
    }

    /** The `cents` field (0 on the sentinel). */
    function Cents(): int
    {
      if NoNote? then 0 else cents
    }

    /** The signed number of semitones from A4 that this note stands for. */
    function Semitone(): int
      requires Note?
    {
      12 * (octave - 4) + noteIndex - IndexOfA
    }
  }

  /** `(r + 9) % 12`, plus 12 when that JavaScript remainder is negative. */
  function NoteIndexOf(r: int): (i: PitchClass)
    ensures i == (r + IndexOfA) % 12
  {
    var k := TruncRem(r + IndexOfA, 12);
    if k < 0 then k + 12 else k
  }

  /** `Math.floor((r + 9) / 12) + 4`. */
  function OctaveOf(r: int): (o: int)
    ensures 12 * (o - 4) <= r + IndexOfA < 12 * (o - 4) + 12
  {
    ((r + IndexOfA) as real / 12.0).Floor + 4
  }

  /** The note `r` semitones from A4, with the given cents deviation. */
  function NoteAt(r: int, cents: int): (n: NoteInfo)
    ensures n.Note? && n.cents == cents
    ensures n.Semitone() == r
  {
    Note(NoteIndexOf(r), OctaveOf(r), cents)
  }

  /** The quantisation proper, on the fractional semitone number `noteNum`. */
  function Quantize(noteNum: real): (n: NoteInfo)
    ensures n.Note?
    ensures n.Semitone() == JsRound(noteNum)
    ensures -0.5 <= noteNum - n.Semitone() as real < 0.5
    ensures -50 <= n.cents <= 50
    ensures n.cents == JsRound((noteNum - n.Semitone() as real) * 100.0)
    ensures Abs(n.cents as real - 100.0 * (noteNum - n.Semitone() as real)) <= 0.5
  {
    var rounded := JsRound(noteNum);
    var cents := JsRound((noteNum - rounded as real) * 100.0);
    NoteAt(rounded, cents)
  }

  /** `frequencyToNote(freq)`. */
  function FrequencyToNote(t: Tuning, freq: real): (n: NoteInfo)
    ensures n.NoNote? <==> freq <= 0.0
    ensures n.Note? ==> n.Semitone() == JsRound(t.NoteNumber(freq)) && -50 <= n.cents <= 50
    ensures freq > 0.0 ==> n == Quantize(t.NoteNumber(freq))
  {
    if freq <= 0.0 then NoNote else Quantize(t.NoteNumber(freq))
  }

  /** The pair (pitch class, octave) recovers the semitone number, and every
      pair is reached: the semitone grid and the (pitch class, octave) pairs
      are in one-to-one correspondence. */
  lemma NoteAtOfPair(pc: PitchClass, octave: int, cents: int)
    ensures NoteAt(12 * (octave - 4) + pc - IndexOfA, cents) == Note(pc, octave, cents)
  {
    var r := 12 * (octave - 4) + pc - IndexOfA;
    assert r + IndexOfA == 12 * (octave - 4) + pc;
    assert OctaveOf(r) == octave;
  }

  /** The octave is the only one whose twelve semitones contain `r`. */
  lemma OctaveOfIs(r: int, o: int)
    requires 12 * (o - 4) <= r + IndexOfA < 12 * (o - 4) + 12
    ensures OctaveOf(r) == o
  {
  }

  /** The pitch class is the remainder of `r` within that octave. */
  lemma NoteIndexOfIs(r: int, o: int, m: int)
    requires 0 <= m < 12 && r + IndexOfA == 12 * (o - 4) + m
    ensures NoteIndexOf(r) == m
  {
  }

  /** The octave number goes up by one exactly where the pitch class wraps round to C. */
  lemma OctaveChangesAtC(r: int)
    ensures NoteIndexOf(r + 1) == (NoteIndexOf(r) + 1) % 12
    ensures OctaveOf(r + 1) == if NoteIndexOf(r + 1) == 0 then OctaveOf(r) + 1 else OctaveOf(r)
  {
    var o := OctaveOf(r);
    var m := r + IndexOfA - 12 * (o - 4);
    NoteIndexOfIs(r, o, m);
    if m == 11 {
      OctaveOfIs(r + 1, o + 1);
      NoteIndexOfIs(r + 1, o + 1, 0);
    } else {
      OctaveOfIs(r + 1, o);
      NoteIndexOfIs(r + 1, o, m + 1);
    }
  }

  /** A4 is 0 semitones from the reference, C4 is 9 below, C3 is 21 below. */
  lemma ReferenceNames()
    ensures NoteAt(0, 0).Name() == "A4"
    ensures NoteAt(-9, 0).Name() == "C4"
    ensures NoteAt(-21, 0).Name() == "C3"
    ensures NoteAt(-10, 0).Name() == "B3"
    ensures NoteAt(3, 0).Name() == "C5"
  {
    assert IntToString(4) == "4" && IntToString(3) == "3" && IntToString(5) == "5";
  }

  lemma PitchClassNamesDistinct(i: PitchClass, j: PitchClass)
    requires PitchClassNames[i] == PitchClassNames[j]
    ensures i == j
  {
  }

  lemma NoteNameIsNotSentinel(n: NoteInfo)
    requires n.Note?
    ensures n.Name() != "--"
  {
    assert n.Name()[0] == PitchClassNames[n.noteIndex][0];
  }

  /** Two quantised notes carry the same `name` exactly when they are the same
      pitch class in the same octave, so comparing names compares notes. */
  lemma {:induction false} NameDeterminesNote(a: NoteInfo, b: NoteInfo)
    requires a.Name() == b.Name()
    ensures a.NoNote? <==> b.NoNote?
    ensures a.Note? ==> a.noteIndex == b.noteIndex && a.octave == b.octave
  {
    if a.Note? { NoteNameIsNotSentinel(a); }
    if b.Note? { NoteNameIsNotSentinel(b); }
    if a.Note? && b.Note? {
      var pa, pb := PitchClassNames[a.noteIndex], PitchClassNames[b.noteIndex];
      var sa, sb := IntToString(a.octave), IntToString(b.octave);
      var name := a.Name();
      assert name == pa + sa == pb + sb;
      assert 1 <= |pa| <= 2 && 1 <= |pb| <= 2;
      assert |name| >= 2;
      assert (|pa| == 2) == (name[1] == '#') by {
        if |pa| == 1 { assert name[1] == sa[0]; } else { assert name[1] == pa[1]; }
      }
      assert (|pb| == 2) == (name[1] == '#') by {
        if |pb| == 1 { assert name[1] == sb[0]; } else { assert name[1] == pb[1]; }
      }
      assert pa == name[..|pa|] == pb;
      PitchClassNamesDistinct(a.noteIndex, b.noteIndex);
      assert sa == name[|pa|..] == sb;
      IntToStringInjective(a.octave, b.octave);
    }
  }

  /*
   * Quantisation is monotone in the frequency.
   */

  /** A logarithm that never decreases, as `Math.log2` does not: the one
      property of the logarithm the quantised name of a frequency between two
      others depends on. */
  ghost predicate MonotoneLog(t: Tuning)
  {
    forall x, y :: 0.0 < x <= y ==> t.log2(x) <= t.log2(y)
  }

  lemma NoteNumberMonotone(t: Tuning, f: real, g: real)
    requires MonotoneLog(t) && 0.0 < f <= g
    ensures t.NoteNumber(f) <= t.NoteNumber(g)
  {
    assert 0.0 < f / t.a4 <= g / t.a4;
    assert t.log2(f / t.a4) <= t.log2(g / t.a4);
  }

  /** The semitone number determines the pitch class and the octave. */
  lemma SemitoneDeterminesNote(a: NoteInfo, b: NoteInfo)
    requires a.Note? && b.Note? && a.Semitone() == b.Semitone()
    ensures a.noteIndex == b.noteIndex && a.octave == b.octave
  {
    OctaveOfIs(a.Semitone(), a.octave);
    OctaveOfIs(b.Semitone(), b.octave);
  }

  /** A frequency between two frequencies that quantise to the same name
      quantises to that name too. */
  lemma BetweenSameName(t: Tuning, lo: real, mid: real, hi: real)
    requires MonotoneLog(t) && lo <= mid <= hi
    requires FrequencyToNote(t, lo).Name() == FrequencyToNote(t, hi).Name()
    ensures FrequencyToNote(t, mid).Name() == FrequencyToNote(t, lo).Name()
  {
    var nlo, nmid, nhi := FrequencyToNote(t, lo), FrequencyToNote(t, mid), FrequencyToNote(t, hi);
    NameDeterminesNote(nlo, nhi);
    if lo > 0.0 {
      NoteNumberMonotone(t, lo, mid);
      NoteNumberMonotone(t, mid, hi);
      JsRoundMonotone(t.NoteNumber(lo), t.NoteNumber(mid));
      JsRoundMonotone(t.NoteNumber(mid), t.NoteNumber(hi));
      assert nlo.Semitone() == nhi.Semitone();
      SemitoneDeterminesNote(nmid, nlo);
    }
  }
}
