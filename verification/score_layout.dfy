/**
 * The per-measure layout of `updateNotePositions`: the notes of a measure are
 * sorted by `ticks` with `Array.prototype.sort`, which ECMAScript 2019 and
 * later require to be stable, and then laid end to end from tick 0, each note
 * starting where the one before it ends. Also the position and the capacity
 * test of the add path of `handleStaveClick`.
 */
module ScoreLayout {
  import opened ScoreNotes

  /** One entry of `scoreData.measures`. */
  datatype Measure = Measure(notes: seq<NoteData>, timeSignature: string)

  /** The length of a 4/4 measure, `ppq * 4`. */
  const MeasureTicks: int := Ppq * 4

  /*
   * The sort.
   */

  predicate SortedByTicks(ns: seq<NoteData>)
  {
    forall i, j :: 0 <= i < j < |ns| ==> ns[i].ticks <= ns[j].ticks
  }

  /** `n` placed after every note of `s` whose ticks are not larger than its own,
      before the first larger one. */
  function InsertByTicks(n: NoteData, s: seq<NoteData>): (r: seq<NoteData>)
    ensures |r| == |s| + 1
    decreases |s|
  {
    if s == [] || n.ticks < s[0].ticks then [n] + s else [s[0]] + InsertByTicks(n, s[1..])
  }

  lemma {:induction false} InsertIsPermutation(n: NoteData, s: seq<NoteData>)
    ensures multiset(InsertByTicks(n, s)) == multiset(s) + multiset{n}
    decreases |s|
  {
    if s != [] && n.ticks >= s[0].ticks {
      InsertIsPermutation(n, s[1..]);
      assert s == [s[0]] + s[1..];
    }
  }

  /** `notes.sort((a, b) => a.ticks - b.ticks)`: an insertion sort, each note
      going in after the notes before it with the same ticks. */
  function SortByTicks(ns: seq<NoteData>): (r: seq<NoteData>)
    ensures |r| == |ns|
    decreases |ns|
  {
    if ns == [] then [] else InsertByTicks(ns[|ns| - 1], SortByTicks(ns[..|ns| - 1]))
  }

  /** The sort is a permutation: the same notes, as many times each. */
  lemma {:induction false} SortIsPermutation(ns: seq<NoteData>)
    ensures multiset(SortByTicks(ns)) == multiset(ns)
    decreases |ns|
  {
    if ns != [] {
      SortIsPermutation(ns[..|ns| - 1]);
      InsertIsPermutation(ns[|ns| - 1], SortByTicks(ns[..|ns| - 1]));
      assert ns == ns[..|ns| - 1] + [ns[|ns| - 1]];
    }
  }

  lemma {:induction false} InsertKeepsSorted(n: NoteData, s: seq<NoteData>)
    requires SortedByTicks(s)
    ensures SortedByTicks(InsertByTicks(n, s))
    decreases |s|
  {
    if s != [] && n.ticks >= s[0].ticks {
      var rest := InsertByTicks(n, s[1..]);
      InsertKeepsSorted(n, s[1..]);
      InsertIsPermutation(n, s[1..]);
      forall k | 0 <= k < |rest|
        ensures s[0].ticks <= rest[k].ticks
      {
        assert rest[k] in multiset(rest);
        if rest[k] != n {
          assert rest[k] in s[1..];
          var j :| 0 <= j < |s[1..]| && s[1..][j] == rest[k];
          assert s[j + 1] == rest[k];
        }
      }
      var r := [s[0]] + rest;
      forall i, j | 0 <= i < j < |r|
        ensures r[i].ticks <= r[j].ticks
      {
        if i > 0 {
          assert r[i] == rest[i - 1] && r[j] == rest[j - 1];
        } else {
          assert r[j] == rest[j - 1];
        }
      }
    }
  }

  /** The sort returns its notes in order of ticks. */
  lemma {:induction false} SortIsSorted(ns: seq<NoteData>)
    ensures SortedByTicks(SortByTicks(ns))
    decreases |ns|
  {
    if ns != [] {
      SortIsSorted(ns[..|ns| - 1]);
      InsertKeepsSorted(ns[|ns| - 1], SortByTicks(ns[..|ns| - 1]));
    }
  }

  /** The notes of `ns` at tick `t`, in their order in `ns`. */
  function AtTick(ns: seq<NoteData>, t: int): seq<NoteData>
    decreases |ns|
  {
    if ns == [] then [] else (if ns[0].ticks == t then [ns[0]] else []) + AtTick(ns[1..], t)
  }

  lemma {:induction false} AtTickAppend(a: seq<NoteData>, b: seq<NoteData>, t: int)
    ensures AtTick(a + b, t) == AtTick(a, t) + AtTick(b, t)
    decreases |a|
  {
    if a == [] {
      assert a + b == b;
    } else {
      assert (a + b)[1..] == a[1..] + b;
      AtTickAppend(a[1..], b, t);
    }
  }

  lemma {:induction false} AtTickBelowFirst(s: seq<NoteData>, t: int)
    requires SortedByTicks(s) && s != [] && t < s[0].ticks
    ensures AtTick(s, t) == []
    decreases |s|
  {
    if |s| > 1 {
      AtTickBelowFirst(s[1..], t);
    }
  }

  lemma {:induction false} InsertAtTick(n: NoteData, s: seq<NoteData>, t: int)
    requires SortedByTicks(s)
    ensures AtTick(InsertByTicks(n, s), t) == AtTick(s, t) + AtTick([n], t)
    decreases |s|
  {
    if s == [] {
    } else if n.ticks < s[0].ticks {
      AtTickAppend([n], s, t);
      if n.ticks == t {
        AtTickBelowFirst(s, t);
      }
    } else {
      InsertAtTick(n, s[1..], t);
    }
  }

  /** The sort is stable: the notes at any one tick keep their order. */
  lemma {:induction false} SortIsStable(ns: seq<NoteData>, t: int)
    ensures AtTick(SortByTicks(ns), t) == AtTick(ns, t)
    decreases |ns|
  {
    if ns != [] {
      var init, last := ns[..|ns| - 1], ns[|ns| - 1];
      SortIsStable(init, t);
      SortIsSorted(init);
      InsertAtTick(last, SortByTicks(init), t);
      assert SortByTicks(ns) == InsertByTicks(last, SortByTicks(init));
      assert AtTick(ns, t) == AtTick(init, t) + AtTick([last], t) by {
        assert ns == init + [last];
        AtTickAppend(init, [last], t);
      }
    }
  }

  lemma {:induction false} InsertAfterAll(n: NoteData, s: seq<NoteData>)
    requires forall k :: 0 <= k < |s| ==> s[k].ticks <= n.ticks
    ensures InsertByTicks(n, s) == s + [n]
    decreases |s|
  {
    if s != [] {
      InsertAfterAll(n, s[1..]);
      assert s == [s[0]] + s[1..];
    }
  }

  /** Notes already in order of ticks are left as they are. */
  lemma {:induction false} SortOfSorted(ns: seq<NoteData>)
    requires SortedByTicks(ns)
    ensures SortByTicks(ns) == ns
    decreases |ns|
  {
    if ns != [] {
      var init, last := ns[..|ns| - 1], ns[|ns| - 1];
      assert SortByTicks(init) == init by {
        forall i, j | 0 <= i < j < |init|
          ensures init[i].ticks <= init[j].ticks
        {
          assert init[i] == ns[i] && init[j] == ns[j];
        }
        SortOfSorted(init);
      }
      assert InsertByTicks(last, init) == init + [last] by {
        forall k | 0 <= k < |init|
          ensures init[k].ticks <= last.ticks
        {
          assert init[k] == ns[k];
        }
        InsertAfterAll(last, init);
      }
      assert SortByTicks(ns) == InsertByTicks(last, SortByTicks(init));
      assert ns == init + [last];
    }
  }

  /*
   * The tick assignment.
   */

  /** Where note `k` starts once the notes before it are laid end to end from 0. */
  function StartOf(ns: seq<NoteData>, k: nat): int
    requires k <= |ns|
  {
    if k == 0 then 0 else StartOf(ns, k - 1) + ns[k - 1].durationTicks
  }

  /** The total length of the notes laid end to end. */
  function TotalTicks(ns: seq<NoteData>): int
  {
    StartOf(ns, |ns|)
  }

  /** The notes with their ticks reassigned: each at its `StartOf`. */
  function Relayout(ns: seq<NoteData>): (r: seq<NoteData>)
    ensures |r| == |ns|
    ensures forall k {:trigger r[k]} :: 0 <= k < |ns| ==> r[k] == ns[k].(ticks := StartOf(ns, k))
  {
    seq(|ns|, k requires 0 <= k < |ns| => ns[k].(ticks := StartOf(ns, k)))
  }

  /** `updateNotePositions` on one measure's notes. */
  function LayoutMeasure(ns: seq<NoteData>): (r: seq<NoteData>)
    ensures |r| == |ns|
  {
    Relayout(SortByTicks(ns))
  }

  /** The first note is at 0, each next one at the previous ticks plus the
      previous duration, and nothing but the ticks changes. */
  lemma RelayoutTicks(ns: seq<NoteData>, k: nat)
    requires k < |ns|
    ensures Relayout(ns)[0].ticks == 0
    ensures k + 1 < |ns| ==> Relayout(ns)[k + 1].ticks == Relayout(ns)[k].ticks + Relayout(ns)[k].durationTicks
    ensures Relayout(ns)[k].(ticks := ns[k].ticks) == ns[k]
  {
  }

  predicate DurationsNonNegative(ns: seq<NoteData>)
  {
    forall k :: 0 <= k < |ns| ==> ns[k].durationTicks >= 0
  }

  lemma {:induction false} StartOfMonotone(ns: seq<NoteData>, i: nat, j: nat)
    requires i <= j <= |ns| && DurationsNonNegative(ns)
    ensures StartOf(ns, i) <= StartOf(ns, j)
    decreases j
  {
    if i < j {
      StartOfMonotone(ns, i, j - 1);
    }
  }

  /** With no negative duration the laid-out notes are in order of ticks. */
  lemma RelayoutIsSorted(ns: seq<NoteData>)
    requires DurationsNonNegative(ns)
    ensures SortedByTicks(Relayout(ns))
  {
    var r := Relayout(ns);
    forall i, j | 0 <= i < j < |r|
      ensures r[i].ticks <= r[j].ticks
    {
      StartOfMonotone(ns, i, j);
    }
  }

  lemma {:induction false} StartOfRelayout(ns: seq<NoteData>, k: nat)
    requires k <= |ns|
    ensures StartOf(Relayout(ns), k) == StartOf(ns, k)
    decreases k
  {
    if k > 0 {
      StartOfRelayout(ns, k - 1);
    }
  }

  /** Laying out notes already laid out changes nothing. */
  lemma RelayoutTwice(ns: seq<NoteData>)
    ensures Relayout(Relayout(ns)) == Relayout(ns)
  {
    var r := Relayout(ns);
    forall k | 0 <= k < |r|
      ensures Relayout(r)[k] == r[k]
    {
      StartOfRelayout(ns, k);
    }
  }

  lemma SortKeepsDurations(ns: seq<NoteData>)
    requires DurationsNonNegative(ns)
    ensures DurationsNonNegative(SortByTicks(ns))
  {
    var s := SortByTicks(ns);
    SortIsPermutation(ns);
    forall k | 0 <= k < |s|
      ensures s[k].durationTicks >= 0
    {
      assert s[k] in multiset(s);
      assert s[k] in ns;
    }
  }

  /** `updateNotePositions` applied twice is applied once, when no note has a
      negative duration. */
  lemma LayoutIdempotent(ns: seq<NoteData>)
    requires DurationsNonNegative(ns)
    ensures LayoutMeasure(LayoutMeasure(ns)) == LayoutMeasure(ns)
  {
    var s := SortByTicks(ns);
    SortKeepsDurations(ns);
    RelayoutIsSorted(s);
    SortOfSorted(Relayout(s));
    RelayoutTwice(s);
  }

  /** The laid-out notes are in order of ticks. */
  lemma LayoutIsSorted(ns: seq<NoteData>)
    requires DurationsNonNegative(ns)
    ensures SortedByTicks(LayoutMeasure(ns))
  {
    SortKeepsDurations(ns);
    RelayoutIsSorted(SortByTicks(ns));
  }

  /** A note with its ticks cleared: what the layout may not change. */
  function Untick(n: NoteData): NoteData
  {
    n.(ticks := 0)
  }

  function Unticked(ns: seq<NoteData>): (r: seq<NoteData>)
    ensures |r| == |ns|
    ensures forall k :: 0 <= k < |ns| ==> r[k] == Untick(ns[k])
  {
    seq(|ns|, k requires 0 <= k < |ns| => Untick(ns[k]))
  }

  lemma UntickedCons(n: NoteData, s: seq<NoteData>)
    ensures Unticked([n] + s) == [Untick(n)] + Unticked(s)
  {
  }

  lemma {:induction false} InsertUnticked(n: NoteData, s: seq<NoteData>)
    ensures multiset(Unticked(InsertByTicks(n, s))) == multiset(Unticked(s)) + multiset{Untick(n)}
    decreases |s|
  {
    if s == [] || n.ticks < s[0].ticks {
      UntickedCons(n, s);
    } else {
      InsertUnticked(n, s[1..]);
      UntickedCons(s[0], InsertByTicks(n, s[1..]));
      UntickedCons(s[0], s[1..]);
      assert s == [s[0]] + s[1..];
    }
  }

  lemma {:induction false} SortUnticked(ns: seq<NoteData>)
    ensures multiset(Unticked(SortByTicks(ns))) == multiset(Unticked(ns))
    decreases |ns|
  {
    if ns != [] {
      var init, last := ns[..|ns| - 1], ns[|ns| - 1];
      SortUnticked(init);
      InsertUnticked(last, SortByTicks(init));
      assert SortByTicks(ns) == InsertByTicks(last, SortByTicks(init));
      assert Unticked(ns) == Unticked(init) + [Untick(last)] by {
        assert ns == init + [last];
      }
    }
  }

  /** The layout keeps the measure's notes: the same notes, as many times
      each, up to their ticks. */
  lemma LayoutKeepsNotes(ns: seq<NoteData>)
    ensures multiset(Unticked(LayoutMeasure(ns))) == multiset(Unticked(ns))
  {
    var s := SortByTicks(ns);
    SortUnticked(ns);
    assert Unticked(Relayout(s)) == Unticked(s);
  }

  /*
   * The add path of `handleStaveClick`.
   */

  /** `newPosition`: the end of the last note, 0 in an empty measure. */
  function EndOfLast(ns: seq<NoteData>): int
  {
    if ns == [] then 0 else ns[|ns| - 1].ticks + ns[|ns| - 1].durationTicks
  }

  /** The capacity test: the add goes ahead unless the new note would end
      past a 4/4 measure. */
  predicate ClickFits(ns: seq<NoteData>, duration: string)
  {
    EndOfLast(ns) + GetDurationTicks(duration) <= MeasureTicks
  }

  /** Notes laid end to end from 0, as `updateNotePositions` leaves them. */
  predicate LaidOut(ns: seq<NoteData>)
  {
    forall k {:trigger ns[k].ticks} :: 0 <= k < |ns| ==> ns[k].ticks == StartOf(ns, k)
  }

  lemma LayoutIsLaidOut(ns: seq<NoteData>)
    ensures LaidOut(LayoutMeasure(ns))
  {
    var s := SortByTicks(ns);
    forall k | 0 <= k < |s|
      ensures Relayout(s)[k].ticks == StartOf(Relayout(s), k)
    {
      StartOfRelayout(s, k);
    }
  }

  /** In a laid-out measure the end of the last note is the total length. */
  lemma EndOfLastIsTotal(ns: seq<NoteData>)
    requires LaidOut(ns)
    ensures EndOfLast(ns) == TotalTicks(ns)
  {
  }

  lemma {:induction false} StartOfAppend(ns: seq<NoteData>, n: NoteData, k: nat)
    requires k <= |ns|
    ensures StartOf(ns + [n], k) == StartOf(ns, k)
    decreases k
  {
    if k > 0 {
      StartOfAppend(ns, n, k - 1);
    }
  }

  /** A note added by a click at `newPosition` to a laid-out measure stays
      last and keeps its position through the re-layout, and the measure then
      ends where the note ends. */
  lemma ClickAddStaysLast(ns: seq<NoteData>, n: NoteData)
    requires LaidOut(ns) && DurationsNonNegative(ns) && n.durationTicks >= 0
    requires n.ticks == EndOfLast(ns)
    ensures LayoutMeasure(ns + [n]) == ns + [n]
    ensures TotalTicks(ns + [n]) == EndOfLast(ns) + n.durationTicks
  {
    var m := ns + [n];
    forall k | 0 <= k < |ns|
      ensures m[k].ticks == StartOf(m, k)
    {
      StartOfAppend(ns, n, k);
    }
    StartOfAppend(ns, n, |ns|);
    assert LaidOut(m);
    assert DurationsNonNegative(m);
    forall k | 0 <= k < |m|
      ensures Relayout(m)[k] == m[k]
    {
    }
    assert Relayout(m) == m;
    RelayoutIsSorted(m);
    SortOfSorted(m);
  }

  /** So a measure filled only by clicks never runs past 4/4: a click that
      passes the capacity test leaves the measure at most `4 * ppq` long. */
  lemma ClickAddWithinMeasure(ns: seq<NoteData>, n: NoteData, duration: string)
    requires LaidOut(ns) && DurationsNonNegative(ns)
    requires IsDurationCode(duration) && n.durationTicks == DurationTicks(duration).value
    requires n.ticks == EndOfLast(ns) && ClickFits(ns, duration)
    ensures TotalTicks(LayoutMeasure(ns + [n])) <= MeasureTicks
  {
    ClickAddStaysLast(ns, n);
  }

  /*
   * The other edits of a laid-out measure.
   */

  /** A laid-out measure with no negative duration is in order of ticks. */
  lemma LaidOutIsSorted(ns: seq<NoteData>)
    requires LaidOut(ns) && DurationsNonNegative(ns)
    ensures SortedByTicks(ns)
  {
    forall i, j | 0 <= i < j < |ns|
      ensures ns[i].ticks <= ns[j].ticks
    {
      StartOfMonotone(ns, i, j);
    }
  }

  /** A laid-out measure is left as it is by `updateNotePositions`. */
  lemma LaidOutIsFixed(ns: seq<NoteData>)
    requires LaidOut(ns) && DurationsNonNegative(ns)
    ensures LayoutMeasure(ns) == ns
  {
    LaidOutIsSorted(ns);
    SortOfSorted(ns);
    assert Relayout(ns) == ns;
  }

  /** Deleting note `k` of a laid-out measure and laying it out again keeps
      the other notes, in their order: only their ticks move up. */
  lemma DeleteKeepsOthers(ns: seq<NoteData>, k: nat)
    requires LaidOut(ns) && DurationsNonNegative(ns) && k < |ns|
    ensures LayoutMeasure(ns[..k] + ns[k + 1..]) == Relayout(ns[..k] + ns[k + 1..])
    ensures Unticked(LayoutMeasure(ns[..k] + ns[k + 1..])) == Unticked(ns[..k] + ns[k + 1..])
  {
    var r := ns[..k] + ns[k + 1..];
    assert SortedByTicks(r) by {
      LaidOutIsSorted(ns);
      forall i, j | 0 <= i < j < |r|
        ensures r[i].ticks <= r[j].ticks
      {
        var i', j' := if i < k then i else i + 1, if j < k then j else j + 1;
        assert r[i] == ns[i'] && r[j] == ns[j'];
      }
    }
    SortOfSorted(r);
    forall m | 0 <= m < |r|
      ensures Unticked(Relayout(r))[m] == Unticked(r)[m]
    {
      RelayoutTicks(r, m);
    }
  }

  /** `addNote` gives the new note tick 0, so in a laid-out measure that
      already has notes the stable sort puts it right after the first note:
      it becomes the second note, not the last. */
  lemma AddNoteGoesSecond(ns: seq<NoteData>, n: NoteData)
    requires LaidOut(ns) && DurationsNonNegative(ns) && |ns| > 0 && ns[0].durationTicks > 0
    requires n.ticks == 0
    ensures LayoutMeasure(ns + [n]) == Relayout([ns[0], n] + ns[1..])
  {
    assert (ns + [n])[..|ns|] == ns;
    assert SortByTicks(ns) == ns by {
      LaidOutIsSorted(ns);
      SortOfSorted(ns);
    }
    assert SortByTicks(ns + [n]) == InsertByTicks(n, ns);
    assert ns[0].ticks == 0;
    assert InsertByTicks(n, ns) == [ns[0]] + InsertByTicks(n, ns[1..]);
    assert InsertByTicks(n, ns[1..]) == [n] + ns[1..] by {
      if |ns| > 1 {
        assert ns[1..][0].ticks == ns[0].durationTicks;
      }
    }
    assert [ns[0]] + ([n] + ns[1..]) == [ns[0], n] + ns[1..];
  }
}
