/**
 * The voice bookkeeping of the score editor: the list of active voices the
 * voice checkboxes maintain (`handleVoiceChange`) and the distinct voice ids
 * found in the score (`getAvailableVoices`). A note without a voice has the
 * empty voice `""`, which JavaScript treats as false.
 */
module Voices {
  import opened Sequences
  import opened ScoreNotes
  import opened ScoreLayout

  /** The id of the "All Voices" checkbox. */
  const AllVoices: string := "all"

  /** `list.filter(v => v !== x)`. */
  function Without(s: seq<string>, x: string): (r: seq<string>)
    ensures |r| <= |s|
    decreases |s|
  {
    if s == [] then []
    else Without(s[..|s| - 1], x) + (if s[|s| - 1] == x then [] else [s[|s| - 1]])
  }

  /** The filter removes every `x` and keeps every other entry, as often as it occurs. */
  lemma {:induction false} WithoutCounts(s: seq<string>, x: string)
    ensures multiset(Without(s, x)) == multiset(s)[x := 0]
    decreases |s|
  {
    if s != [] {
      var init := s[..|s| - 1];
      WithoutCounts(init, x);
      assert s == init + [s[|s| - 1]];
    }
  }

  /** A list without `x` goes through the filter unchanged: the order is kept. */
  lemma {:induction false} WithoutAbsent(s: seq<string>, x: string)
    requires x !in s
    ensures Without(s, x) == s
    decreases |s|
  {
    if s != [] {
      WithoutAbsent(s[..|s| - 1], x);
    }
  }

  /** `activeVoices` after the checkbox `voiceId` is set to `checked`. */
  function VoicesAfterChange(active: seq<string>, voiceId: string, checked: bool): seq<string>
  {
    if voiceId == AllVoices then (if checked then [AllVoices] else [])
    else if checked then Without(active, AllVoices) + [voiceId]
    else Without(active, voiceId)
  }

  /** Checking "all" leaves only "all"; unchecking it leaves nothing. Checking
      a voice drops "all", keeps the others and adds the voice once more;
      unchecking a voice drops every copy of it and keeps the rest. */
  lemma VoiceChangeEffect(active: seq<string>, voiceId: string, checked: bool)
    ensures var r := VoicesAfterChange(active, voiceId, checked);
      && (voiceId == AllVoices && checked ==> r == [AllVoices])
      && (voiceId == AllVoices && !checked ==> r == [])
      && (voiceId != AllVoices && checked ==>
            AllVoices !in r && r[|r| - 1] == voiceId
            && multiset(r) == multiset(active)[AllVoices := 0] + multiset{voiceId})
      && (voiceId != AllVoices && !checked ==>
            voiceId !in r && multiset(r) == multiset(active)[voiceId := 0])
  {
    if voiceId != AllVoices {
      WithoutCounts(active, if checked then AllVoices else voiceId);
      var removed := Without(active, if checked then AllVoices else voiceId);
      assert multiset(removed)[if checked then AllVoices else voiceId] == 0;
    }
  }

  /** The notes of all measures, measure by measure. */
  function AllNotes(ms: seq<Measure>): seq<NoteData>
  {
    Concat(seq(|ms|, i requires 0 <= i < |ms| => ms[i].notes))
  }

  /** The voice ids of `ns` added in order to the insertion-ordered set `acc`,
      skipping notes without a voice. */
  function CollectVoices(acc: seq<string>, ns: seq<NoteData>): seq<string>
    decreases |ns|
  {
    if ns == [] then acc
    else
      var r := CollectVoices(acc, ns[..|ns| - 1]);
      var v := ns[|ns| - 1].voice;
      if v == "" || v in r then r else r + [v]
  }

  /** `getAvailableVoices()`. */
  function AvailableVoices(ms: seq<Measure>): seq<string>
  {
    CollectVoices([], AllNotes(ms))
  }

  predicate Distinct(s: seq<string>)
  {
    forall i, j :: 0 <= i < j < |s| ==> s[i] != s[j]
  }

  /** The voice ids of the notes, in order. */
  function VoiceIds(ns: seq<NoteData>): (r: seq<string>)
    ensures |r| == |ns| && forall k :: 0 <= k < |ns| ==> r[k] == ns[k].voice
  {
    seq(|ns|, k requires 0 <= k < |ns| => ns[k].voice)
  }

  /** Collecting keeps what was collected, in front, adds no duplicate and no
      empty id, and adds exactly the non-empty voices of the notes. */
  lemma {:induction false} CollectVoicesFacts(acc: seq<string>, ns: seq<NoteData>)
    requires Distinct(acc) && "" !in acc
    ensures var r := CollectVoices(acc, ns);
      && |acc| <= |r| && r[..|acc|] == acc
      && Distinct(r) && "" !in r
      && forall v :: v in r <==> v in acc || (v != "" && v in VoiceIds(ns))
    decreases |ns|
  {
    if ns != [] {
      var init := ns[..|ns| - 1];
      CollectVoicesFacts(acc, init);
      var r := CollectVoices(acc, init);
      assert VoiceIds(ns) == VoiceIds(init) + [ns[|ns| - 1].voice];
      var r' := CollectVoices(acc, ns);
      assert r'[..|acc|] == acc by {
        assert r'[..|r|] == r;
      }
    }
  }

  /** Index of the first `v` in `s`, `|s|` when there is none. */
  function FirstIndex(s: seq<string>, v: string): (k: nat)
    ensures k <= |s| && (k < |s| <==> v in s)
    ensures k < |s| ==> s[k] == v && forall j :: 0 <= j < k ==> s[j] != v
    decreases |s|
  {
    if s == [] then 0 else if s[0] == v then 0 else 1 + FirstIndex(s[1..], v)
  }

  lemma FirstIndexAppend(s: seq<string>, x: string, v: string)
    requires v in s
    ensures FirstIndex(s + [x], v) == FirstIndex(s, v)
  {
    var k := FirstIndex(s, v);
    var t := s + [x];
    assert t[k] == v;
    assert FirstIndex(t, v) <= k;
  }

  /** `r` lists names of `ids` in the order of their first occurrence there. */
  predicate InFirstSeenOrder(ids: seq<string>, r: seq<string>)
  {
    forall i, j :: 0 <= i < j < |r| ==> FirstIndex(ids, r[i]) < FirstIndex(ids, r[j])
  }

  /** A later name does not move the first occurrence of names already seen. */
  lemma FirstSeenOrderAppend(ids: seq<string>, x: string, r: seq<string>)
    requires forall v :: v in r ==> v in ids
    requires InFirstSeenOrder(ids, r)
    ensures InFirstSeenOrder(ids + [x], r)
  {
    forall i, j | 0 <= i < j < |r|
      ensures FirstIndex(ids + [x], r[i]) < FirstIndex(ids + [x], r[j])
    {
      FirstIndexAppend(ids, x, r[i]);
      FirstIndexAppend(ids, x, r[j]);
    }
  }

  /** A name seen for the first time comes after all names seen before. */
  lemma FirstSeenOrderNew(ids: seq<string>, x: string, r: seq<string>)
    requires forall v :: v in r ==> v in ids
    requires InFirstSeenOrder(ids, r) && x !in ids
    ensures InFirstSeenOrder(ids + [x], r + [x])
  {
    var t, r' := ids + [x], r + [x];
    assert FirstIndex(t, x) == |ids| by {
      assert t[|ids|] == x;
    }
    forall i, j | 0 <= i < j < |r'|
      ensures FirstIndex(t, r'[i]) < FirstIndex(t, r'[j])
    {
      FirstIndexAppend(ids, x, r[i]);
      if j < |r| {
        FirstIndexAppend(ids, x, r[j]);
      }
    }
  }

  /** The available voices come out in the order the notes first use them. */
  lemma {:induction false} CollectVoicesFirstSeen(ns: seq<NoteData>)
    ensures InFirstSeenOrder(VoiceIds(ns), CollectVoices([], ns))
    decreases |ns|
  {
    if ns != [] {
      var init := ns[..|ns| - 1];
      var v := ns[|ns| - 1].voice;
      CollectVoicesFirstSeen(init);
      CollectVoicesFacts([], init);
      var r := CollectVoices([], init);
      assert VoiceIds(ns) == VoiceIds(init) + [v];
      if v != "" && v !in r {
        FirstSeenOrderNew(VoiceIds(init), v, r);
      } else {
        FirstSeenOrderAppend(VoiceIds(init), v, r);
      }
    }
  }

  /** `getAvailableVoices` returns each non-empty voice id of the score once,
      in the order the notes (measure by measure) first use them. */
  lemma AvailableVoicesFacts(ms: seq<Measure>)
    ensures var r := AvailableVoices(ms);
      && Distinct(r) && "" !in r
      && (forall v :: v in r <==> v != "" && v in VoiceIds(AllNotes(ms)))
      && forall i, j :: 0 <= i < j < |r| ==>
           FirstIndex(VoiceIds(AllNotes(ms)), r[i]) < FirstIndex(VoiceIds(AllNotes(ms)), r[j])
  {
    CollectVoicesFacts([], AllNotes(ms));
    CollectVoicesFirstSeen(AllNotes(ms));
  }

  lemma {:induction false} CollectVoicesAppend(acc: seq<string>, a: seq<NoteData>, b: seq<NoteData>)
    ensures CollectVoices(acc, a + b) == CollectVoices(CollectVoices(acc, a), b)
    decreases |b|
  {
    if b == [] {
      assert a + b == a;
    } else {
      CollectVoicesAppend(acc, a, b[..|b| - 1]);
      assert (a + b)[..|a + b| - 1] == a + b[..|b| - 1];
    }
  }

  /** The inner loop of `getAvailableVoices`: one measure's notes added to the set. */
  method AddMeasureVoices(voices: seq<string>, notes: seq<NoteData>) returns (r: seq<string>)
    ensures r == CollectVoices(voices, notes)
  {
    r := voices;
    var k := 0;
    while k < |notes|
      invariant k <= |notes|
      invariant r == CollectVoices(voices, notes[..k])
    {
      var v := notes[k].voice;
      if v != "" && v !in r {
        r := r + [v];
      }
      assert notes[..k + 1][..k] == notes[..k];
      k := k + 1;
    }
    assert notes[..k] == notes;
  }
}
