/** The speaker-attribution heuristic: which diarizer segments overlap the newly
    arrived audio, how much each counts, and which speaker dominates. */
module Attribution {
  import opened AudioBuffer

  /** A diarizer segment, in seconds relative to the start of the window it was computed on. */
  datatype Segment = Segment(start: real, end: real, speaker: int)

  /** One entry of the per-speaker duration dictionary, in insertion order. */
  datatype Entry = Entry(speaker: int, weight: real)

  /** Weight of a segment that began in the historical part of the window. */
  const HistoryWeight: real := 0.8

  /** Weight of a segment that began inside the newly arrived audio. */
  const FreshWeight: real := 1.0

  function Max(a: real, b: real): real {
    if a >= b then a else b
  }

  /** Window-relative time, in seconds, at which the newly arrived samples begin:
      the samples before them, converted at the sample rate, or 0 when the new
      samples fill the whole window. */
  function NewDataOffset(windowLen: nat, newLen: nat): (t: real)
    ensures t >= 0.0
    ensures windowLen > newLen ==> t * SampleRate as real == (windowLen - newLen) as real
    ensures windowLen <= newLen ==> t == 0.0
  {
    if windowLen > newLen then (windowLen - newLen) as real / SampleRate as real else 0.0
  }

  /** A segment counts for the new audio when it ends after the offset. */
  predicate Overlaps(s: Segment, offset: real) {
    s.end > offset
  }

  function WeightOf(s: Segment, offset: real): real {
    if s.start < offset then HistoryWeight else FreshWeight
  }

  /** The weighted overlap a segment adds to its speaker. */
  function Contribution(s: Segment, offset: real): real {
    (s.end - Max(s.start, offset)) * WeightOf(s, offset)
  }

  /** Of two segments that overlap the new audio by the same positive amount, the one
      that starts at or after the offset counts more than the one that starts before it. */
  lemma FreshOutweighsHistoric(early: Segment, late: Segment, offset: real)
    requires early.start < offset <= late.start
    requires Overlaps(early, offset) && Overlaps(late, offset)
    requires early.end - offset == late.end - late.start
    ensures Contribution(early, offset) < Contribution(late, offset)
  {
  }

  // ---- the per-speaker dictionary, as an insertion-ordered list of entries ----

  predicate DistinctSpeakers(t: seq<Entry>) {
    forall i, j :: 0 <= i < j < |t| ==> t[i].speaker != t[j].speaker
  }

  predicate Has(t: seq<Entry>, x: int) {
    exists i :: 0 <= i < |t| && t[i].speaker == x
  }

  /** Position of `x`'s entry, or `|t|` when it has none. */
  function IndexOf(t: seq<Entry>, x: int): (i: nat)
    ensures i <= |t|
    ensures i < |t| ==> t[i].speaker == x
    ensures forall j :: 0 <= j < i && j < |t| ==> t[j].speaker != x
  {
    if |t| == 0 then 0
    else if t[0].speaker == x then 0
    else 1 + IndexOf(t[1..], x)
  }

  /** The first position holding `x` is unique: anything with the first-position property is `IndexOf`. */
  lemma IndexOfIs(t: seq<Entry>, x: int, i: nat)
    requires i <= |t|
    requires i < |t| ==> t[i].speaker == x
    requires forall j :: 0 <= j < i && j < |t| ==> t[j].speaker != x
    ensures IndexOf(t, x) == i
  {
    var k := IndexOf(t, x);
    assert k < |t| ==> t[k].speaker == x;
    assert i < |t| ==> t[i].speaker == x;
  }

  /** The weight recorded for `x`, or 0 when `x` has no entry. */
  function Lookup(t: seq<Entry>, x: int): real {
    var i := IndexOf(t, x);
    if i < |t| then t[i].weight else 0.0
  }

  /** `dict[x] += w` when `x` is a key, `dict[x] = w` otherwise: an existing entry keeps
      its place and a new one goes last. */
  function Add(t: seq<Entry>, x: int, w: real): (r: seq<Entry>)
    requires DistinctSpeakers(t)
    ensures DistinctSpeakers(r)
    ensures forall y :: Has(r, y) <==> Has(t, y) || y == x
  {
    var i := IndexOf(t, x);
    if i < |t| then
      var r := t[i := Entry(x, t[i].weight + w)];
      assert forall j :: 0 <= j < |t| ==> r[j].speaker == t[j].speaker;
      r
    else
      var r := t + [Entry(x, w)];
      assert r[|t|].speaker == x;
      assert forall y :: Has(t, y) ==> Has(r, y) by {
        forall y | Has(t, y) ensures Has(r, y) {
          var j :| 0 <= j < |t| && t[j].speaker == y;
          assert r[j] == t[j];
        }
      }
      r
  }

  /** Adding to `x` changes `x`'s total by `w`, leaves every other total alone, keeps the
      order of existing entries, and puts a new speaker last. */
  lemma AddSpec(t: seq<Entry>, x: int, w: real)
    requires DistinctSpeakers(t)
    ensures forall y :: Lookup(Add(t, x, w), y) == Lookup(t, y) + (if y == x then w else 0.0)
    ensures Has(t, x) ==>
      (|Add(t, x, w)| == |t| && forall i :: 0 <= i < |t| ==> Add(t, x, w)[i].speaker == t[i].speaker)
    ensures !Has(t, x) ==> Add(t, x, w) == t + [Entry(x, w)]
  {
    var r := Add(t, x, w);
    var i := IndexOf(t, x);
    forall y ensures Lookup(r, y) == Lookup(t, y) + (if y == x then w else 0.0) {
      var k := IndexOf(t, y);
      if y == x {
        IndexOfIs(r, y, k);
      } else if k < |t| {
        IndexOfIs(r, y, k);
      } else {
        IndexOfIs(r, y, |r|);
      }
    }
  }

  // ---- accumulation over the diarizer's segments ----

  /** The per-speaker dictionary after the plugin's loop over `segs`, in order:
      only overlapping segments are counted. */
  function Tally(segs: seq<Segment>, offset: real): (t: seq<Entry>)
    ensures DistinctSpeakers(t)
  {
    if |segs| == 0 then []
    else
      var prev := Tally(segs[..|segs| - 1], offset);
      var s := segs[|segs| - 1];
      if Overlaps(s, offset) then Add(prev, s.speaker, Contribution(s, offset)) else prev
  }

  /** Reference definition: the total weighted overlap of speaker `x`'s segments. */
  function SpeakerWeight(segs: seq<Segment>, x: int, offset: real): real {
    if |segs| == 0 then 0.0
    else
      var s := segs[|segs| - 1];
      SpeakerWeight(segs[..|segs| - 1], x, offset)
        + (if s.speaker == x && Overlaps(s, offset) then Contribution(s, offset) else 0.0)
  }

  /** `x` has at least one segment that overlaps the new audio. */
  predicate Speaks(segs: seq<Segment>, x: int, offset: real) {
    exists k :: 0 <= k < |segs| && segs[k].speaker == x && Overlaps(segs[k], offset)
  }

  /** Index of `x`'s first overlapping segment, or `|segs|` when it has none. */
  function FirstOverlap(segs: seq<Segment>, x: int, offset: real): (k: nat)
    ensures k <= |segs|
    ensures k < |segs| ==> segs[k].speaker == x && Overlaps(segs[k], offset)
    ensures forall m :: 0 <= m < k && m < |segs| ==> !(segs[m].speaker == x && Overlaps(segs[m], offset))
  {
    if |segs| == 0 then 0
    else
      var n := |segs| - 1;
      var p := FirstOverlap(segs[..n], x, offset);
      if p < n then p
      else if segs[n].speaker == x && Overlaps(segs[n], offset) then n
      else |segs|
  }

  /** The dictionary records, for every speaker, exactly its reference total, and holds
      an entry exactly for the speakers with an overlapping segment. */
  lemma {:induction false} TallyIsSpeakerWeight(segs: seq<Segment>, offset: real)
    ensures forall x :: Lookup(Tally(segs, offset), x) == SpeakerWeight(segs, x, offset)
    ensures forall x :: Has(Tally(segs, offset), x) <==> Speaks(segs, x, offset)
  {
    if |segs| > 0 {
      var n := |segs| - 1;
      var prefix := segs[..n];
      TallyIsSpeakerWeight(prefix, offset);
      AddSpec(Tally(prefix, offset), segs[n].speaker, Contribution(segs[n], offset));
      forall x ensures Speaks(segs, x, offset) <==>
        (Speaks(prefix, x, offset) || (segs[n].speaker == x && Overlaps(segs[n], offset)))
      {
        if Speaks(segs, x, offset) {
          var k :| 0 <= k < |segs| && segs[k].speaker == x && Overlaps(segs[k], offset);
          if k < n { assert prefix[k] == segs[k]; }
        }
        if Speaks(prefix, x, offset) {
          var k :| 0 <= k < |prefix| && prefix[k].speaker == x && Overlaps(prefix[k], offset);
          assert segs[k] == prefix[k];
        }
      }
    }
  }

  /** Dictionary order is first-overlap order: a speaker's entry comes before another's
      exactly when its first overlapping segment does. */
  lemma {:induction false} TallyOrder(segs: seq<Segment>, offset: real)
    ensures forall i :: 0 <= i < |Tally(segs, offset)| ==>
      FirstOverlap(segs, Tally(segs, offset)[i].speaker, offset) < |segs|
    ensures forall i, j :: 0 <= i < j < |Tally(segs, offset)| ==>
      FirstOverlap(segs, Tally(segs, offset)[i].speaker, offset)
        < FirstOverlap(segs, Tally(segs, offset)[j].speaker, offset)
  {
    if |segs| > 0 {
      var n := |segs| - 1;
      var prefix := segs[..n];
      var s := segs[n];
      TallyOrder(prefix, offset);
      var prev := Tally(prefix, offset);
      var t := Tally(segs, offset);
      AddSpec(prev, s.speaker, Contribution(s, offset));
      forall x | FirstOverlap(prefix, x, offset) < n
        ensures FirstOverlap(segs, x, offset) == FirstOverlap(prefix, x, offset)
      {
      }
      if Overlaps(s, offset) && !Has(prev, s.speaker) {
        assert t == prev + [Entry(s.speaker, Contribution(s, offset))];
        TallyIsSpeakerWeight(prefix, offset);
        assert FirstOverlap(prefix, s.speaker, offset) == n;
        assert FirstOverlap(segs, s.speaker, offset) == n;
      }
    }
  }

  // ---- the dominant speaker ----

  /** Index `r` holds the first entry of maximal weight: a stable descending sort puts it first. */
  predicate IsFirstMax(t: seq<Entry>, r: nat) {
    && r < |t|
    && (forall j :: 0 <= j < |t| ==> t[j].weight <= t[r].weight)
    && (forall j :: 0 <= j < r ==> t[j].weight < t[r].weight)
  }

  function FirstMaxIndex(t: seq<Entry>): (r: nat)
    requires |t| > 0
    ensures IsFirstMax(t, r)
  {
    if |t| == 1 then 0
    else
      var i := FirstMaxIndex(t[..|t| - 1]);
      if t[|t| - 1].weight > t[i].weight then |t| - 1 else i
  }

  /** At most one index is the first maximum. */
  lemma FirstMaxUnique(t: seq<Entry>, a: nat, b: nat)
    requires IsFirstMax(t, a) && IsFirstMax(t, b)
    ensures a == b
  {
    assert t[a].weight == t[b].weight;
  }

  /** The key of the first entry after a stable sort by descending weight, or -1 for an
      empty dictionary. */
  function Dominant(t: seq<Entry>): int {
    if |t| == 0 then -1 else t[FirstMaxIndex(t)].speaker
  }

  /** The dominant speaker of one attribution pass over `segs`, computed on a window of
      `windowLen` samples whose last `newLen` are new. */
  function DominantSpeaker(segs: seq<Segment>, windowLen: nat, newLen: nat): int {
    Dominant(Tally(segs, NewDataOffset(windowLen, newLen)))
  }

  /** A tally that holds no speaker is empty. */
  lemma NoSpeakerNoEntries(t: seq<Entry>)
    requires forall x :: !Has(t, x)
    ensures t == []
  {
    assert |t| > 0 ==> Has(t, t[0].speaker);
  }

  /** Speaker numbers as the diarizer hands them out: never negative. */
  predicate NonNegativeSpeakers(segs: seq<Segment>) {
    forall k :: 0 <= k < |segs| ==> segs[k].speaker >= 0
  }

  /** The dominant speaker is -1 exactly when no segment overlaps the new audio; otherwise it
      is a speaker with an overlapping segment whose total is maximal, and every other speaker
      with the same total has its first overlapping segment later. */
  lemma DominantSpeakerIsHeaviest(segs: seq<Segment>, windowLen: nat, newLen: nat)
    requires NonNegativeSpeakers(segs)
    ensures var off := NewDataOffset(windowLen, newLen);
      var d := DominantSpeaker(segs, windowLen, newLen);
      && (d == -1 <==> forall x :: !Speaks(segs, x, off))
      && (d != -1 ==>
            && Speaks(segs, d, off)
            && (forall x :: Speaks(segs, x, off) ==>
                  SpeakerWeight(segs, x, off) <= SpeakerWeight(segs, d, off))
            && (forall x ::
                  (Speaks(segs, x, off) && x != d
                   && SpeakerWeight(segs, x, off) == SpeakerWeight(segs, d, off)) ==>
                  FirstOverlap(segs, d, off) < FirstOverlap(segs, x, off)))
  {
    var off := NewDataOffset(windowLen, newLen);
    var t := Tally(segs, off);
    TallyIsSpeakerWeight(segs, off);
    TallyOrder(segs, off);
    if |t| == 0 {
      forall x ensures !Speaks(segs, x, off) {
        assert !Has(t, x);
      }
    } else {
      var r := FirstMaxIndex(t);
      var d := t[r].speaker;
      assert Has(t, d);
      assert d >= 0 by {
        var k :| 0 <= k < |segs| && segs[k].speaker == d && Overlaps(segs[k], off);
      }
      forall x | Speaks(segs, x, off)
        ensures SpeakerWeight(segs, x, off) <= SpeakerWeight(segs, d, off)
        ensures x != d && SpeakerWeight(segs, x, off) == SpeakerWeight(segs, d, off) ==>
                  FirstOverlap(segs, d, off) < FirstOverlap(segs, x, off)
      {
        assert Has(t, x);
        var j :| 0 <= j < |t| && t[j].speaker == x;
        LookupAt(t, j);
        LookupAt(t, r);
        if x != d && t[j].weight == t[r].weight {
          assert j > r;
        }
      }
    }
  }

  lemma LookupAt(t: seq<Entry>, i: nat)
    requires DistinctSpeakers(t) && i < |t|
    ensures Lookup(t, t[i].speaker) == t[i].weight
  {
    IndexOfIs(t, t[i].speaker, i);
  }


  /** Two overlapping segments of different speakers tally to one entry each, in order. */
  lemma TallyPair(a: Segment, b: Segment, offset: real)
    requires a.speaker != b.speaker && Overlaps(a, offset) && Overlaps(b, offset)
    ensures Tally([a, b], offset) == [Entry(a.speaker, Contribution(a, offset)), Entry(b.speaker, Contribution(b, offset))]
  {
    assert [a, b][..1] == [a];
    assert [a][..0] == [];
    assert Tally([a][..0], offset) == [];
    var t1 := Tally([a], offset);
    assert t1 == [Entry(a.speaker, Contribution(a, offset))];
    assert IndexOf(t1, b.speaker) == 1;
  }

  /** Of two entries, the second is dominant exactly when it weighs strictly more. */
  lemma DominantOfPair(e0: Entry, e1: Entry)
    ensures Dominant([e0, e1]) == if e1.weight > e0.weight then e1.speaker else e0.speaker
  {
    assert [e0, e1][..1] == [e0];
  }

  /** Two speakers whose segments overlap the new audio equally: the one whose segment starts
      at or after the offset is dominant, whichever order the diarizer lists them in. */
  lemma FreshSegmentWinsTie(early: Segment, late: Segment, windowLen: nat, newLen: nat)
    requires early.speaker != late.speaker
    requires var off := NewDataOffset(windowLen, newLen);
      && early.start < off <= late.start
      && early.end - off == late.end - late.start > 0.0
    ensures DominantSpeaker([early, late], windowLen, newLen) == late.speaker
    ensures DominantSpeaker([late, early], windowLen, newLen) == late.speaker
  {
    var off := NewDataOffset(windowLen, newLen);
    FreshOutweighsHistoric(early, late, off);
    var ce := Contribution(early, off);
    var cl := Contribution(late, off);
    TallyPair(early, late, off);
    TallyPair(late, early, off);
    DominantOfPair(Entry(early.speaker, ce), Entry(late.speaker, cl));
    DominantOfPair(Entry(late.speaker, cl), Entry(early.speaker, ce));
  }
}
