/**
 * One diarized transcription session: the stream of events the speech
 * service delivers, the per-utterance handler that turns recognised speech
 * into transcript segments, and the stop/cancel handler that ends the wait.
 */
module Session {
  import opened Wrappers
  import opened Text
  import opened Sequences

  /**
   * An event of the session. `Recognized` is the "transcribed" callback:
   * whether the result's reason is recognised speech, and the SpeakerId and
   * DisplayText fields of its detailed JSON (None when the key is absent),
   * plus the result's plain text. `Stopped` is session-stopped, `Canceled`
   * the cancellation event.
   */
  datatype Event =
    | Recognized(isRecognizedSpeech: bool, speakerId: Option<string>, displayText: Option<string>, text: string)
    | Stopped
    | Canceled

  /** One transcript entry: the single-key mapping {label: text}. */
  datatype Segment = Segment(speaker: string, text: string)

  const SpeakerPrefix: string := "Speaker "
  const UnknownSpeaker: string := "Unknown"

  /** The speaker label "Speaker <id>", with "Unknown" standing in for a missing id. */
  function SpeakerLabel(speakerId: Option<string>): (name: string)
    ensures |name| >= |SpeakerPrefix| && name[..|SpeakerPrefix|] == SpeakerPrefix
    ensures speakerId.Some? ==> name[|SpeakerPrefix|..] == speakerId.value
    ensures speakerId.None? ==> name[|SpeakerPrefix|..] == UnknownSpeaker
  {
    SpeakerPrefix + match speakerId { case Some(id) => id case None => UnknownSpeaker }
  }

  /** The utterance text: DisplayText, falling back to the result's plain text. */
  function TextOf(e: Event): string
    requires e.Recognized?
  {
    match e.displayText
    case Some(t) => t
    case None => e.text
  }

  /** The handler's filter: recognised speech whose text is not all whitespace. */
  predicate Captures(e: Event)
  {
    && e.Recognized?
    && e.isRecognizedSpeech
    && !Blank(TextOf(e))
  }

  /**
   * The filter as the handler writes it: the text is non-empty and still
   * non-empty after strip(); equivalently it has a non-whitespace character.
   */
  lemma CapturesIffNonBlank(e: Event)
    ensures Captures(e) <==> e.Recognized? && e.isRecognizedSpeech && TextOf(e) != [] && Strip(TextOf(e)) != []
    ensures Captures(e) <==> e.Recognized? && e.isRecognizedSpeech && HasContent(TextOf(e))
  {
    if e.Recognized? {
      StripEmptyIffBlank(TextOf(e));
      BlankIffNoContent(TextOf(e));
    }
  }

  /** The segment a recognised event contributes; a kept event's text is never blank. */
  function SegmentOf(e: Event): (seg: Segment)
    requires e.Recognized?
    ensures Captures(e) ==> HasContent(seg.text)
  {
    CapturesIffNonBlank(e);
    Segment(SpeakerLabel(e.speakerId), TextOf(e))
  }

  /** What one event appends to the transcript. */
  function Contribution(e: Event): seq<Segment>
  {
    if Captures(e) then [SegmentOf(e)] else []
  }

  /** The number of events that arrive before the first stop or cancel. */
  function StopIndex(events: seq<Event>): (n: nat)
    ensures n <= |events|
  {
    if events == [] || !events[0].Recognized? then 0 else 1 + StopIndex(events[1..])
  }

  /** StopIndex is the position of the first stop or cancel, or the length when there is none. */
  lemma {:induction false} StopIndexIsFirstStop(events: seq<Event>)
    ensures var n := StopIndex(events);
            && (forall i :: 0 <= i < n ==> events[i].Recognized?)
            && (n < |events| ==> !events[n].Recognized?)
  {
    if events != [] && events[0].Recognized? {
      StopIndexIsFirstStop(events[1..]);
      assert forall i :: 1 <= i < StopIndex(events) ==> events[i] == events[1..][i - 1];
    }
  }

  /**
   * The transcript a session accumulates: the contribution of each event in
   * arrival order, up to the first stop or cancel. A stream that ends without
   * either is read as ending with a stop.
   */
  function Captured(events: seq<Event>): (segments: seq<Segment>)
    ensures |segments| <= StopIndex(events)
  {
    if events == [] || !events[0].Recognized? then []
    else Contribution(events[0]) + Captured(events[1..])
  }

  /** Captured, unfolded once at position i of the stream. */
  lemma CapturedStep(events: seq<Event>, i: nat)
    requires i < |events|
    ensures Captured(events[i..]) ==
              if events[i].Recognized? then Contribution(events[i]) + Captured(events[i + 1..]) else []
  {
    assert events[i..][0] == events[i] && events[i..][1..] == events[i + 1..];
  }

  /** One delivered utterance keeps the collecting loop's accounting. */
  lemma CollectStep(events: seq<Event>, i: nat, acc: seq<Segment>)
    requires i < |events| && events[i].Recognized?
    requires acc + Captured(events[i..]) == Captured(events)
    ensures (acc + Contribution(events[i])) + Captured(events[i + 1..]) == Captured(events)
  {
    CapturedStep(events, i);
    AppendAssoc(acc, Contribution(events[i]), Captured(events[i + 1..]));
  }

  /** At a stop or cancel, or at the end of the stream, the segments gathered so far are the transcript. */
  lemma CollectStop(events: seq<Event>, i: nat, acc: seq<Segment>)
    requires i <= |events| && (i < |events| ==> !events[i].Recognized?)
    requires acc + Captured(events[i..]) == Captured(events)
    ensures acc == Captured(events)
  {
    if i < |events| {
      CapturedStep(events, i);
    } else {
      assert events[i..] == [];
    }
    AppendEmpty(acc);
  }

  /**
   * The session as it runs: events are delivered in order; the transcribed
   * handler appends a segment for each captured utterance, and a stop or
   * cancel sets `done`, which ends the wait.
   */
  method CollectSegments(events: seq<Event>) returns (segments: seq<Segment>)
    ensures segments == Captured(events)
  {
    segments := [];
    var done := false;
    var i := 0;
    assert events[0..] == events;
    AppendEmpty(Captured(events));
    while !done && i < |events|
      invariant 0 <= i <= |events|
      invariant !done ==> segments + Captured(events[i..]) == Captured(events)
      invariant done ==> segments == Captured(events)
      decreases |events| - i
    {
      var e := events[i];
      match e {
        case Recognized(_, _, _, _) =>
          CollectStep(events, i, segments);
          if Captures(e) {
            segments := segments + [SegmentOf(e)];
          } else {
            AppendEmpty(segments);
          }
        case Stopped =>
          CollectStop(events, i, segments);
          done := true;
        case Canceled =>
          CollectStop(events, i, segments);
          done := true;
      }
      i := i + 1;
    }
    if !done {
      CollectStop(events, i, segments);
    }
  }

  /**
   * The contributions of the events at positions [lo, hi), in order: the
   * reference reading of "the handler appends each captured utterance".
   */
  ghost function Picked(events: seq<Event>, lo: nat, hi: nat): seq<Segment>
    requires lo <= hi <= |events|
    decreases hi - lo
  {
    if lo == hi then [] else Contribution(events[lo]) + Picked(events, lo + 1, hi)
  }

  /** Captured from position lo on is Picked up to the first stop or cancel after lo. */
  lemma {:induction false} CapturedIsPicked(events: seq<Event>, lo: nat)
    requires lo <= |events|
    ensures lo + StopIndex(events[lo..]) <= |events|
    ensures Captured(events[lo..]) == Picked(events, lo, lo + StopIndex(events[lo..]))
    decreases |events| - lo
  {
    var rest := events[lo..];
    if lo == |events| {
      assert rest == [];
    } else {
      assert rest[0] == events[lo] && rest[1..] == events[lo + 1..];
      if events[lo].Recognized? {
        CapturedIsPicked(events, lo + 1);
      }
    }
  }

  /**
   * The transcript is the contribution of every event before the first stop
   * or cancel, in arrival order; what comes after is ignored.
   */
  lemma CapturedUpToStop(events: seq<Event>)
    ensures Captured(events) == Picked(events, 0, StopIndex(events))
  {
    CapturedIsPicked(events, 0);
    assert events[0..] == events;
  }

  /**
   * The indices in [lo, hi) of the events the handler captures, ascending.
   * This is the reference description of which events become segments.
   */
  ghost function Positions(events: seq<Event>, lo: nat, hi: nat): (p: seq<nat>)
    requires lo <= hi <= |events|
    ensures forall k :: 0 <= k < |p| ==> lo <= p[k] < hi && Captures(events[p[k]])
    decreases hi - lo
  {
    if lo == hi then []
    else (if Captures(events[lo]) then [lo] else []) + Positions(events, lo + 1, hi)
  }

  /** Positions is strictly ascending. */
  lemma {:induction false} PositionsAscending(events: seq<Event>, lo: nat, hi: nat)
    requires lo <= hi <= |events|
    ensures forall k, l :: 0 <= k < l < |Positions(events, lo, hi)| ==>
              Positions(events, lo, hi)[k] < Positions(events, lo, hi)[l]
    decreases hi - lo
  {
    if lo < hi {
      PositionsAscending(events, lo + 1, hi);
      var q := Positions(events, lo + 1, hi);
      if Captures(events[lo]) {
        var p := [lo] + q;
        assert Positions(events, lo, hi) == p;
        forall k, l | 0 <= k < l < |p| ensures p[k] < p[l] {
          assert p[l] == q[l - 1];
          if k > 0 {
            assert p[k] == q[k - 1];
          }
        }
      } else {
        AppendEmpty(q);
      }
    }
  }

  /** Positions misses no captured index of [lo, hi). */
  lemma {:induction false} PositionsComplete(events: seq<Event>, lo: nat, hi: nat)
    requires lo <= hi <= |events|
    ensures forall i :: lo <= i < hi && Captures(events[i]) ==> i in Positions(events, lo, hi)
    decreases hi - lo
  {
    if lo < hi {
      PositionsComplete(events, lo + 1, hi);
      var q := Positions(events, lo + 1, hi);
      var p := Positions(events, lo, hi);
      if Captures(events[lo]) {
        assert p == [lo] + q;
        assert p[0] == lo;
      } else {
        AppendEmpty(q);
        assert p == q;
      }
      forall i | lo < i < hi && Captures(events[i]) ensures i in p {
        assert i in q;
      }
    }
  }

  /** Prepending the same captured event to both sides keeps the k-th segment / k-th position match. */
  lemma ConsPreservesMatch(events: seq<Event>, lo: nat, q: seq<nat>, tail: seq<Segment>)
    requires lo < |events| && events[lo].Recognized?
    requires |tail| == |q|
    requires forall k :: 0 <= k < |q| ==> q[k] < |events| && events[q[k]].Recognized? && tail[k] == SegmentOf(events[q[k]])
    ensures var p := [lo] + q;
            var s := [SegmentOf(events[lo])] + tail;
            && |s| == |p|
            && forall k :: 0 <= k < |p| ==> p[k] < |events| && events[p[k]].Recognized? && s[k] == SegmentOf(events[p[k]])
  {
    var p := [lo] + q;
    var s := [SegmentOf(events[lo])] + tail;
    forall k | 0 < k < |p| ensures p[k] < |events| && events[p[k]].Recognized? && s[k] == SegmentOf(events[p[k]]) {
      assert s[k] == tail[k - 1] && p[k] == q[k - 1];
    }
  }

  /** Picked holds one segment per captured position, the k-th from the k-th position. */
  lemma {:induction false} PickedAtPositions(events: seq<Event>, lo: nat, hi: nat)
    requires lo <= hi <= |events|
    ensures |Picked(events, lo, hi)| == |Positions(events, lo, hi)|
    ensures forall k :: 0 <= k < |Positions(events, lo, hi)| ==>
              Picked(events, lo, hi)[k] == SegmentOf(events[Positions(events, lo, hi)[k]])
    decreases hi - lo
  {
    if lo < hi {
      PickedAtPositions(events, lo + 1, hi);
      var q := Positions(events, lo + 1, hi);
      var tail := Picked(events, lo + 1, hi);
      if Captures(events[lo]) {
        assert Positions(events, lo, hi) == [lo] + q;
        assert Picked(events, lo, hi) == [SegmentOf(events[lo])] + tail;
        ConsPreservesMatch(events, lo, q, tail);
      } else {
        AppendEmpty(q);
        AppendEmpty(tail);
      }
    }
  }

  /**
   * Segments keep arrival order: the k-th segment comes from the k-th
   * captured event before the first stop or cancel, and there are exactly as
   * many segments as such events.
   */
  lemma CapturedInArrivalOrder(events: seq<Event>)
    ensures var p := Positions(events, 0, StopIndex(events));
            && |Captured(events)| == |p|
            && forall k :: 0 <= k < |p| ==> Captured(events)[k] == SegmentOf(events[p[k]])
  {
    CapturedUpToStop(events);
    PickedAtPositions(events, 0, StopIndex(events));
  }

  /** The set of values of a sequence of indices. */
  ghost function Values(p: seq<nat>): set<nat>
  {
    set x | x in p
  }

  /** Distinct ascending indices: as many of them as there are distinct values. */
  lemma {:induction false} AscendingCard(p: seq<nat>)
    requires forall k, l :: 0 <= k < l < |p| ==> p[k] < p[l]
    ensures |Values(p)| == |p|
  {
    if p != [] {
      AscendingCard(p[1..]);
      assert Values(p) == {p[0]} + Values(p[1..]);
      assert p[0] !in Values(p[1..]) by {
        forall x | x in p[1..] ensures x != p[0] {
          var j :| 0 <= j < |p[1..]| && p[1..][j] == x;
          assert x == p[j + 1];
        }
      }
    }
  }

  /** The number of segments is the number of captured events before the first stop or cancel. */
  lemma CapturedCount(events: seq<Event>)
    ensures |Captured(events)| == |set i | 0 <= i < StopIndex(events) && Captures(events[i])|
  {
    var n := StopIndex(events);
    var p := Positions(events, 0, n);
    CapturedInArrivalOrder(events);
    PositionsAscending(events, 0, n);
    PositionsComplete(events, 0, n);
    AscendingCard(p);
    assert Values(p) == (set i | 0 <= i < n && Captures(events[i]));
  }

  /** Every segment has a non-blank text and a "Speaker " label. */
  lemma CapturedSegmentsAreNonBlank(events: seq<Event>)
    ensures forall seg :: seg in Captured(events) ==>
              HasContent(seg.text) && |seg.speaker| >= |SpeakerPrefix| && seg.speaker[..|SpeakerPrefix|] == SpeakerPrefix
  {
    var p := Positions(events, 0, StopIndex(events));
    CapturedInArrivalOrder(events);
    forall seg | seg in Captured(events)
      ensures HasContent(seg.text) && |seg.speaker| >= |SpeakerPrefix| && seg.speaker[..|SpeakerPrefix|] == SpeakerPrefix
    {
      var k :| 0 <= k < |Captured(events)| && Captured(events)[k] == seg;
      CapturesIffNonBlank(events[p[k]]);
    }
  }

  /**
   * A stop and a cancel end accumulation alike: whatever follows either is
   * ignored, and the transcript is the one of the events before it.
   */
  lemma {:induction false} StopEndsCapture(before: seq<Event>, end: Event, after: seq<Event>)
    requires end.Stopped? || end.Canceled?
    ensures Captured(before + [end] + after) == Captured(before)
  {
    if before != [] {
      assert (before + [end] + after)[1..] == before[1..] + [end] + after;
      StopEndsCapture(before[1..], end, after);
    }
  }

  /** Stop and cancel are interchangeable at any point of the stream. */
  lemma StopAndCancelAlike(before: seq<Event>, after: seq<Event>)
    ensures Captured(before + [Stopped] + after) == Captured(before + [Canceled] + after)
  {
    StopEndsCapture(before, Stopped, after);
    StopEndsCapture(before, Canceled, after);
  }

  /** The two-speaker session: each turn becomes one labelled segment, in order. */
  lemma TwoSpeakerSession()
    ensures Captured([Recognized(true, Some("1"), Some("hello"), "hello"),
                      Recognized(true, Some("2"), Some("hi there"), "hi there"),
                      Stopped])
            == [Segment("Speaker 1", "hello"), Segment("Speaker 2", "hi there")]
  {
    var e1 := Recognized(true, Some("1"), Some("hello"), "hello");
    var e2 := Recognized(true, Some("2"), Some("hi there"), "hi there");
    var events := [e1, e2, Stopped];
    assert !Blank(TextOf(e1)) by { assert TextOf(e1)[0] == 'h'; }
    assert !Blank(TextOf(e2)) by { assert TextOf(e2)[0] == 'h'; }
    assert SegmentOf(e1) == Segment("Speaker 1", "hello") by { assert SpeakerPrefix + "1" == "Speaker 1"; }
    assert SegmentOf(e2) == Segment("Speaker 2", "hi there") by { assert SpeakerPrefix + "2" == "Speaker 2"; }
    CapturedStep(events, 2);
    CapturedStep(events, 1);
    CapturedStep(events, 0);
    assert events[0..] == events;
  }
}
