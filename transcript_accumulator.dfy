/**
 * The transcript accumulator: the result handler of a recognition session. Each result
 * event carries the whole list of result slots and the index of the first slot that
 * changed. The handler walks the slots from that index on, appends the text of every final
 * slot to the persistent finalized transcript, collects the text of every interim slot in a
 * scratch buffer, and displays finalized text followed by the interim text.
 */
module TranscriptAccumulator {

  /** One result slot: whether it is final, and the text of its first candidate. */
  datatype Slot = Slot(isFinal: bool, text: string)

  /** A result event: the index of the first changed slot and the full list of slots. */
  datatype ResultEvent = ResultEvent(resultIndex: nat, results: seq<Slot>)

  /** What a result event leaves behind: the new finalized text and the displayed transcript. */
  datatype Outcome = Outcome(finalized: string, displayed: string)

  /** Concatenation, in index order, of the texts of the slots whose finality is `isFinal`. */
  function Joined(slots: seq<Slot>, isFinal: bool): (r: string)
  {
    if slots == [] then ""
    else
      var last := slots[|slots| - 1];
      Joined(slots[..|slots| - 1], isFinal) + (if last.isFinal == isFinal then last.text else "")
  }

  /** Concatenation, in index order, of the texts of all slots. */
  function AllText(slots: seq<Slot>): (r: string)
  {
    if slots == [] then "" else AllText(slots[..|slots| - 1]) + slots[|slots| - 1].text
  }

  /** The slots at indices lo until hi, or none when that range is empty or out of bounds. */
  function Span(s: seq<Slot>, lo: nat, hi: nat): (r: seq<Slot>)
  {
    if lo <= hi <= |s| then s[lo..hi] else []
  }

  /** The slots the handler visits: those at indices resultIndex and above. */
  function Visited(e: ResultEvent): (r: seq<Slot>)
  {
    Span(e.results, e.resultIndex, |e.results|)
  }

  /** Specification of one result event applied to the finalized text `finalized`. */
  function Apply(finalized: string, e: ResultEvent): (o: Outcome)
    ensures finalized <= o.finalized <= o.displayed
  {
    var added := Joined(Visited(e), true);
    Outcome(finalized + added, finalized + added + Joined(Visited(e), false))
  }

  lemma SpanSnoc(s: seq<Slot>, lo: nat, i: nat)
    requires lo <= i < |s|
    ensures Span(s, lo, i + 1) == Span(s, lo, i) + [s[i]]
  {
  }

  lemma JoinedSnoc(slots: seq<Slot>, x: Slot, isFinal: bool)
    ensures Joined(slots + [x], isFinal)
         == Joined(slots, isFinal) + (if x.isFinal == isFinal then x.text else "")
  {
    assert (slots + [x])[..|slots|] == slots;
  }

  /**
   * The result handler's loop: from resultIndex to the end of the list, a final slot's text
   * goes onto the finalized text and an interim slot's text onto the scratch buffer.
   */
  method Accumulate(finalized: string, e: ResultEvent) returns (newFinalized: string, displayed: string)
    ensures Outcome(newFinalized, displayed) == Apply(finalized, e)
  {
    var interim := "";
    newFinalized := finalized;
    var i := e.resultIndex;
    while i < |e.results|
      invariant e.resultIndex <= i
      invariant i <= |e.results| || i == e.resultIndex
      invariant newFinalized == finalized + Joined(Span(e.results, e.resultIndex, i), true)
      invariant interim == Joined(Span(e.results, e.resultIndex, i), false)
    {
      var slot := e.results[i];
      SpanSnoc(e.results, e.resultIndex, i);
      JoinedSnoc(Span(e.results, e.resultIndex, i), slot, true);
      JoinedSnoc(Span(e.results, e.resultIndex, i), slot, false);
      if slot.isFinal {
        newFinalized := newFinalized + slot.text;
      } else {
        interim := interim + slot.text;
      }
      i := i + 1;
    }
    displayed := newFinalized + interim;
  }

  /** Joining distributes over concatenation of slot lists. */
  lemma {:induction false} JoinedAppend(a: seq<Slot>, b: seq<Slot>, isFinal: bool)
    ensures Joined(a + b, isFinal) == Joined(a, isFinal) + Joined(b, isFinal)
  {
    if b == [] {
      assert a + b == a;
    } else {
      var init := b[..|b| - 1];
      var last := b[|b| - 1];
      assert b == init + [last];
      assert a + b == (a + init) + [last];
      JoinedAppend(a, init, isFinal);
      JoinedSnoc(a + init, last, isFinal);
      JoinedSnoc(init, last, isFinal);
    }
  }

  /**
   * When every slot is final, the final texts are all the text and nothing is interim; when
   * every slot is interim, nothing is final and the interim texts are all the text.
   */
  lemma {:induction false} JoinedUniform(slots: seq<Slot>, isFinal: bool)
    requires forall k :: 0 <= k < |slots| ==> slots[k].isFinal == isFinal
    ensures Joined(slots, isFinal) == AllText(slots)
    ensures Joined(slots, !isFinal) == ""
  {
    if slots != [] {
      JoinedUniform(slots[..|slots| - 1], isFinal);
    }
  }

  /** The slots whose finality is `isFinal`, in index order. */
  function Select(slots: seq<Slot>, isFinal: bool): (r: seq<Slot>)
    ensures forall k :: 0 <= k < |r| ==> r[k].isFinal == isFinal
  {
    if slots == [] then []
    else
      var last := slots[|slots| - 1];
      Select(slots[..|slots| - 1], isFinal) + (if last.isFinal == isFinal then [last] else [])
  }

  lemma AllTextSnoc(slots: seq<Slot>, x: Slot)
    ensures AllText(slots + [x]) == AllText(slots) + x.text
  {
    assert (slots + [x])[..|slots|] == slots;
  }

  /**
   * Each buffer holds exactly the texts of the slots of its kind: the final buffer is the
   * text of the final slots alone and the interim buffer that of the interim slots alone.
   */
  lemma {:induction false} JoinedIsSelected(slots: seq<Slot>, isFinal: bool)
    ensures Joined(slots, isFinal) == AllText(Select(slots, isFinal))
  {
    if slots != [] {
      var init := slots[..|slots| - 1];
      var last := slots[|slots| - 1];
      JoinedIsSelected(init, isFinal);
      if last.isFinal == isFinal {
        AllTextSnoc(Select(init, isFinal), last);
      } else {
        assert Select(init, isFinal) + [] == Select(init, isFinal);
      }
    }
  }

  /** Every slot's text goes into exactly one of the two buffers, character for character. */
  lemma {:induction false} JoinedPartitions(slots: seq<Slot>)
    ensures multiset(Joined(slots, true)) + multiset(Joined(slots, false)) == multiset(AllText(slots))
    ensures |Joined(slots, true)| + |Joined(slots, false)| == |AllText(slots)|
  {
    if slots != [] {
      JoinedPartitions(slots[..|slots| - 1]);
    }
  }

  /** Slots before resultIndex have no effect: only the visited suffix matters. */
  lemma EarlierSlotsIgnored(finalized: string, e1: ResultEvent, e2: ResultEvent)
    requires e1.resultIndex == e2.resultIndex && |e1.results| == |e2.results|
    requires forall k :: e1.resultIndex <= k < |e1.results| ==> e1.results[k] == e2.results[k]
    ensures Apply(finalized, e1) == Apply(finalized, e2)
  {
    assert Visited(e1) == Visited(e2);
  }

  /** An event that starts at or past the end of its list changes nothing and shows the finalized text. */
  lemma EmptyEventKeepsFinalized(finalized: string, e: ResultEvent)
    requires e.resultIndex >= |e.results|
    ensures Apply(finalized, e) == Outcome(finalized, finalized)
  {
  }

  /**
   * In every event, the finalized text grows by the texts of the visited final slots only,
   * and the display adds the texts of the visited interim slots only after it.
   */
  lemma InterimNeverFinalized(finalized: string, e: ResultEvent)
    ensures Apply(finalized, e).finalized == finalized + AllText(Select(Visited(e), true))
    ensures Apply(finalized, e).displayed
         == Apply(finalized, e).finalized + AllText(Select(Visited(e), false))
  {
    JoinedIsSelected(Visited(e), true);
    JoinedIsSelected(Visited(e), false);
  }

  /** An event whose visited slots are all interim leaves the finalized text unchanged. */
  lemma AllInterimKeepsFinalized(finalized: string, e: ResultEvent)
    requires forall k :: e.resultIndex <= k < |e.results| ==> !e.results[k].isFinal
    ensures Apply(finalized, e).finalized == finalized
    ensures Apply(finalized, e).displayed == finalized + AllText(Visited(e))
  {
    JoinedUniform(Visited(e), false);
  }

  /**
   * Splitting the visited slots between two events, the first covering indices resultIndex
   * until m and the second starting at m, finalizes the same text as the single event.
   */
  lemma SplitEventSameFinalized(finalized: string, e: ResultEvent, m: nat)
    requires e.resultIndex <= m <= |e.results|
    ensures var first := ResultEvent(e.resultIndex, e.results[..m]);
            var second := ResultEvent(m, e.results);
            Apply(Apply(finalized, first).finalized, second).finalized == Apply(finalized, e).finalized
  {
    var first := ResultEvent(e.resultIndex, e.results[..m]);
    var second := ResultEvent(m, e.results);
    assert Visited(first) == e.results[e.resultIndex..m];
    assert Visited(second) == e.results[m..];
    assert Visited(e) == Visited(first) + Visited(second);
    JoinedAppend(Visited(first), Visited(second), true);
  }

  /**
   * Interim text is transient: an interim "hi" followed by a final "hi there" in the same
   * slot displays "hi there" after the finalized text, not "hihi there".
   */
  lemma InterimReplacedByFinal(finalized: string)
    ensures var first := Apply(finalized, ResultEvent(0, [Slot(false, "hi")]));
            first == Outcome(finalized, finalized + "hi") &&
            Apply(first.finalized, ResultEvent(0, [Slot(true, "hi there")]))
              == Outcome(finalized + "hi there", finalized + "hi there")
  {
    var e1 := ResultEvent(0, [Slot(false, "hi")]);
    var e2 := ResultEvent(0, [Slot(true, "hi there")]);
    assert Visited(e1) == [] + [Slot(false, "hi")];
    assert Visited(e2) == [] + [Slot(true, "hi there")];
    JoinedSnoc([], Slot(false, "hi"), true);
    JoinedSnoc([], Slot(false, "hi"), false);
    JoinedSnoc([], Slot(true, "hi there"), true);
    JoinedSnoc([], Slot(true, "hi there"), false);
  }

  /** The finalized text after delivering `events` in order, starting from `finalized`. */
  function Feed(finalized: string, events: seq<ResultEvent>): (r: string)
    decreases events
  {
    if events == [] then finalized else Feed(Apply(finalized, events[0]).finalized, events[1..])
  }

  /** Reference definition: the final texts each event visits, concatenated in delivery order. */
  function FinalsOf(events: seq<ResultEvent>): (r: string)
  {
    if events == [] then "" else Joined(Visited(events[0]), true) + FinalsOf(events[1..])
  }

  /**
   * Over any sequence of result events, the finalized text is the starting text followed by
   * the final texts of the events in order; in particular it only grows.
   */
  lemma {:induction false} FeedAppendsFinals(finalized: string, events: seq<ResultEvent>)
    ensures Feed(finalized, events) == finalized + FinalsOf(events)
    ensures finalized <= Feed(finalized, events)
    decreases events
  {
    if events != [] {
      var added := Joined(Visited(events[0]), true);
      FeedAppendsFinals(finalized + added, events[1..]);
      assert (finalized + added) + FinalsOf(events[1..]) == finalized + (added + FinalsOf(events[1..]));
    }
  }
}
