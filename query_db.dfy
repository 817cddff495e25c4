/** The selection of exposures still to be transferred: every exposure none
    of whose events records the success marker ":: 0". The two tables are
    given as sequences of records. */
module TransferQuery {
  import opened Text

  /** A row of EXPOSURES, reduced to the columns the selection returns. */
  datatype Exposure = Exposure(id: int, exposure: string, fileaddr: string)

  /** A row of EXPOSURE_EVENT: the exposure it belongs to and its text. */
  datatype Event = Event(expid: int, event: string)

  const SuccessMarker := ":: 0"

  /** Some event of exposure `id` contains the success marker: the
      sub-select `SELECT expid FROM EXPOSURE_EVENT WHERE event LIKE '%:: 0%'`
      yields `id`. */
  predicate Completed(id: int, events: seq<Event>)
  {
    exists k :: 0 <= k < |events| && events[k].expid == id && Contains(events[k].event, SuccessMarker)
  }

  /** `query_exposures_for_transfer`: the exposures whose id is NOT IN the
      completed ones, in table order. */
  function SelectForTransfer(exposures: seq<Exposure>, events: seq<Event>): (rows: seq<Exposure>)
    ensures forall x :: x in rows <==> x in exposures && !Completed(x.id, events)
    ensures multiset(rows) <= multiset(exposures)
    ensures forall x :: x in exposures && !Completed(x.id, events) ==> multiset(rows)[x] == multiset(exposures)[x]
  {
    if exposures == [] then []
    else
      var rest := SelectForTransfer(exposures[1..], events);
      assert exposures == [exposures[0]] + exposures[1..];
      if Completed(exposures[0].id, events) then rest else [exposures[0]] + rest
  }

  /** An exposure with no events at all is selected. */
  lemma NoEventsSelected(exposures: seq<Exposure>, events: seq<Event>, x: Exposure)
    requires x in exposures
    requires forall k :: 0 <= k < |events| ==> events[k].expid != x.id
    ensures x in SelectForTransfer(exposures, events)
  {
  }

  /** Recording one more event changes the completion of `id` only if it is
      an event of `id` whose text contains the marker. */
  lemma CompletedAfterEvent(id: int, events: seq<Event>, e: Event)
    ensures Completed(id, events + [e])
            <==> Completed(id, events) || (e.expid == id && Contains(e.event, SuccessMarker))
  {
    var all := events + [e];
    if Completed(id, events) {
      var k :| 0 <= k < |events| && events[k].expid == id && Contains(events[k].event, SuccessMarker);
      assert all[k] == events[k];
    }
    if e.expid == id && Contains(e.event, SuccessMarker) {
      assert all[|events|] == e;
    }
    if Completed(id, all) {
      var k :| 0 <= k < |all| && all[k].expid == id && Contains(all[k].event, SuccessMarker);
      if k < |events| { assert all[k] == events[k]; }
    }
  }

  /** Events that belong to other exposures never change whether an
      exposure is selected. */
  lemma OtherEventsIrrelevant(exposures: seq<Exposure>, events: seq<Event>,
                              extra: seq<Event>, x: Exposure)
    requires forall k :: 0 <= k < |extra| ==> extra[k].expid != x.id
    ensures x in SelectForTransfer(exposures, events + extra)
            <==> x in SelectForTransfer(exposures, events)
  {
    var all := events + extra;
    if Completed(x.id, all) {
      var k :| 0 <= k < |all| && all[k].expid == x.id && Contains(all[k].event, SuccessMarker);
      assert k < |events|;
      assert all[k] == events[k];
    }
    if Completed(x.id, events) {
      var k :| 0 <= k < |events| && events[k].expid == x.id && Contains(events[k].event, SuccessMarker);
      assert all[k] == events[k];
    }
  }

  /** A failure event, one ending in ":: -1", does not exclude its exposure
      when the text before the code holds no marker. */
  lemma FailureEventKeepsEligible(exposures: seq<Exposure>, events: seq<Event>,
                                  x: Exposure, text: string)
    requires x in SelectForTransfer(exposures, events)
    requires !Contains(text, SuccessMarker)
    ensures x in SelectForTransfer(exposures, events + [Event(x.id, text + ":: -1")])
  {
    ContainsIgnoresTail(text, ":: -1", SuccessMarker);
    CompletedAfterEvent(x.id, events, Event(x.id, text + ":: -1"));
  }

  /** Once an event of an exposure contains the marker anywhere, the
      exposure is never selected again. */
  lemma SuccessEventExcludes(exposures: seq<Exposure>, events: seq<Event>, x: Exposure, text: string)
    requires Contains(text, SuccessMarker)
    ensures x !in SelectForTransfer(exposures, events + [Event(x.id, text)])
  {
    CompletedAfterEvent(x.id, events, Event(x.id, text));
  }

  /** The marker is matched as a substring, not as a whole status code: a
      text ending ":: 05" completes its exposure just as ":: 0" does. */
  lemma MarkerMatchesAsSubstring(prefix: string)
    ensures Contains(prefix + ":: 05", SuccessMarker)
  {
    var s := prefix + ":: 05";
    assert s[|prefix|..|prefix| + 4] == SuccessMarker;
    assert OccursAt(s, SuccessMarker, |prefix|);
  }
}
