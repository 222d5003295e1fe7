/**
 The read model behind a catch-up subscription: what it shows after any number of runs, and
 which events it can bear to be given twice.
 */
module Subscribed {
  import opened Wrappers
  import opened Booking
  import BookingRuns
  import MemStore
  import EndToEnd
  import opened ReadModel
  import opened GuestIndex
  import opened CatchUp

  /** Applying the payloads the codec could decode, in order. */
  function Decoded(decode: Recorded -> Option<Event>, events: seq<Recorded>): seq<Event> {
    if events == [] then []
    else
      var last := decode(events[|events| - 1]);
      Decoded(decode, events[..|events| - 1]) + if last.Some? then [last.value] else []
  }

  function EventsCalled(calls: seq<Call>): (r: seq<Recorded>)
    ensures |r| == |calls| && forall i :: 0 <= i < |r| ==> r[i] == calls[i].event
  {
    seq(|calls|, i requires 0 <= i < |calls| => calls[i].event)
  }

  lemma {:induction false} DecodedPrefix(decode: Recorded -> Option<Event>, events: seq<Recorded>, k: nat)
    requires k <= |events|
    ensures Decoded(decode, events[..k]) <= Decoded(decode, events)
  {
    if k < |events| {
      var rest := events[..|events| - 1];
      DecodedPrefix(decode, rest, k);
      assert rest[..k] == events[..k];
    } else {
      assert events[..k] == events;
    }
  }

  lemma {:induction false} EventsOfPrefix(seen: seq<Event>, log: seq<Event>, id: string)
    requires seen <= log
    ensures EventsOf(seen, id) <= EventsOf(log, id)
  {
    if |seen| < |log| {
      EventsOfPrefix(seen, log[..|log| - 1], id);
    } else {
      assert seen == log;
    }
  }

  /** What an initial part of the log shows: initial parts of the streams. */
  lemma PastShows(s: MemStore.State<Event>, seen: seq<Event>, log: seq<Event>, id: string)
    requires BookingRuns.AllBookings(s) && EndToEnd.IsGlobalOrder(s, log) && MemStore.GloballyOrdered(s)
    requires seen <= log
    ensures EventsOf(seen, id) <= MemStore.Payloads(s, BookingStream(id))
    ensures EndToEnd.ViewShows(Project(seen), id, EventsOf(seen, id))
    ensures IndexAgrees(Project(seen))
  {
    EndToEnd.LogHoldsStream(s, log, id);
    EventsOfPrefix(seen, log, id);
    assert Language(id, MemStore.Payloads(s, BookingStream(id)));
    EndToEnd.BookedIffEvents(seen, id);
    ProjectionRefinesFold(seen, id);
    EndToEnd.LogBooksOnce(s, log);
    assert BookedOnce(seen);
    IndexAgreesExactly(seen);
  }

  /** What a run of the subscription has handed over is an initial part of the source's events. */
  lemma CallsArePast(source: seq<Recorded>, subscription: seq<CatchUp.Action>)
    ensures var s, events := CatchUp.Run(source, false, subscription), NonSystem(source);
            && |s.calls| <= |events| && EventsCalled(s.calls) == events[..|s.calls|]
            && (s.running && s.cursor == |source| ==> |s.calls| == |events|)
  {
    EveryRunStartsOver(source, subscription);
  }

  /**
   The sample keeps its views in memory and configures no checkpoint store. Its source holds
   the booking log among system events. At every moment of every run of the subscription the
   views built from the calls of this run show an initial part of the log: each booking as the
   write side folds it from an initial part of its stream, under an index that agrees. A run
   that has come to the end of the source shows all of it.
   */
  lemma SubscribedViewsAgree(commands: seq<BookingRuns.BookingAction>, source: seq<Recorded>,
                             decode: Recorded -> Option<Event>, subscription: seq<CatchUp.Action>, id: string)
    requires BookingRuns.CommandsOnly(commands)
    requires EndToEnd.IsGlobalOrder(BookingRuns.After(commands).store, Decoded(decode, NonSystem(source)))
    ensures var s := CatchUp.Run(source, false, subscription);
            var seen, log := Decoded(decode, EventsCalled(s.calls)), Decoded(decode, NonSystem(source));
            var stream := MemStore.Payloads(BookingRuns.After(commands).store, BookingStream(id));
            && seen <= log
            && EventsOf(seen, id) <= stream
            && EndToEnd.ViewShows(Project(seen), id, EventsOf(seen, id))
            && IndexAgrees(Project(seen))
            && (s.running && s.cursor == |source| ==> seen == log && EventsOf(seen, id) == stream)
  {
    CallsArePast(source, subscription);
    var store, calls := BookingRuns.After(commands).store, CatchUp.Run(source, false, subscription).calls;
    var events := NonSystem(source);
    DecodedPrefix(decode, events, |calls|);
    BookingRuns.ReachableStreamsAreBookings(commands);
    EndToEnd.RunsHaveGlobalOrder(BookingService(), commands);
    PastShows(store, Decoded(decode, events[..|calls|]), Decoded(decode, events), id);
    EndToEnd.LogHoldsStream(store, Decoded(decode, events), id);
    assert events[..|events|] == events;
  }

  lemma {:induction false} MarkTwice(list: seq<Summary>, id: string)
    ensures MarkCancelled(MarkCancelled(list, id), id) == MarkCancelled(list, id)
  {
    if list != [] && list[0].bookingID != id {
      MarkTwice(list[1..], id);
    }
  }

  /**
   A subscription that does keep checkpoints may deliver its last event again after a restart.
   The views are left as they were exactly when that event is not a new booking, nor a payment
   of a non-zero amount to a booking that is there.
   */
  lemma RedeliveryHarmlessExactly(v: Views, e: Event)
    ensures Apply(Apply(v, e), e) == Apply(v, e) <==>
              !e.RoomBooked? && (e.PaymentRecorded? && e.bookingID in v.bookings ==> e.amount == 0.0)
  {
    var once, twice := Apply(v, e), Apply(Apply(v, e), e);
    match e
    case RoomBooked(id, guest, _, _, _, _, _) =>
      assert |GuestList(twice, guest)| == |GuestList(once, guest)| + 1;
    case PaymentRecorded(id, amount, _, _) =>
      if id in v.bookings {
        assert twice.bookings[id].outstanding == once.bookings[id].outstanding - amount;
        if amount == 0.0 {
          assert twice.bookings[id] == once.bookings[id];
          assert twice.bookings == once.bookings;
        }
      }
    case BookingCancelled(id, _) =>
      if id in v.bookings {
        var guest := v.bookings[id].guestID;
        MarkTwice(GuestList(v, guest), id);
        assert twice.bookings == once.bookings;
        assert twice.guests == once.guests;
      }
    case Other =>
  }
}
