/** The in-memory read model: booking documents by id, and booking summaries by guest. */
module ReadModel {
  import opened Wrappers
  import opened StateLoading
  import opened Booking

  datatype Document = Document(
    bookingID: string, guestID: string, roomID: string, checkIn: string, checkOut: string,
    price: real, outstanding: real, currency: string, paid: bool, cancelled: bool)

  datatype Summary = Summary(
    bookingID: string, roomID: string, checkIn: string, checkOut: string,
    price: real, currency: string, cancelled: bool)

  datatype Views = Views(bookings: map<string, Document>, guests: map<string, seq<Summary>>)

  function GuestList(v: Views, guest: string): seq<Summary> {
    if guest in v.guests then v.guests[guest] else []
  }

  /** Marks the first summary of a booking as cancelled. */
  function MarkCancelled(list: seq<Summary>, id: string): seq<Summary> {
    if list == [] then []
    else if list[0].bookingID == id then [list[0].(cancelled := true)] + list[1..]
    else [list[0]] + MarkCancelled(list[1..], id)
  }

  function Apply(v: Views, event: Event): Views {
    match event
    case RoomBooked(id, guest, room, checkIn, checkOut, price, currency) =>
      Views(v.bookings[id := Document(id, guest, room, checkIn, checkOut, price, price, currency, false, false)],
            v.guests[guest := GuestList(v, guest) + [Summary(id, room, checkIn, checkOut, price, currency, false)]])
    case PaymentRecorded(id, amount, _, _) =>
      if id !in v.bookings then v
      else
        var doc := v.bookings[id];
        var outstanding := doc.outstanding - amount;
        v.(bookings := v.bookings[id := doc.(outstanding := outstanding, paid := doc.paid || outstanding <= 0.0)])
    case BookingCancelled(id, _) =>
      if id !in v.bookings then v
      else
        var doc := v.bookings[id];
        Views(v.bookings[id := doc.(cancelled := true)],
              if doc.guestID in v.guests
              then v.guests[doc.guestID := MarkCancelled(v.guests[doc.guestID], id)] else v.guests)
    case Other => v
  }

  function Project(log: seq<Event>): Views {
    if log == [] then Views(map[], map[]) else Apply(Project(log[..|log| - 1]), log[|log| - 1])
  }

  // ---------------------------------------------------------------------------------------
  // The search for a summary
  // ---------------------------------------------------------------------------------------

  /** A list without the booking is left alone. */
  lemma {:induction false} MarkCancelledNone(list: seq<Summary>, id: string)
    requires forall j :: 0 <= j < |list| ==> list[j].bookingID != id
    ensures MarkCancelled(list, id) == list
  {
    if list != [] {
      MarkCancelledNone(list[1..], id);
    }
  }

  /** Otherwise the first summary of the booking is marked. */
  lemma {:induction false} MarkCancelledAt(list: seq<Summary>, id: string, i: nat)
    requires i < |list| && list[i].bookingID == id
    requires forall j :: 0 <= j < i ==> list[j].bookingID != id
    ensures MarkCancelled(list, id) == list[i := list[i].(cancelled := true)]
  {
    if i > 0 {
      MarkCancelledAt(list[1..], id, i - 1);
    }
  }

  // ---------------------------------------------------------------------------------------
  // Documents agree with the write side
  // ---------------------------------------------------------------------------------------

  predicate Concerns(e: Event, id: string) {
    !e.Other? && e.bookingID == id
  }

  /** The events of one booking, in log order. */
  function EventsOf(log: seq<Event>, id: string): seq<Event> {
    if log == [] then []
    else
      EventsOf(log[..|log| - 1], id)
      + if Concerns(log[|log| - 1], id) then [log[|log| - 1]] else []
  }

  /** How a write-side state shows as a document. */
  function DocumentOf(s: BookingState): Document {
    Document(s.id, s.guestID, s.roomID, s.checkIn, s.checkOut, s.price, s.outstanding, s.currency, s.paid, s.cancelled)
  }

  ghost predicate Booked(log: seq<Event>, id: string) {
    exists i :: 0 <= i < |log| && log[i].RoomBooked? && log[i].bookingID == id
  }

  /**
   For any log whatever, a booking has a document exactly when it was booked, and the document
   shows what the write side would fold from that booking's events alone.
   */
  lemma {:induction false} ProjectionRefinesFold(log: seq<Event>, id: string)
    ensures id in Project(log).bookings <==> Booked(log, id)
    ensures Booked(log, id) ==>
              Project(log).bookings[id] == DocumentOf(Fold(BookingFold, NO_BOOKING, EventsOf(log, id)))
  {
    if log != [] {
      var rest, last := log[..|log| - 1], log[|log| - 1];
      ProjectionRefinesFold(rest, id);
      assert Booked(log, id) <==> Booked(rest, id) || (last.RoomBooked? && last.bookingID == id) by {
        assert forall i :: 0 <= i < |rest| ==> rest[i] == log[i];
      }
      var events := EventsOf(rest, id);
      if Concerns(last, id) {
        assert (events + [last])[..|events + [last]| - 1] == events;
      } else {
        assert EventsOf(log, id) == events;
      }
    }
  }

  // ---------------------------------------------------------------------------------------
  // The guest index
  // ---------------------------------------------------------------------------------------

  /** A guest's bookings, in booking order. */
  function BookedBy(log: seq<Event>, guest: string): (r: seq<Event>)
    ensures forall i :: 0 <= i < |r| ==> r[i].RoomBooked? && r[i].guestID == guest
  {
    if log == [] then []
    else
      var last := log[|log| - 1];
      BookedBy(log[..|log| - 1], guest) + if last.RoomBooked? && last.guestID == guest then [last] else []
  }

  ghost predicate BookedOnce(log: seq<Event>) {
    forall i, j :: 0 <= i < j < |log| && log[i].RoomBooked? && log[j].RoomBooked? ==>
                     log[i].bookingID != log[j].bookingID
  }

  function SummaryOf(doc: Document): Summary {
    Summary(doc.bookingID, doc.roomID, doc.checkIn, doc.checkOut, doc.price, doc.currency, doc.cancelled)
  }

  lemma {:induction false} MarkCancelledIds(list: seq<Summary>, id: string)
    ensures |MarkCancelled(list, id)| == |list|
    ensures forall i :: 0 <= i < |list| ==> MarkCancelled(list, id)[i].bookingID == list[i].bookingID
  {
    if list != [] {
      MarkCancelledIds(list[1..], id);
    }
  }

  /** On a list that names a booking at most once, marking changes that entry's flag and nothing else. */
  lemma {:induction false} MarkCancelledOnce(list: seq<Summary>, id: string)
    requires forall i, j :: 0 <= i < j < |list| ==> list[i].bookingID != list[j].bookingID
    ensures |MarkCancelled(list, id)| == |list|
    ensures forall i :: 0 <= i < |list| ==>
              MarkCancelled(list, id)[i] == if list[i].bookingID == id then list[i].(cancelled := true) else list[i]
  {
    if list != [] && list[0].bookingID != id {
      MarkCancelledOnce(list[1..], id);
    }
  }

  /** The first summary of a booking on a list. */
  ghost predicate FirstOn(list: seq<Summary>, id: string, i: int)
    requires 0 <= i < |list|
  {
    list[i].bookingID == id && forall j :: 0 <= j < i ==> list[j].bookingID != id
  }

  lemma {:induction false} MarkCancelledFirst(list: seq<Summary>, id: string, i: nat)
    requires i < |list|
    ensures |MarkCancelled(list, id)| == |list|
    ensures MarkCancelled(list, id)[i] == if FirstOn(list, id, i) then list[i].(cancelled := true) else list[i]
  {
    if list[0].bookingID != id && i > 0 {
      MarkCancelledFirst(list[1..], id, i - 1);
    }
    MarkCancelledIds(list, id);
  }

  /**
   In whatever state, ids booked again included, a cancellation shows in the booking's document
   and in the first of its summaries on the list of the guest that the document names.
   */
  lemma CancellationMarksOne(v: Views, id: string, reason: string, guest: string, i: nat)
    requires i < |GuestList(v, guest)|
    ensures var list, v' := GuestList(v, guest), Apply(v, BookingCancelled(id, reason));
            var marks := id in v.bookings && v.bookings[id].guestID == guest && FirstOn(list, id, i);
            && |GuestList(v', guest)| == |list|
            && GuestList(v', guest)[i] == if marks then list[i].(cancelled := true) else list[i]
  {
    MarkCancelledFirst(GuestList(v, guest), id, i);
  }

  lemma {:induction false} BookedByIsBooked(log: seq<Event>, guest: string, i: nat)
    requires i < |BookedBy(log, guest)|
    ensures var e := BookedBy(log, guest)[i];
            e.RoomBooked? && e.guestID == guest && e in log && Booked(log, e.bookingID)
  {
    var rest, last := log[..|log| - 1], log[|log| - 1];
    if i < |BookedBy(rest, guest)| {
      BookedByIsBooked(rest, guest, i);
      var e := BookedBy(rest, guest)[i];
      var k :| 0 <= k < |rest| && rest[k] == e;
      assert log[k] == e;
    } else {
      assert log[|log| - 1] == last;
    }
  }

  lemma ApplyToGuestList(v: Views, event: Event, guest: string)
    ensures var list, list' := GuestList(v, guest), GuestList(Apply(v, event), guest);
            if event.RoomBooked? && event.guestID == guest then
              && |list'| == |list| + 1 && list'[..|list|] == list && list'[|list|].bookingID == event.bookingID
            else
              |list'| == |list| && forall i :: 0 <= i < |list| ==> list'[i].bookingID == list[i].bookingID
  {
    if event.BookingCancelled? {
      MarkCancelledIds(GuestList(v, guest), event.bookingID);
    }
  }

  /** A guest's list always names exactly that guest's bookings, in booking order. */
  lemma {:induction false} GuestListNames(log: seq<Event>, guest: string)
    ensures var list := GuestList(Project(log), guest);
            && |list| == |BookedBy(log, guest)|
            && forall i :: 0 <= i < |list| ==> list[i].bookingID == BookedBy(log, guest)[i].bookingID
  {
    if log != [] {
      var rest, last := log[..|log| - 1], log[|log| - 1];
      GuestListNames(rest, guest);
      ApplyToGuestList(Project(rest), last, guest);
    }
  }

  lemma {:induction false} BookedByDistinct(log: seq<Event>, guest: string)
    requires BookedOnce(log)
    ensures forall i, j :: 0 <= i < j < |BookedBy(log, guest)| ==>
              BookedBy(log, guest)[i].bookingID != BookedBy(log, guest)[j].bookingID
  {
    if log != [] {
      var rest := log[..|log| - 1];
      BookedByDistinct(rest, guest);
      forall i | 0 <= i < |BookedBy(rest, guest)|
        ensures log[|log| - 1].RoomBooked? ==> BookedBy(rest, guest)[i].bookingID != log[|log| - 1].bookingID
      {
        BookedByIsBooked(rest, guest, i);
        var k :| 0 <= k < |rest| && rest[k] == BookedBy(rest, guest)[i];
        assert log[k] == rest[k];
      }
    }
  }

  /** A document always belongs to some booking of its guest. */
  lemma {:induction false} DocumentGuest(log: seq<Event>, id: string)
    requires id in Project(log).bookings
    ensures var doc := Project(log).bookings[id];
            && doc.bookingID == id
            && exists i :: 0 <= i < |BookedBy(log, doc.guestID)| && BookedBy(log, doc.guestID)[i].bookingID == id
  {
    var rest, last := log[..|log| - 1], log[|log| - 1];
    if last.RoomBooked? && last.bookingID == id {
      assert BookedBy(log, last.guestID)[|BookedBy(rest, last.guestID)|] == last;
    } else {
      DocumentGuest(rest, id);
      var guest := Project(rest).bookings[id].guestID;
      var i :| 0 <= i < |BookedBy(rest, guest)| && BookedBy(rest, guest)[i].bookingID == id;
      assert BookedBy(log, guest)[i] == BookedBy(rest, guest)[i];
    }
  }

  // ---------------------------------------------------------------------------------------
  // The code
  // ---------------------------------------------------------------------------------------

  class BookingReadModel {
    var bookings: map<string, Document>
    var guests: map<string, seq<Summary>>
    ghost var fed: seq<Event>  // the decoded events handled so far

    function View(): Views
      reads this
    {
      Views(bookings, guests)
    }

    ghost predicate Valid()
      reads this
    {
      View() == Project(fed)
    }

    constructor ()
      ensures Valid() && fed == []
    {
      bookings := map[];
      guests := map[];
      fed := [];
    }

    /** A payload that could not be decoded is `None` and is passed over. */
    method HandleEvent(payload: Option<Event>)
      requires Valid()
      modifies this
      ensures Valid() && fed == old(fed) + if payload.Some? then [payload.value] else []
      ensures View() == if payload.Some? then Apply(old(View()), payload.value) else old(View())
    {
      if payload.None? {
        return;
      }
      ghost var log := fed;
      fed := fed + [payload.value];
      assert fed[..|fed| - 1] == log;
      match payload.value {
        case RoomBooked(id, guest, room, checkIn, checkOut, price, currency) =>
          var doc := Document(id, guest, room, checkIn, checkOut, price, price, currency, false, false);
          bookings := bookings[id := doc];
          var list := if guest in guests then guests[guest] else [];
          guests := guests[guest := list + [Summary(id, room, checkIn, checkOut, price, currency, false)]];
        case PaymentRecorded(id, amount, _, _) =>
          if id in bookings {
            var doc := bookings[id];
            doc := doc.(outstanding := doc.outstanding - amount);
            if doc.outstanding <= 0.0 {
              doc := doc.(paid := true);
            }
            bookings := bookings[id := doc];
          }
        case BookingCancelled(id, _) =>
          if id in bookings {
            var doc := bookings[id];
            doc := doc.(cancelled := true);
            bookings := bookings[id := doc];
            CancelSummary(doc.guestID, id);
          }
        case Other =>
      }
    }

    /** The search loop over a guest's summaries, which stops at the first hit. */
    method CancelSummary(guest: string, id: string)
      modifies this`guests
      ensures guests == if guest in old(guests)
                        then old(guests)[guest := MarkCancelled(old(guests)[guest], id)] else old(guests)
    {
      if guest !in guests {
        return;
      }
      ghost var list := guests[guest];
      for i := 0 to |guests[guest]|
        invariant guests == old(guests)
        invariant forall j :: 0 <= j < i ==> list[j].bookingID != id
      {
        if guests[guest][i].bookingID == id {
          MarkCancelledAt(list, id, i);
          guests := guests[guest := guests[guest][i := guests[guest][i].(cancelled := true)]];
          return;
        }
      }
      MarkCancelledNone(list, id);
      assert guests[guest := list] == guests;
    }

    /** Finds what the write side would fold for the booking, exactly when it was booked. */
    method GetBooking(id: string) returns (doc: Option<Document>)
      requires Valid()
      ensures doc.Some? <==> Booked(fed, id)
      ensures doc.Some? ==> doc.value == DocumentOf(Fold(BookingFold, NO_BOOKING, EventsOf(fed, id)))
    {
      ProjectionRefinesFold(fed, id);
      doc := if id in bookings then Some(bookings[id]) else None;
    }

    /** Lists the guest's bookings in booking order. */
    method GetGuestBookings(guest: string) returns (list: seq<Summary>)
      requires Valid()
      ensures list == GuestList(View(), guest) && |list| == |BookedBy(fed, guest)|
      ensures forall i :: 0 <= i < |list| ==> list[i].bookingID == BookedBy(fed, guest)[i].bookingID
    {
      GuestListNames(fed, guest);
      list := if guest in guests then guests[guest] else [];
    }
  }
}
