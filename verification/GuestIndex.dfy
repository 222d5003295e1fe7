/** The guest index of the read model, and exactly when it agrees with the documents. */
module GuestIndex {
  import opened Booking
  import opened ReadModel

  /** One guest's list shows only that guest's bookings, each as its document has it. */
  ghost predicate ListAgrees(v: Views, guest: string) {
    forall i :: 0 <= i < |GuestList(v, guest)| ==>
      var s := GuestList(v, guest)[i];
      && s.bookingID in v.bookings
      && v.bookings[s.bookingID].guestID == guest
      && s == SummaryOf(v.bookings[s.bookingID])
  }

  ghost predicate ListDistinct(v: Views, guest: string) {
    forall i, j :: 0 <= i < j < |GuestList(v, guest)| ==>
      GuestList(v, guest)[i].bookingID != GuestList(v, guest)[j].bookingID
  }

  ghost predicate Listed(v: Views, guest: string, id: string) {
    exists i :: 0 <= i < |GuestList(v, guest)| && GuestList(v, guest)[i].bookingID == id
  }

  /** Every list agrees with the documents, and every document is on its guest's list once. */
  ghost predicate IndexAgrees(v: Views) {
    && (forall guest :: ListAgrees(v, guest) && ListDistinct(v, guest))
    && (forall id :: id in v.bookings ==> Listed(v, v.bookings[id].guestID, id))
  }

  lemma ApplyKeepsListAgrees(v: Views, event: Event, guest: string)
    requires ListAgrees(v, guest) && ListDistinct(v, guest)
    requires event.RoomBooked? ==>
               forall i :: 0 <= i < |GuestList(v, guest)| ==> GuestList(v, guest)[i].bookingID != event.bookingID
    ensures ListAgrees(Apply(v, event), guest)
  {
    var v', list := Apply(v, event), GuestList(v, guest);
    if event.BookingCancelled? {
      MarkCancelledOnce(list, event.bookingID);
    }
    forall i | 0 <= i < |GuestList(v', guest)|
      ensures var s := GuestList(v', guest)[i];
              && s.bookingID in v'.bookings && v'.bookings[s.bookingID].guestID == guest
              && s == SummaryOf(v'.bookings[s.bookingID])
    {
      if i < |list| {
        var id := list[i].bookingID;
        assert id in v.bookings && v.bookings[id].guestID == guest && list[i] == SummaryOf(v.bookings[id]);
        assert GuestList(v', guest)[i].bookingID == id;
      }
    }
  }

  lemma {:induction false} BookedOnceAgrees(log: seq<Event>, guest: string)
    requires BookedOnce(log)
    ensures ListAgrees(Project(log), guest) && ListDistinct(Project(log), guest)
  {
    GuestListNames(log, guest);
    BookedByDistinct(log, guest);
    if log != [] {
      var rest, last := log[..|log| - 1], log[|log| - 1];
      BookedOnceAgrees(rest, guest);
      GuestListNames(rest, guest);
      forall i | 0 <= i < |GuestList(Project(rest), guest)|
        ensures last.RoomBooked? ==> GuestList(Project(rest), guest)[i].bookingID != last.bookingID
      {
        BookedByIsBooked(rest, guest, i);
        var k :| 0 <= k < |rest| && rest[k].RoomBooked? && rest[k].bookingID == BookedBy(rest, guest)[i].bookingID;
        assert log[k] == rest[k];
      }
      ApplyKeepsListAgrees(Project(rest), last, guest);
    }
  }

  /** For logs that book each id at most once, in booking order and with the right flags. */
  lemma GuestListIsGuestBookings(log: seq<Event>, guest: string)
    requires BookedOnce(log)
    ensures var list, booked := GuestList(Project(log), guest), BookedBy(log, guest);
            && |list| == |booked|
            && (forall i :: 0 <= i < |list| ==>
                  && booked[i].bookingID in Project(log).bookings
                  && list[i] == SummaryOf(Project(log).bookings[booked[i].bookingID]))
            && (forall i, j :: 0 <= i < j < |list| ==> list[i].bookingID != list[j].bookingID)
  {
    BookedOnceAgrees(log, guest);
    GuestListNames(log, guest);
  }

  lemma {:induction false} BookingsKeepTheirOrder(log: seq<Event>, guest: string, i: nat, j: nat)
    requires i < j < |log|
    requires log[i].RoomBooked? && log[j].RoomBooked? && log[i].guestID == guest && log[j].guestID == guest
    ensures exists p, q :: 0 <= p < q < |BookedBy(log, guest)|
                           && BookedBy(log, guest)[p] == log[i] && BookedBy(log, guest)[q] == log[j]
  {
    var rest := log[..|log| - 1];
    if j < |rest| {
      BookingsKeepTheirOrder(rest, guest, i, j);
      var p, q :| 0 <= p < q < |BookedBy(rest, guest)|
                  && BookedBy(rest, guest)[p] == rest[i] && BookedBy(rest, guest)[q] == rest[j];
      assert BookedBy(log, guest)[p] == log[i] && BookedBy(log, guest)[q] == log[j];
    } else {
      BookingIsIndexed(rest, i);
      var p :| 0 <= p < |BookedBy(rest, guest)| && BookedBy(rest, guest)[p] == rest[i];
      assert BookedBy(log, guest)[p] == log[i] && BookedBy(log, guest)[|BookedBy(rest, guest)|] == log[j];
    }
  }

  lemma {:induction false} BookingIsIndexed(log: seq<Event>, i: nat)
    requires i < |log| && log[i].RoomBooked?
    ensures exists p :: 0 <= p < |BookedBy(log, log[i].guestID)| && BookedBy(log, log[i].guestID)[p] == log[i]
  {
    var rest, guest := log[..|log| - 1], log[i].guestID;
    if i < |rest| {
      BookingIsIndexed(rest, i);
      var p :| 0 <= p < |BookedBy(rest, guest)| && BookedBy(rest, guest)[p] == rest[i];
      assert BookedBy(log, guest)[p] == log[i];
    } else {
      assert BookedBy(log, guest)[|BookedBy(rest, guest)|] == log[i];
    }
  }

  lemma RebookingBreaksIndex(log: seq<Event>, i: nat, j: nat)
    requires i < j < |log| && log[i].RoomBooked? && log[j].RoomBooked? && log[i].bookingID == log[j].bookingID
    ensures !IndexAgrees(Project(log))
  {
    var g, h := log[i].guestID, log[j].guestID;
    var v := Project(log);
    GuestListNames(log, g);
    GuestListNames(log, h);
    if g == h {
      BookingsKeepTheirOrder(log, g, i, j);
      var p, q :| 0 <= p < q < |BookedBy(log, g)| && BookedBy(log, g)[p] == log[i] && BookedBy(log, g)[q] == log[j];
      assert GuestList(v, g)[p].bookingID == GuestList(v, g)[q].bookingID;
      assert !ListDistinct(v, g);
    } else {
      BookingIsIndexed(log, i);
      BookingIsIndexed(log, j);
      var p :| 0 <= p < |BookedBy(log, g)| && BookedBy(log, g)[p] == log[i];
      var q :| 0 <= q < |BookedBy(log, h)| && BookedBy(log, h)[q] == log[j];
      assert GuestList(v, g)[p].bookingID == GuestList(v, h)[q].bookingID;
      assert !(ListAgrees(v, g) && ListAgrees(v, h));
    }
  }

  /** The index and the documents agree exactly when no booking id is booked twice. */
  lemma IndexAgreesExactly(log: seq<Event>)
    ensures IndexAgrees(Project(log)) <==> BookedOnce(log)
  {
    if BookedOnce(log) {
      var v := Project(log);
      forall guest ensures ListAgrees(v, guest) && ListDistinct(v, guest) {
        BookedOnceAgrees(log, guest);
      }
      forall id | id in v.bookings ensures Listed(v, v.bookings[id].guestID, id) {
        DocumentGuest(log, id);
        var guest := v.bookings[id].guestID;
        GuestListNames(log, guest);
        var i :| 0 <= i < |BookedBy(log, guest)| && BookedBy(log, guest)[i].bookingID == id;
        assert GuestList(v, guest)[i].bookingID == id;
      }
    } else {
      var i, j :| 0 <= i < j < |log| && log[i].RoomBooked? && log[j].RoomBooked?
                  && log[i].bookingID == log[j].bookingID;
      RebookingBreaksIndex(log, i, j);
    }
  }
}
