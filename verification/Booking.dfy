/** The booking domain: events, commands, the fold, and the command handlers. */
module Booking {
  import opened Wrappers
  import opened Eventuous
  import opened MemStore
  import opened StateLoading
  import opened CommandService

  /** `Other` stands for any payload that is not a booking event. */
  datatype Event =
    | RoomBooked(bookingID: string, guestID: string, roomID: string, checkIn: string, checkOut: string,
                 price: real, currency: string)
    | PaymentRecorded(bookingID: string, amount: real, currency: string, paymentID: string)
    | BookingCancelled(bookingID: string, reason: string)
    | Other

  datatype Command =
    | BookRoom(bookingID: string, guestID: string, roomID: string, checkIn: string, checkOut: string,
               price: real, currency: string)
    | RecordPayment(bookingID: string, amount: real, currency: string, paymentID: string)
    | CancelBooking(bookingID: string, reason: string)

  datatype BookingState = BookingState(
    id: string, guestID: string, roomID: string, checkIn: string, checkOut: string,
    price: real, outstanding: real, currency: string, paid: bool, cancelled: bool)

  const NO_BOOKING := BookingState("", "", "", "", "", 0.0, 0.0, "", false, false)

  function BookingFold(state: BookingState, event: Event): BookingState {
    match event
    case RoomBooked(id, guest, room, checkIn, checkOut, price, currency) =>
      BookingState(id, guest, room, checkIn, checkOut, price, price, currency, false, false)
    case PaymentRecorded(_, amount, _, _) =>
      var outstanding := state.outstanding - amount;
      state.(outstanding := outstanding, paid := state.paid || outstanding <= 0.0)
    case BookingCancelled(_, _) => state.(cancelled := true)
    case Other => state
  }

  function BookingStream(id: string): StreamName {
    NewStreamName("Booking", id)
  }

  function HandleBookRoom(state: BookingState, cmd: Command): Result<seq<Event>, Error>
    requires cmd.BookRoom?
  {
    Ok([RoomBooked(cmd.bookingID, cmd.guestID, cmd.roomID, cmd.checkIn, cmd.checkOut, cmd.price, cmd.currency)])
  }

  function HandleRecordPayment(state: BookingState, cmd: Command): Result<seq<Event>, Error>
    requires cmd.RecordPayment?
  {
    if state.cancelled then Err(Rejected("booking is cancelled"))
    else if state.paid then Err(Rejected("booking is already paid"))
    else Ok([PaymentRecorded(cmd.bookingID, cmd.amount, cmd.currency, cmd.paymentID)])
  }

  function HandleCancelBooking(state: BookingState, cmd: Command): Result<seq<Event>, Error>
    requires cmd.CancelBooking?
  {
    if state.cancelled then Err(Rejected("booking is already cancelled"))
    else Ok([BookingCancelled(cmd.bookingID, cmd.reason)])
  }

  function Act(state: BookingState, cmd: Command): Result<seq<Event>, Error> {
    match cmd
    case BookRoom(_, _, _, _, _, _, _) => HandleBookRoom(state, cmd)
    case RecordPayment(_, _, _, _) => HandleRecordPayment(state, cmd)
    case CancelBooking(_, _) => HandleCancelBooking(state, cmd)
  }

  function HandlerFor(cmd: Command): Option<Handler<BookingState, Event, Command>> {
    Some(Handler(if cmd.BookRoom? then IsNew else IsExisting, (c: Command) => BookingStream(c.bookingID), Act))
  }

  /** The service as the sample wires it: booking a room needs a new stream, the rest an existing one. */
  function BookingService(): Config<BookingState, Event, Command> {
    Config(BookingFold, NO_BOOKING, HandlerFor, (e: Event) => !e.Other?)
  }

  // ---------------------------------------------------------------------------------------
  // The language of booking streams
  // ---------------------------------------------------------------------------------------

  function TotalPaid(events: seq<Event>): real {
    if events == [] then 0.0
    else
      TotalPaid(events[..|events| - 1])
      + if events[|events| - 1].PaymentRecorded? then events[|events| - 1].amount else 0.0
  }

  /** The price of the booking less everything paid towards it. */
  function Balance(events: seq<Event>): real
    requires events != [] && events[0].RoomBooked?
  {
    events[0].price - TotalPaid(events)
  }

  /**
   A booking is made, then paid in any number of instalments until nothing is outstanding, then
   possibly cancelled. A first payment is accepted whatever the price.
   */
  ghost predicate Language(id: string, events: seq<Event>) {
    events != [] ==>
      && events[0].RoomBooked?
      && (forall i :: 0 <= i < |events| ==> !events[i].Other? && events[i].bookingID == id)
      && (forall i :: 1 <= i < |events| ==>
            events[i].PaymentRecorded? || (events[i].BookingCancelled? && i == |events| - 1))
      && (forall i :: 2 <= i < |events| && events[i].PaymentRecorded? ==> Balance(events[..i]) > 0.0)
  }

  /** Whether at least one payment has been recorded. */
  predicate AnyPayment(events: seq<Event>) {
    |events| >= 2 && events[1].PaymentRecorded?
  }

  lemma LanguagePrefix(id: string, events: seq<Event>)
    requires Language(id, events) && events != []
    ensures Language(id, events[..|events| - 1])
    ensures |events| >= 2 ==> !events[|events| - 2].BookingCancelled?
  {
    var rest := events[..|events| - 1];
    forall i | 2 <= i < |rest| && rest[i].PaymentRecorded? ensures Balance(rest[..i]) > 0.0 {
      assert rest[..i] == events[..i] && events[i].PaymentRecorded?;
    }
  }

  /** Along the language the fold is bookkeeping: balance, paid in full, cancelled. */
  lemma {:induction false} FoldOnLanguage(id: string, events: seq<Event>)
    requires Language(id, events) && events != []
    ensures var s := Fold(BookingFold, NO_BOOKING, events);
            && s == BookingState(id, events[0].guestID, events[0].roomID, events[0].checkIn, events[0].checkOut,
                                 events[0].price, Balance(events), events[0].currency,
                                 AnyPayment(events) && Balance(events) <= 0.0,
                                 events[|events| - 1].BookingCancelled?)
  {
    var rest, last := events[..|events| - 1], events[|events| - 1];
    if rest == [] {
      assert Fold(BookingFold, NO_BOOKING, rest) == NO_BOOKING;
      assert TotalPaid(rest) == 0.0;
    } else {
      LanguagePrefix(id, events);
      FoldOnLanguage(id, rest);
      assert last.PaymentRecorded? && |events| > 2 ==> Balance(rest) > 0.0;
    }
  }

  /** The service writes exactly this event for this command. */
  predicate Writes(events: seq<Event>, cmd: Command, e: Event) {
    var plan := Decide(BookingService(), events, cmd);
    plan.Write? && plan.append.events == [e]
  }

  /** The command that would make the service write a given event. */
  function CommandFor(e: Event): Command
    requires !e.Other?
  {
    match e
    case RoomBooked(id, guest, room, checkIn, checkOut, price, currency) =>
      BookRoom(id, guest, room, checkIn, checkOut, price, currency)
    case PaymentRecorded(id, amount, currency, payment) => RecordPayment(id, amount, currency, payment)
    case BookingCancelled(id, reason) => CancelBooking(id, reason)
  }

  lemma WritesOnlyItsOwn(events: seq<Event>, cmd: Command)
    ensures var plan := Decide(BookingService(), events, cmd);
            plan.Write? ==>
              && |plan.append.events| == 1
              && !plan.append.events[0].Other?
              && cmd == CommandFor(plan.append.events[0])
              && plan.append.stream == BookingStream(cmd.bookingID)
  {
  }

  lemma LanguageExtends(id: string, events: seq<Event>, e: Event)
    requires Language(id, events) && !e.Other? && e.bookingID == id
    ensures Language(id, events + [e]) <==>
              if events == [] then e.RoomBooked?
              else
                && !e.RoomBooked?
                && !events[|events| - 1].BookingCancelled?
                && (e.PaymentRecorded? && AnyPayment(events) ==> Balance(events) > 0.0)
  {
    var more := events + [e];
    if events != [] {
      assert forall i :: 0 <= i <= |events| ==> more[..i] == events[..i];
      assert events[..|events|] == events;
      assert more[|events|] == e && more[|events| - 1] == events[|events| - 1];
      if e.PaymentRecorded? && |events| >= 2 && !events[|events| - 1].BookingCancelled? {
        assert events[|events| - 1].PaymentRecorded?;
        assert events[1].PaymentRecorded?;
      }
    }
  }

  /**
   On a stream of the language, an event continues the language exactly when its command makes
   the service write it, as long as the stream can be read in one go.
   */
  lemma WritesExactlyLanguage(id: string, events: seq<Event>, e: Event)
    requires Language(id, events) && |events| <= MAX_INT32 && !e.Other? && e.bookingID == id
    ensures Writes(events, CommandFor(e), e) <==> Language(id, events + [e])
  {
    LanguageExtends(id, events, e);
    assert Window(events) == events;
    if events != [] {
      FoldOnLanguage(id, events);
    }
  }

  /** Why a command is refused, as its booking's stream shows; none if it is not. */
  function Refusal(events: seq<Event>, cmd: Command): Option<Error>
    requires events != [] ==> events[0].RoomBooked?
  {
    if cmd.BookRoom? then (if events == [] then None else Some(StreamAlreadyExists))
    else if events == [] then Some(StreamNotFound)
    else if events[|events| - 1].BookingCancelled? then
      Some(Rejected(if cmd.RecordPayment? then "booking is cancelled" else "booking is already cancelled"))
    else if cmd.RecordPayment? && AnyPayment(events) && Balance(events) <= 0.0 then
      Some(Rejected("booking is already paid"))
    else None
  }

  /** Each command is refused exactly for the reason that its booking's stream shows. */
  lemma RefusalsExactly(id: string, events: seq<Event>, cmd: Command)
    requires Language(id, events) && |events| <= MAX_INT32 && cmd.bookingID == id
    ensures var plan, refusal := Decide(BookingService(), events, cmd), Refusal(events, cmd);
            if refusal.Some? then plan == Done(Err(refusal.value))
            else plan.Write? && |plan.append.events| == 1 && cmd == CommandFor(plan.append.events[0])
  {
    WritesOnlyItsOwn(events, cmd);
    assert Window(events) == events;
    if events != [] {
      FoldOnLanguage(id, events);
    }
  }

  /** The event a command asks for. */
  function EventFor(cmd: Command): (e: Event)
    ensures !e.Other? && CommandFor(e) == cmd
  {
    match cmd
    case BookRoom(id, guest, room, checkIn, checkOut, price, currency) =>
      RoomBooked(id, guest, room, checkIn, checkOut, price, currency)
    case RecordPayment(id, amount, currency, payment) => PaymentRecorded(id, amount, currency, payment)
    case CancelBooking(id, reason) => BookingCancelled(id, reason)
  }

  /**
   What a client is told. A refused command is answered with its reason, and nothing is written.
   Any other is answered with its one event and the booking as it now is, at the version and the
   global position of that event, which is the one thing written and continues the story.
   */
  ghost predicate AnsweredRightly(s: State<Event>, cmd: Command, s': State<Event>, reply: Reply<BookingState, Event>) {
    var id := cmd.bookingID;
    var stream := Payloads(s, BookingStream(id));
    && Language(id, stream)
    && match Refusal(stream, cmd)
       case Some(error) => s' == s && reply == Err(error)
       case None =>
         var story := stream + [EventFor(cmd)];
         && Language(id, story)
         && Extended(s, BookingStream(id), [EventFor(cmd)], s')
         && reply == Ok(Outcome(Fold(BookingFold, NO_BOOKING, story), [EventFor(cmd)], s.globalPosition, |stream|))
  }

  lemma PlannedEvent(events: seq<Event>, cmd: Command)
    ensures var plan := Decide(BookingService(), events, cmd);
            plan.Write? ==>
              plan.append == Pending(BookingStream(cmd.bookingID), |Window(events)| - 1,
                                     Fold(BookingFold, NO_BOOKING, Window(events)), [EventFor(cmd)])
  {
    DecideMeans(BookingService(), events, cmd);
  }

  lemma AcceptedPlan(id: string, events: seq<Event>, cmd: Command)
    requires Language(id, events) && |events| <= MAX_INT32 && cmd.bookingID == id && Refusal(events, cmd).None?
    ensures Language(id, events + [EventFor(cmd)])
    ensures Decide(BookingService(), events, cmd) ==
              Write(Pending(BookingStream(id), |events| - 1, Fold(BookingFold, NO_BOOKING, events), [EventFor(cmd)]))
  {
    assert Window(events) == events;
    PlannedEvent(events, cmd);
    RefusalsExactly(id, events, cmd);
    LanguageExtends(id, events, EventFor(cmd));
  }

  lemma FoldNext(events: seq<Event>, e: Event)
    ensures Fold(BookingFold, NO_BOOKING, events + [e]) == BookingFold(Fold(BookingFold, NO_BOOKING, events), e)
    ensures forall s :: Fold(BookingFold, s, [e]) == BookingFold(s, e)
  {
    assert (events + [e])[..|events|] == events;
    assert [e][..0] == [];
  }

  lemma AcceptedAnswer(s: State<Event>, cmd: Command, s': State<Event>, reply: Reply<BookingState, Event>)
    requires var stream := Payloads(s, BookingStream(cmd.bookingID));
             && Language(cmd.bookingID, stream) && |stream| <= MAX_INT32 && Refusal(stream, cmd).None?
             && Extended(s, BookingStream(cmd.bookingID), [EventFor(cmd)], s')
             && Answered(BookingService(), [EventFor(cmd)],
                         Fold(BookingFold, Fold(BookingFold, NO_BOOKING, stream), [EventFor(cmd)]),
                         s.globalPosition, |stream|, reply)
    ensures AnsweredRightly(s, cmd, s', reply)
  {
    var stream := Payloads(s, BookingStream(cmd.bookingID));
    AcceptedPlan(cmd.bookingID, stream, cmd);
    FoldNext(stream, EventFor(cmd));
  }

  lemma CommandsAnswered(s: State<Event>, cmd: Command)
    requires var stream := Payloads(s, BookingStream(cmd.bookingID));
             Language(cmd.bookingID, stream) && |stream| <= MAX_INT32
    ensures var (s', reply) := Handled(BookingService(), s, cmd); AnsweredRightly(s, cmd, s', reply)
  {
    var stream := Payloads(s, BookingStream(cmd.bookingID));
    var done := Handled(BookingService(), s, cmd);
    if Refusal(stream, cmd).None? {
      AcceptedPlan(cmd.bookingID, stream, cmd);
      DecidedIsAnswered(BookingService(), s, cmd, Decide(BookingService(), stream, cmd).append);
      AcceptedAnswer(s, cmd, done.0, done.1);
    } else {
      RefusalsExactly(cmd.bookingID, stream, cmd);
      DoneIsAnswered(BookingService(), s, cmd, Err(Refusal(stream, cmd).value));
    }
  }

  /** A booking's stream is named after it, in the category of bookings. */
  lemma BookingStreamNamed(id: string)
    ensures Category(BookingStream(id)) == "Booking" && ID(BookingStream(id)) == id
    ensures BookingStream("b1") == "Booking-b1"
  {
    StreamNameRoundTrip("Booking", id);
  }

  // ---------------------------------------------------------------------------------------
  // The fold off the language
  // ---------------------------------------------------------------------------------------

  /** What was folded before a booking is made does not show after it. */
  lemma BookingStartsOver(before: seq<Event>, booked: Event, after: seq<Event>)
    requires booked.RoomBooked?
    ensures Fold(BookingFold, NO_BOOKING, before + [booked] + after) == Fold(BookingFold, NO_BOOKING, [booked] + after)
  {
    FoldConcat(BookingFold, NO_BOOKING, before + [booked], after);
    FoldConcat(BookingFold, NO_BOOKING, before, [booked]);
    FoldConcat(BookingFold, NO_BOOKING, [booked], after);
    FoldConcat(BookingFold, NO_BOOKING, [], [booked]);
  }

  /** A payment has been recorded after which nothing was outstanding. */
  ghost predicate PaidUp(events: seq<Event>)
    requires events != [] && events[0].RoomBooked?
  {
    exists i :: 1 <= i < |events| && events[i].PaymentRecorded? && Balance(events[..i + 1]) <= 0.0
  }

  /** Once booked, payments and cancellations in any order and any number are kept account of. */
  lemma {:induction false} FoldInAnyOrder(events: seq<Event>)
    requires events != [] && events[0].RoomBooked?
    requires forall i :: 1 <= i < |events| ==> !events[i].RoomBooked?
    ensures var s := Fold(BookingFold, NO_BOOKING, events);
            && s.(paid := false, cancelled := false) ==
               BookingState(events[0].bookingID, events[0].guestID, events[0].roomID, events[0].checkIn,
                            events[0].checkOut, events[0].price, Balance(events), events[0].currency, false, false)
            && (s.paid <==> PaidUp(events))
            && (s.cancelled <==> exists i :: 1 <= i < |events| && events[i].BookingCancelled?)
  {
    var rest, last := events[..|events| - 1], events[|events| - 1];
    if rest == [] {
      assert Fold(BookingFold, NO_BOOKING, rest) == NO_BOOKING;
      assert TotalPaid(rest) == 0.0;
    } else {
      FoldInAnyOrder(rest);
      PaidUpNext(events);
      assert forall i :: 1 <= i < |rest| ==> rest[i] == events[i];
    }
  }

  lemma PaidUpNext(events: seq<Event>)
    requires |events| > 1 && events[0].RoomBooked?
    ensures var last := events[|events| - 1];
            PaidUp(events) <==>
              PaidUp(events[..|events| - 1]) || (last.PaymentRecorded? && Balance(events) <= 0.0)
  {
    var rest, n := events[..|events| - 1], |events| - 1;
    assert forall i :: 0 <= i < n ==> rest[..i + 1] == events[..i + 1] && rest[i] == events[i];
    assert events[..n + 1] == events;
    if PaidUp(rest) {
      var i :| 1 <= i < |rest| && rest[i].PaymentRecorded? && Balance(rest[..i + 1]) <= 0.0;
      assert events[i].PaymentRecorded? && Balance(events[..i + 1]) <= 0.0;
    }
    if PaidUp(events) {
      var i :| 1 <= i < |events| && events[i].PaymentRecorded? && Balance(events[..i + 1]) <= 0.0;
      if i < n {
        assert rest[i].PaymentRecorded? && Balance(rest[..i + 1]) <= 0.0;
      }
    }
  }
}
