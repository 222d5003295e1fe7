/** The booking service under concurrent commands: which streams it can produce. */
module BookingRuns {
  import opened Eventuous
  import opened MemStore
  import opened CommandService
  import opened Serialisability
  import opened Booking

  type BookingAction = Action<Event, Command>

  /** Only commands write to the store. */
  ghost predicate CommandsOnly(actions: seq<BookingAction>) {
    forall a :: a in actions ==> !a.Foreign?
  }

  function After(actions: seq<BookingAction>): System<BookingState, Event, Command> {
    Run(BookingService(), actions)
  }

  /** Every stream belongs to a booking and tells its story. */
  ghost predicate AllBookings(s: State<Event>) {
    && (forall id :: Language(id, Payloads(s, BookingStream(id))) && |Payloads(s, BookingStream(id))| <= MAX_INT32 + 1)
    && (forall n :: n in s.streams ==> exists id :: n == BookingStream(id))
  }

  lemma OtherBookingsUntouched(s: State<Event>, id: string, e: Event, other: string)
    requires other != id
    ensures Payloads(Appended(s, BookingStream(id), [e]), BookingStream(other)) == Payloads(s, BookingStream(other))
  {
    if BookingStream(other) == BookingStream(id) {
      StreamNameInjective("Booking", other, id);
    }
  }

  lemma EventKeepsAllBookings(s: State<Event>, id: string, e: Event)
    requires AllBookings(s) && |Payloads(s, BookingStream(id))| <= MAX_INT32
    requires Language(id, Payloads(s, BookingStream(id)) + [e])
    ensures AllBookings(Appended(s, BookingStream(id), [e]))
  {
    var s' := Appended(s, BookingStream(id), [e]);
    AppendSucceedsExactly(s, BookingStream(id), VERSION_ANY, [e]);
    assert Payloads(s', BookingStream(id)) == Payloads(s, BookingStream(id)) + [e];
    forall other
      ensures Language(other, Payloads(s', BookingStream(other)))
      ensures |Payloads(s', BookingStream(other))| <= MAX_INT32 + 1
    {
      if other != id {
        OtherBookingsUntouched(s, id, e, other);
      }
    }
    forall n | n in s'.streams ensures exists owner :: n == BookingStream(owner) {
      assert n in s.streams || n == BookingStream(id);
    }
  }

  /** What the service writes at the right version continues the booking's story. */
  lemma AcceptedContinues(stream: seq<Event>, cmd: Command) returns (e: Event)
    requires Language(cmd.bookingID, stream)
    requires var plan := Decide(BookingService(), stream, cmd); plan.Write? && plan.append.version + 1 == |stream|
    ensures var p := Decide(BookingService(), stream, cmd).append;
            p.stream == BookingStream(cmd.bookingID) && p.events == [e]
    ensures |stream| <= MAX_INT32 && Language(cmd.bookingID, stream + [e])
  {
    WritesOnlyItsOwn(stream, cmd);
    DecideMeans(BookingService(), stream, cmd);
    var p := Decide(BookingService(), stream, cmd).append;
    e := p.events[0];
    assert p.events == [e];
    WritesExactlyLanguage(cmd.bookingID, stream, e);
  }

  lemma CommandKeepsAllBookings(s: State<Event>, cmd: Command)
    requires AllBookings(s)
    ensures AllBookings(Handled(BookingService(), s, cmd).0)
  {
    var stream := Payloads(s, BookingStream(cmd.bookingID));
    var plan := Decide(BookingService(), stream, cmd);
    if plan.Write? && Accepts(s, plan.append.stream, plan.append.version) {
      DecideMeans(BookingService(), stream, cmd);
      AppendSucceedsExactly(s, plan.append.stream, plan.append.version, []);
      var e := AcceptedContinues(stream, cmd);
      EventKeepsAllBookings(s, cmd.bookingID, e);
    }
  }

  lemma {:induction false} SerialKeepsAllBookings(steps: seq<Serial<Event, Command>>)
    requires forall x :: x in steps ==> x.Whole?
    ensures AllBookings(SerialRun(BookingService(), steps).store)
  {
    if steps != [] {
      var rest, last := steps[..|steps| - 1], steps[|steps| - 1];
      assert last in steps && forall x :: x in rest ==> x in steps;
      SerialKeepsAllBookings(rest);
      CommandKeepsAllBookings(SerialRun(BookingService(), rest).store, last.cmd);
    }
  }

  lemma {:induction false} CommandsOnlyIsWhole(actions: seq<BookingAction>)
    requires CommandsOnly(actions)
    ensures forall x :: x in SerialOrder(BookingService(), actions) ==> x.Whole?
  {
    if actions != [] {
      var rest, last := actions[..|actions| - 1], actions[|actions| - 1];
      assert last in actions && forall a :: a in rest ==> a in actions;
      CommandsOnlyIsWhole(rest);
    }
  }

  /** However commands interleave, every stream is a word of its booking's language. */
  lemma ReachableStreamsAreBookings(actions: seq<BookingAction>)
    requires CommandsOnly(actions)
    ensures AllBookings(After(actions).store)
  {
    Serialisable(BookingService(), actions);
    CommandsOnlyIsWhole(actions);
    SerialKeepsAllBookings(SerialOrder(BookingService(), actions));
  }

  /** A stream that can no longer be read whole takes no more commands. */
  lemma OverlongStreamRefuses(s: State<Event>, cmd: Command)
    requires |Payloads(s, BookingStream(cmd.bookingID))| > MAX_INT32
    ensures Handled(BookingService(), s, cmd).0 == s && Handled(BookingService(), s, cmd).1.Err?
  {
    var stream := Payloads(s, BookingStream(cmd.bookingID));
    var plan := Decide(BookingService(), stream, cmd);
    DecideMeans(BookingService(), stream, cmd);
    if plan.Write? {
      CarriedOutIsAnswered(BookingService(), s, plan.append, stream, Handled(BookingService(), s, cmd));
    }
  }

  /** Whatever commands came before and however they interleaved, a command is answered rightly. */
  lemma EveryCommandAnswered(actions: seq<BookingAction>, cmd: Command)
    requires CommandsOnly(actions)
    ensures var s := After(actions).store;
            var (s', reply) := Handled(BookingService(), s, cmd);
            if |Payloads(s, BookingStream(cmd.bookingID))| <= MAX_INT32 then AnsweredRightly(s, cmd, s', reply)
            else s' == s && reply.Err?
  {
    var s := After(actions).store;
    ReachableStreamsAreBookings(actions);
    assert Language(cmd.bookingID, Payloads(s, BookingStream(cmd.bookingID)));
    if |Payloads(s, BookingStream(cmd.bookingID))| <= MAX_INT32 {
      CommandsAnswered(s, cmd);
    } else {
      OverlongStreamRefuses(s, cmd);
    }
  }

  /** One client replaying the commands behind a stream, one after the other. */
  function Replay(events: seq<Event>): seq<BookingAction>
    requires forall e :: e in events ==> !e.Other?
  {
    if events == [] then []
    else Replay(events[..|events| - 1]) + [Begin(0, CommandFor(events[|events| - 1])), Finish(0)]
  }

  /** One undisturbed command adds its event to its stream. */
  lemma UndisturbedCommand(x: System<BookingState, Event, Command>, cmd: Command, e: Event)
    requires x.clients == map[]
    requires |Payloads(x.store, BookingStream(cmd.bookingID))| <= MAX_INT32
    requires Writes(Payloads(x.store, BookingStream(cmd.bookingID)), cmd, e)
    ensures var x' := Step(BookingService(), Step(BookingService(), x, Begin(0, cmd)), Finish(0));
            && x'.clients == map[]
            && Payloads(x'.store, BookingStream(cmd.bookingID)) == Payloads(x.store, BookingStream(cmd.bookingID)) + [e]
  {
    var stream := Payloads(x.store, BookingStream(cmd.bookingID));
    DecideMeans(BookingService(), stream, cmd);
    var p := Decide(BookingService(), stream, cmd).append;
    AppendSucceedsExactly(x.store, p.stream, p.version, p.events);
    assert x.clients[0 := InFlight(cmd, stream, p)] - {0} == map[];
  }

  lemma ReplayLast(events: seq<Event>, last: Event)
    requires forall e :: e in events ==> !e.Other?
    requires !last.Other?
    ensures Replay(events + [last]) == Replay(events) + [Begin(0, CommandFor(last)), Finish(0)]
    ensures After(Replay(events + [last]))
         == Step(BookingService(), Step(BookingService(), After(Replay(events)), Begin(0, CommandFor(last))), Finish(0))
  {
    var begin, finish: BookingAction := Begin(0, CommandFor(last)), Finish(0);
    assert (events + [last])[..|events + [last]| - 1] == events;
    assert Replay(events + [last]) == Replay(events) + [begin] + [finish];
    RunLast(BookingService(), Replay(events), begin);
    RunLast(BookingService(), Replay(events) + [begin], finish);
  }

  /** A run that has produced a stream can go on to produce any continuation of the language. */
  lemma ContinueStream(x: System<BookingState, Event, Command>, id: string, events: seq<Event>, last: Event)
    requires x.clients == map[] && Payloads(x.store, BookingStream(id)) == events
    requires Language(id, events) && Language(id, events + [last]) && |events| <= MAX_INT32
    ensures !last.Other?
    ensures var x' := Step(BookingService(), Step(BookingService(), x, Begin(0, CommandFor(last))), Finish(0));
            x'.clients == map[] && Payloads(x'.store, BookingStream(id)) == events + [last]
  {
    assert last == (events + [last])[|events|];
    WritesExactlyLanguage(id, events, last);
    UndisturbedCommand(x, CommandFor(last), last);
  }

  /** Replaying the commands behind a stream leaves exactly that stream, and nothing under way. */
  ghost predicate ReplayIs(id: string, events: seq<Event>) {
    && (forall e :: e in events ==> !e.Other?)
    && CommandsOnly(Replay(events))
    && After(Replay(events)).clients == map[]
    && Payloads(After(Replay(events)).store, BookingStream(id)) == events
  }

  lemma ReplayOneMore(id: string, events: seq<Event>, last: Event)
    requires ReplayIs(id, events) && |events| <= MAX_INT32
    requires Language(id, events) && Language(id, events + [last])
    ensures ReplayIs(id, events + [last])
  {
    ContinueStream(After(Replay(events)), id, events, last);
    ReplayLast(events, last);
  }

  lemma {:induction false} ReplayProduces(id: string, events: seq<Event>)
    requires Language(id, events) && |events| <= MAX_INT32 + 1
    ensures ReplayIs(id, events)
  {
    if events != [] {
      var rest := events[..|events| - 1];
      LanguagePrefix(id, events);
      ReplayProduces(id, rest);
      assert events == rest + [events[|events| - 1]];
      ReplayOneMore(id, rest, events[|events| - 1]);
    }
  }

  /**
   The streams the service can produce are exactly the words of the language, up to one event
   more than a stream that can still be read whole.
   */
  lemma ReachableExactly(id: string, events: seq<Event>)
    ensures (exists actions: seq<BookingAction> ::
               CommandsOnly(actions) && Payloads(After(actions).store, BookingStream(id)) == events)
       <==> Language(id, events) && |events| <= MAX_INT32 + 1
  {
    if Language(id, events) && |events| <= MAX_INT32 + 1 {
      ReplayProduces(id, events);
    }
    forall actions: seq<BookingAction>
      | CommandsOnly(actions) && Payloads(After(actions).store, BookingStream(id)) == events
      ensures Language(id, events) && |events| <= MAX_INT32 + 1
    {
      ReachableStreamsAreBookings(actions);
    }
  }
}
