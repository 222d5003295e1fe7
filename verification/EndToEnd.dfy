/**
 From commands to views: clients send booking commands concurrently, the log they leave is fed
 to the read model in global order, and the views agree with the write side.
 */
module EndToEnd {
  import opened Eventuous
  import opened MemStore
  import opened StateLoading
  import opened CommandService
  import opened Serialisability
  import opened Booking
  import opened BookingRuns
  import opened ReadModel
  import opened GuestIndex

  /** An event sits in the log at its global position. */
  ghost predicate InPlace<E>(e: StreamEvent<E>, log: seq<E>) {
    e.globalPosition < |log| && log[e.globalPosition] == e.payload
  }

  ghost predicate HasEventAt<E>(s: State<E>, name: StreamName, i: int, globalPosition: nat) {
    0 <= i < |Events(s, name)| && Events(s, name)[i].globalPosition == globalPosition
  }

  ghost predicate Covered<E>(s: State<E>, globalPosition: nat) {
    exists n, i :: HasEventAt(s, n, i, globalPosition)
  }

  /** The log holds the store's events, each at its global position, and nothing else. */
  ghost predicate IsGlobalOrder<E>(s: State<E>, log: seq<E>) {
    && |log| == s.globalPosition
    && (forall n, i :: 0 <= i < |Events(s, n)| ==> InPlace(Events(s, n)[i], log))
    && (forall k :: 0 <= k < |log| ==> Covered(s, k))
  }

  // ---------------------------------------------------------------------------------------
  // Append-only runs have a global order
  // ---------------------------------------------------------------------------------------

  /** What an action adds to the log. */
  function Written<S, E, C>(svc: Config<S, E, C>, x: System<S, E, C>, action: Action<E, C>): seq<E> {
    match action
    case Begin(_, _) => []
    case Finish(client) =>
      if client in x.clients && Accepts(x.store, x.clients[client].append.stream, x.clients[client].append.version)
      then x.clients[client].append.events else []
    case Foreign(name, expected, payloads) => if Accepts(x.store, name, expected) then payloads else []
  }

  function LogOf<S, E, C>(svc: Config<S, E, C>, actions: seq<Action<E, C>>): seq<E> {
    if actions == [] then []
    else
      var rest := actions[..|actions| - 1];
      LogOf(svc, rest) + Written(svc, Run(svc, rest), actions[|actions| - 1])
  }

  lemma AppendKeepsGlobalOrder<E>(s: State<E>, log: seq<E>, name: StreamName, payloads: seq<E>)
    requires IsGlobalOrder(s, log)
    ensures IsGlobalOrder(Appended(s, name, payloads), log + payloads)
  {
    var s', log' := Appended(s, name, payloads), log + payloads;
    var len := |Events(s, name)|;
    forall n, i | 0 <= i < |Events(s', n)| ensures InPlace(Events(s', n)[i], log') {
      if n != name || i < len {
        assert Events(s', n)[i] == Events(s, n)[i];
        assert InPlace(Events(s, n)[i], log);
      } else {
        assert Events(s', n)[i] == StreamEvent(payloads[i - len], i, |log| + (i - len));
      }
    }
    forall k | 0 <= k < |log'| ensures Covered(s', k) {
      if k < |log| {
        assert Covered(s, k);
        var n, i :| HasEventAt(s, n, i, k);
        assert Events(s', n)[i] == Events(s, n)[i];
        assert HasEventAt(s', n, i, k);
      } else {
        assert HasEventAt(s', name, len + (k - |log|), k);
      }
    }
  }

  lemma ActionKeepsOrder<S, E, C>(svc: Config<S, E, C>, x: System<S, E, C>, log: seq<E>, action: Action<E, C>)
    requires IsGlobalOrder(x.store, log) && GloballyOrdered(x.store)
    ensures IsGlobalOrder(Step(svc, x, action).store, log + Written(svc, x, action))
    ensures GloballyOrdered(Step(svc, x, action).store)
  {
    assert log + [] == log;
    match action
    case Begin(_, _) =>
    case Finish(client) =>
      if client in x.clients {
        var p := x.clients[client].append;
        AppendKeepsGlobalOrder(x.store, log, p.stream, p.events);
        AppendKeepsOrder(x.store, p.stream, p.events);
      }
    case Foreign(name, expected, payloads) =>
      AppendKeepsGlobalOrder(x.store, log, name, payloads);
      AppendKeepsOrder(x.store, name, payloads);
  }

  /** The events of an interleaved run, in the order they were written, are its global order. */
  lemma {:induction false} RunsHaveGlobalOrder<S, E, C>(svc: Config<S, E, C>, actions: seq<Action<E, C>>)
    ensures IsGlobalOrder(Run(svc, actions).store, LogOf(svc, actions))
    ensures GloballyOrdered(Run(svc, actions).store)
  {
    if actions != [] {
      var rest := actions[..|actions| - 1];
      RunsHaveGlobalOrder(svc, rest);
      ActionKeepsOrder(svc, Run(svc, rest), LogOf(svc, rest), actions[|actions| - 1]);
    }
  }

  // ---------------------------------------------------------------------------------------
  // A booking's part of the log is its stream
  // ---------------------------------------------------------------------------------------

  /** The events of a stream are exactly those of the log that concern one booking. */
  ghost predicate IsThread(events: seq<StreamEvent<Event>>, log: seq<Event>, id: string) {
    && Increasing(events, |log|)
    && (forall i :: 0 <= i < |events| ==> InPlace(events[i], log) && Concerns(events[i].payload, id))
    && (forall k :: 0 <= k < |log| && Concerns(log[k], id) ==>
          exists i :: 0 <= i < |events| && events[i].globalPosition == k)
  }

  /** The events of a stream concern the booking it is named after, and no other. */
  lemma OwnerOf(s: State<Event>, n: StreamName, i: nat)
    requires AllBookings(s) && i < |Events(s, n)|
    ensures !Events(s, n)[i].payload.Other? && n == BookingStream(Events(s, n)[i].payload.bookingID)
  {
    var owner :| n == BookingStream(owner);
    assert Language(owner, Payloads(s, BookingStream(owner)));
    assert Payloads(s, n)[i] == Events(s, n)[i].payload;
  }

  lemma StreamIsThread(s: State<Event>, log: seq<Event>, id: string)
    requires AllBookings(s) && IsGlobalOrder(s, log) && GloballyOrdered(s)
    ensures IsThread(Events(s, BookingStream(id)), log, id)
  {
    var events := Events(s, BookingStream(id));
    assert Language(id, Payloads(s, BookingStream(id)));
    assert BookingStream(id) in s.streams ==> Increasing(events, s.globalPosition);
    forall i | 0 <= i < |events| ensures InPlace(events[i], log) && Concerns(events[i].payload, id) {
      assert Payloads(s, BookingStream(id))[i] == events[i].payload;
    }
    forall k | 0 <= k < |log| && Concerns(log[k], id)
      ensures exists i :: 0 <= i < |events| && events[i].globalPosition == k
    {
      assert Covered(s, k);
      var n, i :| HasEventAt(s, n, i, k);
      OwnerOf(s, n, i);
      assert InPlace(Events(s, n)[i], log);
    }
  }

  /** With the events before position k accounted for, the next one is at k or beyond. */
  lemma NextOfThread(events: seq<StreamEvent<Event>>, log: seq<Event>, id: string, k: nat, c: nat)
    requires IsThread(events, log, id) && k < |log| && c <= |events|
    requires c > 0 ==> events[c - 1].globalPosition < k
    requires c < |events| ==> events[c].globalPosition >= k
    ensures if Concerns(log[k], id)
            then c < |events| && events[c].globalPosition == k && events[c].payload == log[k]
            else c < |events| ==> events[c].globalPosition > k
  {
    if Concerns(log[k], id) {
      var i :| 0 <= i < |events| && events[i].globalPosition == k;
      assert i == c;
    }
    assert c < |events| ==> InPlace(events[c], log) && Concerns(events[c].payload, id);
  }

  lemma EventsOfNext(log: seq<Event>, id: string, k: nat)
    requires k < |log|
    ensures EventsOf(log[..k + 1], id) == EventsOf(log[..k], id) + if Concerns(log[k], id) then [log[k]] else []
  {
    var scanned := log[..k + 1];
    assert scanned[..|scanned| - 1] == log[..k];
  }

  lemma TakeNext<T>(xs: seq<T>, c: nat)
    requires c < |xs|
    ensures xs[..c + 1] == xs[..c] + [xs[c]]
  {
  }

  /** The first k entries of the log hold the first c events of the thread, which precede k. */
  ghost predicate ScannedTo(events: seq<StreamEvent<Event>>, log: seq<Event>, id: string, k: nat, c: nat)
    requires k <= |log|
  {
    && c <= |events|
    && EventsOf(log[..k], id) == PayloadsOf(events)[..c]
    && (c > 0 ==> events[c - 1].globalPosition < k)
    && (c < |events| ==> events[c].globalPosition >= k)
  }

  lemma ScanNext(events: seq<StreamEvent<Event>>, log: seq<Event>, id: string, k: nat, c: nat)
    requires IsThread(events, log, id) && k < |log| && ScannedTo(events, log, id, k, c)
    ensures ScannedTo(events, log, id, k + 1, if Concerns(log[k], id) then c + 1 else c)
  {
    NextOfThread(events, log, id, k, c);
    EventsOfNext(log, id, k);
    if Concerns(log[k], id) {
      TakeNext(PayloadsOf(events), c);
      assert c + 1 < |events| ==> events[c].globalPosition < events[c + 1].globalPosition;
    }
  }

  lemma {:induction false} ScanFindsThread(events: seq<StreamEvent<Event>>, log: seq<Event>, id: string, k: nat)
    returns (c: nat)
    requires IsThread(events, log, id) && k <= |log|
    ensures ScannedTo(events, log, id, k, c)
  {
    c := 0;
    if k > 0 {
      c := ScanFindsThread(events, log, id, k - 1);
      ScanNext(events, log, id, k - 1, c);
      c := if Concerns(log[k - 1], id) then c + 1 else c;
    }
  }

  lemma LogHoldsStream(s: State<Event>, log: seq<Event>, id: string)
    requires AllBookings(s) && IsGlobalOrder(s, log) && GloballyOrdered(s)
    ensures EventsOf(log, id) == Payloads(s, BookingStream(id))
  {
    var events := Events(s, BookingStream(id));
    StreamIsThread(s, log, id);
    var c := ScanFindsThread(events, log, id, |log|);
    assert log[..|log|] == log;
    assert c == |events|;
    assert PayloadsOf(events)[..|events|] == PayloadsOf(events);
  }

  lemma BookingIsFirst(s: State<Event>, log: seq<Event>, k: nat)
    requires AllBookings(s) && IsGlobalOrder(s, log) && GloballyOrdered(s)
    requires k < |log| && log[k].RoomBooked?
    ensures HasEventAt(s, BookingStream(log[k].bookingID), 0, k)
  {
    var id := log[k].bookingID;
    var events := Events(s, BookingStream(id));
    StreamIsThread(s, log, id);
    assert Concerns(log[k], id);
    var i :| 0 <= i < |events| && events[i].globalPosition == k;
    assert InPlace(events[i], log) && Payloads(s, BookingStream(id))[i] == log[k];
    assert Language(id, Payloads(s, BookingStream(id)));
  }

  lemma LogBooksOnce(s: State<Event>, log: seq<Event>)
    requires AllBookings(s) && IsGlobalOrder(s, log) && GloballyOrdered(s)
    ensures BookedOnce(log)
  {
    forall i, j | 0 <= i < j < |log| && log[i].RoomBooked? && log[j].RoomBooked?
      ensures log[i].bookingID != log[j].bookingID
    {
      BookingIsFirst(s, log, i);
      BookingIsFirst(s, log, j);
    }
  }

  /** There is a document exactly when there is a stream, and it shows what the stream folds to. */
  ghost predicate ViewShows(v: Views, id: string, stream: seq<Event>) {
    && (id in v.bookings <==> stream != [])
    && (stream != [] ==> v.bookings[id] == DocumentOf(Fold(BookingFold, NO_BOOKING, stream)))
  }

  /**
   However booking commands interleave, feeding the store's log to the read model in global
   order gives, for every id, a document exactly when the booking's stream is there, equal to
   the view of the state the command side folds from that stream; and the guest index agrees.
   */
  lemma ViewsAgreeWithWriteSide(actions: seq<BookingAction>, log: seq<Event>, id: string)
    requires CommandsOnly(actions) && IsGlobalOrder(After(actions).store, log)
    ensures ViewShows(Project(log), id, Payloads(After(actions).store, BookingStream(id)))
    ensures IndexAgrees(Project(log))
  {
    var s := After(actions).store;
    ReachableStreamsAreBookings(actions);
    RunsHaveGlobalOrder(BookingService(), actions);
    LogHoldsStream(s, log, id);
    LogBooksOnce(s, log);
    IndexAgreesExactly(log);
    ProjectionRefinesFold(log, id);
    assert Language(id, Payloads(s, BookingStream(id)));
    BookedIffEvents(log, id);
  }

  lemma {:induction false} EventsOfIn(log: seq<Event>, id: string, e: Event)
    ensures e in EventsOf(log, id) <==> e in log && Concerns(e, id)
  {
    if log != [] {
      EventsOfIn(log[..|log| - 1], id, e);
      assert log == log[..|log| - 1] + [log[|log| - 1]];
    }
  }

  /** Where a booking's events begin with its booking, there are some exactly when it was booked. */
  lemma BookedIffEvents(log: seq<Event>, id: string)
    requires EventsOf(log, id) != [] ==> EventsOf(log, id)[0].RoomBooked?
    ensures Booked(log, id) <==> EventsOf(log, id) != []
  {
    if EventsOf(log, id) != [] {
      EventsOfIn(log, id, EventsOf(log, id)[0]);
    }
    if Booked(log, id) {
      var i :| 0 <= i < |log| && log[i].RoomBooked? && log[i].bookingID == id;
      EventsOfIn(log, id, log[i]);
    }
  }

  /** The log of a run exists and is written in global order, so the agreement holds of it. */
  lemma EndToEnd(actions: seq<BookingAction>, id: string)
    requires CommandsOnly(actions)
    ensures ViewShows(Project(LogOf(BookingService(), actions)), id, Payloads(After(actions).store, BookingStream(id)))
    ensures IndexAgrees(Project(LogOf(BookingService(), actions)))
  {
    RunsHaveGlobalOrder(BookingService(), actions);
    ViewsAgreeWithWriteSide(actions, LogOf(BookingService(), actions), id);
  }
}
