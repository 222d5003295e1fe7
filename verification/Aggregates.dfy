/** The aggregate: state, pending changes and the version they are based on. */
module Aggregates {
  import opened Wrappers
  import opened Eventuous
  import opened MemStore
  import opened StateLoading

  datatype Agg<+S, +E> = Agg(state: S, original: seq<E>, changes: seq<E>, originalVersion: int)

  function New<S, E>(zero: S): Agg<S, E> {
    Agg(zero, [], [], -1)
  }

  function AfterApply<S, E>(fold: (S, E) -> S, a: Agg<S, E>, event: E): Agg<S, E> {
    a.(changes := a.changes + [event], state := fold(a.state, event))
  }

  /** Events are folded on top of whatever state the aggregate is in. */
  function AfterLoad<S, E>(fold: (S, E) -> S, a: Agg<S, E>, version: int, events: seq<E>): Agg<S, E> {
    Agg(Fold(fold, a.state, events), events, [], version)
  }

  function AfterClear<S, E>(a: Agg<S, E>): Agg<S, E> {
    a.(originalVersion := a.originalVersion + |a.changes|, changes := [])
  }

  /** The check a handler's expectation puts on an aggregate. */
  function Guard<S, E>(expected: ExpectedState, a: Agg<S, E>): Option<Error> {
    if expected.IsNew? && a.originalVersion >= 0 then Some(AggregateExists)
    else if expected.IsExisting? && a.originalVersion < 0 then Some(AggregateNotExists)
    else None
  }

  function ApplyAll<S, E>(fold: (S, E) -> S, a: Agg<S, E>, events: seq<E>): Agg<S, E> {
    if events == [] then a
    else AfterApply(fold, ApplyAll(fold, a, events[..|events| - 1]), events[|events| - 1])
  }

  class Aggregate<S, E> {
    const fold: (S, E) -> S
    var state: S
    var original: seq<E>
    var changes: seq<E>
    var originalVersion: int

    function View(): Agg<S, E>
      reads this
    {
      Agg(state, original, changes, originalVersion)
    }

    constructor (fold: (S, E) -> S, zero: S)
      ensures View() == New(zero) && this.fold == fold
    {
      this.fold := fold;
      state := zero;
      original, changes, originalVersion := [], [], -1;
    }

    method Apply(event: E)
      modifies this
      ensures View() == AfterApply(fold, old(View()), event)
    {
      changes := changes + [event];
      state := fold(state, event);
    }

    method Load(version: int, events: seq<E>)
      modifies this
      ensures View() == AfterLoad(fold, old(View()), version, events)
    {
      originalVersion := version;
      original := events;
      changes := [];
      ghost var start := state;
      for i := 0 to |events|
        invariant state == Fold(fold, start, events[..i])
        invariant originalVersion == version && original == events && changes == []
      {
        assert events[..i + 1][..i] == events[..i];
        state := fold(state, events[i]);
      }
      assert events[..|events|] == events;
    }

    method ClearChanges()
      modifies this
      ensures View() == AfterClear(old(View()))
    {
      originalVersion := originalVersion + |changes|;
      changes := [];
    }

    method EnsureNew() returns (error: Option<Error>)
      ensures error == Guard(IsNew, View())
    {
      error := if originalVersion >= 0 then Some(AggregateExists) else None;
    }

    method EnsureExists() returns (error: Option<Error>)
      ensures error == Guard(IsExisting, View())
    {
      error := if originalVersion < 0 then Some(AggregateNotExists) else None;
    }
  }

  lemma {:induction false} ApplyAllMeans<S, E>(fold: (S, E) -> S, a: Agg<S, E>, events: seq<E>)
    ensures var r := ApplyAll(fold, a, events);
            && r.state == Fold(fold, a.state, events)
            && r.changes == a.changes + events
            && r.originalVersion == a.originalVersion && r.original == a.original
  {
    if events != [] {
      ApplyAllMeans(fold, a, events[..|events| - 1]);
    }
  }

  /**
   Loading folds on top of what an aggregate holds: after events were applied to a new one, the
   state is that of those events and the loaded ones, though only the loaded ones are kept and no
   change is pending any more.
   */
  lemma LoadFoldsOnTop<S, E>(fold: (S, E) -> S, zero: S, applied: seq<E>, version: int, events: seq<E>)
    ensures var a := AfterLoad(fold, ApplyAll(fold, New(zero), applied), version, events);
            a == Agg(Fold(fold, zero, applied + events), events, [], version)
  {
    ApplyAllMeans(fold, New(zero), applied);
    FoldConcat(fold, zero, applied, events);
  }

  /** The fold that remembers everything. */
  function Remember<E>(seen: seq<E>, event: E): seq<E> {
    seen + [event]
  }

  lemma {:induction false} RememberFolds<E>(events: seq<E>)
    ensures Fold(Remember, [], events) == events
  {
    if events != [] {
      var rest, last := events[..|events| - 1], events[|events| - 1];
      RememberFolds(rest);
      assert Fold(Remember, [], events) == Remember(rest, last);
    }
  }

  /** So loading gives the fold of the loaded events whatever the fold exactly on an untouched aggregate. */
  lemma LoadNeedsFreshAggregate<E>(applied: seq<E>, version: int, events: seq<E>)
    ensures var a := AfterLoad(Remember, ApplyAll(Remember, New([]), applied), version, events);
            a.state == Fold(Remember, [], events) <==> applied == []
  {
    LoadFoldsOnTop(Remember, [], applied, version, events);
    RememberFolds(applied + events);
    RememberFolds(events);
  }

  // ---------------------------------------------------------------------------------------
  // Loading from and storing to a stream
  // ---------------------------------------------------------------------------------------

  function Reconstructed<S, E>(payloads: seq<E>, fold: (S, E) -> S, zero: S): Agg<S, E> {
    if payloads == [] then New(zero)
    else AfterLoad(fold, New(zero), |Window(payloads)| - 1, Window(payloads))
  }

  method LoadAggregate<S, E>(reader: Store<E>, stream: StreamName, fold: (S, E) -> S, zero: S)
    returns (agg: Aggregate<S, E>)
    ensures fresh(agg) && agg.fold == fold
    ensures agg.View() == Reconstructed(Payloads(reader.View(), stream), fold, zero)
  {
    agg := new Aggregate(fold, zero);
    var loaded := LoadState(reader, stream, fold, zero, IsAny);
    if |loaded.value.events| > 0 {
      agg.Load(loaded.value.version, loaded.value.events);
    }
  }

  function StoreChanges<S, E>(s: State<E>, name: StreamName, a: Agg<S, E>)
    : (State<E>, Agg<S, E>, Result<AppendResult, Error>)
  {
    if a.changes == [] then (s, a, Ok(AppendResult(0, 0)))
    else
      var expected := if a.originalVersion == -1 then VERSION_NO_STREAM else a.originalVersion;
      var (s', r) := Append(s, name, expected, a.changes);
      (s', if r.Ok? then AfterClear(a) else a, r)
  }

  method StoreAggregate<S, E>(writer: Store<E>, stream: StreamName, agg: Aggregate<S, E>)
    returns (r: Result<AppendResult, Error>)
    modifies writer, agg
    ensures (writer.View(), agg.View(), r) == StoreChanges(old(writer.View()), stream, old(agg.View()))
  {
    var changes := agg.changes;
    if |changes| == 0 {
      return Ok(AppendResult(0, 0));
    }
    var expected := if agg.originalVersion == -1 then VERSION_NO_STREAM else agg.originalVersion;
    r := writer.AppendEvents(stream, expected, changes);
    if r.Err? {
      return;
    }
    agg.ClearChanges();
  }

  // ---------------------------------------------------------------------------------------
  // Reusing one aggregate
  // ---------------------------------------------------------------------------------------

  datatype Round<+E> = ApplyEvent(event: E) | StoreNow

  /** One aggregate and the store it is kept in, with the number of refused stores. */
  datatype Session<+S, +E> = Session(store: State<E>, agg: Agg<S, E>, refused: nat)

  function Advance<S, E>(fold: (S, E) -> S, name: StreamName, x: Session<S, E>, round: Round<E>): Session<S, E> {
    match round
    case ApplyEvent(e) => x.(agg := AfterApply(fold, x.agg, e))
    case StoreNow =>
      var (s', a', r) := StoreChanges(x.store, name, x.agg);
      Session(s', a', if r.Ok? then x.refused else x.refused + 1)
  }

  function Reuse<S, E>(fold: (S, E) -> S, zero: S, name: StreamName, s: State<E>, rounds: seq<Round<E>>)
    : Session<S, E>
  {
    if rounds == [] then Session(s, Reconstructed(Payloads(s, name), fold, zero), 0)
    else Advance(fold, name, Reuse(fold, zero, name, s, rounds[..|rounds| - 1]), rounds[|rounds| - 1])
  }

  function Applied<E>(rounds: seq<Round<E>>): seq<E> {
    if rounds == [] then []
    else
      Applied(rounds[..|rounds| - 1])
      + (if rounds[|rounds| - 1].ApplyEvent? then [rounds[|rounds| - 1].event] else [])
  }

  /** A refused store leaves both the stream and the aggregate as they were. */
  lemma RefusedStoreChangesNothing<S, E>(s: State<E>, name: StreamName, a: Agg<S, E>)
    ensures var (s', a', r) := StoreChanges(s, name, a);
            && (r.Err? <==> a.changes != [] && a.originalVersion != VERSION_ANY
                            && a.originalVersion + 1 != |Payloads(s, name)|)
            && (r.Err? ==> s' == s && a' == a && r.error == OptimisticConcurrency)
            && (r.Ok? ==> Payloads(s', name) == Payloads(s, name) + a.changes && a'.changes == []
                          && a'.originalVersion == a.originalVersion + |a.changes|
                          && a'.state == a.state && a'.original == a.original)
            && (r.Ok? ==> r.value == if a.changes == [] then AppendResult(0, 0)
                                     else AppendResult(s.globalPosition + |a.changes| - 1,
                                                       |Payloads(s, name)| + |a.changes| - 1))
  {
    if a.changes == [] {
      assert Payloads(s, name) + a.changes == Payloads(s, name);
    } else {
      AppendSucceedsExactly(s, name, a.originalVersion, a.changes);
      AppendTouchesOneStream(s, name, a.originalVersion, a.changes);
    }
  }

  /**
   An aggregate loaded once can be used for any number of rounds: with no other writer no store
   is refused, its version is the stream's, its state is the fold of stream and pending changes,
   and those together are the original stream followed by everything applied.
   */
  lemma {:induction false} AggregateReuse<S, E>(fold: (S, E) -> S, zero: S, name: StreamName, s: State<E>,
                                                rounds: seq<Round<E>>)
    requires |Payloads(s, name)| <= MAX_INT32
    ensures var x := Reuse(fold, zero, name, s, rounds);
            && x.refused == 0
            && x.agg.originalVersion == |Payloads(x.store, name)| - 1
            && x.agg.state == Fold(fold, zero, Payloads(x.store, name) + x.agg.changes)
            && x.agg.original == Payloads(s, name)
            && Payloads(x.store, name) + x.agg.changes == Payloads(s, name) + Applied(rounds)
  {
    if rounds == [] {
      assert Window(Payloads(s, name)) == Payloads(s, name);
      assert Payloads(s, name) + [] == Payloads(s, name);
    } else {
      var rest := rounds[..|rounds| - 1];
      AggregateReuse(fold, zero, name, s, rest);
      var x := Reuse(fold, zero, name, s, rest);
      match rounds[|rounds| - 1]
      case ApplyEvent(e) =>
        var all := Payloads(x.store, name) + x.agg.changes;
        assert Payloads(x.store, name) + (x.agg.changes + [e]) == all + [e];
        assert Payloads(s, name) + Applied(rounds) == all + [e];
        assert (all + [e])[..|all|] == all;
      case StoreNow =>
        RefusedStoreChangesNothing(x.store, name, x.agg);
        var x' := Reuse(fold, zero, name, s, rounds);
        assert Applied(rounds) == Applied(rest);
        assert Payloads(x'.store, name) + [] == Payloads(x'.store, name);
    }
  }

  /** Loaded from a stream longer than one read, an aggregate has every non-empty store refused. */
  lemma {:induction false} OverlongStreamRefusesStores<S, E>(fold: (S, E) -> S, zero: S, name: StreamName,
                                                             s: State<E>, rounds: seq<Round<E>>)
    requires |Payloads(s, name)| > MAX_INT32
    ensures var x := Reuse(fold, zero, name, s, rounds);
            && x.store == s
            && x.agg.changes == Applied(rounds)
            && x.agg.originalVersion == MAX_INT32 - 1
            && (x.agg.changes != [] ==> StoreChanges(x.store, name, x.agg).2 == Err(OptimisticConcurrency))
  {
    if rounds != [] {
      OverlongStreamRefusesStores(fold, zero, name, s, rounds[..|rounds| - 1]);
    }
  }

  /**
   However often an aggregate has been stored, the guards tell whether its stream holds events;
   pending changes, however many, do not count.
   */
  lemma GuardsReadStream<S, E>(fold: (S, E) -> S, zero: S, name: StreamName, s: State<E>, rounds: seq<Round<E>>)
    ensures var x := Reuse(fold, zero, name, s, rounds);
            && (Guard(IsNew, x.agg) == None <==> Payloads(x.store, name) == [])
            && (Guard(IsExisting, x.agg) == None <==> Payloads(x.store, name) != [])
  {
    if |Payloads(s, name)| <= MAX_INT32 {
      AggregateReuse(fold, zero, name, s, rounds);
    } else {
      OverlongStreamRefusesStores(fold, zero, name, s, rounds);
    }
  }
}
