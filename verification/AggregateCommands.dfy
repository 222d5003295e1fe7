/** The aggregate command service, and its agreement with the functional one. */
module AggregateCommands {
  import opened Wrappers
  import opened Eventuous
  import opened MemStore
  import opened StateLoading
  import opened Aggregates
  import opened CommandService

  /** What a handler did to its aggregate: the events it applied, and the error it ended with. */
  datatype Acted<+E> = Acted(applied: seq<E>, error: Option<Error>)

  datatype AggHandler<!S, !E, !C> = AggHandler(
    expected: ExpectedState,
    id: C -> string,
    act: (Agg<S, E>, C) -> Acted<E>)

  datatype AggConfig<!S, !E, !C> = AggConfig(
    fold: (S, E) -> S,
    zero: S,
    typeName: string,
    handlers: C -> Option<AggHandler<S, E, C>>,
    registered: E -> bool)

  /** The reply once the changes are stored: their types are looked up, the state is the aggregate's. */
  function AggReply<S, E, C>(svc: AggConfig<S, E, C>, a: Agg<S, E>, changes: seq<E>, appended: AppendResult)
    : Reply<S, E>
  {
    if !(forall i :: 0 <= i < |changes| ==> svc.registered(changes[i])) then Err(TypeNotRegistered)
    else Ok(Outcome(a.state, changes, appended.globalPosition, appended.nextExpectedVersion))
  }

  /** What a command comes to once its aggregate is loaded: a reply, or an aggregate to store. */
  datatype AggPlan<+S, +E> = Replied(reply: Reply<S, E>) | Holding(stream: StreamName, agg: Agg<S, E>)

  /** What follows the guard: the handler's events are applied, to be stored unless it failed. */
  function ActOn<S, E, C>(svc: AggConfig<S, E, C>, stream: StreamName, loaded: Agg<S, E>, acted: Acted<E>)
    : AggPlan<S, E>
  {
    var agg := ApplyAll(svc.fold, loaded, acted.applied);
    if acted.error.Some? then Replied(Err(acted.error.value))
    else if agg.changes == [] then Replied(Ok(Outcome(agg.state, [], 0, agg.originalVersion)))
    else Holding(stream, agg)
  }

  function AggStreamOf<S, E, C>(svc: AggConfig<S, E, C>, cmd: C): StreamName {
    match svc.handlers(cmd)
    case None => ""
    case Some(h) => NewStreamName(svc.typeName, h.id(cmd))
  }

  /** Everything before the store call; `payloads` is the content of the command's stream. */
  function AggDecide<S, E, C>(svc: AggConfig<S, E, C>, payloads: seq<E>, cmd: C): AggPlan<S, E> {
    match svc.handlers(cmd)
    case None => Replied(Err(HandlerNotFound))
    case Some(h) =>
      var loaded := Reconstructed(payloads, svc.fold, svc.zero);
      match Guard(h.expected, loaded)
      case Some(e) => Replied(Err(e))
      case None => ActOn(svc, AggStreamOf(svc, cmd), loaded, h.act(loaded, cmd))
  }

  /** The store call and everything after it. */
  function Keep<S, E, C>(svc: AggConfig<S, E, C>, s: State<E>, stream: StreamName, agg: Agg<S, E>)
    : (State<E>, Reply<S, E>)
  {
    var (s', agg', r) := StoreChanges(s, stream, agg);
    (s', if r.Err? then Err(r.error) else AggReply(svc, agg', agg.changes, r.value))
  }

  /** A command handled without interference. */
  function AggHandled<S, E, C>(svc: AggConfig<S, E, C>, s: State<E>, cmd: C): (State<E>, Reply<S, E>) {
    match AggDecide(svc, Payloads(s, AggStreamOf(svc, cmd)), cmd)
    case Replied(reply) => (s, reply)
    case Holding(stream, agg) => Keep(svc, s, stream, agg)
  }

  class AggregateService<S, E, C> {
    const cfg: AggConfig<S, E, C>
    const store: Store<E>

    constructor (cfg: AggConfig<S, E, C>, store: Store<E>)
      ensures this.cfg == cfg && this.store == store
    {
      this.cfg := cfg;
      this.store := store;
    }

    method Handle(cmd: C) returns (reply: Reply<S, E>)
      modifies store
      ensures (store.View(), reply) == AggHandled(cfg, old(store.View()), cmd)
    {
      var h := cfg.handlers(cmd);
      if h.None? {
        return Err(HandlerNotFound);
      }
      var stream := NewStreamName(cfg.typeName, h.value.id(cmd));
      var agg := LoadAggregate(store, stream, cfg.fold, cfg.zero);
      ghost var loaded := agg.View();
      var guard := None;
      match h.value.expected {
        case IsNew => guard := agg.EnsureNew();
        case IsExisting => guard := agg.EnsureExists();
        case IsAny =>
      }
      if guard.Some? {
        return Err(guard.value);
      }
      var acted := h.value.act(agg.View(), cmd);
      ApplyEvents(agg, acted.applied);
      if acted.error.Some? {
        return Err(acted.error.value);
      }
      var rawChanges := agg.changes;
      if |rawChanges| == 0 {
        return Ok(Outcome(agg.state, [], 0, agg.originalVersion));
      }
      var appended := StoreAggregate(store, stream, agg);
      if appended.Err? {
        return Err(appended.error);
      }
      reply := BuildResult(agg, rawChanges, appended.value);
    }

    /** The handler's calls of `Apply`. */
    method ApplyEvents(agg: Aggregate<S, E>, events: seq<E>)
      requires agg.fold == cfg.fold
      modifies agg
      ensures agg.View() == ApplyAll(cfg.fold, old(agg.View()), events)
    {
      ghost var start := agg.View();
      for i := 0 to |events|
        invariant agg.View() == ApplyAll(cfg.fold, start, events[..i])
      {
        assert events[..i + 1][..i] == events[..i];
        agg.Apply(events[i]);
      }
      assert events[..|events|] == events;
    }

    method BuildResult(agg: Aggregate<S, E>, rawChanges: seq<E>, appended: AppendResult) returns (reply: Reply<S, E>)
      ensures reply == AggReply(cfg, agg.View(), rawChanges, appended)
    {
      var changes := [];
      for i := 0 to |rawChanges|
        invariant changes == rawChanges[..i]
        invariant forall j :: 0 <= j < i ==> cfg.registered(rawChanges[j])
      {
        if !cfg.registered(rawChanges[i]) {
          return Err(TypeNotRegistered);
        }
        changes := changes + [rawChanges[i]];
      }
      assert changes == rawChanges;
      return Ok(Outcome(agg.state, changes, appended.globalPosition, appended.nextExpectedVersion));
    }
  }

  // ---------------------------------------------------------------------------------------
  // What a command means
  // ---------------------------------------------------------------------------------------

  /** A loaded aggregate is at the version the functional service would load. */
  lemma ReconstructedMeans<S, E>(payloads: seq<E>, fold: (S, E) -> S, zero: S)
    ensures var a := Reconstructed(payloads, fold, zero);
            && a.changes == [] && a.original == Window(payloads) && a.originalVersion == |Window(payloads)| - 1
            && a.state == Fold(fold, zero, Window(payloads))
  {
  }

  /** An aggregate is only held for storing by its handler, which acted on what could be read. */
  lemma AggDecideMeans<S, E, C>(svc: AggConfig<S, E, C>, payloads: seq<E>, cmd: C)
    ensures var plan := AggDecide(svc, payloads, cmd);
            plan.Holding? ==>
              var a := plan.agg;
              && svc.handlers(cmd).Some? && plan.stream == AggStreamOf(svc, cmd) && a.changes != []
              && a.originalVersion == |Window(payloads)| - 1
              && a.state == Fold(svc.fold, svc.zero, Window(payloads) + a.changes)
              && svc.handlers(cmd).value.act(Reconstructed(payloads, svc.fold, svc.zero), cmd) == Acted(a.changes, None)
  {
    ReconstructedMeans(payloads, svc.fold, svc.zero);
    if svc.handlers(cmd).Some? {
      var loaded := Reconstructed(payloads, svc.fold, svc.zero);
      var applied := svc.handlers(cmd).value.act(loaded, cmd).applied;
      ApplyAllMeans(svc.fold, loaded, applied);
      assert loaded.changes + applied == applied;
      FoldConcat(svc.fold, svc.zero, Window(payloads), applied);
    }
  }

  /** A store keeps an aggregate's changes exactly when the stream is as long as what was read. */
  lemma KeepMeans<S, E>(s: State<E>, stream: StreamName, a: Agg<S, E>)
    requires a.changes != [] && a.originalVersion >= -1
    ensures var (s', a', r) := StoreChanges(s, stream, a);
            && (r.Ok? <==> a.originalVersion + 1 == |Payloads(s, stream)|)
            && (r.Ok? ==>
                 && Payloads(s', stream) == Payloads(s, stream) + a.changes && a'.state == a.state
                 && r.value.nextExpectedVersion == |Payloads(s, stream)| + |a.changes| - 1)
  {
    AppendSucceedsExactly(s, stream, a.originalVersion, a.changes);
  }

  lemma KeptOnWholeStream<S, E, C>(svc: AggConfig<S, E, C>, s: State<E>, stream: StreamName, a: Agg<S, E>)
    requires a.changes != [] && a.originalVersion == |Window(Payloads(s, stream))| - 1
    ensures var (s', reply) := Keep(svc, s, stream, a);
            reply.Ok? ==>
              && Window(Payloads(s, stream)) == Payloads(s, stream)
              && reply.value.changes == a.changes && reply.value.state == a.state
              && Payloads(s', stream) == Payloads(s, stream) + a.changes
              && reply.value.streamVersion == |Payloads(s, stream)| + |a.changes| - 1
  {
    KeepMeans(s, stream, a);
  }

  /**
   A reply with changes means: the handler acted on the aggregate loaded from the whole stream,
   the events it applied are now at the stream's end, and the reply carries the fold and version
   of the new stream.
   */
  lemma AggHandledOnWholeStream<S, E, C>(svc: AggConfig<S, E, C>, s: State<E>, cmd: C)
    ensures var (s', reply) := AggHandled(svc, s, cmd);
            reply.Ok? && reply.value.changes != [] ==>
              var stream := Payloads(s, AggStreamOf(svc, cmd));
              var r := reply.value;
              && svc.handlers(cmd).Some?
              && svc.handlers(cmd).value.act(Reconstructed(stream, svc.fold, svc.zero), cmd) == Acted(r.changes, None)
              && Payloads(s', AggStreamOf(svc, cmd)) == stream + r.changes
              && r.state == Fold(svc.fold, svc.zero, stream + r.changes)
              && r.streamVersion == |stream + r.changes| - 1
  {
    var stream := Payloads(s, AggStreamOf(svc, cmd));
    var plan := AggDecide(svc, stream, cmd);
    AggDecideMeans(svc, stream, cmd);
    if plan.Holding? {
      KeptOnWholeStream(svc, s, plan.stream, plan.agg);
    }
  }

  /** The answer once a handler's events are in the store: the new state and where it stands. */
  ghost predicate AggAnswered<S, E, C>(svc: AggConfig<S, E, C>, events: seq<E>, state: S, globalPosition: int,
                                       version: int, reply: Reply<S, E>)
  {
    if exists i :: 0 <= i < |events| && !svc.registered(events[i]) then reply == Err(TypeNotRegistered)
    else
      && reply.Ok? && reply.value.changes == events && reply.value.state == state
      && reply.value.globalPosition == globalPosition && reply.value.streamVersion == version
  }

  lemma KeptIsAnswered<S, E, C>(svc: AggConfig<S, E, C>, s: State<E>, stream: StreamName, a: Agg<S, E>,
                                done: (State<E>, Reply<S, E>))
    requires a.changes != [] && a.originalVersion == |Window(Payloads(s, stream))| - 1
    requires done == Keep(svc, s, stream, a)
    ensures var length := |Payloads(s, stream)|;
            if length > MAX_INT32 then done == (s, Err(OptimisticConcurrency))
            else
              && Extended(s, stream, a.changes, done.0)
              && AggAnswered(svc, a.changes, a.state, s.globalPosition + |a.changes| - 1,
                             length + |a.changes| - 1, done.1)
  {
    if |Payloads(s, stream)| > MAX_INT32 {
      AppendSucceedsExactly(s, stream, a.originalVersion, a.changes);
    } else {
      AppendExtends(s, stream, a.originalVersion, a.changes);
    }
  }

  /** What a command comes to before the store is called. */
  lemma AggDecidesExactly<S, E, C>(svc: AggConfig<S, E, C>, stream: seq<E>, cmd: C)
    requires svc.handlers(cmd).Some?
    ensures var h := svc.handlers(cmd).value;
            var loaded := Reconstructed(stream, svc.fold, svc.zero);
            var acted := h.act(loaded, cmd);
            var state := Fold(svc.fold, loaded.state, acted.applied);
            AggDecide(svc, stream, cmd) ==
              if h.expected.IsNew? && stream != [] then Replied(Err(AggregateExists))
              else if h.expected.IsExisting? && stream == [] then Replied(Err(AggregateNotExists))
              else if acted.error.Some? then Replied(Err(acted.error.value))
              else if acted.applied == [] then Replied(Ok(Outcome(state, [], 0, |Window(stream)| - 1)))
              else Holding(NewStreamName(svc.typeName, h.id(cmd)),
                           Agg(state, Window(stream), acted.applied, |Window(stream)| - 1))
  {
    var loaded := Reconstructed(stream, svc.fold, svc.zero);
    var acted := svc.handlers(cmd).value.act(loaded, cmd);
    ReconstructedMeans(stream, svc.fold, svc.zero);
    ApplyAllMeans(svc.fold, loaded, acted.applied);
    assert loaded.changes + acted.applied == acted.applied;
  }

  /** Every answer the service can give, by what the stream holds and what the handler does to its aggregate. */
  lemma AggAnswersExactly<S, E, C>(svc: AggConfig<S, E, C>, s: State<E>, cmd: C)
    ensures var (s', reply) := AggHandled(svc, s, cmd);
            match svc.handlers(cmd)
            case None => s' == s && reply == Err(HandlerNotFound)
            case Some(h) =>
              var name := NewStreamName(svc.typeName, h.id(cmd));
              var stream := Payloads(s, name);
              if h.expected.IsNew? && stream != [] then s' == s && reply == Err(AggregateExists)
              else if h.expected.IsExisting? && stream == [] then s' == s && reply == Err(AggregateNotExists)
              else
                var loaded := Reconstructed(stream, svc.fold, svc.zero);
                var acted := h.act(loaded, cmd);
                var state := Fold(svc.fold, loaded.state, acted.applied);
                if acted.error.Some? then s' == s && reply == Err(acted.error.value)
                else if acted.applied == [] then s' == s && reply == Ok(Outcome(state, [], 0, |Window(stream)| - 1))
                else if |stream| > MAX_INT32 then s' == s && reply == Err(OptimisticConcurrency)
                else Extended(s, name, acted.applied, s')
                     && AggAnswered(svc, acted.applied, state, s.globalPosition + |acted.applied| - 1,
                                    |stream| + |acted.applied| - 1, reply)
  {
    if svc.handlers(cmd).Some? {
      var stream := Payloads(s, AggStreamOf(svc, cmd));
      AggDecidesExactly(svc, stream, cmd);
      var plan := AggDecide(svc, stream, cmd);
      if plan.Holding? {
        KeptIsAnswered(svc, s, plan.stream, plan.agg, AggHandled(svc, s, cmd));
      }
    }
  }

  // ---------------------------------------------------------------------------------------
  // Agreement
  // ---------------------------------------------------------------------------------------

  /**
   The two services are set up alike for a command: same stream and expectation, and on every
   aggregate that can be loaded the aggregate handler applies the events the functional handler
   returns, or fails as it fails.
   */
  ghost predicate SetUpAlike<S(!new), E(!new), C>(svc: Config<S, E, C>, agg: AggConfig<S, E, C>, cmd: C) {
    && svc.fold == agg.fold && svc.zero == agg.zero && svc.registered == agg.registered
    && (svc.handlers(cmd).None? <==> agg.handlers(cmd).None?)
    && (svc.handlers(cmd).Some? ==>
          var f, a := svc.handlers(cmd).value, agg.handlers(cmd).value;
          && f.expected == a.expected
          && f.stream(cmd) == NewStreamName(agg.typeName, a.id(cmd))
          && forall payloads: seq<E> ::
            var loaded := Reconstructed(payloads, agg.fold, agg.zero);
            match f.act(loaded.state, cmd)
            case Ok(events) => a.act(loaded, cmd) == Acted(events, None)
            case Err(e) => a.act(loaded, cmd).error == Some(e))
  }

  /** What was read is not what the command's handler expects. */
  predicate GuardFails<S, E, C>(svc: Config<S, E, C>, payloads: seq<E>, cmd: C) {
    && svc.handlers(cmd).Some?
    && match svc.handlers(cmd).value.expected
       case IsNew => payloads != []
       case IsExisting => payloads == []
       case IsAny => false
  }

  /** The errors of a failed guard, which are all that differs. */
  function LoadError(expected: ExpectedState): Error {
    if expected.IsNew? then StreamAlreadyExists else StreamNotFound
  }

  function GuardError(expected: ExpectedState): Error {
    if expected.IsNew? then AggregateExists else AggregateNotExists
  }

  /** The aggregate holds as its changes the events the other service is about to append. */
  ghost predicate HoldsWrite<S, E>(fold: (S, E) -> S, p: Pending<S, E>, stream: StreamName, a: Agg<S, E>) {
    && stream == p.stream && a.changes == p.events != [] && a.originalVersion == p.version
    && a.state == Fold(fold, p.state, p.events)
  }

  ghost predicate PlansAgree<S, E>(fold: (S, E) -> S, plan: Plan<S, E>, other: AggPlan<S, E>) {
    match plan
    case Done(reply) => other == Replied(reply)
    case Write(p) => other.Holding? && HoldsWrite(fold, p, other.stream, other.agg)
  }

  /** Storing an aggregate's changes and replying is making and completing the same append. */
  lemma KeepingIsCompleting<S, E, C>(svc: Config<S, E, C>, agg: AggConfig<S, E, C>, s: State<E>,
                                     p: Pending<S, E>, stream: StreamName, a: Agg<S, E>)
    requires svc.registered == agg.registered && HoldsWrite(svc.fold, p, stream, a)
    ensures Keep(agg, s, stream, a) == CarryOut(svc, s, Write(p))
  {
    assert AllRegistered(svc, p.events) <==> forall i :: 0 <= i < |p.events| ==> agg.registered(p.events[i]);
  }

  /** Applying the events a handler returned is planning to append them. */
  lemma ActingIsPlanning<S, E, C>(agg: AggConfig<S, E, C>, stream: StreamName, loaded: Agg<S, E>, events: seq<E>)
    requires loaded.changes == []
    ensures PlansAgree(agg.fold,
                       if events == [] then Done(Ok(Outcome(loaded.state, [], 0, loaded.originalVersion)))
                       else Write(Pending(stream, loaded.originalVersion, loaded.state, events)),
                       ActOn(agg, stream, loaded, Acted(events, None)))
  {
    ApplyAllMeans(agg.fold, loaded, events);
    assert loaded.changes + events == events;
  }

  /** From the same content the services decide the same; a failed guard they name differently. */
  lemma DecisionsAgree<S(!new), E(!new), C>(svc: Config<S, E, C>, agg: AggConfig<S, E, C>, payloads: seq<E>, cmd: C)
    requires SetUpAlike(svc, agg, cmd)
    ensures AggStreamOf(agg, cmd) == StreamOf(svc, cmd)
    ensures if GuardFails(svc, payloads, cmd) then
              var expected := svc.handlers(cmd).value.expected;
              && Decide(svc, payloads, cmd) == Done(Err(LoadError(expected)))
              && AggDecide(agg, payloads, cmd) == Replied(Err(GuardError(expected)))
            else PlansAgree(svc.fold, Decide(svc, payloads, cmd), AggDecide(agg, payloads, cmd))
  {
    ReconstructedMeans(payloads, svc.fold, svc.zero);
    if svc.handlers(cmd).Some? && !GuardFails(svc, payloads, cmd) {
      var loaded := Reconstructed(payloads, svc.fold, svc.zero);
      match svc.handlers(cmd).value.act(loaded.state, cmd)
      case Err(e) =>
      case Ok(events) => ActingIsPlanning(agg, StreamOf(svc, cmd), loaded, events);
    }
  }

  /**
   The services succeed and fail together, leave the same store and give equal replies; only
   the error of a failed guard differs.
   */
  lemma ServicesAgree<S(!new), E(!new), C>(svc: Config<S, E, C>, agg: AggConfig<S, E, C>, s: State<E>, cmd: C)
    requires SetUpAlike(svc, agg, cmd)
    ensures AggHandled(agg, s, cmd).0 == Handled(svc, s, cmd).0
    ensures if GuardFails(svc, Payloads(s, StreamOf(svc, cmd)), cmd) then
              && Handled(svc, s, cmd).1 == Err(LoadError(svc.handlers(cmd).value.expected))
              && AggHandled(agg, s, cmd).1 == Err(GuardError(svc.handlers(cmd).value.expected))
            else AggHandled(agg, s, cmd).1 == Handled(svc, s, cmd).1
  {
    var payloads := Payloads(s, StreamOf(svc, cmd));
    DecisionsAgree(svc, agg, payloads, cmd);
    var plan, other := Decide(svc, payloads, cmd), AggDecide(agg, payloads, cmd);
    if plan.Write? {
      KeepingIsCompleting(svc, agg, s, plan.append, other.stream, other.agg);
    }
  }
}
