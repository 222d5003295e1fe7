/** The functional command service: load, decide, append with the loaded version, fold again. */
module CommandService {
  import opened Wrappers
  import opened Eventuous
  import opened MemStore
  import opened StateLoading

  datatype Handler<!S, !E, !C> = Handler(
    expected: ExpectedState,
    stream: C -> StreamName,
    act: (S, C) -> Result<seq<E>, Error>)

  /** `handlers` finds the handler registered for a command's type, `registered` types by event. */
  datatype Config<!S, !E, !C> = Config(
    fold: (S, E) -> S,
    zero: S,
    handlers: C -> Option<Handler<S, E, C>>,
    registered: E -> bool)

  datatype Outcome<+S, +E> = Outcome(state: S, changes: seq<E>, globalPosition: nat, streamVersion: int)

  type Reply<+S, +E> = Result<Outcome<S, E>, Error>

  /** What a command comes to once the stream has been read: a reply, or a write to attempt. */
  datatype Plan<+S, +E> = Done(reply: Reply<S, E>) | Write(append: Pending<S, E>)

  /** An append that has been decided on but not made. */
  datatype Pending<+S, +E> = Pending(stream: StreamName, version: int, state: S, events: seq<E>)

  /** Everything before the append; `payloads` is the content of the command's stream. */
  function Decide<S, E, C>(svc: Config<S, E, C>, payloads: seq<E>, cmd: C): Plan<S, E> {
    match svc.handlers(cmd)
    case None => Done(Err(HandlerNotFound))
    case Some(h) =>
      match LoadPayloads(payloads, svc.fold, svc.zero, h.expected)
      case Err(e) => Done(Err(e))
      case Ok(loaded) =>
        match h.act(loaded.state, cmd)
        case Err(e) => Done(Err(e))
        case Ok(events) =>
          if events == [] then Done(Ok(Outcome(loaded.state, [], 0, loaded.version)))
          else Write(Pending(h.stream(cmd), loaded.version, loaded.state, events))
  }

  predicate AllRegistered<S, E, C>(svc: Config<S, E, C>, events: seq<E>) {
    forall i :: 0 <= i < |events| ==> svc.registered(events[i])
  }

  /** The reply once the events are written: their types are looked up, and they are folded. */
  function ReplyOf<S, E, C>(svc: Config<S, E, C>, state: S, events: seq<E>, appended: AppendResult): Reply<S, E> {
    if !AllRegistered(svc, events) then Err(TypeNotRegistered)
    else Ok(Outcome(Fold(svc.fold, state, events), events, appended.globalPosition, appended.nextExpectedVersion))
  }

  /** Everything after the append. */
  function Complete<S, E, C>(svc: Config<S, E, C>, p: Pending<S, E>, appended: Result<AppendResult, Error>): Reply<S, E>
  {
    match appended
    case Err(e) => Err(e)
    case Ok(a) => ReplyOf(svc, p.state, p.events, a)
  }

  /** The stream a command is about; the empty name when no handler is registered for it. */
  function StreamOf<S, E, C>(svc: Config<S, E, C>, cmd: C): StreamName {
    match svc.handlers(cmd)
    case None => ""
    case Some(h) => h.stream(cmd)
  }

  function CarryOut<S, E, C>(svc: Config<S, E, C>, s: State<E>, plan: Plan<S, E>): (State<E>, Reply<S, E>) {
    if plan.Done? then (s, plan.reply)
    else
      var p := plan.append;
      var (s', appended) := Append(s, p.stream, p.version, p.events);
      (s', Complete(svc, p, appended))
  }

  /** A command handled without interference. */
  function Handled<S, E, C>(svc: Config<S, E, C>, s: State<E>, cmd: C): (State<E>, Reply<S, E>) {
    CarryOut(svc, s, Decide(svc, Payloads(s, StreamOf(svc, cmd)), cmd))
  }

  /** A write is only planned by the handler, from the fold of what could be read. */
  lemma DecideMeans<S, E, C>(svc: Config<S, E, C>, payloads: seq<E>, cmd: C)
    ensures var plan := Decide(svc, payloads, cmd);
            plan.Write? ==>
              var p := plan.append;
              && svc.handlers(cmd).Some? && p.stream == StreamOf(svc, cmd) && p.events != []
              && p.version == |Window(payloads)| - 1
              && p.state == Fold(svc.fold, svc.zero, Window(payloads))
              && svc.handlers(cmd).value.act(p.state, cmd) == Ok(p.events)
  {
  }

  class Service<S, E, C> {
    const cfg: Config<S, E, C>
    const store: Store<E>

    constructor (cfg: Config<S, E, C>, store: Store<E>)
      ensures this.cfg == cfg && this.store == store
    {
      this.cfg := cfg;
      this.store := store;
    }

    method Handle(cmd: C) returns (reply: Reply<S, E>)
      modifies store
      ensures (store.View(), reply) == Handled(cfg, old(store.View()), cmd)
    {
      var h := cfg.handlers(cmd);
      if h.None? {
        return Err(HandlerNotFound);
      }
      var stream := h.value.stream(cmd);
      var loaded := LoadState(store, stream, cfg.fold, cfg.zero, h.value.expected);
      if loaded.Err? {
        return Err(loaded.error);
      }
      var state, version := loaded.value.state, loaded.value.version;
      var acted := h.value.act(state, cmd);
      if acted.Err? {
        return Err(acted.error);
      }
      var newEvents := acted.value;
      if |newEvents| == 0 {
        return Ok(Outcome(state, [], 0, version));
      }
      assert Write(Pending(stream, version, state, newEvents)) == Decide(cfg, Payloads(store.View(), stream), cmd);

      var appended := store.AppendEvents(stream, version, newEvents);
      if appended.Err? {
        return Err(appended.error);
      }
      reply := BuildResult(state, newEvents, appended.value);
    }

    /** Pairs the new events with their types and folds them into the state. */
    method BuildResult(start: S, newEvents: seq<E>, appended: AppendResult) returns (reply: Reply<S, E>)
      ensures reply == ReplyOf(cfg, start, newEvents, appended)
    {
      var state := start;
      var changes := [];
      for i := 0 to |newEvents|
        invariant changes == newEvents[..i] && state == Fold(cfg.fold, start, changes)
        invariant forall j :: 0 <= j < i ==> cfg.registered(newEvents[j])
      {
        if !cfg.registered(newEvents[i]) {
          return Err(TypeNotRegistered);
        }
        changes := changes + [newEvents[i]];
        assert changes[..i] == newEvents[..i];
        state := cfg.fold(state, newEvents[i]);
      }
      assert changes == newEvents;
      return Ok(Outcome(state, changes, appended.globalPosition, appended.nextExpectedVersion));
    }
  }

  /**
   A reply with changes means: the handler decided on the fold of the whole stream, its events
   are now at the stream's end, and the reply carries the fold and version of the new stream.
   */
  lemma HandledOnWholeStream<S, E, C>(svc: Config<S, E, C>, s: State<E>, cmd: C)
    ensures var (s', reply) := Handled(svc, s, cmd);
            reply.Ok? && reply.value.changes != [] ==>
              var h := svc.handlers(cmd).value;
              var stream := Payloads(s, h.stream(cmd));
              && svc.handlers(cmd).Some?
              && h.act(Fold(svc.fold, svc.zero, stream), cmd) == Ok(reply.value.changes)
              && Payloads(s', h.stream(cmd)) == stream + reply.value.changes
              && reply.value.state == Fold(svc.fold, svc.zero, stream + reply.value.changes)
              && reply.value.streamVersion == |stream + reply.value.changes| - 1
              && forall n :: n != h.stream(cmd) ==> Events(s', n) == Events(s, n)
  {
    var stream := Payloads(s, StreamOf(svc, cmd));
    var plan := Decide(svc, stream, cmd);
    DecideMeans(svc, stream, cmd);
    if plan.Write? {
      AppendTouchesOneStream(s, plan.append.stream, plan.append.version, plan.append.events);
      CarriedOutOnWholeStream(svc, s, plan.append, stream);
    }
  }

  lemma CarriedOutOnWholeStream<S, E, C>(svc: Config<S, E, C>, s: State<E>, p: Pending<S, E>, stream: seq<E>)
    requires stream == Payloads(s, p.stream) && p.version == |Window(stream)| - 1
    requires p.state == Fold(svc.fold, svc.zero, Window(stream))
    ensures var (s', reply) := CarryOut(svc, s, Write(p));
            reply.Ok? ==>
              && Window(stream) == stream
              && reply.value.changes == p.events
              && Payloads(s', p.stream) == stream + p.events
              && reply.value.state == Fold(svc.fold, svc.zero, stream + p.events)
              && reply.value.streamVersion == |stream + p.events| - 1
  {
    AppendSucceedsExactly(s, p.stream, p.version, p.events);
    if p.version + 1 == |stream| {
      FoldConcat(svc.fold, svc.zero, stream, p.events);
    }
  }

  /** The answer once a handler's events are in the store: the new state and where it stands. */
  ghost predicate Answered<S, E, C>(svc: Config<S, E, C>, events: seq<E>, state: S, globalPosition: int, version: int,
                                    reply: Reply<S, E>)
  {
    if !AllRegistered(svc, events) then reply == Err(TypeNotRegistered)
    else
      && reply.Ok? && reply.value.changes == events && reply.value.state == state
      && reply.value.globalPosition == globalPosition && reply.value.streamVersion == version
  }

  /** The handler's events are written at the end of their stream, and nothing else is. */
  ghost predicate Extended<E>(s: State<E>, name: StreamName, events: seq<E>, s': State<E>) {
    && Payloads(s', name) == Payloads(s, name) + events
    && (forall n :: n != name ==> Events(s', n) == Events(s, n))
    && s'.globalPosition == s.globalPosition + |events|
  }

  lemma AppendExtends<E>(s: State<E>, name: StreamName, version: int, events: seq<E>)
    requires events != [] && version == |Payloads(s, name)| - 1
    ensures var (s', r) := Append(s, name, version, events);
            Extended(s, name, events, s')
            && r == Ok(AppendResult(s.globalPosition + |events| - 1, |Payloads(s, name)| + |events| - 1))
  {
    AppendSucceedsExactly(s, name, version, events);
    AppendTouchesOneStream(s, name, version, events);
  }

  lemma CarriedOutIsAnswered<S, E, C>(svc: Config<S, E, C>, s: State<E>, p: Pending<S, E>, stream: seq<E>,
                                      done: (State<E>, Reply<S, E>))
    requires stream == Payloads(s, p.stream) && done == CarryOut(svc, s, Write(p))
    requires p.events != [] && p.version == |Window(stream)| - 1
    ensures if |stream| > MAX_INT32 then done == (s, Err(OptimisticConcurrency))
            else
              && Extended(s, p.stream, p.events, done.0)
              && Answered(svc, p.events, Fold(svc.fold, p.state, p.events),
                          s.globalPosition + |p.events| - 1, |stream| + |p.events| - 1, done.1)
  {
    if |stream| > MAX_INT32 {
      AppendSucceedsExactly(s, p.stream, p.version, p.events);
    } else {
      AppendExtends(s, p.stream, p.version, p.events);
    }
  }

  lemma DoneIsAnswered<S, E, C>(svc: Config<S, E, C>, s: State<E>, cmd: C, reply: Reply<S, E>)
    requires Decide(svc, Payloads(s, StreamOf(svc, cmd)), cmd) == Done(reply)
    ensures Handled(svc, s, cmd) == (s, reply)
  {
  }

  /** A command whose handler decides on events has them written and is answered with them. */
  lemma DecidedIsAnswered<S, E, C>(svc: Config<S, E, C>, s: State<E>, cmd: C, p: Pending<S, E>)
    requires Decide(svc, Payloads(s, StreamOf(svc, cmd)), cmd) == Write(p)
    requires |Payloads(s, p.stream)| <= MAX_INT32
    ensures var (s', reply) := Handled(svc, s, cmd);
            && Extended(s, p.stream, p.events, s')
            && Answered(svc, p.events, Fold(svc.fold, p.state, p.events), s.globalPosition + |p.events| - 1,
                        |Payloads(s, p.stream)| + |p.events| - 1, reply)
  {
    DecideMeans(svc, Payloads(s, StreamOf(svc, cmd)), cmd);
    CarriedOutIsAnswered(svc, s, p, Payloads(s, p.stream), Handled(svc, s, cmd));
  }

  /** Every answer a service can give, by what the stream holds and what the handler decides. */
  lemma AnswersExactly<S, E, C>(svc: Config<S, E, C>, s: State<E>, cmd: C)
    ensures var (s', reply) := Handled(svc, s, cmd);
            match svc.handlers(cmd)
            case None => s' == s && reply == Err(HandlerNotFound)
            case Some(h) =>
              var stream := Payloads(s, h.stream(cmd));
              if h.expected.IsNew? && stream != [] then s' == s && reply == Err(StreamAlreadyExists)
              else if h.expected.IsExisting? && stream == [] then s' == s && reply == Err(StreamNotFound)
              else
                var state := Fold(svc.fold, svc.zero, Window(stream));
                match h.act(state, cmd)
                case Err(e) => s' == s && reply == Err(e)
                case Ok(events) =>
                  if events == [] then s' == s && reply == Ok(Outcome(state, [], 0, |Window(stream)| - 1))
                  else if |stream| > MAX_INT32 then s' == s && reply == Err(OptimisticConcurrency)
                  else Extended(s, h.stream(cmd), events, s')
                       && Answered(svc, events, Fold(svc.fold, state, events),
                                   s.globalPosition + |events| - 1, |stream| + |events| - 1, reply)
  {
    var stream := Payloads(s, StreamOf(svc, cmd));
    var plan := Decide(svc, stream, cmd);
    DecideMeans(svc, stream, cmd);
    if plan.Write? {
      CarriedOutIsAnswered(svc, s, plan.append, stream, Handled(svc, s, cmd));
    }
  }

  /** A reply without changes leaves the store alone and shows the state and version that were read. */
  lemma NoChangesNoWrite<S, E, C>(svc: Config<S, E, C>, s: State<E>, cmd: C)
    ensures var (s', reply) := Handled(svc, s, cmd);
            reply.Ok? && reply.value.changes == [] ==>
              var read := Window(Payloads(s, StreamOf(svc, cmd)));
              && s' == s
              && svc.handlers(cmd).Some?
              && svc.handlers(cmd).value.act(Fold(svc.fold, svc.zero, read), cmd) == Ok([])
              && reply.value.state == Fold(svc.fold, svc.zero, read)
              && reply.value.streamVersion == |read| - 1
  {
    DecideMeans(svc, Payloads(s, StreamOf(svc, cmd)), cmd);
    assert Window(Payloads(s, StreamOf(svc, cmd))) == [] ==> Fold(svc.fold, svc.zero, []) == svc.zero;
  }

  lemma CarryOutWrites<S, E, C>(svc: Config<S, E, C>, s: State<E>, p: Pending<S, E>)
    requires p.events != []
    ensures var (s', reply) := CarryOut(svc, s, Write(p));
            && (s' != s <==> Accepts(s, p.stream, p.version))
            && (s' != s ==> (reply.Err? <==> !AllRegistered(svc, p.events)))
  {
    var s' := Append(s, p.stream, p.version, p.events).0;
    AppendSucceedsExactly(s, p.stream, p.version, p.events);
    if Accepts(s, p.stream, p.version) {
      assert |Payloads(s', p.stream)| > |Payloads(s, p.stream)|;
    }
  }

  /**
   An error can come after the events were written, namely exactly when the append went through
   and one of the new events has no registered type.
   */
  lemma ErrorAfterWriteExactly<S, E, C>(svc: Config<S, E, C>, s: State<E>, cmd: C)
    ensures var (s', reply) := Handled(svc, s, cmd);
            var plan := Decide(svc, Payloads(s, StreamOf(svc, cmd)), cmd);
            reply.Err? && s' != s <==>
              && plan.Write?
              && plan.append.version + 1 == |Payloads(s, plan.append.stream)|
              && !AllRegistered(svc, plan.append.events)
  {
    var plan := Decide(svc, Payloads(s, StreamOf(svc, cmd)), cmd);
    DecideMeans(svc, Payloads(s, StreamOf(svc, cmd)), cmd);
    if plan.Write? {
      CarryOutWrites(svc, s, plan.append);
      AppendSucceedsExactly(s, plan.append.stream, plan.append.version, []);
    }
  }
}
