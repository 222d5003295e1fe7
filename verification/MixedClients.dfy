/**
 Clients of both services on one store. An aggregate client too only has its store calls atomic:
 between loading its aggregate and storing it, anything may be appended anywhere. Whatever the
 two services are, runs are serialisable; set up alike, it does not matter which one is used.
 */
module MixedClients {
  import opened Wrappers
  import opened Eventuous
  import opened MemStore
  import opened StateLoading
  import opened Aggregates
  import opened CommandService
  import opened AggregateCommands
  import Serialisability

  /** A command between its load and its store call; `seen` is the stream as it was read. */
  datatype Held<+S, +E, +C> =
    | ByEvents(cmd: C, seen: seq<E>, append: Pending<S, E>)
    | ByAggregate(cmd: C, seen: seq<E>, stream: StreamName, agg: Agg<S, E>)

  datatype Completion<+S, +E, +C> = Completion(cmd: C, aggregate: bool, reply: Reply<S, E>)

  datatype System<+S, +E, +C> = System(
    store: State<E>,
    clients: map<nat, Held<S, E, C>>,
    completed: seq<Completion<S, E, C>>,
    rejected: seq<Completion<S, E, C>>)

  /** `aggregate` says through which service the command goes. */
  datatype Action<+E, +C> =
    | Begin(client: nat, cmd: C, aggregate: bool)
    | Finish(client: nat)
    | Foreign(name: StreamName, expected: int, payloads: seq<E>)

  datatype Services<!S, !E, !C> = Services(svc: Config<S, E, C>, agg: AggConfig<S, E, C>)

  function Target<S, E, C>(both: Services<S, E, C>, cmd: C, aggregate: bool): StreamName {
    if aggregate then AggStreamOf(both.agg, cmd) else StreamOf(both.svc, cmd)
  }

  /** What a command comes to once its stream is read: a reply, or a store call to make. */
  function BeginOn<S, E, C>(both: Services<S, E, C>, seen: seq<E>, cmd: C, aggregate: bool)
    : Result<Held<S, E, C>, Reply<S, E>>
  {
    if aggregate then
      match AggDecide(both.agg, seen, cmd)
      case Replied(reply) => Err(reply)
      case Holding(stream, a) => Ok(ByAggregate(cmd, seen, stream, a))
    else
      match Decide(both.svc, seen, cmd)
      case Done(reply) => Err(reply)
      case Write(p) => Ok(ByEvents(cmd, seen, p))
  }

  /** The store call, whether the store accepted, and the reply. */
  function FinishHeld<S, E, C>(both: Services<S, E, C>, s: State<E>, held: Held<S, E, C>)
    : (State<E>, bool, Reply<S, E>)
  {
    match held
    case ByEvents(_, _, p) =>
      var (s', r) := Append(s, p.stream, p.version, p.events);
      (s', r.Ok?, Complete(both.svc, p, r))
    case ByAggregate(_, _, stream, a) =>
      var (s', a', r) := StoreChanges(s, stream, a);
      (s', r.Ok?, if r.Err? then Err(r.error) else AggReply(both.agg, a', a.changes, r.value))
  }

  function Step<S, E, C>(both: Services<S, E, C>, x: System<S, E, C>, action: Action<E, C>): System<S, E, C> {
    match action
    case Begin(client, cmd, aggregate) =>
      if client in x.clients then x
      else
        var begun := BeginOn(both, Payloads(x.store, Target(both, cmd, aggregate)), cmd, aggregate);
        if begun.Err? then x.(completed := x.completed + [Completion(cmd, aggregate, begun.error)])
        else x.(clients := x.clients[client := begun.value])
    case Finish(client) =>
      if client !in x.clients then x
      else
        var held, rest := x.clients[client], x.clients - {client};
        var (s', accepted, reply) := FinishHeld(both, x.store, held);
        var done := Completion(held.cmd, held.ByAggregate?, reply);
        if accepted then System(s', rest, x.completed + [done], x.rejected)
        else x.(clients := rest, rejected := x.rejected + [done])
    case Foreign(name, expected, payloads) =>
      x.(store := Append(x.store, name, expected, payloads).0)
  }

  function Run<S, E, C>(both: Services<S, E, C>, actions: seq<Action<E, C>>): System<S, E, C> {
    if actions == [] then System(State(map[], 0), map[], [], [])
    else Step(both, Run(both, actions[..|actions| - 1]), actions[|actions| - 1])
  }

  // ---------------------------------------------------------------------------------------
  // Serialisability
  // ---------------------------------------------------------------------------------------

  datatype Serial<+E, +C> =
    | Whole(cmd: C, aggregate: bool)
    | Outside(name: StreamName, expected: int, payloads: seq<E>)

  datatype SerialSystem<+S, +E, +C> = SerialSystem(store: State<E>, completed: seq<Completion<S, E, C>>)

  function HandledBy<S, E, C>(both: Services<S, E, C>, s: State<E>, cmd: C, aggregate: bool)
    : (State<E>, Reply<S, E>)
  {
    if aggregate then AggHandled(both.agg, s, cmd) else Handled(both.svc, s, cmd)
  }

  function SerialStep<S, E, C>(both: Services<S, E, C>, y: SerialSystem<S, E, C>, step: Serial<E, C>)
    : SerialSystem<S, E, C>
  {
    match step
    case Whole(cmd, aggregate) =>
      var (s', reply) := HandledBy(both, y.store, cmd, aggregate);
      SerialSystem(s', y.completed + [Completion(cmd, aggregate, reply)])
    case Outside(name, expected, payloads) =>
      y.(store := Append(y.store, name, expected, payloads).0)
  }

  function SerialRun<S, E, C>(both: Services<S, E, C>, steps: seq<Serial<E, C>>): SerialSystem<S, E, C> {
    if steps == [] then SerialSystem(State(map[], 0), [])
    else SerialStep(both, SerialRun(both, steps[..|steps| - 1]), steps[|steps| - 1])
  }

  /** Where an action takes effect as a whole command or a foreign append, if it does. */
  function EffectOf<S, E, C>(both: Services<S, E, C>, x: System<S, E, C>, action: Action<E, C>): seq<Serial<E, C>> {
    match action
    case Begin(client, cmd, aggregate) =>
      var seen := Payloads(x.store, Target(both, cmd, aggregate));
      if client !in x.clients && BeginOn(both, seen, cmd, aggregate).Err? then [Whole(cmd, aggregate)] else []
    case Finish(client) =>
      if client in x.clients && FinishHeld(both, x.store, x.clients[client]).1
      then [Whole(x.clients[client].cmd, x.clients[client].ByAggregate?)] else []
    case Foreign(name, expected, payloads) => [Outside(name, expected, payloads)]
  }

  /** The serial order: each command at the moment it took effect. */
  function SerialOrder<S, E, C>(both: Services<S, E, C>, actions: seq<Action<E, C>>): seq<Serial<E, C>> {
    if actions == [] then []
    else
      var rest := actions[..|actions| - 1];
      SerialOrder(both, rest) + EffectOf(both, Run(both, rest), actions[|actions| - 1])
  }

  /** What a client holds stems from what it read, and the stream has only grown since. */
  ghost predicate Stems<S, E, C>(both: Services<S, E, C>, s: State<E>, held: Held<S, E, C>) {
    && BeginOn(both, held.seen, held.cmd, held.ByAggregate?) == Ok(held)
    && held.seen <= Payloads(s, Target(both, held.cmd, held.ByAggregate?))
  }

  ghost predicate AllStem<S, E, C>(both: Services<S, E, C>, x: System<S, E, C>) {
    forall c | c in x.clients :: Stems(both, x.store, x.clients[c])
  }

  lemma FinishGrows<S, E, C>(both: Services<S, E, C>, s: State<E>, held: Held<S, E, C>, name: StreamName)
    ensures Payloads(s, name) <= Payloads(FinishHeld(both, s, held).0, name)
  {
    match held
    case ByEvents(_, _, p) => Serialisability.AppendOnlyGrows(s, p.stream, p.version, p.events, name);
    case ByAggregate(_, _, stream, a) =>
      var expected := if a.originalVersion == -1 then VERSION_NO_STREAM else a.originalVersion;
      Serialisability.AppendOnlyGrows(s, stream, expected, a.changes, name);
  }

  lemma StepKeepsStems<S, E, C>(both: Services<S, E, C>, x: System<S, E, C>, action: Action<E, C>)
    requires AllStem(both, x)
    ensures AllStem(both, Step(both, x, action))
  {
    var x' := Step(both, x, action);
    forall c | c in x'.clients ensures Stems(both, x'.store, x'.clients[c]) {
      var target := Target(both, x'.clients[c].cmd, x'.clients[c].ByAggregate?);
      match action
      case Begin(client, cmd, aggregate) =>
        assert c in x.clients ==> Stems(both, x.store, x.clients[c]);
      case Finish(client) =>
        assert Stems(both, x.store, x.clients[c]);
        if client in x.clients {
          FinishGrows(both, x.store, x.clients[client], target);
        }
      case Foreign(name, expected, payloads) =>
        assert Stems(both, x.store, x.clients[c]);
        Serialisability.AppendOnlyGrows(x.store, name, expected, payloads, target);
    }
  }

  lemma {:induction false} RunKeepsStems<S, E, C>(both: Services<S, E, C>, actions: seq<Action<E, C>>)
    ensures AllStem(both, Run(both, actions))
  {
    if actions != [] {
      RunKeepsStems(both, actions[..|actions| - 1]);
      StepKeepsStems(both, Run(both, actions[..|actions| - 1]), actions[|actions| - 1]);
    }
  }

  lemma WindowAsLong<E>(seen: seq<E>, now: seq<E>)
    requires seen <= now && |Window(seen)| == |now|
    ensures seen == now
  {
  }

  lemma FinishedEventsAreHandled<S, E, C>(svc: Config<S, E, C>, s: State<E>, seen: seq<E>, cmd: C)
    requires Decide(svc, seen, cmd).Write? && seen <= Payloads(s, StreamOf(svc, cmd))
    ensures var p := Decide(svc, seen, cmd).append;
            var (s', r) := Append(s, p.stream, p.version, p.events);
            if r.Err? then s' == s else Handled(svc, s, cmd) == (s', Complete(svc, p, r))
  {
    Serialisability.AcceptedMeansUnchanged(svc, seen, s, cmd);
  }

  lemma KeptMeansUnchanged<S, E, C>(agg: AggConfig<S, E, C>, s: State<E>, seen: seq<E>, cmd: C)
    requires AggDecide(agg, seen, cmd).Holding? && seen <= Payloads(s, AggStreamOf(agg, cmd))
    ensures var plan := AggDecide(agg, seen, cmd);
            StoreChanges(s, plan.stream, plan.agg).2.Ok? ==> seen == Payloads(s, AggStreamOf(agg, cmd))
  {
    var plan := AggDecide(agg, seen, cmd);
    AggDecideMeans(agg, seen, cmd);
    KeepMeans(s, plan.stream, plan.agg);
    if StoreChanges(s, plan.stream, plan.agg).2.Ok? {
      WindowAsLong(seen, Payloads(s, plan.stream));
    }
  }

  lemma FinishedAggregateIsHandled<S, E, C>(agg: AggConfig<S, E, C>, s: State<E>, seen: seq<E>, cmd: C)
    requires AggDecide(agg, seen, cmd).Holding? && seen <= Payloads(s, AggStreamOf(agg, cmd))
    ensures var plan := AggDecide(agg, seen, cmd);
            var (s', a', r) := StoreChanges(s, plan.stream, plan.agg);
            if r.Err? then s' == s
            else AggHandled(agg, s, cmd) == (s', AggReply(agg, a', plan.agg.changes, r.value))
  {
    KeptMeansUnchanged(agg, s, seen, cmd);
  }

  /** If the store accepts, the stream is still what was read, so the command might as well start now. */
  lemma FinishedIsHandled<S, E, C>(both: Services<S, E, C>, s: State<E>, held: Held<S, E, C>)
    requires Stems(both, s, held)
    ensures var (s', accepted, reply) := FinishHeld(both, s, held);
            if accepted then HandledBy(both, s, held.cmd, held.ByAggregate?) == (s', reply) else s' == s
  {
    match held
    case ByEvents(cmd, seen, _) => FinishedEventsAreHandled(both.svc, s, seen, cmd);
    case ByAggregate(cmd, seen, _, _) => FinishedAggregateIsHandled(both.agg, s, seen, cmd);
  }

  lemma StepMatchesSerial<S, E, C>(both: Services<S, E, C>, x: System<S, E, C>, action: Action<E, C>)
    requires AllStem(both, x)
    ensures var x', effect := Step(both, x, action), EffectOf(both, x, action);
            var y := SerialSystem(x.store, x.completed);
            SerialSystem(x'.store, x'.completed) == if effect == [] then y else SerialStep(both, y, effect[0])
  {
    if action.Finish? && action.client in x.clients {
      FinishedIsHandled(both, x.store, x.clients[action.client]);
    }
  }

  /**
   Every interleaved run of clients of both services has a serial one: handling the commands
   whole, each by its service at the moment it took effect, leaves the same store and gives the
   same replies.
   */
  lemma {:induction false} MixedSerialisable<S, E, C>(both: Services<S, E, C>, actions: seq<Action<E, C>>)
    ensures var x := Run(both, actions);
            SerialRun(both, SerialOrder(both, actions)) == SerialSystem(x.store, x.completed)
  {
    if actions != [] {
      var rest, action := actions[..|actions| - 1], actions[|actions| - 1];
      MixedSerialisable(both, rest);
      RunKeepsStems(both, rest);
      StepMatchesSerial(both, Run(both, rest), action);
      var before, effect := SerialOrder(both, rest), EffectOf(both, Run(both, rest), action);
      if effect == [] {
        assert before + effect == before;
      } else {
        assert (before + effect)[..|before + effect| - 1] == before;
      }
    }
  }

  /**
   A client of either service is refused exactly when its stream has been written to since it was
   read, or was too long to be read whole; the reply says so.
   */
  lemma RefusedExactlyWhenOvertaken<S, E, C>(both: Services<S, E, C>, s: State<E>, held: Held<S, E, C>)
    requires Stems(both, s, held)
    ensures var stream := Payloads(s, Target(both, held.cmd, held.ByAggregate?));
            var (s', accepted, reply) := FinishHeld(both, s, held);
            if stream == held.seen && |held.seen| <= MAX_INT32 then accepted
            else !accepted && s' == s && reply == Err(OptimisticConcurrency)
  {
    var stream := Payloads(s, Target(both, held.cmd, held.ByAggregate?));
    match held {
      case ByEvents(cmd, seen, p) =>
        DecideMeans(both.svc, seen, cmd);
        AppendSucceedsExactly(s, p.stream, p.version, p.events);
      case ByAggregate(cmd, seen, name, a) =>
        AggDecideMeans(both.agg, seen, cmd);
        RefusedStoreChangesNothing(s, name, a);
    }
    if |Window(held.seen)| == |stream| {
      WindowAsLong(held.seen, stream);
    }
  }

  /** So it is with every client under way in any run. */
  lemma OvertakenInRuns<S, E, C>(both: Services<S, E, C>, actions: seq<Action<E, C>>, client: nat)
    requires client in Run(both, actions).clients
    ensures var x := Run(both, actions);
            var held, x' := x.clients[client], Step(both, x, Finish(client));
            var stream := Payloads(x.store, Target(both, held.cmd, held.ByAggregate?));
            && x'.clients == x.clients - {client}
            && if stream == held.seen && |held.seen| <= MAX_INT32
               then x'.rejected == x.rejected && |x'.completed| == |x.completed| + 1
               else
                 && x'.store == x.store && x'.completed == x.completed
                 && x'.rejected == x.rejected + [Completion(held.cmd, held.ByAggregate?, Err(OptimisticConcurrency))]
  {
    RunKeepsStems(both, actions);
    RefusedExactlyWhenOvertaken(both, Run(both, actions).store, Run(both, actions).clients[client]);
  }

  // ---------------------------------------------------------------------------------------
  // No lost update
  // ---------------------------------------------------------------------------------------

  /** The handler that a command goes to, run on a stream with this content, comes to these changes. */
  ghost predicate Decides<S, E, C>(both: Services<S, E, C>, before: seq<E>, cmd: C, aggregate: bool, changes: seq<E>) {
    if aggregate then
      && both.agg.handlers(cmd).Some?
      && var loaded := Reconstructed(before, both.agg.fold, both.agg.zero);
         both.agg.handlers(cmd).value.act(loaded, cmd) == Acted(changes, None)
    else
      && both.svc.handlers(cmd).Some?
      && both.svc.handlers(cmd).value.act(Fold(both.svc.fold, both.svc.zero, before), cmd) == Ok(changes)
  }

  function FoldOf<S, E, C>(both: Services<S, E, C>, aggregate: bool, events: seq<E>): S {
    if aggregate then Fold(both.agg.fold, both.agg.zero, events) else Fold(both.svc.fold, both.svc.zero, events)
  }

  /**
   Where a reply places its batch in its stream: the handler ran on exactly the events in front
   of it, and the reply's state is the fold up to its end.
   */
  ghost predicate PlacedIn<S, E, C>(both: Services<S, E, C>, stream: seq<E>, done: Completion<S, E, C>) {
    done.reply.Ok? && done.reply.value.changes != [] ==>
      var r := done.reply.value;
      var end := r.streamVersion + 1;
      var start := end - |r.changes|;
      && 0 <= start <= end <= |stream|
      && stream[start..end] == r.changes
      && Decides(both, stream[..start], done.cmd, done.aggregate, r.changes)
      && r.state == FoldOf(both, done.aggregate, stream[..end])
  }

  ghost predicate Placed<S, E, C>(both: Services<S, E, C>, s: State<E>, done: Completion<S, E, C>) {
    PlacedIn(both, Payloads(s, Target(both, done.cmd, done.aggregate)), done)
  }

  lemma PlacedStays<S, E, C>(both: Services<S, E, C>, before: seq<E>, after: seq<E>, done: Completion<S, E, C>)
    requires PlacedIn(both, before, done) && before <= after
    ensures PlacedIn(both, after, done)
  {
    if done.reply.Ok? && done.reply.value.changes != [] {
      var end := done.reply.value.streamVersion + 1;
      var start := end - |done.reply.value.changes|;
      assert before[..end] == after[..end] && before[..start] == after[..start];
      assert before[start..end] == after[start..end];
    }
  }

  lemma PlacedAtEnd<S, E, C>(both: Services<S, E, C>, before: seq<E>, cmd: C, aggregate: bool, r: Outcome<S, E>)
    requires Decides(both, before, cmd, aggregate, r.changes)
    requires r.state == FoldOf(both, aggregate, before + r.changes) && r.streamVersion == |before + r.changes| - 1
    ensures PlacedIn(both, before + r.changes, Completion(cmd, aggregate, Ok(r)))
  {
    Serialisability.SplitAtEnd(before, r.changes);
  }

  lemma HandledAtEnd<S, E, C>(both: Services<S, E, C>, s: State<E>, cmd: C, aggregate: bool)
    ensures var (s', reply) := HandledBy(both, s, cmd, aggregate);
            var before := Payloads(s, Target(both, cmd, aggregate));
            reply.Ok? && reply.value.changes != [] ==>
              && Decides(both, before, cmd, aggregate, reply.value.changes)
              && reply.value.state == FoldOf(both, aggregate, before + reply.value.changes)
              && reply.value.streamVersion == |before + reply.value.changes| - 1
              && Payloads(s', Target(both, cmd, aggregate)) == before + reply.value.changes
  {
    if aggregate {
      AggHandledOnWholeStream(both.agg, s, cmd);
    } else {
      HandledOnWholeStream(both.svc, s, cmd);
    }
  }

  lemma HandledIsPlaced<S, E, C>(both: Services<S, E, C>, s: State<E>, cmd: C, aggregate: bool)
    ensures var (s', reply) := HandledBy(both, s, cmd, aggregate);
            Placed(both, s', Completion(cmd, aggregate, reply))
  {
    var (s', reply) := HandledBy(both, s, cmd, aggregate);
    if reply.Ok? && reply.value.changes != [] {
      var before := Payloads(s, Target(both, cmd, aggregate));
      HandledAtEnd(both, s, cmd, aggregate);
      PlacedAtEnd(both, before, cmd, aggregate, reply.value);
    }
  }

  lemma HandledGrows<S, E, C>(both: Services<S, E, C>, s: State<E>, cmd: C, aggregate: bool, name: StreamName)
    ensures Payloads(s, name) <= Payloads(HandledBy(both, s, cmd, aggregate).0, name)
  {
    var begun := BeginOn(both, Payloads(s, Target(both, cmd, aggregate)), cmd, aggregate);
    if begun.Ok? {
      FinishGrows(both, s, begun.value, name);
    }
  }

  lemma SerialStepGrows<S, E, C>(both: Services<S, E, C>, y: SerialSystem<S, E, C>, step: Serial<E, C>,
                                 name: StreamName)
    ensures Payloads(y.store, name) <= Payloads(SerialStep(both, y, step).store, name)
  {
    match step
    case Whole(cmd, aggregate) => HandledGrows(both, y.store, cmd, aggregate, name);
    case Outside(n, expected, payloads) => Serialisability.AppendOnlyGrows(y.store, n, expected, payloads, name);
  }

  lemma {:induction false} SerialRepliesPlaced<S, E, C>(both: Services<S, E, C>, steps: seq<Serial<E, C>>, i: nat)
    requires i < |SerialRun(both, steps).completed|
    ensures Placed(both, SerialRun(both, steps).store, SerialRun(both, steps).completed[i])
  {
    if steps != [] {
      var y, step := SerialRun(both, steps[..|steps| - 1]), steps[|steps| - 1];
      if i < |y.completed| {
        SerialRepliesPlaced(both, steps[..|steps| - 1], i);
        var done := y.completed[i];
        var target := Target(both, done.cmd, done.aggregate);
        SerialStepGrows(both, y, step, target);
        PlacedStays(both, Payloads(y.store, target), Payloads(SerialStep(both, y, step).store, target), done);
      } else {
        HandledIsPlaced(both, y.store, step.cmd, step.aggregate);
      }
    }
  }

  /** This holds of every reply of every interleaved run, whichever services the writers use. */
  lemma MixedRepliesPlaced<S, E, C>(both: Services<S, E, C>, actions: seq<Action<E, C>>, i: nat)
    requires i < |Run(both, actions).completed|
    ensures Placed(both, Run(both, actions).store, Run(both, actions).completed[i])
  {
    MixedSerialisable(both, actions);
    SerialRepliesPlaced(both, SerialOrder(both, actions), i);
  }

  // ---------------------------------------------------------------------------------------
  // Services set up alike
  // ---------------------------------------------------------------------------------------

  /** The same actions with every command going through the functional service. */
  function Plain<E, C>(actions: seq<Action<E, C>>): seq<Action<E, C>> {
    if actions == [] then []
    else
      var last := actions[|actions| - 1];
      Plain(actions[..|actions| - 1]) + [if last.Begin? then last.(aggregate := false) else last]
  }

  /** Equal replies, or the two services' errors for the same failed guard. */
  ghost predicate SameReply<S, E, C>(svc: Config<S, E, C>, done: Completion<S, E, C>, plain: Completion<S, E, C>) {
    && done.cmd == plain.cmd
    && (|| done.reply == plain.reply
        || (svc.handlers(done.cmd).Some?
            && plain.reply == Err(LoadError(svc.handlers(done.cmd).value.expected))
            && done.reply == Err(GuardError(svc.handlers(done.cmd).value.expected))))
  }

  /** A client holds what it would hold as a client of the functional service. */
  ghost predicate SameHeld<S, E, C>(svc: Config<S, E, C>, held: Held<S, E, C>, plain: Held<S, E, C>) {
    && plain.ByEvents? && held.cmd == plain.cmd
    && match held
       case ByEvents(_, _, p) => p == plain.append
       case ByAggregate(_, _, stream, a) => HoldsWrite(svc.fold, plain.append, stream, a)
  }

  ghost predicate Mirrors<S, E, C>(svc: Config<S, E, C>, x: System<S, E, C>, y: System<S, E, C>) {
    && x.store == y.store
    && |x.rejected| == |y.rejected|
    && (forall i :: 0 <= i < |x.rejected| ==> SameReply(svc, x.rejected[i], y.rejected[i]))
    && |x.completed| == |y.completed|
    && (forall i :: 0 <= i < |x.completed| ==> SameReply(svc, x.completed[i], y.completed[i]))
    && x.clients.Keys == y.clients.Keys
    && forall c | c in x.clients :: SameHeld(svc, x.clients[c], y.clients[c])
  }

  ghost predicate AllAlike<S(!new), E(!new), C(!new)>(both: Services<S, E, C>) {
    both.svc.registered == both.agg.registered && forall cmd :: SetUpAlike(both.svc, both.agg, cmd)
  }

  /** From the same content a command comes to the same, whichever service it goes through. */
  lemma BegunAlike<S(!new), E(!new), C(!new)>(both: Services<S, E, C>, seen: seq<E>, cmd: C, aggregate: bool)
    requires SetUpAlike(both.svc, both.agg, cmd)
    ensures Target(both, cmd, aggregate) == StreamOf(both.svc, cmd)
    ensures var begun, plain := BeginOn(both, seen, cmd, aggregate), BeginOn(both, seen, cmd, false);
            if plain.Ok? then begun.Ok? && SameHeld(both.svc, begun.value, plain.value)
            else begun.Err? && SameReply(both.svc, Completion(cmd, aggregate, begun.error),
                                         Completion(cmd, false, plain.error))
  {
    DecisionsAgree(both.svc, both.agg, seen, cmd);
  }

  lemma FinishedAlike<S, E, C>(both: Services<S, E, C>, s: State<E>, held: Held<S, E, C>, plain: Held<S, E, C>)
    requires both.svc.registered == both.agg.registered && SameHeld(both.svc, held, plain)
    ensures FinishHeld(both, s, held) == FinishHeld(both, s, plain)
  {
    if held.ByAggregate? {
      KeepingIsCompleting(both.svc, both.agg, s, plain.append, held.stream, held.agg);
    }
  }

  lemma BeginMirrors<S(!new), E(!new), C(!new)>(both: Services<S, E, C>, x: System<S, E, C>, y: System<S, E, C>,
                                                action: Action<E, C>)
    requires AllAlike(both) && Mirrors(both.svc, x, y) && action.Begin?
    ensures Mirrors(both.svc, Step(both, x, action), Step(both, y, action.(aggregate := false)))
  {
    assert SetUpAlike(both.svc, both.agg, action.cmd);
    BegunAlike(both, Payloads(x.store, StreamOf(both.svc, action.cmd)), action.cmd, action.aggregate);
  }

  lemma FinishMirrors<S(!new), E(!new), C(!new)>(both: Services<S, E, C>, x: System<S, E, C>, y: System<S, E, C>,
                                                 action: Action<E, C>)
    requires AllAlike(both) && Mirrors(both.svc, x, y) && action.Finish?
    ensures Mirrors(both.svc, Step(both, x, action), Step(both, y, action))
  {
    if action.client in x.clients {
      assert SameHeld(both.svc, x.clients[action.client], y.clients[action.client]);
      FinishedAlike(both, x.store, x.clients[action.client], y.clients[action.client]);
    }
  }

  /**
   Set up alike, it makes no difference which service each command goes through, however they
   interleave: the store, the refusals and the replies are the same, but for the errors of failed
   guards.
   */
  lemma {:induction false} ChoiceOfServiceInvisible<S(!new), E(!new), C(!new)>(both: Services<S, E, C>,
                                                                              actions: seq<Action<E, C>>)
    requires AllAlike(both)
    ensures Mirrors(both.svc, Run(both, actions), Run(both, Plain(actions)))
  {
    if actions != [] {
      var rest, action := actions[..|actions| - 1], actions[|actions| - 1];
      ChoiceOfServiceInvisible(both, rest);
      assert Plain(actions)[..|Plain(actions)| - 1] == Plain(rest);
      var x, y := Run(both, rest), Run(both, Plain(rest));
      match action
      case Begin(_, _, _) => BeginMirrors(both, x, y, action);
      case Finish(_) => FinishMirrors(both, x, y, action);
      case Foreign(_, _, _) =>
    }
  }
}
