/**
 Many clients use one command service at once. Only a single store call is atomic: between a
 client's load and its append, other clients and foreign writers may append anything anywhere.
 On an append-only store the outcome is nevertheless that of handling the commands one by one.
 */
module Serialisability {
  import opened Wrappers
  import opened Eventuous
  import opened MemStore
  import opened StateLoading
  import opened CommandService

  /** A command between its load and its append; `seen` is the stream as it was read. */
  datatype InFlight<+S, +E, +C> = InFlight(cmd: C, seen: seq<E>, append: Pending<S, E>)

  datatype Completion<+S, +E, +C> = Completion(cmd: C, reply: Reply<S, E>)

  datatype System<+S, +E, +C> = System(
    store: State<E>,
    clients: map<nat, InFlight<S, E, C>>,
    completed: seq<Completion<S, E, C>>,  // replies of commands that took effect, in that order
    rejected: seq<Completion<S, E, C>>)   // replies of commands whose append was refused

  datatype Action<+E, +C> =
    | Begin(client: nat, cmd: C)
    | Finish(client: nat)
    | Foreign(name: StreamName, expected: int, payloads: seq<E>)

  function Step<S, E, C>(svc: Config<S, E, C>, x: System<S, E, C>, action: Action<E, C>): System<S, E, C> {
    match action
    case Begin(client, cmd) =>
      var seen := Payloads(x.store, StreamOf(svc, cmd));
      var plan := Decide(svc, seen, cmd);
      if client in x.clients then x
      else if plan.Done? then x.(completed := x.completed + [Completion(cmd, plan.reply)])
      else x.(clients := x.clients[client := InFlight(cmd, seen, plan.append)])
    case Finish(client) =>
      if client !in x.clients then x
      else
        var f := x.clients[client];
        var (s', appended) := Append(x.store, f.append.stream, f.append.version, f.append.events);
        var rest := x.clients - {client};
        var done := Completion(f.cmd, Complete(svc, f.append, appended));
        if appended.Err? then x.(clients := rest, rejected := x.rejected + [done])
        else System(s', rest, x.completed + [done], x.rejected)
    case Foreign(name, expected, payloads) =>
      x.(store := Append(x.store, name, expected, payloads).0)
  }

  function Run<S, E, C>(svc: Config<S, E, C>, actions: seq<Action<E, C>>): System<S, E, C> {
    if actions == [] then System(State(map[], 0), map[], [], [])
    else Step(svc, Run(svc, actions[..|actions| - 1]), actions[|actions| - 1])
  }

  lemma RunLast<S, E, C>(svc: Config<S, E, C>, actions: seq<Action<E, C>>, last: Action<E, C>)
    ensures Run(svc, actions + [last]) == Step(svc, Run(svc, actions), last)
  {
    assert (actions + [last])[..|actions + [last]| - 1] == actions;
  }

  /** One atomic step of a serial execution. */
  datatype Serial<+E, +C> = Whole(cmd: C) | Outside(name: StreamName, expected: int, payloads: seq<E>)

  datatype SerialSystem<+S, +E, +C> = SerialSystem(store: State<E>, completed: seq<Completion<S, E, C>>)

  function SerialStep<S, E, C>(svc: Config<S, E, C>, x: SerialSystem<S, E, C>, step: Serial<E, C>)
    : SerialSystem<S, E, C>
  {
    match step
    case Whole(cmd) =>
      var (s', reply) := Handled(svc, x.store, cmd);
      SerialSystem(s', x.completed + [Completion(cmd, reply)])
    case Outside(name, expected, payloads) =>
      x.(store := Append(x.store, name, expected, payloads).0)
  }

  function SerialRun<S, E, C>(svc: Config<S, E, C>, steps: seq<Serial<E, C>>): SerialSystem<S, E, C> {
    if steps == [] then SerialSystem(State(map[], 0), [])
    else SerialStep(svc, SerialRun(svc, steps[..|steps| - 1]), steps[|steps| - 1])
  }

  /** Where an action takes effect as a whole command or a foreign append, if it does. */
  function EffectOf<S, E, C>(svc: Config<S, E, C>, x: System<S, E, C>, action: Action<E, C>): seq<Serial<E, C>> {
    match action
    case Begin(client, cmd) =>
      if client !in x.clients && Decide(svc, Payloads(x.store, StreamOf(svc, cmd)), cmd).Done? then [Whole(cmd)] else []
    case Finish(client) =>
      if client in x.clients && Accepts(x.store, x.clients[client].append.stream, x.clients[client].append.version)
      then [Whole(x.clients[client].cmd)] else []
    case Foreign(name, expected, payloads) => [Outside(name, expected, payloads)]
  }

  /** The serial order: each command at the moment it took effect. */
  function SerialOrder<S, E, C>(svc: Config<S, E, C>, actions: seq<Action<E, C>>): seq<Serial<E, C>> {
    if actions == [] then []
    else
      var rest := actions[..|actions| - 1];
      SerialOrder(svc, rest) + EffectOf(svc, Run(svc, rest), actions[|actions| - 1])
  }

  /** A client's plan stems from what it read, and the stream has only grown since. */
  ghost predicate PlansStem<S, E, C>(svc: Config<S, E, C>, x: System<S, E, C>) {
    forall c | c in x.clients ::
      var f := x.clients[c];
      && Decide(svc, f.seen, f.cmd) == Write(f.append)
      && f.seen <= Payloads(x.store, f.append.stream)
  }

  lemma AppendOnlyGrows<E>(s: State<E>, name: StreamName, expected: int, payloads: seq<E>, other: StreamName)
    ensures Payloads(s, other) <= Payloads(Append(s, name, expected, payloads).0, other)
  {
    AppendSucceedsExactly(s, name, expected, payloads);
    AppendTouchesOneStream(s, name, expected, payloads);
  }

  lemma StepKeepsPlans<S, E, C>(svc: Config<S, E, C>, x: System<S, E, C>, action: Action<E, C>)
    requires PlansStem(svc, x)
    ensures PlansStem(svc, Step(svc, x, action))
  {
    var x' := Step(svc, x, action);
    forall c | c in x'.clients
      ensures Decide(svc, x'.clients[c].seen, x'.clients[c].cmd) == Write(x'.clients[c].append)
      ensures x'.clients[c].seen <= Payloads(x'.store, x'.clients[c].append.stream)
    {
      match action
      case Begin(client, cmd) =>
        DecideMeans(svc, Payloads(x.store, StreamOf(svc, cmd)), cmd);
      case Finish(client) =>
        if client in x.clients {
          var p := x.clients[client].append;
          AppendOnlyGrows(x.store, p.stream, p.version, p.events, x.clients[c].append.stream);
        }
      case Foreign(name, expected, payloads) =>
        AppendOnlyGrows(x.store, name, expected, payloads, x.clients[c].append.stream);
    }
  }

  lemma {:induction false} RunKeepsPlans<S, E, C>(svc: Config<S, E, C>, actions: seq<Action<E, C>>)
    ensures PlansStem(svc, Run(svc, actions))
  {
    if actions != [] {
      RunKeepsPlans(svc, actions[..|actions| - 1]);
      StepKeepsPlans(svc, Run(svc, actions[..|actions| - 1]), actions[|actions| - 1]);
    }
  }

  /** If the version check lets an append through, the stream is still what the client read. */
  lemma AcceptedMeansUnchanged<S, E, C>(svc: Config<S, E, C>, seen: seq<E>, now: State<E>, cmd: C)
    requires Decide(svc, seen, cmd).Write?
    requires seen <= Payloads(now, StreamOf(svc, cmd))
    ensures var plan := Decide(svc, seen, cmd);
            && plan.append.stream == StreamOf(svc, cmd)
            && (Accepts(now, plan.append.stream, plan.append.version) ==> seen == Payloads(now, plan.append.stream))
  {
    DecideMeans(svc, seen, cmd);
    var plan := Decide(svc, seen, cmd);
    AppendSucceedsExactly(now, plan.append.stream, plan.append.version, []);
  }

  lemma StepMatchesSerial<S, E, C>(svc: Config<S, E, C>, x: System<S, E, C>, action: Action<E, C>)
    requires PlansStem(svc, x)
    ensures var x', effect := Step(svc, x, action), EffectOf(svc, x, action);
            var y := SerialSystem(x.store, x.completed);
            SerialSystem(x'.store, x'.completed) == if effect == [] then y else SerialStep(svc, y, effect[0])
  {
    match action
    case Begin(client, cmd) =>
    case Finish(client) =>
      if client in x.clients {
        var f := x.clients[client];
        AcceptedMeansUnchanged(svc, f.seen, x.store, f.cmd);
      }
    case Foreign(name, expected, payloads) =>
  }

  /**
   Every interleaved run has a serial one: handling the commands whole, each at the moment it
   took effect, leaves the same store and gives the same replies.
   */
  lemma {:induction false} Serialisable<S, E, C>(svc: Config<S, E, C>, actions: seq<Action<E, C>>)
    ensures var x := Run(svc, actions);
            SerialRun(svc, SerialOrder(svc, actions)) == SerialSystem(x.store, x.completed)
  {
    if actions != [] {
      var rest, action := actions[..|actions| - 1], actions[|actions| - 1];
      Serialisable(svc, rest);
      RunKeepsPlans(svc, rest);
      StepMatchesSerial(svc, Run(svc, rest), action);
      var before, effect := SerialOrder(svc, rest), EffectOf(svc, Run(svc, rest), action);
      if effect == [] {
        assert before + effect == before;
      } else {
        assert (before + effect)[..|before + effect| - 1] == before;
      }
    }
  }

  /**
   Where a reply places its batch in the final stream: the handler ran on the fold of exactly
   the events in front of it, and the reply's state is the fold up to its end.
   */
  ghost predicate Placed<S, E, C>(svc: Config<S, E, C>, s: State<E>, done: Completion<S, E, C>) {
    done.reply.Ok? && done.reply.value.changes != [] ==>
      var stream, r := Payloads(s, StreamOf(svc, done.cmd)), done.reply.value;
      var end := r.streamVersion + 1;
      var start := end - |r.changes|;
      && svc.handlers(done.cmd).Some?
      && 0 <= start <= end <= |stream|
      && stream[start..end] == r.changes
      && svc.handlers(done.cmd).value.act(Fold(svc.fold, svc.zero, stream[..start]), done.cmd) == Ok(r.changes)
      && r.state == Fold(svc.fold, svc.zero, stream[..end])
  }

  lemma PlacedStays<S, E, C>(svc: Config<S, E, C>, s: State<E>, name: StreamName, expected: int, payloads: seq<E>,
                             done: Completion<S, E, C>)
    requires Placed(svc, s, done)
    ensures Placed(svc, Append(s, name, expected, payloads).0, done)
  {
    var s' := Append(s, name, expected, payloads).0;
    AppendOnlyGrows(s, name, expected, payloads, StreamOf(svc, done.cmd));
    if done.reply.Ok? && done.reply.value.changes != [] {
      var before, after := Payloads(s, StreamOf(svc, done.cmd)), Payloads(s', StreamOf(svc, done.cmd));
      var end := done.reply.value.streamVersion + 1;
      var start := end - |done.reply.value.changes|;
      assert before[..end] == after[..end] && before[..start] == after[..start];
      assert before[start..end] == after[start..end];
    }
  }

  lemma SplitAtEnd<T>(before: seq<T>, batch: seq<T>)
    ensures var after := before + batch;
            after[..|before|] == before && after[|before|..|after|] == batch && after[..|after|] == after
  {
  }

  lemma PlacedAtEnd<S, E, C>(svc: Config<S, E, C>, s: State<E>, before: seq<E>, cmd: C, r: Outcome<S, E>)
    requires svc.handlers(cmd).Some? && Payloads(s, StreamOf(svc, cmd)) == before + r.changes
    requires svc.handlers(cmd).value.act(Fold(svc.fold, svc.zero, before), cmd) == Ok(r.changes)
    requires r.state == Fold(svc.fold, svc.zero, before + r.changes)
    requires r.streamVersion == |before + r.changes| - 1
    ensures Placed(svc, s, Completion(cmd, Ok(r)))
  {
    SplitAtEnd(before, r.changes);
  }

  lemma HandledIsPlaced<S, E, C>(svc: Config<S, E, C>, s: State<E>, cmd: C)
    ensures Placed(svc, Handled(svc, s, cmd).0, Completion(cmd, Handled(svc, s, cmd).1))
  {
    var (s', reply) := Handled(svc, s, cmd);
    if reply.Ok? && reply.value.changes != [] {
      HandledOnWholeStream(svc, s, cmd);
      PlacedAtEnd(svc, s', Payloads(s, StreamOf(svc, cmd)), cmd, reply.value);
    }
  }

  lemma {:induction false} SerialRepliesPlaced<S, E, C>(svc: Config<S, E, C>, steps: seq<Serial<E, C>>, i: nat)
    requires i < |SerialRun(svc, steps).completed|
    ensures Placed(svc, SerialRun(svc, steps).store, SerialRun(svc, steps).completed[i])
  {
    if steps != [] {
      var rest, step := steps[..|steps| - 1], steps[|steps| - 1];
      var x := SerialRun(svc, rest);
      if i < |x.completed| {
        SerialRepliesPlaced(svc, rest, i);
      }
      match step
      case Whole(cmd) =>
        HandledIsPlaced(svc, x.store, cmd);
        var plan := Decide(svc, Payloads(x.store, StreamOf(svc, cmd)), cmd);
        if plan.Write? && i < |x.completed| {
          PlacedStays(svc, x.store, plan.append.stream, plan.append.version, plan.append.events, x.completed[i]);
        }
      case Outside(name, expected, payloads) =>
        PlacedStays(svc, x.store, name, expected, payloads, x.completed[i]);
    }
  }

  /** No lost update: this holds of every reply of every interleaved run. */
  lemma EveryReplyPlaced<S, E, C>(svc: Config<S, E, C>, actions: seq<Action<E, C>>, i: nat)
    requires i < |Run(svc, actions).completed|
    ensures Placed(svc, Run(svc, actions).store, Run(svc, actions).completed[i])
  {
    Serialisable(svc, actions);
    SerialRepliesPlaced(svc, SerialOrder(svc, actions), i);
  }

  /**
   No command is refused without need: a client's append is refused exactly when its stream has
   been written to since it was read, or was too long to be read whole; the reply says so.
   */
  lemma RefusedExactlyWhenOvertaken<S, E, C>(svc: Config<S, E, C>, actions: seq<Action<E, C>>, client: nat)
    requires client in Run(svc, actions).clients
    ensures var x := Run(svc, actions);
            var f, x' := x.clients[client], Step(svc, x, Finish(client));
            && x'.clients == x.clients - {client}
            && if Payloads(x.store, StreamOf(svc, f.cmd)) == f.seen && |f.seen| <= MAX_INT32
               then x'.rejected == x.rejected && |x'.completed| == |x.completed| + 1
               else
                 && x'.store == x.store && x'.completed == x.completed
                 && x'.rejected == x.rejected + [Completion(f.cmd, Err(OptimisticConcurrency))]
  {
    RunKeepsPlans(svc, actions);
    var x := Run(svc, actions);
    var f := x.clients[client];
    DecideMeans(svc, f.seen, f.cmd);
    AppendSucceedsExactly(x.store, f.append.stream, f.append.version, f.append.events);
    assert f.seen <= Payloads(x.store, f.append.stream);
    if |Window(f.seen)| == |Payloads(x.store, f.append.stream)| {
      assert f.seen == Payloads(x.store, f.append.stream);
    }
  }

  // ---------------------------------------------------------------------------------------
  // Why the store must be append-only
  // ---------------------------------------------------------------------------------------

  /** Whatever was done to the store in between, the check compares lengths and nothing else. */
  lemma StaleAppendAcceptedExactly<S, E, C>(svc: Config<S, E, C>, seen: seq<E>, now: State<E>, cmd: C)
    requires Decide(svc, seen, cmd).Write?
    ensures var plan := Decide(svc, seen, cmd);
            Append(now, plan.append.stream, plan.append.version, plan.append.events).1.Ok? <==>
              |Window(seen)| == |Payloads(now, plan.append.stream)|
  {
    DecideMeans(svc, seen, cmd);
    var plan := Decide(svc, seen, cmd);
    AppendSucceedsExactly(now, plan.append.stream, plan.append.version, plan.append.events);
  }

  /** So a stream deleted and written anew to the same length passes for the one that was read. */
  lemma DeleteAndRecreateGoesUnseen<S, E, C>(svc: Config<S, E, C>, s: State<E>, cmd: C, others: seq<E>)
    requires Decide(svc, Payloads(s, StreamOf(svc, cmd)), cmd).Write?
    requires |others| == |Payloads(s, StreamOf(svc, cmd))| <= MAX_INT32
    ensures var plan := Decide(svc, Payloads(s, StreamOf(svc, cmd)), cmd);
            var deleted := Delete(s, plan.append.stream, VERSION_ANY).0;
            var now := Append(deleted, plan.append.stream, VERSION_NO_STREAM, others).0;
            && Payloads(now, plan.append.stream) == others
            && Append(now, plan.append.stream, plan.append.version, plan.append.events).1.Ok?
  {
    var seen := Payloads(s, StreamOf(svc, cmd));
    DecideMeans(svc, seen, cmd);
    var plan := Decide(svc, seen, cmd);
    var deleted := Delete(s, plan.append.stream, VERSION_ANY).0;
    AppendSucceedsExactly(deleted, plan.append.stream, VERSION_NO_STREAM, others);
    assert [] + others == others;
    StaleAppendAcceptedExactly(svc, seen, Append(deleted, plan.append.stream, VERSION_NO_STREAM, others).0, cmd);
  }
}
