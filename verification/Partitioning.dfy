/**
 The partitioning middleware as a step protocol: events are distributed by key over workers,
 each with a bounded queue; callers wait for the reply to their own event or give up.
 */
module Partitioning {
  import opened Wrappers

  const CAPACITY: nat := 64

  datatype Answer = FromHandler(failed: bool) | GaveUp

  datatype Caller = Sending | Waiting | Returned(answer: Answer)

  /** An event with its caller, the one-place buffer for its reply, and what its handler returned. */
  datatype Item = Item(key: string, caller: Caller, reply: Option<bool>, result: Option<bool>)

  datatype Worker = Idle | Handling(item: nat) | Replying(item: nat, failed: bool)

  datatype Partition = Partition(queue: seq<nat>, worker: Worker)

  /** `accepted` and `started` record the order of sends and of handler calls. */
  datatype State = State(items: seq<Item>, parts: seq<Partition>, open: bool, accepted: seq<nat>, started: seq<nat>)

  /** The hash is some function of the key; `count` is the number of partitions. */
  datatype Config = Config(count: nat, hash: string -> nat)

  datatype Action =
    | Arrive(key: string)
    | Send(i: nat)
    | GiveUpSending(i: nat)
    | TakeWork(p: nat)
    | HandlerReturns(p: nat, failed: bool)
    | SendReply(p: nat)
    | TakeReply(i: nat)
    | GiveUpWaiting(i: nat)
    | Shutdown

  function PartitionOf(cfg: Config, key: string): (p: nat)
    requires cfg.count > 0
    ensures p < cfg.count
  {
    cfg.hash(key) % cfg.count
  }

  /** After shutdown nothing is sent any more; what was accepted is still worked off. */
  predicate Enabled(cfg: Config, s: State, a: Action)
    requires cfg.count > 0
  {
    match a
    case Arrive(_) => true
    case Send(i) =>
      && i < |s.items| && s.items[i].caller.Sending? && s.open
      && var p := PartitionOf(cfg, s.items[i].key);
         p < |s.parts| && |s.parts[p].queue| < CAPACITY
    case GiveUpSending(i) => i < |s.items| && s.items[i].caller.Sending?
    case TakeWork(p) => p < |s.parts| && s.parts[p].worker.Idle? && s.parts[p].queue != []
    case HandlerReturns(p, _) => p < |s.parts| && s.parts[p].worker.Handling? && s.parts[p].worker.item < |s.items|
    case SendReply(p) =>
      && p < |s.parts| && s.parts[p].worker.Replying?
      && s.parts[p].worker.item < |s.items| && s.items[s.parts[p].worker.item].reply.None?
    case TakeReply(i) => i < |s.items| && s.items[i].caller.Waiting? && s.items[i].reply.Some?
    case GiveUpWaiting(i) => i < |s.items| && s.items[i].caller.Waiting?
    case Shutdown => true
  }

  function Step(cfg: Config, s: State, a: Action): State
    requires cfg.count > 0
  {
    if !Enabled(cfg, s, a) then s
    else match a
      case Arrive(key) => s.(items := s.items + [Item(key, Sending, None, None)])
      case Send(i) =>
        var p := PartitionOf(cfg, s.items[i].key);
        s.(items := s.items[i := s.items[i].(caller := Waiting)],
        parts := s.parts[p := s.parts[p].(queue := s.parts[p].queue + [i])],
        accepted := s.accepted + [i])
      case GiveUpSending(i) => s.(items := s.items[i := s.items[i].(caller := Returned(GaveUp))])
      case TakeWork(p) =>
        var q := s.parts[p].queue;
        s.(parts := s.parts[p := Partition(q[1..], Handling(q[0]))], started := s.started + [q[0]])
      case HandlerReturns(p, failed) =>
        var i := s.parts[p].worker.item;
        s.(parts := s.parts[p := s.parts[p].(worker := Replying(i, failed))],
        items := s.items[i := s.items[i].(result := Some(failed))])
      case SendReply(p) =>
        var w := s.parts[p].worker;
        s.(parts := s.parts[p := s.parts[p].(worker := Idle)],
        items := s.items[w.item := s.items[w.item].(reply := Some(w.failed))])
      case TakeReply(i) =>
        s.(items := s.items[i := s.items[i].(caller := Returned(FromHandler(s.items[i].reply.value)), reply := None)])
      case GiveUpWaiting(i) => s.(items := s.items[i := s.items[i].(caller := Returned(GaveUp))])
      case Shutdown => s.(open := false)
  }

  function Run(cfg: Config, actions: seq<Action>): State
    requires cfg.count > 0
  {
    if actions == [] then State([], seq(cfg.count, _ => Partition([], Idle)), true, [], [])
    else Step(cfg, Run(cfg, actions[..|actions| - 1]), actions[|actions| - 1])
  }

  // ---------------------------------------------------------------------------------------
  // Order
  // ---------------------------------------------------------------------------------------

  /** The part of a record of items that belongs to one partition. */
  function OfPartition(cfg: Config, items: seq<Item>, record: seq<nat>, p: nat): seq<nat>
    requires cfg.count > 0
  {
    if record == [] then []
    else
      var last := record[|record| - 1];
      OfPartition(cfg, items, record[..|record| - 1], p)
      + if last < |items| && PartitionOf(cfg, items[last].key) == p then [last] else []
  }

  /** The part of a record of items that carries one key. */
  function OfKey(items: seq<Item>, record: seq<nat>, key: string): seq<nat> {
    if record == [] then []
    else
      var last := record[|record| - 1];
      OfKey(items, record[..|record| - 1], key) + if last < |items| && items[last].key == key then [last] else []
  }

  /** Whether a reply has been sent for an item. */
  predicate Answered(item: Item) {
    item.reply.Some? || (item.caller.Returned? && item.caller.answer.FromHandler?)
  }

  ghost predicate NoRepeats(xs: seq<nat>) {
    forall i, j :: 0 <= i < j < |xs| ==> xs[i] != xs[j]
  }

  /** Everything a partition accepted has been started, in the order accepted, or is queued. */
  ghost predicate InOrder(cfg: Config, s: State, p: nat)
    requires cfg.count > 0 && p < |s.parts|
  {
    OfPartition(cfg, s.items, s.accepted, p) == OfPartition(cfg, s.items, s.started, p) + s.parts[p].queue
  }

  /** A busy worker's item is one of its partition that was started and not yet answered. */
  ghost predicate WorkerInv(cfg: Config, s: State, p: nat)
    requires cfg.count > 0 && p < |s.parts|
  {
    var w := s.parts[p].worker;
    !w.Idle? ==>
      && w.item in s.started && w.item < |s.items|
      && PartitionOf(cfg, s.items[w.item].key) == p && !Answered(s.items[w.item])
  }

  /** Only accepted items are started, and only started items are answered. */
  ghost predicate ItemInv(s: State) {
    && (forall i :: i in s.accepted ==> i < |s.items| && !s.items[i].caller.Sending?)
    && (forall i :: i in s.started ==> i in s.accepted)
    && (forall i :: 0 <= i < |s.items| && Answered(s.items[i]) ==> i in s.started)
  }

  ghost predicate Inv(cfg: Config, s: State)
    requires cfg.count > 0
  {
    && |s.parts| == cfg.count
    && NoRepeats(s.accepted) && NoRepeats(s.started)
    && ItemInv(s)
    && (forall p :: 0 <= p < |s.parts| ==> InOrder(cfg, s, p))
    && (forall p :: 0 <= p < |s.parts| ==> WorkerInv(cfg, s, p))
  }

  lemma {:induction false} OfPartitionMembers(cfg: Config, items: seq<Item>, record: seq<nat>, p: nat, i: nat)
    requires cfg.count > 0
    ensures i in OfPartition(cfg, items, record, p) <==>
              i in record && i < |items| && PartitionOf(cfg, items[i].key) == p
  {
    if record != [] {
      var rest := record[..|record| - 1];
      OfPartitionMembers(cfg, items, rest, p, i);
      assert record == rest + [record[|record| - 1]];
    }
  }

  lemma {:induction false} OfPartitionNoRepeats(cfg: Config, items: seq<Item>, record: seq<nat>, p: nat)
    requires cfg.count > 0 && NoRepeats(record)
    ensures NoRepeats(OfPartition(cfg, items, record, p))
  {
    if record != [] {
      var rest, last := record[..|record| - 1], record[|record| - 1];
      OfPartitionNoRepeats(cfg, items, rest, p);
      OfPartitionMembers(cfg, items, rest, p, last);
    }
  }

  /** Records of partitions depend on the items' keys only. */
  lemma {:induction false} OfPartitionStable(cfg: Config, items: seq<Item>, items': seq<Item>, record: seq<nat>, p: nat)
    requires cfg.count > 0
    requires forall i :: i in record ==> i < |items| && i < |items'| && items[i].key == items'[i].key
    ensures OfPartition(cfg, items', record, p) == OfPartition(cfg, items, record, p)
  {
    if record != [] {
      var rest := record[..|record| - 1];
      assert record[|record| - 1] in record && forall i :: i in rest ==> i in record;
      OfPartitionStable(cfg, items, items', rest, p);
    }
  }

  lemma OfPartitionLast(cfg: Config, items: seq<Item>, record: seq<nat>, p: nat, last: nat)
    requires cfg.count > 0 && last < |items|
    ensures OfPartition(cfg, items, record + [last], p)
         == OfPartition(cfg, items, record, p) + if PartitionOf(cfg, items[last].key) == p then [last] else []
  {
    assert (record + [last])[..|record + [last]| - 1] == record;
  }

  /** Steps that touch neither records nor queues, and only answer items that were started. */
  lemma QuietStepKeepsInv(cfg: Config, s: State, s': State)
    requires cfg.count > 0 && Inv(cfg, s)
    requires |s.items| <= |s'.items| && s'.accepted == s.accepted && s'.started == s.started
    requires forall i :: 0 <= i < |s.items| ==>
               s'.items[i].key == s.items[i].key
               && (s'.items[i].caller.Sending? ==> s.items[i].caller.Sending?)
               && (Answered(s'.items[i]) ==> i in s.started)
    requires forall i :: |s.items| <= i < |s'.items| ==> !Answered(s'.items[i])
    requires |s'.parts| == |s.parts|
    requires forall p :: 0 <= p < |s.parts| ==> s'.parts[p].queue == s.parts[p].queue && WorkerInv(cfg, s', p)
    ensures Inv(cfg, s')
  {
    forall p | 0 <= p < |s.parts| ensures InOrder(cfg, s', p) {
      assert InOrder(cfg, s, p);
      OfPartitionStable(cfg, s.items, s'.items, s.accepted, p);
      OfPartitionStable(cfg, s.items, s'.items, s.started, p);
    }
  }

  lemma SendKeepsInv(cfg: Config, s: State, i: nat)
    requires cfg.count > 0 && Inv(cfg, s) && Enabled(cfg, s, Send(i))
    ensures Inv(cfg, Step(cfg, s, Send(i)))
  {
    var s' := Step(cfg, s, Send(i));
    assert i !in s.accepted;
    forall p | 0 <= p < |s.parts| ensures InOrder(cfg, s', p) && WorkerInv(cfg, s', p) {
      assert InOrder(cfg, s, p) && WorkerInv(cfg, s, p);
      OfPartitionStable(cfg, s.items, s'.items, s.accepted, p);
      OfPartitionStable(cfg, s.items, s'.items, s.started, p);
      OfPartitionLast(cfg, s'.items, s.accepted, p, i);
    }
  }

  lemma NoRepeatsApart(first: seq<nat>, second: seq<nat>, x: nat)
    requires NoRepeats(first + second) && x in second
    ensures x !in first
  {
    var all := first + second;
    var j :| 0 <= j < |second| && second[j] == x;
    assert forall i :: 0 <= i < |first| ==> all[i] != all[|first| + j];
    assert forall i :: 0 <= i < |first| ==> all[i] == first[i];
  }

  /** The item at the front of a queue was accepted by that partition and has not been started. */
  lemma FrontIsFresh(cfg: Config, s: State, p: nat)
    requires cfg.count > 0 && Inv(cfg, s) && p < |s.parts| && s.parts[p].queue != []
    ensures var i := s.parts[p].queue[0];
            i in s.accepted && i < |s.items| && PartitionOf(cfg, s.items[i].key) == p && i !in s.started
  {
    var i := s.parts[p].queue[0];
    var accepted, started := OfPartition(cfg, s.items, s.accepted, p), OfPartition(cfg, s.items, s.started, p);
    assert InOrder(cfg, s, p);
    assert accepted[|started|] == i;
    OfPartitionMembers(cfg, s.items, s.accepted, p, i);
    OfPartitionMembers(cfg, s.items, s.started, p, i);
    OfPartitionNoRepeats(cfg, s.items, s.accepted, p);
    NoRepeatsApart(started, s.parts[p].queue, i);
  }

  lemma TakeWorkKeepsOrder(cfg: Config, s: State, p: nat, q: nat)
    requires cfg.count > 0 && Inv(cfg, s) && Enabled(cfg, s, TakeWork(p)) && q < |s.parts|
    ensures InOrder(cfg, Step(cfg, s, TakeWork(p)), q)
  {
    var s', i, queue := Step(cfg, s, TakeWork(p)), s.parts[p].queue[0], s.parts[p].queue;
    var started := OfPartition(cfg, s.items, s.started, q);
    FrontIsFresh(cfg, s, p);
    assert InOrder(cfg, s, q);
    OfPartitionLast(cfg, s.items, s.started, q, i);
    assert s'.items == s.items && s'.accepted == s.accepted && s'.started == s.started + [i];
    if q == p {
      assert started + [i] + queue[1..] == started + queue;
    } else {
      assert started + [] == started && s'.parts[q] == s.parts[q];
    }
  }

  lemma TakeWorkKeepsInv(cfg: Config, s: State, p: nat)
    requires cfg.count > 0 && Inv(cfg, s) && Enabled(cfg, s, TakeWork(p))
    ensures Inv(cfg, Step(cfg, s, TakeWork(p)))
  {
    var s', i := Step(cfg, s, TakeWork(p)), s.parts[p].queue[0];
    FrontIsFresh(cfg, s, p);
    forall q | 0 <= q < |s.parts| ensures InOrder(cfg, s', q) {
      TakeWorkKeepsOrder(cfg, s, p, q);
    }
    forall q | 0 <= q < |s.parts| ensures WorkerInv(cfg, s', q) {
      assert WorkerInv(cfg, s, q);
    }
  }

  lemma StepKeepsInv(cfg: Config, s: State, a: Action)
    requires cfg.count > 0 && Inv(cfg, s)
    ensures Inv(cfg, Step(cfg, s, a))
  {
    if Enabled(cfg, s, a) {
      if a.Send? {
        SendKeepsInv(cfg, s, a.i);
      } else if a.TakeWork? {
        TakeWorkKeepsInv(cfg, s, a.p);
      } else {
        forall p | 0 <= p < |s.parts| ensures WorkerInv(cfg, Step(cfg, s, a), p) {
          assert WorkerInv(cfg, s, p);
          assert a.SendReply? ==> WorkerInv(cfg, s, a.p);
        }
        var s' := Step(cfg, s, a);
        forall i | 0 <= i < |s.items| ensures Answered(s'.items[i]) ==> i in s.started {
          assert Answered(s.items[i]) ==> i in s.started;
          assert a.SendReply? ==> WorkerInv(cfg, s, a.p);
        }
        QuietStepKeepsInv(cfg, s, s');
      }
    }
  }

  lemma {:induction false} RunKeepsInv(cfg: Config, actions: seq<Action>)
    requires cfg.count > 0
    ensures Inv(cfg, Run(cfg, actions))
  {
    if actions != [] {
      RunKeepsInv(cfg, actions[..|actions| - 1]);
      StepKeepsInv(cfg, Run(cfg, actions[..|actions| - 1]), actions[|actions| - 1]);
    }
  }

  /** What is in a buffer, or was taken from one, is the result of the item's own handler call. */
  ghost predicate ReplyIsResult(item: Item) {
    && (item.reply.Some? ==> item.result == item.reply)
    && (item.caller.Returned? && item.caller.answer.FromHandler? ==> item.result == Some(item.caller.answer.failed))
  }

  ghost predicate WorkerHasResult(s: State, p: nat)
    requires p < |s.parts|
  {
    var w := s.parts[p].worker;
    w.Replying? ==> w.item < |s.items| && s.items[w.item].result == Some(w.failed)
  }

  ghost predicate RepliesAreResults(s: State) {
    && (forall i :: 0 <= i < |s.items| ==> ReplyIsResult(s.items[i]))
    && (forall p :: 0 <= p < |s.parts| ==> WorkerHasResult(s, p))
  }

  lemma StepKeepsReplies(cfg: Config, s: State, a: Action)
    requires cfg.count > 0 && Inv(cfg, s) && RepliesAreResults(s)
    ensures RepliesAreResults(Step(cfg, s, a))
  {
    var s' := Step(cfg, s, a);
    if Enabled(cfg, s, a) {
      forall i | 0 <= i < |s'.items| ensures ReplyIsResult(s'.items[i]) {
        assert i < |s.items| ==> ReplyIsResult(s.items[i]);
        assert a.HandlerReturns? || a.SendReply? ==> WorkerInv(cfg, s, a.p) && WorkerHasResult(s, a.p);
      }
      forall p | 0 <= p < |s'.parts| ensures WorkerHasResult(s', p) {
        assert WorkerHasResult(s, p) && WorkerInv(cfg, s, p);
        assert a.HandlerReturns? ==> WorkerInv(cfg, s, a.p);
      }
    }
  }

  lemma {:induction false} RunKeepsReplies(cfg: Config, actions: seq<Action>)
    requires cfg.count > 0
    ensures RepliesAreResults(Run(cfg, actions))
  {
    if actions != [] {
      RunKeepsInv(cfg, actions[..|actions| - 1]);
      RunKeepsReplies(cfg, actions[..|actions| - 1]);
      StepKeepsReplies(cfg, Run(cfg, actions[..|actions| - 1]), actions[|actions| - 1]);
    }
  }

  // ---------------------------------------------------------------------------------------
  // Done, in flight, queued
  // ---------------------------------------------------------------------------------------

  predicate EndsWith<T(==)>(xs: seq<T>, x: T) {
    xs != [] && xs[|xs| - 1] == x
  }

  /** Of some calls in order all have returned, except that the last may be running in the handler. */
  ghost predicate DoneThenRunning(items: seq<Item>, calls: seq<nat>, worker: Worker) {
    forall k :: 0 <= k < |calls| ==>
      && calls[k] < |items|
      && (items[calls[k]].result.None? <==> worker == Handling(calls[k]))
      && (worker == Handling(calls[k]) ==> k == |calls| - 1)
  }

  /** What a partition's worker runs is its last call, and all calls before have returned. */
  ghost predicate CallsInv(cfg: Config, s: State, p: nat)
    requires cfg.count > 0 && p < |s.parts|
  {
    var calls, w := OfPartition(cfg, s.items, s.started, p), s.parts[p].worker;
    && DoneThenRunning(s.items, calls, w)
    && (w.Handling? ==> EndsWith(calls, w.item))
  }

  /** Only what was started has a result. */
  ghost predicate ResultsInv(cfg: Config, s: State)
    requires cfg.count > 0 && |s.parts| == cfg.count
  {
    && (forall i :: 0 <= i < |s.items| && s.items[i].result.Some? ==> i in s.started)
    && (forall p :: 0 <= p < |s.parts| ==> CallsInv(cfg, s, p))
  }

  /** A call that is started runs; it is the last, and those before it have returned. */
  lemma NextCallRuns(items: seq<Item>, calls: seq<nat>, worker: Worker, i: nat)
    requires i < |items| && items[i].result.None? && i !in calls
    requires DoneThenRunning(items, calls, worker) && !worker.Handling?
    ensures DoneThenRunning(items, calls + [i], Handling(i))
  {
  }

  lemma TakeWorkKeepsCalls(cfg: Config, s: State, p: nat, q: nat)
    requires cfg.count > 0 && Inv(cfg, s) && ResultsInv(cfg, s) && Enabled(cfg, s, TakeWork(p)) && q < |s.parts|
    ensures CallsInv(cfg, Step(cfg, s, TakeWork(p)), q)
  {
    var i, calls := s.parts[p].queue[0], OfPartition(cfg, s.items, s.started, q);
    FrontIsFresh(cfg, s, p);
    OfPartitionLast(cfg, s.items, s.started, q, i);
    OfPartitionMembers(cfg, s.items, s.started, q, i);
    assert CallsInv(cfg, s, q);
    if q == p {
      NextCallRuns(s.items, calls, s.parts[p].worker, i);
    } else {
      assert calls + [] == calls;
    }
  }

  /** Steps that start nothing, return nothing and leave the worker running what it runs. */
  lemma QuietStepKeepsCalls(cfg: Config, s: State, s': State, q: nat)
    requires cfg.count > 0 && q < |s.parts| == |s'.parts| && CallsInv(cfg, s, q)
    requires s'.started == s.started
    requires forall i :: i in s.started ==>
               i < |s.items| <= |s'.items| && s'.items[i].key == s.items[i].key
               && s'.items[i].result == s.items[i].result
    requires s'.parts[q].worker == s.parts[q].worker
             || (!s'.parts[q].worker.Handling? && !s.parts[q].worker.Handling?)
    ensures CallsInv(cfg, s', q)
  {
    var calls := OfPartition(cfg, s.items, s.started, q);
    OfPartitionStable(cfg, s.items, s'.items, s.started, q);
    forall k | 0 <= k < |calls| ensures calls[k] in s.started {
      OfPartitionMembers(cfg, s.items, s.started, q, calls[k]);
    }
  }

  lemma LastCallReturns(items: seq<Item>, calls: seq<nat>, i: nat, failed: bool)
    requires i < |items| && DoneThenRunning(items, calls, Handling(i))
    ensures DoneThenRunning(items[i := items[i].(result := Some(failed))], calls, Replying(i, failed))
  {
  }

  lemma OtherCallReturns(items: seq<Item>, calls: seq<nat>, worker: Worker, i: nat, failed: bool)
    requires i < |items| && i !in calls && DoneThenRunning(items, calls, worker)
    ensures DoneThenRunning(items[i := items[i].(result := Some(failed))], calls, worker)
  {
  }

  /** A handler's return completes the last call of its partition, and none of another. */
  lemma ReturnKeepsCalls(cfg: Config, s: State, p: nat, failed: bool, q: nat)
    requires cfg.count > 0 && Enabled(cfg, s, HandlerReturns(p, failed)) && q < |s.parts|
    requires CallsInv(cfg, s, q) && WorkerInv(cfg, s, p) && forall i :: i in s.started ==> i < |s.items|
    ensures CallsInv(cfg, Step(cfg, s, HandlerReturns(p, failed)), q)
  {
    var s', i := Step(cfg, s, HandlerReturns(p, failed)), s.parts[p].worker.item;
    var calls := OfPartition(cfg, s.items, s.started, q);
    OfPartitionStable(cfg, s.items, s'.items, s.started, q);
    if q == p {
      LastCallReturns(s.items, calls, i, failed);
    } else {
      OfPartitionMembers(cfg, s.items, s.started, q, i);
      OtherCallReturns(s.items, calls, s.parts[q].worker, i, failed);
    }
  }

  lemma StepKeepsResults(cfg: Config, s: State, a: Action)
    requires cfg.count > 0 && Inv(cfg, s) && ResultsInv(cfg, s)
    ensures |Step(cfg, s, a).parts| == cfg.count && ResultsInv(cfg, Step(cfg, s, a))
  {
    var s' := Step(cfg, s, a);
    if Enabled(cfg, s, a) {
      forall q | 0 <= q < |s'.parts| ensures CallsInv(cfg, s', q) {
        assert CallsInv(cfg, s, q);
        if a.TakeWork? {
          TakeWorkKeepsCalls(cfg, s, a.p, q);
        } else if a.HandlerReturns? {
          assert WorkerInv(cfg, s, a.p);
          ReturnKeepsCalls(cfg, s, a.p, a.failed, q);
        } else {
          QuietStepKeepsCalls(cfg, s, s', q);
        }
      }
      assert a.HandlerReturns? ==> WorkerInv(cfg, s, a.p);
    }
  }

  lemma {:induction false} RunKeepsResults(cfg: Config, actions: seq<Action>)
    requires cfg.count > 0
    ensures |Run(cfg, actions).parts| == cfg.count && ResultsInv(cfg, Run(cfg, actions))
  {
    if actions != [] {
      RunKeepsInv(cfg, actions[..|actions| - 1]);
      RunKeepsResults(cfg, actions[..|actions| - 1]);
      StepKeepsResults(cfg, Run(cfg, actions[..|actions| - 1]), actions[|actions| - 1]);
    }
  }

  // ---------------------------------------------------------------------------------------
  // What the middleware promises
  // ---------------------------------------------------------------------------------------

  lemma OfKeyLast(items: seq<Item>, record: seq<nat>, last: nat, key: string)
    ensures OfKey(items, record + [last], key) == OfKey(items, record, key) + OfKey(items, [last], key)
  {
    assert (record + [last])[..|record + [last]| - 1] == record;
    assert OfKey(items, [], key) == [];
  }

  lemma Associative<T>(xs: seq<T>, ys: seq<T>, zs: seq<T>)
    ensures xs + ys + zs == xs + (ys + zs)
  {
  }

  lemma {:induction false} OfKeyConcat(items: seq<Item>, first: seq<nat>, second: seq<nat>, key: string)
    ensures OfKey(items, first + second, key) == OfKey(items, first, key) + OfKey(items, second, key)
    decreases |second|
  {
    if second == [] {
      assert first + second == first;
    } else {
      var rest, x := second[..|second| - 1], second[|second| - 1];
      OfKeyConcat(items, first, rest, key);
      OfKeyLast(items, first + rest, x, key);
      OfKeyLast(items, rest, x, key);
      Associative(first, rest, [x]);
      Associative(OfKey(items, first, key), OfKey(items, rest, key), OfKey(items, [x], key));
      assert rest + [x] == second;
    }
  }

  /** A key's items all go through the key's partition. */
  lemma {:induction false} OfKeyWithinPartition(cfg: Config, items: seq<Item>, record: seq<nat>, key: string)
    requires cfg.count > 0
    ensures OfKey(items, OfPartition(cfg, items, record, PartitionOf(cfg, key)), key) == OfKey(items, record, key)
  {
    if record != [] {
      var rest, last := record[..|record| - 1], record[|record| - 1];
      OfKeyWithinPartition(cfg, items, rest, key);
      var part := OfPartition(cfg, items, rest, PartitionOf(cfg, key));
      OfKeyConcat(items, part, [last], key);
      assert part + [] == part;
      assert OfKey(items, [last], key) == if last < |items| && items[last].key == key then [last] else [];
    }
  }

  lemma {:induction false} OfKeyMembers(items: seq<Item>, record: seq<nat>, key: string, i: nat)
    ensures i in OfKey(items, record, key) <==> i in record && i < |items| && items[i].key == key
  {
    if record != [] {
      var rest := record[..|record| - 1];
      OfKeyMembers(items, rest, key, i);
      assert record == rest + [record[|record| - 1]];
    }
  }

  /** Of a key's calls too all have returned, except that the last may be running. */
  lemma KeyDoneThenRunning(items: seq<Item>, calls: seq<nat>, worker: Worker, key: string)
    requires DoneThenRunning(items, calls, worker)
    ensures DoneThenRunning(items, OfKey(items, calls, key), worker)
    ensures calls != [] && calls[|calls| - 1] < |items| && items[calls[|calls| - 1]].key == key ==>
              EndsWith(OfKey(items, calls, key), calls[|calls| - 1])
  {
    if calls != [] {
      var rest := calls[..|calls| - 1];
      var ofKey := OfKey(items, rest, key);
      forall k | 0 <= k < |ofKey|
        ensures ofKey[k] < |items| && items[ofKey[k]].result.Some? && worker != Handling(ofKey[k])
      {
        OfKeyMembers(items, rest, key, ofKey[k]);
        var j :| 0 <= j < |rest| && rest[j] == ofKey[k];
        assert calls[j] == ofKey[k];
      }
    }
  }

  /** A key's accepted events are those started, in order, and then those in the queue, in order. */
  ghost predicate KeyInOrder(s: State, p: nat, key: string)
    requires p < |s.parts|
  {
    OfKey(s.items, s.accepted, key) == OfKey(s.items, s.started, key) + OfKey(s.items, s.parts[p].queue, key)
  }

  /** Those started have returned, but for the last if the worker is running it. */
  ghost predicate KeyRunning(s: State, p: nat, key: string)
    requires p < |s.parts|
  {
    var calls, w := OfKey(s.items, s.started, key), s.parts[p].worker;
    && DoneThenRunning(s.items, calls, w)
    && (w.Handling? && w.item < |s.items| && s.items[w.item].key == key ==> EndsWith(calls, w.item))
  }

  lemma KeyFollowsPartition(cfg: Config, s: State, p: nat, key: string)
    requires cfg.count > 0 && p == PartitionOf(cfg, key) && p < |s.parts|
    ensures InOrder(cfg, s, p) ==> KeyInOrder(s, p, key)
    ensures CallsInv(cfg, s, p) ==> KeyRunning(s, p, key)
  {
    var calls := OfPartition(cfg, s.items, s.started, p);
    OfKeyWithinPartition(cfg, s.items, s.accepted, key);
    OfKeyWithinPartition(cfg, s.items, s.started, key);
    OfKeyConcat(s.items, calls, s.parts[p].queue, key);
    if CallsInv(cfg, s, p) {
      KeyDoneThenRunning(s.items, calls, s.parts[p].worker, key);
    }
  }

  /**
   In every reachable state a key's accepted events are, in the order accepted and each once:
   those whose handler call has returned, at most one whose call is running, and those waiting
   in the queue of the key's partition. Whether callers still wait plays no part.
   */
  lemma PerKeyOrder(cfg: Config, actions: seq<Action>, key: string)
    requires cfg.count > 0
    ensures var s, p := Run(cfg, actions), PartitionOf(cfg, key);
            && |s.parts| == cfg.count && NoRepeats(s.accepted) && NoRepeats(s.started)
            && KeyInOrder(s, p, key) && KeyRunning(s, p, key)
  {
    RunKeepsInv(cfg, actions);
    RunKeepsResults(cfg, actions);
    var s, p := Run(cfg, actions), PartitionOf(cfg, key);
    assert InOrder(cfg, s, p) && CallsInv(cfg, s, p);
    KeyFollowsPartition(cfg, s, p, key);
  }

  /** No event is handled twice, and nothing but what was started has returned. */
  lemma HandledAtMostOnce(cfg: Config, actions: seq<Action>)
    requires cfg.count > 0
    ensures var s := Run(cfg, actions);
            && NoRepeats(s.started)
            && (forall i :: 0 <= i < |s.items| && s.items[i].result.Some? ==> i in s.started)
            && (forall i :: i in s.started ==> i in s.accepted)
  {
    RunKeepsInv(cfg, actions);
    RunKeepsResults(cfg, actions);
  }

  /** No two events with the same key are in the inner handler together. */
  lemma OneAtATimePerKey(cfg: Config, actions: seq<Action>, p: nat, q: nat)
    requires cfg.count > 0
    requires var s := Run(cfg, actions);
             p < |s.parts| && q < |s.parts| && s.parts[p].worker.Handling? && s.parts[q].worker.Handling?
    ensures var s := Run(cfg, actions);
            var i, j := s.parts[p].worker.item, s.parts[q].worker.item;
            && i < |s.items| && j < |s.items|
            && (s.items[i].key == s.items[j].key ==> p == q && i == j)
  {
    RunKeepsInv(cfg, actions);
    var s := Run(cfg, actions);
    assert WorkerInv(cfg, s, p) && WorkerInv(cfg, s, q);
  }

  /** A caller that got an answer got its own event's, after the event was handled. */
  lemma AnswersAreOwn(cfg: Config, actions: seq<Action>, i: nat)
    requires cfg.count > 0
    requires var s := Run(cfg, actions);
             i < |s.items| && s.items[i].caller.Returned? && s.items[i].caller.answer.FromHandler?
    ensures var s := Run(cfg, actions);
            i in s.started && s.items[i].result == Some(s.items[i].caller.answer.failed)
  {
    RunKeepsInv(cfg, actions);
    RunKeepsReplies(cfg, actions);
    assert Answered(Run(cfg, actions).items[i]);
  }

  /** A partition with work left can always go on: in particular its worker never blocks on a reply. */
  lemma WorkersNeverBlock(cfg: Config, actions: seq<Action>, p: nat, failed: bool)
    requires cfg.count > 0
    requires var s := Run(cfg, actions); p < |s.parts| && (s.parts[p].queue != [] || !s.parts[p].worker.Idle?)
    ensures var s := Run(cfg, actions);
            Enabled(cfg, s, match s.parts[p].worker
                            case Idle => TakeWork(p)
                            case Handling(_) => HandlerReturns(p, failed)
                            case Replying(_, _) => SendReply(p))
  {
    RunKeepsInv(cfg, actions);
    assert WorkerInv(cfg, Run(cfg, actions), p);
  }

  // ---------------------------------------------------------------------------------------
  // Replies
  // ---------------------------------------------------------------------------------------

  /** A result whose caller waits is in the buffer, or about to be put there by its worker. */
  ghost predicate ReplyUnderWay(cfg: Config, s: State, i: nat)
    requires cfg.count > 0 && |s.parts| == cfg.count && i < |s.items|
  {
    s.items[i].caller.Waiting? && s.items[i].result.Some? ==>
      || s.items[i].reply == s.items[i].result
      || s.parts[PartitionOf(cfg, s.items[i].key)].worker == Replying(i, s.items[i].result.value)
  }

  ghost predicate RepliesUnderWay(cfg: Config, s: State)
    requires cfg.count > 0 && |s.parts| == cfg.count
  {
    forall i :: 0 <= i < |s.items| ==> ReplyUnderWay(cfg, s, i)
  }

  lemma StepKeepsUnderWay(cfg: Config, s: State, a: Action, i: nat)
    requires cfg.count > 0 && Inv(cfg, s) && ResultsInv(cfg, s) && RepliesAreResults(s) && RepliesUnderWay(cfg, s)
    requires i < |Step(cfg, s, a).items| && |Step(cfg, s, a).parts| == cfg.count
    ensures ReplyUnderWay(cfg, Step(cfg, s, a), i)
  {
    if i < |s.items| && Enabled(cfg, s, a) {
      assert ReplyUnderWay(cfg, s, i);
      var p := PartitionOf(cfg, s.items[i].key);
      assert WorkerInv(cfg, s, p) && WorkerHasResult(s, p);
      assert a.HandlerReturns? || a.SendReply? ==> WorkerInv(cfg, s, a.p) && WorkerHasResult(s, a.p);
    }
  }

  lemma {:induction false} RunKeepsUnderWay(cfg: Config, actions: seq<Action>)
    requires cfg.count > 0
    ensures |Run(cfg, actions).parts| == cfg.count && RepliesUnderWay(cfg, Run(cfg, actions))
  {
    RunKeepsInv(cfg, actions);
    if actions != [] {
      var rest, a := actions[..|actions| - 1], actions[|actions| - 1];
      RunKeepsInv(cfg, rest);
      RunKeepsResults(cfg, rest);
      RunKeepsReplies(cfg, rest);
      RunKeepsUnderWay(cfg, rest);
      forall i | 0 <= i < |Run(cfg, actions).items| ensures ReplyUnderWay(cfg, Run(cfg, actions), i) {
        StepKeepsUnderWay(cfg, Run(cfg, rest), a, i);
      }
    }
  }

  /**
   A caller still waiting when its handler has returned is answered with the result: it can take
   the reply, if need be once its worker, which nothing keeps from it, has sent it.
   */
  lemma RepliesReachCallers(cfg: Config, actions: seq<Action>, i: nat)
    requires cfg.count > 0
    requires var s := Run(cfg, actions);
             i < |s.items| && s.items[i].caller.Waiting? && s.items[i].result.Some?
    ensures var s, p := Run(cfg, actions), PartitionOf(cfg, Run(cfg, actions).items[i].key);
            var sent := if s.items[i].reply.Some? then s else Step(cfg, s, SendReply(p));
            && (s.items[i].reply.None? ==> Enabled(cfg, s, SendReply(p)))
            && Enabled(cfg, sent, TakeReply(i))
            && Step(cfg, sent, TakeReply(i)).items[i].caller == Returned(FromHandler(s.items[i].result.value))
  {
    RunKeepsInv(cfg, actions);
    RunKeepsReplies(cfg, actions);
    RunKeepsUnderWay(cfg, actions);
    var s := Run(cfg, actions);
    assert ReplyUnderWay(cfg, s, i) && ReplyIsResult(s.items[i]);
    assert WorkerInv(cfg, s, PartitionOf(cfg, s.items[i].key));
  }

  /** At some moment of the run the handler returned with this for the item its worker was handling. */
  ghost predicate ReturnedAt(cfg: Config, actions: seq<Action>, k: nat, p: nat, i: nat, failed: bool)
    requires cfg.count > 0 && k < |actions|
  {
    && actions[k] == HandlerReturns(p, failed)
    && p < |Run(cfg, actions[..k]).parts|
    && Run(cfg, actions[..k]).parts[p].worker == Handling(i)
  }

  /** A result is one that the handler returned with for that item. */
  lemma {:induction false} ResultsAreReturned(cfg: Config, actions: seq<Action>, i: nat) returns (k: nat, p: nat)
    requires cfg.count > 0 && i < |Run(cfg, actions).items| && Run(cfg, actions).items[i].result.Some?
    ensures k < |actions| && ReturnedAt(cfg, actions, k, p, i, Run(cfg, actions).items[i].result.value)
  {
    var rest, last := actions[..|actions| - 1], actions[|actions| - 1];
    var before, after := Run(cfg, rest), Run(cfg, actions);
    if i < |before.items| && before.items[i].result == after.items[i].result {
      k, p := ResultsAreReturned(cfg, rest, i);
      assert actions[..k] == rest[..k];
    } else {
      k, p := |rest|, last.p;
    }
  }

  // ---------------------------------------------------------------------------------------
  // Sending, leaving, and partitions side by side
  // ---------------------------------------------------------------------------------------

  /** A key's partition is the remainder of its hash. */
  lemma PartitionIsRemainder(cfg: Config, key: string)
    requires cfg.count > 0
    ensures cfg.hash(key) == cfg.hash(key) / cfg.count * cfg.count + PartitionOf(cfg, key)
  {
  }

  lemma {:induction false} QueuesBounded(cfg: Config, actions: seq<Action>, p: nat)
    requires cfg.count > 0
    ensures |Run(cfg, actions).parts| == cfg.count
    ensures p < cfg.count ==> |Run(cfg, actions).parts[p].queue| <= 64
  {
    if actions != [] {
      QueuesBounded(cfg, actions[..|actions| - 1], p);
    }
  }

  /** A caller is kept from sending exactly while 64 events of its partition are queued, or after shutdown. */
  lemma BlockedOnlyWhenFull(cfg: Config, actions: seq<Action>, i: nat)
    requires cfg.count > 0
    requires var s := Run(cfg, actions); i < |s.items| && s.items[i].caller.Sending?
    ensures var s := Run(cfg, actions);
            var p := cfg.hash(s.items[i].key) % cfg.count;
            && |s.parts| == cfg.count
            && (!Enabled(cfg, s, Send(i)) <==> |s.parts[p].queue| == 64 || !s.open)
  {
    QueuesBounded(cfg, actions, PartitionOf(cfg, Run(cfg, actions).items[i].key));
  }

  /** A caller can give up at any time; what it has sent stays sent. */
  lemma CallersCanLeave(cfg: Config, s: State, i: nat)
    requires cfg.count > 0 && i < |s.items| && !s.items[i].caller.Returned?
    ensures var leave := if s.items[i].caller.Sending? then GiveUpSending(i) else GiveUpWaiting(i);
            && Enabled(cfg, s, leave)
            && Step(cfg, s, leave) == s.(items := s.items[i := s.items[i].(caller := Returned(GaveUp))])
  {
  }

  /** The middleware is open until it is shut down, and then for good. */
  lemma {:induction false} OpenUntilShutdown(cfg: Config, actions: seq<Action>)
    requires cfg.count > 0
    ensures Run(cfg, actions).open <==> Shutdown !in actions
  {
    if actions != [] {
      var rest, last := actions[..|actions| - 1], actions[|actions| - 1];
      OpenUntilShutdown(cfg, rest);
      assert actions == rest + [last];
    }
  }

  function Begun(cfg: Config, a: string, b: string): State
    requires cfg.count > 0
  {
    var s := Run(cfg, []);
    Step(cfg, Step(cfg, Step(cfg, Step(cfg, s, Arrive(a)), Arrive(b)), Send(0)), Send(1))
  }

  /** Events whose keys have hashes with different remainders are handled side by side. */
  lemma PartitionsRunTogether(cfg: Config, a: string, b: string)
    requires cfg.count > 0 && cfg.hash(a) % cfg.count != cfg.hash(b) % cfg.count
    ensures var s := Begun(cfg, a, b);
            var p, q := cfg.hash(a) % cfg.count, cfg.hash(b) % cfg.count;
            var r := Step(cfg, Step(cfg, s, TakeWork(p)), TakeWork(q));
            && p < |r.parts| && q < |r.parts|
            && r.parts[p].worker == Handling(0) && r.parts[q].worker == Handling(1)
            && r.items[0].key == a && r.items[1].key == b
  {
  }
}
