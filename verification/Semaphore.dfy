/**
 The bounded-concurrency middleware as a step protocol. Each call takes a slot, starts a worker
 that runs the handler, sends its result into a one-place buffer and gives the slot back; the
 caller meanwhile waits for the result or gives up.
 */
module Semaphore {
  import opened Wrappers

  datatype Answer = FromHandler(failed: bool) | GaveUp

  datatype Caller = Acquiring | Waiting | Returned(answer: Answer)

  datatype Worker = NotStarted | Handling | Replying(failed: bool) | Replied(failed: bool) | Released(failed: bool)

  /** `reply` is the buffer between worker and caller. */
  datatype Call = Call(caller: Caller, worker: Worker, reply: Option<bool>)

  /** `slots` is how many places of the semaphore channel are taken. */
  datatype State = State(slots: nat, calls: seq<Call>)

  datatype Action =
    | Arrive
    | Acquire(i: nat)
    | GiveUpAcquiring(i: nat)
    | HandlerReturns(i: nat, failed: bool)
    | SendReply(i: nat)
    | Release(i: nat)
    | TakeReply(i: nat)
    | GiveUpWaiting(i: nat)

  predicate Enabled(limit: nat, s: State, a: Action) {
    a.Arrive? ||
    (a.i < |s.calls| &&
     var c := s.calls[a.i];
     match a
     case Acquire(_) => c.caller.Acquiring? && s.slots < limit
     case GiveUpAcquiring(_) => c.caller.Acquiring?
     case HandlerReturns(_, _) => c.worker.Handling?
     case SendReply(_) => c.worker.Replying? && c.reply.None?
     case Release(_) => c.worker.Replied? && s.slots > 0
     case TakeReply(_) => c.caller.Waiting? && c.reply.Some?
     case GiveUpWaiting(_) => c.caller.Waiting?)
  }

  /** An action that is not enabled blocks, which leaves the state as it is. */
  function Step(limit: nat, s: State, a: Action): State {
    if !Enabled(limit, s, a) then s
    else if a.Arrive? then s.(calls := s.calls + [Call(Acquiring, NotStarted, None)])
    else
      var c := s.calls[a.i];
      match a
      case Acquire(i) => State(s.slots + 1, s.calls[i := c.(caller := Waiting, worker := Handling)])
      case GiveUpAcquiring(i) => s.(calls := s.calls[i := c.(caller := Returned(GaveUp))])
      case HandlerReturns(i, failed) => s.(calls := s.calls[i := c.(worker := Replying(failed))])
      case SendReply(i) =>
        s.(calls := s.calls[i := c.(worker := Replied(c.worker.failed), reply := Some(c.worker.failed))])
      case Release(i) => State(s.slots - 1, s.calls[i := c.(worker := Released(c.worker.failed))])
      case TakeReply(i) => s.(calls := s.calls[i := c.(caller := Returned(FromHandler(c.reply.value)), reply := None)])
      case GiveUpWaiting(i) => s.(calls := s.calls[i := c.(caller := Returned(GaveUp))])
  }

  function Run(limit: nat, actions: seq<Action>): State {
    if actions == [] then State(0, [])
    else Step(limit, Run(limit, actions[..|actions| - 1]), actions[|actions| - 1])
  }

  predicate HoldsSlot(c: Call) {
    c.worker.Handling? || c.worker.Replying? || c.worker.Replied?
  }

  /** The calls whose worker has a slot and has not released it. */
  function Holders(calls: seq<Call>): set<nat> {
    set i: nat | i < |calls| && HoldsSlot(calls[i])
  }

  /** The calls whose handler is running. */
  function InHandler(calls: seq<Call>): set<nat> {
    set i: nat | i < |calls| && calls[i].worker.Handling?
  }

  predicate HasReplied(w: Worker) {
    w.Replied? || w.Released?
  }

  /** The buffer is empty until the one send, then full until the caller takes what its handler returned. */
  ghost predicate CallInv(c: Call) {
    && (c.caller.Acquiring? ==> c.worker.NotStarted?)
    && (c.caller.Waiting? ==> !c.worker.NotStarted?)
    && (c.reply.Some? ==> HasReplied(c.worker) && c.reply.value == c.worker.failed)
    && (c.caller.Waiting? && HasReplied(c.worker) ==> c.reply.Some?)
    && (c.caller.Returned? && c.caller.answer.FromHandler? ==>
          HasReplied(c.worker) && c.caller.answer.failed == c.worker.failed)
  }

  ghost predicate Inv(limit: nat, s: State) {
    && s.slots == |Holders(s.calls)| <= limit
    && forall i :: 0 <= i < |s.calls| ==> CallInv(s.calls[i])
  }

  /** Changing one call changes the holders by at most that call. */
  lemma HoldersAfter(calls: seq<Call>, i: nat, c: Call)
    requires i < |calls|
    ensures |Holders(calls[i := c])| ==
              |Holders(calls)| + (if HoldsSlot(c) then 1 else 0) - (if HoldsSlot(calls[i]) then 1 else 0)
  {
    assert i in Holders(calls) <==> HoldsSlot(calls[i]);
    if HoldsSlot(c) {
      assert Holders(calls[i := c]) == Holders(calls) + {i};
    } else {
      assert Holders(calls[i := c]) == Holders(calls) - {i};
    }
  }

  lemma StepKeepsCallInv(limit: nat, s: State, a: Action, i: nat)
    requires Inv(limit, s) && i < |Step(limit, s, a).calls|
    ensures CallInv(Step(limit, s, a).calls[i])
  {
    assert i < |s.calls| ==> CallInv(s.calls[i]);
  }

  lemma StepKeepsInv(limit: nat, s: State, a: Action)
    requires Inv(limit, s)
    ensures Inv(limit, Step(limit, s, a))
  {
    var s' := Step(limit, s, a);
    forall i | 0 <= i < |s'.calls| ensures CallInv(s'.calls[i]) {
      StepKeepsCallInv(limit, s, a, i);
    }
    if Enabled(limit, s, a) {
      if a.Arrive? {
        assert Holders(s'.calls) == Holders(s.calls);
      } else {
        HoldersAfter(s.calls, a.i, s'.calls[a.i]);
        assert s'.calls == s.calls[a.i := s'.calls[a.i]];
        assert CallInv(s.calls[a.i]);
      }
    }
  }

  lemma {:induction false} RunKeepsInv(limit: nat, actions: seq<Action>)
    ensures Inv(limit, Run(limit, actions))
  {
    if actions == [] {
      assert Holders([]) == {};
    } else {
      RunKeepsInv(limit, actions[..|actions| - 1]);
      StepKeepsInv(limit, Run(limit, actions[..|actions| - 1]), actions[|actions| - 1]);
    }
  }

  lemma SubsetSize(small: set<nat>, large: set<nat>)
    requires small <= large
    ensures |small| <= |large|
  {
    assert large == small + (large - small);
  }

  /**
   In every reachable state the slots taken are those of workers that have not released, so at
   most `limit` handlers run, whichever callers have already returned; and a caller that was
   given a result was given its own handler's.
   */
  lemma ConcurrencyBound(limit: nat, actions: seq<Action>)
    ensures var s := Run(limit, actions);
            && s.slots == |Holders(s.calls)|
            && |InHandler(s.calls)| <= s.slots <= limit
            && forall i ::
                 0 <= i < |s.calls| && s.calls[i].caller.Returned? && s.calls[i].caller.answer.FromHandler? ==>
                 HasReplied(s.calls[i].worker) && s.calls[i].worker.failed == s.calls[i].caller.answer.failed
  {
    RunKeepsInv(limit, actions);
    var s := Run(limit, actions);
    SubsetSize(InHandler(s.calls), Holders(s.calls));
    forall i | 0 <= i < |s.calls| ensures CallInv(s.calls[i]) {
    }
  }

  /**
   A worker whose handler has returned can always send its reply and give its slot back, even
   when nobody is waiting for the reply any more.
   */
  lemma SlotsAreReleased(limit: nat, actions: seq<Action>, i: nat)
    requires var s := Run(limit, actions); i < |s.calls| && HoldsSlot(s.calls[i]) && !s.calls[i].worker.Handling?
    ensures var s := Run(limit, actions);
            var sent := if s.calls[i].worker.Replying? then Step(limit, s, SendReply(i)) else s;
            && (s.calls[i].worker.Replying? ==> Enabled(limit, s, SendReply(i)))
            && Enabled(limit, sent, Release(i))
            && Step(limit, sent, Release(i)).slots == s.slots - 1
            && Step(limit, sent, Release(i)).calls[i].worker.Released?
  {
    RunKeepsInv(limit, actions);
    var s := Run(limit, actions);
    assert CallInv(s.calls[i]);
    assert i in Holders(s.calls);
  }

  /** A caller is kept from starting only while `limit` workers hold slots. */
  lemma BlockedOnlyWhenFull(limit: nat, actions: seq<Action>, i: nat)
    requires var s := Run(limit, actions); i < |s.calls| && s.calls[i].caller.Acquiring?
    ensures var s := Run(limit, actions); !Enabled(limit, s, Acquire(i)) <==> |Holders(s.calls)| == limit
  {
    RunKeepsInv(limit, actions);
  }

  /** A caller still waiting when its worker has replied can take the reply, and is answered with it. */
  lemma RepliesReachCallers(limit: nat, actions: seq<Action>, i: nat)
    requires var s := Run(limit, actions);
             i < |s.calls| && s.calls[i].caller.Waiting? && HasReplied(s.calls[i].worker)
    ensures var s := Run(limit, actions);
            && Enabled(limit, s, TakeReply(i))
            && Step(limit, s, TakeReply(i)).calls[i].caller == Returned(FromHandler(s.calls[i].worker.failed))
  {
    RunKeepsInv(limit, actions);
    assert CallInv(Run(limit, actions).calls[i]);
  }

  /** A worker's result is one that the handler of its call returned with, in this run. */
  lemma {:induction false} ResultsAreReturned(limit: nat, actions: seq<Action>, i: nat)
    requires i < |Run(limit, actions).calls|
    ensures var w := Run(limit, actions).calls[i].worker;
            w.Replying? || HasReplied(w) ==> HandlerReturns(i, w.failed) in actions
  {
    if actions != [] {
      var rest, last := actions[..|actions| - 1], actions[|actions| - 1];
      assert last in actions && forall a :: a in rest ==> a in actions;
      if i < |Run(limit, rest).calls| {
        ResultsAreReturned(limit, rest, i);
      }
    }
  }

  /** So a caller is answered with what its own handler returned with, and only after it did. */
  lemma AnswersAreOwn(limit: nat, actions: seq<Action>, i: nat)
    requires var s := Run(limit, actions);
             i < |s.calls| && s.calls[i].caller.Returned? && s.calls[i].caller.answer.FromHandler?
    ensures HandlerReturns(i, Run(limit, actions).calls[i].caller.answer.failed) in actions
  {
    RunKeepsInv(limit, actions);
    assert CallInv(Run(limit, actions).calls[i]);
    ResultsAreReturned(limit, actions, i);
  }

  function Steps(limit: nat, s: State, actions: seq<Action>): State
    decreases |actions|
  {
    if actions == [] then s else Steps(limit, Step(limit, s, actions[0]), actions[1..])
  }

  lemma StepsTwo(limit: nat, s: State, first: Action, second: Action)
    ensures Steps(limit, s, [first]) == Step(limit, s, first)
    ensures Steps(limit, s, [first, second]) == Step(limit, Step(limit, s, first), second)
  {
    assert [first, second][1..] == [second] && [first][1..] == [];
    assert Steps(limit, Step(limit, s, first), [second]) == Step(limit, Step(limit, s, first), second) by {
      assert [second][1..] == [];
    }
  }

  /**
   A call that finds a slot and is left undisturbed runs its handler, is answered with its result
   and leaves everything else as it was. Its reply and its release may come in either order.
   */
  lemma UndisturbedCall(limit: nat, actions: seq<Action>, i: nat, failed: bool)
    requires var s := Run(limit, actions);
             i < |s.calls| && s.calls[i].caller.Acquiring? && |Holders(s.calls)| < limit
    ensures var s := Run(limit, actions);
            var running := Steps(limit, s, [Acquire(i)]);
            var r := Steps(limit, running, [HandlerReturns(i, failed), SendReply(i)]);
            var after := State(s.slots, s.calls[i := Call(Returned(FromHandler(failed)), Released(failed), None)]);
            && |running.calls| == |s.calls| && running.calls[i].worker.Handling?
            && Steps(limit, r, [TakeReply(i), Release(i)]) == after
            && Steps(limit, r, [Release(i), TakeReply(i)]) == after
  {
    RunKeepsInv(limit, actions);
    var s := Run(limit, actions);
    assert CallInv(s.calls[i]);
    var running := Step(limit, s, Acquire(i));
    StepsTwo(limit, s, Acquire(i), Acquire(i));
    StepsTwo(limit, running, HandlerReturns(i, failed), SendReply(i));
    var r := Step(limit, Step(limit, running, HandlerReturns(i, failed)), SendReply(i));
    StepsTwo(limit, r, TakeReply(i), Release(i));
    StepsTwo(limit, r, Release(i), TakeReply(i));
  }

  /** A caller can give up at any time; that frees and takes no slot, and stops no handler. */
  lemma CallersCanLeave(limit: nat, s: State, i: nat)
    requires i < |s.calls| && !s.calls[i].caller.Returned?
    ensures var leave := if s.calls[i].caller.Acquiring? then GiveUpAcquiring(i) else GiveUpWaiting(i);
            && Enabled(limit, s, leave)
            && Step(limit, s, leave) == s.(calls := s.calls[i := s.calls[i].(caller := Returned(GaveUp))])
  {
  }
}
