/**
 The catch-up subscription: resume after the stored checkpoint, hand every event that is not a
 system event to the handler, and store its position. A run ends with a dropped subscription, a
 handler error, a store error, or the process dying; the next run starts from the checkpoint.
 */
module CatchUp {
  import opened Wrappers

  /** An event of the source; `position` is what a checkpoint on it would hold. */
  datatype Recorded = Recorded(position: nat, eventType: string)

  predicate IsSystem(e: Recorded) {
    e.eventType != "" && e.eventType[0] == '$'
  }

  /** The source is an append-only log whose positions increase. */
  ghost predicate IsLog(log: seq<Recorded>) {
    forall i, j :: 0 <= i < j < |log| ==> log[i].position < log[j].position
  }

  /** A subscription from a position starts after it; the result is the index of its first event. */
  function Resume(log: seq<Recorded>, checkpoint: Option<nat>): (i: nat)
    ensures i <= |log|
  {
    if checkpoint.None? || log == [] || checkpoint.value < log[0].position then 0
    else 1 + Resume(log[1..], checkpoint)
  }

  /**
   A call of the handler with the sequence number of the event in its run, whether it succeeded,
   and whether the checkpoint store accepts the position, if there is a store and it is asked.
   */
  datatype Call = Call(event: Recorded, sequence: nat, ok: bool, stored: bool)

  /** One receive: something that is no event, the end of the subscription, or the next event. */
  datatype Received = Notice | Dropped | Appeared(handled: bool, stored: bool)

  datatype Action = Start(loaded: bool) | Receive(message: Received) | Crash

  /** `delivered` lists the events of all successful handler calls since the beginning. */
  datatype State = State(
    running: bool,
    cursor: nat,
    sequence: nat,
    calls: seq<Call>,          // the handler calls of the current or last run
    resumed: nat,              // how many non-system events lay before where that run started
    checkpoint: Option<nat>,
    delivered: seq<Recorded>)

  const INITIAL := State(false, 0, 0, [], 0, None, [])

  /** What happens to the event under the cursor. */
  function Deliver(log: seq<Recorded>, hasStore: bool, s: State, handled: bool, stored: bool): State
    requires s.cursor < |log|
  {
    var e := log[s.cursor];
    if IsSystem(e) then s.(cursor := s.cursor + 1)
    else
      var called := s.(cursor := s.cursor + 1, sequence := s.sequence + 1,
      calls := s.calls + [Call(e, s.sequence + 1, handled, stored)]);
      if !handled then called.(running := false)
      else if !hasStore then called.(delivered := s.delivered + [e])
      else if !stored then called.(running := false, delivered := s.delivered + [e])
      else called.(checkpoint := Some(e.position), delivered := s.delivered + [e])
  }

  /** An event can only be received while there is one; at the end of the log the run waits. */
  function Step(log: seq<Recorded>, hasStore: bool, s: State, action: Action): State {
    match action
    case Start(loaded) =>
      if s.running || !loaded then s
      else
        var cursor := Resume(log, if hasStore then s.checkpoint else None);
        s.(running := true, cursor := cursor, sequence := 0, calls := [], resumed := |NonSystem(log[..cursor])|)
    case Receive(message) =>
      if !s.running then s
      else (match message
            case Notice => s
            case Dropped => s.(running := false)
            case Appeared(handled, stored) =>
              if s.cursor < |log| then Deliver(log, hasStore, s, handled, stored) else s)
    case Crash => s.(running := false)
  }

  function Run(log: seq<Recorded>, hasStore: bool, actions: seq<Action>): State {
    if actions == [] then INITIAL
    else Step(log, hasStore, Run(log, hasStore, actions[..|actions| - 1]), actions[|actions| - 1])
  }

  function NonSystem(log: seq<Recorded>): seq<Recorded> {
    if log == [] then []
    else NonSystem(log[..|log| - 1]) + if IsSystem(log[|log| - 1]) then [] else [log[|log| - 1]]
  }

  /** Adjacent repeats removed. */
  function Collapse(events: seq<Recorded>): seq<Recorded> {
    if events == [] then []
    else
      var rest, last := events[..|events| - 1], events[|events| - 1];
      if rest != [] && rest[|rest| - 1] == last then Collapse(rest) else Collapse(rest) + [last]
  }

  /** The checkpoint that covers the first n of the non-system events. */
  function CheckpointAt(events: seq<Recorded>, n: nat): Option<nat>
    requires n <= |events|
  {
    if n == 0 then None else Some(events[n - 1].position)
  }

  // ---------------------------------------------------------------------------------------
  // The code
  // ---------------------------------------------------------------------------------------

  class CatchUpSubscription {
    const log: seq<Recorded>
    const hasStore: bool               // whether a checkpoint store is configured
    var checkpoint: Option<nat>        // what it holds
    ghost var delivered: seq<Recorded>
    ghost var calls: seq<Call>

    constructor (log: seq<Recorded>, hasStore: bool)
      ensures this.log == log && this.hasStore == hasStore && checkpoint == None && delivered == []
    {
      this.log := log;
      this.hasStore := hasStore;
      checkpoint := None;
      delivered, calls := [], [];
    }

    /**
     One run: `loaded` tells whether the checkpoint could be read and the subscription opened,
     and `script` what is received, up to where the run ends or the process dies.
     */
    method Start(loaded: bool, script: seq<Received>)
      modifies this
      ensures var before := State(false, 0, 0, old(calls), 0, old(checkpoint), old(delivered));
              var after := Script(log, hasStore, Step(log, hasStore, before, Action.Start(loaded)), script);
              checkpoint == after.checkpoint && delivered == after.delivered && calls == after.calls
    {
      if !loaded {
        ScriptStopped(log, hasStore, State(false, 0, 0, calls, 0, checkpoint, delivered), script);
        return;
      }
      var cursor := ResumeIndex(if hasStore then checkpoint else None);
      var sequence := 0;
      calls := [];
      ghost var first := State(true, cursor, 0, [], |NonSystem(log[..cursor])|, checkpoint, delivered);
      ghost var resumed := first.resumed;
      var next := 0;
      while next < |script|
        invariant next <= |script|
        invariant Script(log, hasStore, first, script) ==
                  Script(log, hasStore,
                         State(true, cursor, sequence, calls, resumed, checkpoint, delivered), script[next..])
      {
        ghost var s := State(true, cursor, sequence, calls, resumed, checkpoint, delivered);
        var message := script[next];
        next := next + 1;
        assert script[next - 1..][1..] == script[next..];
        if message.Dropped? {
          ScriptStopped(log, hasStore, s.(running := false), script[next..]);
          return;
        }
        if message.Notice? || cursor >= |log| {
          continue;
        }
        var event := log[cursor];
        cursor := cursor + 1;
        if IsSystem(event) {
          continue;
        }
        sequence := sequence + 1;
        calls := calls + [Call(event, sequence, message.handled, message.stored)];
        if !message.handled {
          ScriptStopped(log, hasStore, Deliver(log, hasStore, s, false, message.stored), script[next..]);
          return;
        }
        delivered := delivered + [event];
        if !hasStore {
          continue;
        }
        if !message.stored {
          ScriptStopped(log, hasStore, Deliver(log, hasStore, s, true, false), script[next..]);
          return;
        }
        checkpoint := Some(event.position);
      }
    }

    /** The source's side of resuming: the first event beyond the checkpoint. */
    method ResumeIndex(from: Option<nat>) returns (cursor: nat)
      ensures cursor == Resume(log, from)
    {
      cursor := 0;
      if from.None? {
        return;
      }
      while cursor < |log| && log[cursor].position <= from.value
        invariant cursor <= |log|
        invariant Resume(log, from) == cursor + Resume(log[cursor..], from)
      {
        assert log[cursor..][1..] == log[cursor + 1..];
        cursor := cursor + 1;
      }
    }
  }

  /** A run fed with a script of received messages. */
  function Script(log: seq<Recorded>, hasStore: bool, s: State, script: seq<Received>): State
    decreases |script|
  {
    if script == [] then s else Script(log, hasStore, Step(log, hasStore, s, Receive(script[0])), script[1..])
  }

  lemma {:induction false} ScriptStopped(log: seq<Recorded>, hasStore: bool, s: State, script: seq<Received>)
    requires !s.running
    ensures Script(log, hasStore, s, script) == s
  {
    if script != [] {
      ScriptStopped(log, hasStore, s, script[1..]);
    }
  }

  function Receives(script: seq<Received>): seq<Action> {
    seq(|script|, i requires 0 <= i < |script| => Receive(script[i]))
  }

  /** A run of the code is a start followed by its receives. */
  lemma {:induction false} ScriptIsRun(log: seq<Recorded>, hasStore: bool, actions: seq<Action>, script: seq<Received>)
    ensures Script(log, hasStore, Run(log, hasStore, actions), script) ==
              Run(log, hasStore, actions + Receives(script))
    decreases |script|
  {
    if script == [] {
      assert actions + Receives(script) == actions;
    } else {
      var first := actions + [Receive(script[0])];
      assert first[..|first| - 1] == actions;
      ScriptIsRun(log, hasStore, first, script[1..]);
      assert actions + Receives(script) == first + Receives(script[1..]);
    }
  }

  // ---------------------------------------------------------------------------------------
  // What every history keeps
  // ---------------------------------------------------------------------------------------

  lemma NonSystemNext(log: seq<Recorded>, k: nat)
    requires k < |log|
    ensures NonSystem(log[..k + 1]) == NonSystem(log[..k]) + if IsSystem(log[k]) then [] else [log[k]]
  {
    var upTo := log[..k + 1];
    assert upTo[..|upTo| - 1] == log[..k];
  }

  lemma {:induction false} NonSystemSplit(log: seq<Recorded>, k: nat)
    requires k <= |log|
    ensures NonSystem(log) == NonSystem(log[..k]) + NonSystem(log[k..])
  {
    if k == |log| {
      assert log[..k] == log && log[k..] == [];
    } else {
      var rest := log[..|log| - 1];
      NonSystemSplit(rest, k);
      assert rest[..k] == log[..k] && log[k..][..|log[k..]| - 1] == rest[k..];
    }
  }

  lemma {:induction false} NonSystemFrom(log: seq<Recorded>, e: Recorded)
    requires e in NonSystem(log)
    ensures e in log && !IsSystem(e)
  {
    if e in NonSystem(log[..|log| - 1]) {
      NonSystemFrom(log[..|log| - 1], e);
    }
  }

  lemma {:induction false} NonSystemOrdered(log: seq<Recorded>)
    requires IsLog(log)
    ensures IsLog(NonSystem(log))
  {
    if log != [] {
      var rest := log[..|log| - 1];
      NonSystemOrdered(rest);
      forall i | 0 <= i < |NonSystem(rest)| ensures NonSystem(rest)[i].position < log[|log| - 1].position {
        NonSystemFrom(rest, NonSystem(rest)[i]);
      }
    }
  }

  lemma NonSystemDistinct(log: seq<Recorded>, m: nat)
    requires IsLog(log) && 0 < m < |NonSystem(log)|
    ensures NonSystem(log)[m - 1] != NonSystem(log)[m]
  {
    NonSystemOrdered(log);
    assert NonSystem(log)[m - 1].position < NonSystem(log)[m].position;
  }

  lemma {:induction false} ResumeSplits(log: seq<Recorded>, checkpoint: nat)
    requires IsLog(log)
    ensures forall i :: 0 <= i < Resume(log, Some(checkpoint)) ==> log[i].position <= checkpoint
    ensures forall i :: Resume(log, Some(checkpoint)) <= i < |log| ==> log[i].position > checkpoint
  {
    if log != [] && log[0].position <= checkpoint {
      ResumeSplits(log[1..], checkpoint);
      var c := Resume(log[1..], Some(checkpoint));
      forall i | 0 <= i < |log|
        ensures if i < 1 + c then log[i].position <= checkpoint else log[i].position > checkpoint
      {
        assert i > 0 ==> log[i] == log[1..][i - 1];
      }
    }
  }

  /** Resuming after the nth non-system event skips exactly the first n of them. */
  lemma ResumeSkipsDelivered(log: seq<Recorded>, n: nat)
    requires IsLog(log) && n <= |NonSystem(log)|
    ensures |NonSystem(log[..Resume(log, CheckpointAt(NonSystem(log), n))])| == n
  {
    if n > 0 {
      var events := NonSystem(log);
      var c := Resume(log, CheckpointAt(events, n));
      var before, after := NonSystem(log[..c]), NonSystem(log[c..]);
      ResumeSplits(log, events[n - 1].position);
      NonSystemSplit(log, c);
      NonSystemOrdered(log);
      if |before| > n {
        assert events[n] == before[n] && events[n - 1].position < events[n].position;
        NonSystemFrom(log[..c], before[n]);
      } else if |before| < n {
        assert events[n - 1] == after[n - 1 - |before|];
        NonSystemFrom(log[c..], after[n - 1 - |before|]);
      }
    }
  }

  /** How many non-system events lie before the cursor. */
  function Passed(log: seq<Recorded>, cursor: nat): nat
    requires cursor <= |log|
  {
    |NonSystem(log[..cursor])|
  }

  lemma PassedNext(log: seq<Recorded>, cursor: nat)
    requires cursor < |log|
    ensures Passed(log, cursor) <= |NonSystem(log)|
    ensures if IsSystem(log[cursor]) then Passed(log, cursor + 1) == Passed(log, cursor)
            else
              && Passed(log, cursor + 1) == Passed(log, cursor) + 1 <= |NonSystem(log)|
              && NonSystem(log)[Passed(log, cursor)] == log[cursor]
  {
    NonSystemNext(log, cursor);
    NonSystemSplit(log, cursor + 1);
    NonSystemSplit(log, cursor);
  }

  /**
   Successful calls, adjacent repeats apart, are an initial part of the non-system events, and
   the checkpoint is at its last event or the one before, or absent where there is none.
   */
  ghost predicate Progress(events: seq<Recorded>, s: State) {
    var k := |Collapse(s.delivered)|;
    && Collapse(s.delivered) <= events
    && (s.checkpoint == CheckpointAt(events, k) || (k > 0 && s.checkpoint == CheckpointAt(events, k - 1)))
  }

  /** A run calls the handler for one event after the other, numbered from 1, from where it resumed. */
  ghost predicate CallsInOrder(events: seq<Recorded>, s: State) {
    && |s.calls| == s.sequence
    && s.resumed + |s.calls| <= |events|
    && forall i :: 0 <= i < |s.calls| ==>
         s.calls[i].sequence == i + 1 && s.calls[i].event == events[s.resumed + i]
  }

  /** The first m events have been delivered, and the checkpoint is on the last of them. */
  ghost predicate CaughtUpTo(events: seq<Recorded>, s: State, m: nat) {
    && m <= |events|
    && s.checkpoint == CheckpointAt(events, m)
    && s.resumed + |s.calls| == m
    && m <= |Collapse(s.delivered)| <= m + 1
  }

  ghost predicate Inv(log: seq<Recorded>, s: State) {
    && Progress(NonSystem(log), s)
    && CallsInOrder(NonSystem(log), s)
    && (s.running ==> s.cursor <= |log| && CaughtUpTo(NonSystem(log), s, Passed(log, s.cursor)))
  }

  lemma {:induction false} CollapseLast(events: seq<Recorded>)
    ensures events == [] <==> Collapse(events) == []
    ensures events != [] ==> Collapse(events)[|Collapse(events)| - 1] == events[|events| - 1]
  {
    if events != [] {
      CollapseLast(events[..|events| - 1]);
    }
  }

  lemma CollapseNext(events: seq<Recorded>, e: Recorded)
    ensures Collapse(events + [e]) ==
              if events != [] && events[|events| - 1] == e then Collapse(events) else Collapse(events) + [e]
  {
    assert (events + [e])[..|events + [e]| - 1] == events;
  }

  lemma PrefixNext<T>(xs: seq<T>, prefix: seq<T>, x: T)
    requires prefix <= xs && |prefix| < |xs| && x == xs[|prefix|]
    ensures prefix + [x] <= xs
  {
  }

  /** Delivering event m + 1 when the first m are done either repeats it or extends the progress. */
  lemma DeliveredNext(events: seq<Recorded>, delivered: seq<Recorded>, m: nat)
    requires m < |events| && (m > 0 ==> events[m - 1] != events[m])
    requires Collapse(delivered) <= events && m <= |Collapse(delivered)| <= m + 1
    ensures Collapse(delivered + [events[m]]) <= events
    ensures |Collapse(delivered + [events[m]])| == m + 1
  {
    var done := Collapse(delivered);
    CollapseNext(delivered, events[m]);
    CollapseLast(delivered);
    if done != [] {
      assert done[|done| - 1] == events[|done| - 1];
    }
    if |done| == m {
      PrefixNext(events, done, events[m]);
    }
  }

  lemma CallsNext(events: seq<Recorded>, s: State, e: Recorded, ok: bool, stored: bool)
    requires CallsInOrder(events, s)
    requires s.resumed + |s.calls| < |events| && e == events[s.resumed + |s.calls|]
    ensures CallsInOrder(events, s.(sequence := s.sequence + 1,
                                    calls := s.calls + [Call(e, s.sequence + 1, ok, stored)]))
  {
  }

  /** With event m + 1 delivered, the progress holds whether or not its checkpoint was stored. */
  lemma ProgressNext(events: seq<Recorded>, s: State, s': State, m: nat)
    requires m < |events| && (m > 0 ==> events[m - 1] != events[m])
    requires Progress(events, s) && CaughtUpTo(events, s, m)
    requires s'.delivered == s.delivered + [events[m]]
    requires s'.checkpoint == s.checkpoint || s'.checkpoint == Some(events[m].position)
    ensures Progress(events, s') && |Collapse(s'.delivered)| == m + 1
  {
    DeliveredNext(events, s.delivered, m);
  }

  /** A call that fails leaves deliveries and checkpoint as they were. */
  lemma FailedKeeps(events: seq<Recorded>, s: State, m: nat, stored: bool, log: seq<Recorded>)
    requires m < |events| && s.cursor < |log| && log[s.cursor] == events[m] && !IsSystem(events[m])
    requires Progress(events, s) && CallsInOrder(events, s) && CaughtUpTo(events, s, m)
    ensures var s' := Deliver(log, true, s, false, stored);
            Progress(events, s') && CallsInOrder(events, s') && !s'.running
  {
    CallsNext(events, s, events[m], false, stored);
  }

  lemma SucceededKeeps(events: seq<Recorded>, s: State, m: nat, stored: bool, log: seq<Recorded>)
    requires m < |events| && s.cursor < |log| && log[s.cursor] == events[m] && !IsSystem(events[m])
    requires m > 0 ==> events[m - 1] != events[m]
    requires Progress(events, s) && CallsInOrder(events, s) && CaughtUpTo(events, s, m)
    ensures var s' := Deliver(log, true, s, true, stored);
            Progress(events, s') && CallsInOrder(events, s') && (s'.running ==> CaughtUpTo(events, s', m + 1))
  {
    CallsNext(events, s, events[m], true, stored);
    ProgressNext(events, s, Deliver(log, true, s, true, stored), m);
  }

  lemma SkipKeeps(log: seq<Recorded>, s: State)
    requires s.running && s.cursor < |log| && Inv(log, s) && IsSystem(log[s.cursor])
    ensures Inv(log, s.(cursor := s.cursor + 1))
  {
    PassedNext(log, s.cursor);
  }

  lemma DeliverKeeps(log: seq<Recorded>, s: State, handled: bool, stored: bool)
    requires IsLog(log) && s.running && s.cursor < |log| && Inv(log, s)
    ensures Inv(log, Deliver(log, true, s, handled, stored))
  {
    if IsSystem(log[s.cursor]) {
      SkipKeeps(log, s);
    } else {
      var m := Passed(log, s.cursor);
      PassedNext(log, s.cursor);
      if m > 0 {
        NonSystemDistinct(log, m);
      }
      if handled {
        SucceededKeeps(NonSystem(log), s, m, stored, log);
      } else {
        FailedKeeps(NonSystem(log), s, m, stored, log);
      }
      assert Deliver(log, true, s, handled, stored).cursor == s.cursor + 1;
    }
  }

  lemma StartKeeps(log: seq<Recorded>, s: State)
    requires IsLog(log) && Inv(log, s) && !s.running
    ensures Inv(log, Step(log, true, s, Start(true)))
  {
    var events, k := NonSystem(log), |Collapse(s.delivered)|;
    var m := if s.checkpoint == CheckpointAt(events, k) then k else k - 1;
    ResumeSkipsDelivered(log, m);
  }

  lemma StepKeeps(log: seq<Recorded>, s: State, action: Action)
    requires IsLog(log) && Inv(log, s)
    ensures Inv(log, Step(log, true, s, action))
  {
    if action.Start? && action.loaded && !s.running {
      StartKeeps(log, s);
    } else if action.Receive? && action.message.Appeared? && s.running && s.cursor < |log| {
      DeliverKeeps(log, s, action.message.handled, action.message.stored);
    }
  }

  lemma {:induction false} RunKeeps(log: seq<Recorded>, actions: seq<Action>)
    requires IsLog(log)
    ensures Inv(log, Run(log, true, actions))
  {
    if actions != [] {
      RunKeeps(log, actions[..|actions| - 1]);
      StepKeeps(log, Run(log, true, actions[..|actions| - 1]), actions[|actions| - 1]);
    }
  }

  lemma CaughtUpAtEnd(log: seq<Recorded>, s: State)
    requires Inv(log, s) && s.running && s.cursor == |log|
    ensures Collapse(s.delivered) == NonSystem(log)
    ensures s.checkpoint == CheckpointAt(NonSystem(log), |NonSystem(log)|)
  {
    assert log[..|log|] == log;
  }

  /**
   At least once, with repeats only next to each other, over any number of runs however ended;
   each run numbers its calls 1, 2, 3 along consecutive non-system events; and a run that has
   read the whole log has had every one of them handled.
   */
  lemma AtLeastOnce(log: seq<Recorded>, actions: seq<Action>)
    requires IsLog(log)
    ensures var s, events := Run(log, true, actions), NonSystem(log);
            && Progress(events, s) && CallsInOrder(events, s)
            && (s.running && s.cursor == |log| ==> Collapse(s.delivered) == events)
  {
    RunKeeps(log, actions);
    if Run(log, true, actions).running && Run(log, true, actions).cursor == |log| {
      CaughtUpAtEnd(log, Run(log, true, actions));
    }
  }

  // ---------------------------------------------------------------------------------------
  // Without a checkpoint store
  // ---------------------------------------------------------------------------------------

  ghost predicate FreshInv(log: seq<Recorded>, s: State) {
    && s.checkpoint.None? && s.resumed == 0
    && CallsInOrder(NonSystem(log), s)
    && (s.running ==> s.cursor <= |log| && |s.calls| == Passed(log, s.cursor))
  }

  lemma StepKeepsFresh(log: seq<Recorded>, s: State, action: Action)
    requires FreshInv(log, s)
    ensures FreshInv(log, Step(log, false, s, action))
  {
    if action.Receive? && action.message.Appeared? && s.running && s.cursor < |log| {
      PassedNext(log, s.cursor);
      if !IsSystem(log[s.cursor]) {
        CallsNext(NonSystem(log), s, log[s.cursor], action.message.handled, action.message.stored);
      }
    }
  }

  /** Every run then starts over and calls the handler once for each event from the first on. */
  lemma {:induction false} EveryRunStartsOver(log: seq<Recorded>, actions: seq<Action>)
    ensures var s := Run(log, false, actions);
            && FreshInv(log, s)
            && (s.running && s.cursor == |log| ==> |s.calls| == |NonSystem(log)|)
  {
    if actions != [] {
      EveryRunStartsOver(log, actions[..|actions| - 1]);
      StepKeepsFresh(log, Run(log, false, actions[..|actions| - 1]), actions[|actions| - 1]);
    }
    assert log[..|log|] == log;
  }

  // ---------------------------------------------------------------------------------------
  // What is handled, and how a run ends
  // ---------------------------------------------------------------------------------------

  /** The events handed to the handler are those whose type does not begin with a dollar sign. */
  lemma {:induction false} NonSystemExactly(log: seq<Recorded>, e: Recorded)
    ensures e in NonSystem(log) <==> e in log && !("$" <= e.eventType)
  {
    if log != [] {
      NonSystemExactly(log[..|log| - 1], e);
      assert log == log[..|log| - 1] + [log[|log| - 1]];
    }
  }

  /** A call after which its run goes on. */
  predicate Succeeded(hasStore: bool, call: Call) {
    call.ok && (hasStore ==> call.stored)
  }

  /**
   With a store or without, a failed call is the last of its run, and so is one whose position
   the store refused; while a run goes on it has had no such call.
   */
  lemma {:induction false} FailureEndsRun(log: seq<Recorded>, hasStore: bool, actions: seq<Action>)
    ensures var s := Run(log, hasStore, actions);
            && (forall i :: 0 <= i < |s.calls| - 1 ==> Succeeded(hasStore, s.calls[i]))
            && (s.running ==> forall i :: 0 <= i < |s.calls| ==> Succeeded(hasStore, s.calls[i]))
  {
    if actions != [] {
      var rest, action := actions[..|actions| - 1], actions[|actions| - 1];
      FailureEndsRun(log, hasStore, rest);
      var before, after := Run(log, hasStore, rest), Run(log, hasStore, actions);
      if action.Receive? && |after.calls| > |before.calls| {
        forall i | 0 <= i < |before.calls| ensures Succeeded(hasStore, after.calls[i]) {
          assert after.calls[i] == before.calls[i];
        }
      }
    }
  }

  /** The handler calls of all runs of a history. */
  function AllCalls(log: seq<Recorded>, hasStore: bool, actions: seq<Action>): seq<Call> {
    if actions == [] then []
    else
      var rest, action := actions[..|actions| - 1], actions[|actions| - 1];
      var before, after := Run(log, hasStore, rest).calls, Run(log, hasStore, actions).calls;
      AllCalls(log, hasStore, rest)
      + if action.Receive? && |before| <= |after| then after[|before|..] else []
  }

  function HandledEvents(calls: seq<Call>): seq<Recorded> {
    if calls == [] then []
    else
      var last := calls[|calls| - 1];
      HandledEvents(calls[..|calls| - 1]) + if last.ok then [last.event] else []
  }

  /** The position of the last event that was handled and then stored. */
  function LastStored(calls: seq<Call>): Option<nat> {
    if calls == [] then None
    else
      var last := calls[|calls| - 1];
      if last.ok && last.stored then Some(last.event.position) else LastStored(calls[..|calls| - 1])
  }

  /** A step makes at most one call, and keeps those made before. */
  lemma StepCalls(log: seq<Recorded>, hasStore: bool, s: State, message: Received)
    ensures var s' := Step(log, hasStore, s, Receive(message));
            && |s.calls| <= |s'.calls| <= |s.calls| + 1
            && (|s'.calls| == |s.calls| ==> s'.delivered == s.delivered && s'.checkpoint == s.checkpoint)
            && (|s'.calls| > |s.calls| ==>
                  var call := s'.calls[|s.calls|];
                  && s'.calls == s.calls + [call]
                  && s'.delivered == s.delivered + (if call.ok then [call.event] else [])
                  && s'.checkpoint == if hasStore && call.ok && call.stored then Some(call.event.position)
                                      else s.checkpoint)
  {
  }

  lemma HandledNext(calls: seq<Call>, call: Call)
    ensures HandledEvents(calls + [call]) == HandledEvents(calls) + if call.ok then [call.event] else []
    ensures LastStored(calls + [call]) ==
              if call.ok && call.stored then Some(call.event.position) else LastStored(calls)
  {
    assert (calls + [call])[..|calls + [call]| - 1] == calls;
  }

  lemma AllCallsNext(log: seq<Recorded>, hasStore: bool, actions: seq<Action>)
    requires actions != []
    ensures var before, action := Run(log, hasStore, actions[..|actions| - 1]), actions[|actions| - 1];
            var calls := AllCalls(log, hasStore, actions[..|actions| - 1]);
            var after := Step(log, hasStore, before, action);
            AllCalls(log, hasStore, actions) ==
              if action.Receive? && |after.calls| > |before.calls| then calls + [after.calls[|before.calls|]]
              else calls
  {
    var before, action := Run(log, hasStore, actions[..|actions| - 1]), actions[|actions| - 1];
    if action.Receive? {
      StepCalls(log, hasStore, before, action.message);
    }
  }

  /** What counts as delivered is what was handled, and the checkpoint is what was stored last. */
  lemma {:induction false} DeliveredIsHandled(log: seq<Recorded>, hasStore: bool, actions: seq<Action>)
    ensures var s, calls := Run(log, hasStore, actions), AllCalls(log, hasStore, actions);
            && s.delivered == HandledEvents(calls)
            && s.checkpoint == if hasStore then LastStored(calls) else None
  {
    if actions != [] {
      var rest, action := actions[..|actions| - 1], actions[|actions| - 1];
      DeliveredIsHandled(log, hasStore, rest);
      AllCallsNext(log, hasStore, actions);
      var s := Run(log, hasStore, rest);
      if action.Receive? {
        StepCalls(log, hasStore, s, action.message);
        var s' := Step(log, hasStore, s, action);
        if |s'.calls| > |s.calls| {
          HandledNext(AllCalls(log, hasStore, rest), s'.calls[|s.calls|]);
        }
      }
    }
  }

  /**
   A run begins exactly when the checkpoint could be loaded and the subscription opened, at the
   first event beyond the checkpoint, or at the first of all without a checkpoint or a store.
   */
  lemma RunStartsExactly(log: seq<Recorded>, hasStore: bool, s: State, loaded: bool)
    requires IsLog(log) && !s.running
    ensures var s' := Step(log, hasStore, s, Start(loaded));
            if !loaded then s' == s
            else
              && s'.running && s'.sequence == 0 && s'.calls == []
              && s'.checkpoint == s.checkpoint && s'.delivered == s.delivered
              && s'.cursor <= |log|
              && forall i :: 0 <= i < |log| ==>
                   (i < s'.cursor <==> hasStore && s.checkpoint.Some? && log[i].position <= s.checkpoint.value)
  {
    if s.checkpoint.Some? {
      ResumeSplits(log, s.checkpoint.value);
    }
  }

  /**
   A run goes on exactly until the subscription is dropped, the handler fails on an event, a
   store refuses its position, or the process dies; what would have been received then plays no
   part.
   */
  lemma RunEndsExactly(log: seq<Recorded>, hasStore: bool, s: State, message: Received, later: seq<Received>)
    requires s.running
    ensures var s' := Step(log, hasStore, s, Receive(message));
            var event := message.Appeared? && s.cursor < |log| && !("$" <= log[s.cursor].eventType);
            && (!s'.running <==>
                 message.Dropped? || (event && (!message.handled || (hasStore && !message.stored))))
            && (!s'.running ==> Script(log, hasStore, s, [message] + later) == s')
            && Step(log, hasStore, s, Crash) == s.(running := false)
  {
    var s' := Step(log, hasStore, s, Receive(message));
    assert ([message] + later)[1..] == later;
    if !s'.running {
      ScriptStopped(log, hasStore, s', later);
    }
  }

  /** Events that are handled and stored, among notices. */
  ghost predicate Undisturbed(script: seq<Received>) {
    forall m :: m in script ==> m.Notice? || m == Appeared(true, true)
  }

  function Appearances(script: seq<Received>): nat {
    if script == [] then 0 else (if script[0].Appeared? then 1 else 0) + Appearances(script[1..])
  }

  lemma {:induction false} UndisturbedRunReadsAll(log: seq<Recorded>, hasStore: bool, s: State, script: seq<Received>)
    requires s.running && s.cursor <= |log|
    requires Undisturbed(script) && Appearances(script) >= |log| - s.cursor
    ensures var r := Script(log, hasStore, s, script); r.running && r.cursor == |log|
    decreases |script|
  {
    if script != [] {
      assert script[0] in script && forall m :: m in script[1..] ==> m in script;
      UndisturbedRunReadsAll(log, hasStore, Step(log, hasStore, s, Receive(script[0])), script[1..]);
    }
  }

  /**
   After any history, one run that is started and left undisturbed until it has received what
   is there brings all of it to the handler, whatever earlier runs had come to, and leaves the
   checkpoint on the last event.
   */
  lemma UndisturbedRunDeliversAll(log: seq<Recorded>, actions: seq<Action>, script: seq<Received>)
    requires IsLog(log) && !Run(log, true, actions).running
    requires Undisturbed(script) && Appearances(script) >= |log|
    ensures var s := Run(log, true, actions + [Start(true)] + Receives(script));
            && s.running && Collapse(s.delivered) == NonSystem(log)
            && s.checkpoint == CheckpointAt(NonSystem(log), |NonSystem(log)|)
  {
    var started := actions + [Start(true)];
    assert started[..|started| - 1] == actions;
    UndisturbedRunReadsAll(log, true, Run(log, true, started), script);
    ScriptIsRun(log, true, started, script);
    RunKeeps(log, started + Receives(script));
    CaughtUpAtEnd(log, Run(log, true, started + Receives(script)));
  }

  /** Without a store every run that is left undisturbed handles every event. */
  lemma UndisturbedRunCallsAll(log: seq<Recorded>, actions: seq<Action>, script: seq<Received>)
    requires !Run(log, false, actions).running
    requires Undisturbed(script) && Appearances(script) >= |log|
    ensures var s := Run(log, false, actions + [Start(true)] + Receives(script));
            && s.running && CallsInOrder(NonSystem(log), s) && s.resumed == 0 && |s.calls| == |NonSystem(log)|
            && forall i :: 0 <= i < |s.calls| ==> Succeeded(false, s.calls[i])
  {
    var started := actions + [Start(true)];
    assert started[..|started| - 1] == actions;
    UndisturbedRunReadsAll(log, false, Run(log, false, started), script);
    ScriptIsRun(log, false, started, script);
    EveryRunStartsOver(log, started + Receives(script));
    FailureEndsRun(log, false, started + Receives(script));
  }
}
