/**
 What the committer guarantees over whole histories of calls, with completions in any order,
 repeats allowed, and the store refusing writes at arbitrary points.
 */
module CommitterRuns {
  import opened Wrappers
  import opened Committer

  function Run(cfg: Config, w: World, ops: seq<Op>): World {
    if ops == [] then w
    else Step(cfg, Run(cfg, w, ops[..|ops| - 1]), ops[|ops| - 1])
  }

  function Fresh(cfg: Config, base: Option<nat>, start: int, ops: seq<Op>): World {
    Run(cfg, Init(cfg, base, start), ops)
  }

  /** The sequences reported as processed by a history. */
  function Completed(ops: seq<Op>): set<nat> {
    set op | op in ops && op.Commit? :: op.sequence
  }

  /** Every event up to the nth has been reported. */
  ghost predicate CompletedPrefix(n: nat, done: set<nat>) {
    forall k | 1 <= k <= n :: k in done
  }

  lemma RunLast(cfg: Config, w: World, ops: seq<Op>, op: Op)
    ensures Run(cfg, w, ops + [op]) == Step(cfg, Run(cfg, w, ops), op)
  {
    assert (ops + [op])[..|ops + [op]| - 1] == ops;
  }

  lemma CompletedLast(ops: seq<Op>)
    requires ops != []
    ensures var op := ops[|ops| - 1];
            Completed(ops) == Completed(ops[..|ops| - 1]) + (if op.Commit? then {op.sequence} else {})
  {
    assert ops == ops[..|ops| - 1] + [ops[|ops| - 1]];
  }

  lemma CompletedMore(ops: seq<Op>, op: Op)
    ensures Completed(ops + [op]) == Completed(ops) + (if op.Commit? then {op.sequence} else {})
  {
    assert (ops + [op])[..|ops + [op]| - 1] == ops;
    CompletedLast(ops + [op]);
  }

  // ---------------------------------------------------------------------------------------
  // Gap detection
  // ---------------------------------------------------------------------------------------

  ghost predicate GapInv(c: State, done: set<nat>) {
    && (forall k: nat :: Known(c, k) <==> k in done)
    && Frontier(c) + 1 !in c.pending
    && c.lastCommittedSeq <= Frontier(c)
    && (c.hasUncommittedPos ==> c.lastCommittedSeq < c.uncommittedSeq)
  }

  lemma StepKeepsGapInv(cfg: Config, w: World, op: Op, done: set<nat>)
    requires GapInv(w.c, done)
    ensures GapInv(Step(cfg, w, op).c, done + if op.Commit? then {op.sequence} else {})
  {
    if op.Commit? {
      var c := Recorded(w.c, op.position, op.sequence);
      WalkFrame(c);
      WalkStopsAtGap(c);
      var r := Step(cfg, w, op).c;
      assert Frontier(r) == Frontier(Walk(c)) && r.pending == Walk(c).pending;
      forall k: nat ensures Known(r, k) <==> k in done + {op.sequence} {
        assert Known(r, k) <==> Known(Walk(c), k);
        assert Known(c, k) <==> Known(w.c, k) || k == op.sequence;
      }
    }
  }

  lemma {:induction false} RunKeepsGapInv(cfg: Config, base: Option<nat>, start: int, ops: seq<Op>)
    ensures GapInv(Fresh(cfg, base, start, ops).c, Completed(ops))
  {
    if ops != [] {
      var rest, op := ops[..|ops| - 1], ops[|ops| - 1];
      RunKeepsGapInv(cfg, base, start, rest);
      CompletedLast(ops);
      StepKeepsGapInv(cfg, Fresh(cfg, base, start, rest), op, Completed(rest));
    }
  }

  /**
   The frontier is the largest n such that 1..n have all been reported, and nothing reported
   is lost: what is not behind the frontier is waiting in `pending`.
   */
  lemma GapDetection(cfg: Config, base: Option<nat>, start: int, ops: seq<Op>)
    ensures var c := Fresh(cfg, base, start, ops).c;
            && (forall n: nat :: CompletedPrefix(n, Completed(ops)) <==> n <= Frontier(c))
            && (forall k: nat :: k in Completed(ops) <==> k in c.pending || 1 <= k <= Frontier(c))
            && Frontier(c) + 1 !in c.pending
  {
    RunKeepsGapInv(cfg, base, start, ops);
    var c := Fresh(cfg, base, start, ops).c;
    forall n: nat ensures CompletedPrefix(n, Completed(ops)) <==> n <= Frontier(c) {
      if n > Frontier(c) {
        assert Frontier(c) + 1 !in Completed(ops);
      }
    }
  }

  lemma FrontierIs(cfg: Config, base: Option<nat>, start: int, ops: seq<Op>, n: nat)
    requires CompletedPrefix(n, Completed(ops)) && n + 1 !in Completed(ops)
    ensures Frontier(Fresh(cfg, base, start, ops).c) == n
  {
    GapDetection(cfg, base, start, ops);
    assert !CompletedPrefix(n + 1, Completed(ops));
  }

  lemma {:induction false} WalkTakesOnlyAhead(c: State, k: nat)
    requires k in c.pending && k <= Frontier(c)
    ensures k in Walk(c).pending && k <= Frontier(Walk(c))
    decreases |c.pending|
  {
    if Frontier(c) + 1 in c.pending {
      PendingShrinks(c.pending, Frontier(c) + 1);
      WalkTakesOnlyAhead(MoveOver(c), k);
    }
  }

  /** A sequence reported again once the frontier has passed it is never taken out again. */
  lemma {:induction false} RepeatedReportStays(cfg: Config, w: World, done: set<nat>, k: nat, ops: seq<Op>)
    requires GapInv(w.c, done) && k in w.c.pending && k <= Frontier(w.c)
    ensures k in Run(cfg, w, ops).c.pending && k <= Frontier(Run(cfg, w, ops).c)
  {
    if ops != [] {
      var rest, op := ops[..|ops| - 1], ops[|ops| - 1];
      RepeatedReportStays(cfg, w, done, k, rest);
      var x := Run(cfg, w, rest);
      if op.Commit? {
        WalkFrame(Recorded(x.c, op.position, op.sequence));
        WalkTakesOnlyAhead(Recorded(x.c, op.position, op.sequence), k);
      }
    }
  }

  // ---------------------------------------------------------------------------------------
  // No data loss
  // ---------------------------------------------------------------------------------------

  /** Every report of a sequence carries that sequence's position. */
  ghost predicate Consistent(ops: seq<Op>, posOf: nat -> nat) {
    forall op | op in ops && op.Commit? :: op.position == posOf(op.sequence)
  }

  /**
   Positions increase with sequence, which counts from 1, from beyond the checkpoint the events
   were read after. Read from its beginning, a stream has its first event at position 0.
   */
  ghost predicate Ordered(posOf: nat -> nat, base: Option<nat>) {
    && (forall i: nat, j: nat :: 1 <= i < j ==> posOf(i) < posOf(j))
    && (base.Some? ==> base.value < posOf(1))
  }

  /** The checkpoint that covers exactly the first n events. */
  function CheckpointAt(n: nat, posOf: nat -> nat, base: Option<nat>): Option<nat> {
    if n == 0 then base else Some(posOf(n))
  }

  ghost predicate PositionInv(w: World, posOf: nat -> nat, base: Option<nat>) {
    && (forall k | k in w.c.pending :: w.c.pending[k] == posOf(k))
    && w.stored == CheckpointAt(w.c.lastCommittedSeq, posOf, base)
    && (w.c.hasUncommittedPos ==> w.c.uncommittedPos == posOf(w.c.uncommittedSeq))
    && w.c.hasCommittedPos == (w.c.lastCommittedSeq > 0)
    && (w.c.hasCommittedPos ==> w.stored == Some(w.c.lastCommittedPos))
  }

  lemma {:induction false} WalkKeepsPositions(c: State, posOf: nat -> nat)
    requires forall k | k in c.pending :: c.pending[k] == posOf(k)
    requires c.hasUncommittedPos ==> c.uncommittedPos == posOf(c.uncommittedSeq)
    ensures forall k | k in Walk(c).pending :: Walk(c).pending[k] == posOf(k)
    ensures Walk(c).hasUncommittedPos ==> Walk(c).uncommittedPos == posOf(Walk(c).uncommittedSeq)
    decreases |c.pending|
  {
    if Frontier(c) + 1 in c.pending {
      PendingShrinks(c.pending, Frontier(c) + 1);
      WalkKeepsPositions(MoveOver(c), posOf);
    }
  }

  lemma StepKeepsPositionInv(cfg: Config, w: World, op: Op, done: set<nat>, posOf: nat -> nat, base: Option<nat>)
    requires PositionInv(w, posOf, base) && GapInv(w.c, done)
    requires op.Commit? ==> op.position == posOf(op.sequence)
    ensures PositionInv(Step(cfg, w, op), posOf, base)
  {
    if op.Commit? {
      var c := Recorded(w.c, op.position, op.sequence);
      WalkFrame(c);
      WalkKeepsPositions(c, posOf);
    }
  }

  lemma {:induction false} RunKeepsPositionInv(cfg: Config, base: Option<nat>, start: int, ops: seq<Op>,
                                               posOf: nat -> nat)
    requires Consistent(ops, posOf)
    ensures PositionInv(Fresh(cfg, base, start, ops), posOf, base)
  {
    if ops != [] {
      var rest := ops[..|ops| - 1];
      assert ops == rest + [ops[|ops| - 1]];
      RunKeepsPositionInv(cfg, base, start, rest, posOf);
      RunKeepsGapInv(cfg, base, start, rest);
      StepKeepsPositionInv(cfg, Fresh(cfg, base, start, rest), ops[|ops| - 1], Completed(rest), posOf, base);
    }
  }

  /**
   The stored checkpoint is the position of a completed prefix, so an event that has not been
   reported lies strictly beyond it and will be read again after a restart.
   */
  lemma NoDataLoss(cfg: Config, base: Option<nat>, start: int, ops: seq<Op>, posOf: nat -> nat)
    requires Consistent(ops, posOf) && Ordered(posOf, base)
    ensures var w := Fresh(cfg, base, start, ops);
            && CompletedPrefix(w.c.lastCommittedSeq, Completed(ops))
            && w.stored == CheckpointAt(w.c.lastCommittedSeq, posOf, base)
            && (forall k: nat | k >= 1 && k !in Completed(ops) && w.stored.Some? :: w.stored.value < posOf(k))
  {
    RunKeepsPositionInv(cfg, base, start, ops, posOf);
    RunKeepsGapInv(cfg, base, start, ops);
    GapDetection(cfg, base, start, ops);
    var w := Fresh(cfg, base, start, ops);
    forall k: nat | k >= 1 && k !in Completed(ops) && w.stored.Some? ensures w.stored.value < posOf(k) {
      assert k > Frontier(w.c);
      assert posOf(1) <= posOf(k);
    }
  }

  lemma WritesMoveForward(cfg: Config, w: World, op: Op, done: set<nat>)
    requires GapInv(w.c, done)
    ensures var w' := Step(cfg, w, op);
            if w'.calls > w.calls && op.ok then w'.c.lastCommittedSeq > w.c.lastCommittedSeq
            else w'.c.lastCommittedSeq == w.c.lastCommittedSeq && w'.stored == w.stored
  {
    if op.Commit? {
      WalkFrame(Recorded(w.c, op.position, op.sequence));
    }
  }

  /** A write always moves the checkpoint strictly forward; without one it stays where it is. */
  lemma CheckpointOnlyMovesForward(cfg: Config, base: Option<nat>, start: int, ops: seq<Op>, op: Op, posOf: nat -> nat)
    requires Consistent(ops + [op], posOf) && Ordered(posOf, base)
    ensures var w, w' := Fresh(cfg, base, start, ops), Fresh(cfg, base, start, ops + [op]);
            if w'.calls > w.calls && op.ok
            then w'.stored.Some? && (w.stored.Some? ==> w.stored.value < w'.stored.value)
            else w'.stored == w.stored
  {
    assert Consistent(ops, posOf) by {
      assert forall o | o in ops :: o in ops + [op];
    }
    assert op in ops + [op];
    var w := Fresh(cfg, base, start, ops);
    RunLast(cfg, Init(cfg, base, start), ops, op);
    RunKeepsPositionInv(cfg, base, start, ops, posOf);
    RunKeepsGapInv(cfg, base, start, ops);
    StepKeepsPositionInv(cfg, w, op, Completed(ops), posOf, base);
    WritesMoveForward(cfg, w, op, Completed(ops));
    var n := w.c.lastCommittedSeq;
    var n' := Step(cfg, w, op).c.lastCommittedSeq;
    assert n == 0 || n' == n || posOf(n) < posOf(n');
    assert n' == 0 || posOf(1) <= posOf(n');
  }

  // ---------------------------------------------------------------------------------------
  // Confluence
  // ---------------------------------------------------------------------------------------

  /** After a successful flush the checkpoint depends only on which events were reported. */
  lemma FlushReachesFrontier(cfg: Config, base: Option<nat>, start: int, ops: seq<Op>, at: int, posOf: nat -> nat)
    requires Consistent(ops, posOf)
    ensures var w, w' := Fresh(cfg, base, start, ops), Fresh(cfg, base, start, ops + [Flush(at, true)]);
            && w'.stored == CheckpointAt(Frontier(w.c), posOf, base)
            && w'.c.lastCommittedSeq == Frontier(w'.c) == Frontier(w.c)
            && !w'.c.hasUncommittedPos
  {
    RunLast(cfg, Init(cfg, base, start), ops, Flush(at, true));
    RunKeepsPositionInv(cfg, base, start, ops, posOf);
    RunKeepsGapInv(cfg, base, start, ops);
  }

  /** The position of a stream's nth event, the first being at 0; no event has sequence 0. */
  function FromStart(n: nat): nat {
    if n == 0 then 0 else n - 1
  }

  /** The first event of a stream read from its beginning leaves checkpoint 0 behind, not none. */
  lemma FirstEventStoresZero(cfg: Config, start: int, now: int, ok: bool, at: int)
    ensures var ops := [Commit(FromStart(1), 1, now, now, ok), Flush(at, true)];
            && Consistent(ops, FromStart) && Ordered(FromStart, None)
            && Fresh(cfg, None, start, ops).stored == Some(0)
  {
    var report := [Commit(FromStart(1), 1, now, now, ok)];
    var ops := report + [Flush(at, true)];
    assert Consistent(report, FromStart) && Completed(report) == {1};
    FrontierIs(cfg, None, start, report, 1);
    FlushReachesFrontier(cfg, None, start, report, at, FromStart);
    assert ops == [Commit(FromStart(1), 1, now, now, ok), Flush(at, true)];
  }

  /**
   Order of completions, interleaved flushes, limits, clocks and failed stores do not matter:
   two histories that report the same events agree on the checkpoint after one good flush.
   */
  lemma Confluence(cfg1: Config, cfg2: Config, base: Option<nat>, start1: int, start2: int,
                   ops1: seq<Op>, ops2: seq<Op>, at1: int, at2: int, posOf: nat -> nat)
    requires Consistent(ops1, posOf) && Consistent(ops2, posOf)
    requires Completed(ops1) == Completed(ops2)
    ensures Fresh(cfg1, base, start1, ops1 + [Flush(at1, true)]).stored
         == Fresh(cfg2, base, start2, ops2 + [Flush(at2, true)]).stored
  {
    FlushReachesFrontier(cfg1, base, start1, ops1, at1, posOf);
    FlushReachesFrontier(cfg2, base, start2, ops2, at2, posOf);
    GapDetection(cfg1, base, start1, ops1);
    GapDetection(cfg2, base, start2, ops2);
    var f1 := Frontier(Fresh(cfg1, base, start1, ops1).c);
    var f2 := Frontier(Fresh(cfg2, base, start2, ops2).c);
    assert CompletedPrefix(f1, Completed(ops1)) && CompletedPrefix(f2, Completed(ops2));
  }

  /** A second flush does not even call the store. */
  lemma SecondFlushIsSilent(cfg: Config, base: Option<nat>, start: int, ops: seq<Op>, at: int, again: int, ok: bool)
    ensures Fresh(cfg, base, start, ops + [Flush(at, true)] + [Flush(again, ok)])
         == Fresh(cfg, base, start, ops + [Flush(at, true)])
  {
    RunLast(cfg, Init(cfg, base, start), ops, Flush(at, true));
    RunLast(cfg, Init(cfg, base, start), ops + [Flush(at, true)], Flush(again, ok));
  }

  // ---------------------------------------------------------------------------------------
  // Batches
  // ---------------------------------------------------------------------------------------

  /** Whether the last call of the history moved the frontier; whether it wrote. */
  predicate LastAdvanced(cfg: Config, base: Option<nat>, start: int, ops: seq<Op>)
    requires ops != []
  {
    Frontier(Fresh(cfg, base, start, ops[..|ops| - 1]).c) < Frontier(Fresh(cfg, base, start, ops).c)
  }

  predicate LastWrote(cfg: Config, base: Option<nat>, start: int, ops: seq<Op>)
    requires ops != []
  {
    && ops[|ops| - 1].ok
    && Fresh(cfg, base, start, ops[..|ops| - 1]).calls < Fresh(cfg, base, start, ops).calls
  }

  /** The number of calls since the last write that moved the frontier. */
  function AdvancesSinceWrite(cfg: Config, base: Option<nat>, start: int, ops: seq<Op>): nat {
    if ops == [] || LastWrote(cfg, base, start, ops) then 0
    else AdvancesSinceWrite(cfg, base, start, ops[..|ops| - 1])
         + if LastAdvanced(cfg, base, start, ops) then 1 else 0
  }

  ghost predicate NoFailures(ops: seq<Op>) {
    forall op | op in ops :: op.ok
  }

  function CommitCalls(ops: seq<Op>): nat {
    if ops == [] then 0
    else CommitCalls(ops[..|ops| - 1]) + if ops[|ops| - 1].Commit? then 1 else 0
  }

  /** The nth completion to be reported is the nth event. */
  ghost predicate InOrder(ops: seq<Op>) {
    forall i | 0 <= i < |ops| && ops[i].Commit? :: ops[i].sequence == CommitCalls(ops[..i]) + 1
  }

  lemma {:induction false} CountIsAdvancesSinceWrite(cfg: Config, base: Option<nat>, start: int, ops: seq<Op>)
    ensures var c := Fresh(cfg, base, start, ops).c;
            && c.count == AdvancesSinceWrite(cfg, base, start, ops)
            && c.count <= Unstored(c)
  {
    if ops != [] {
      var rest, op := ops[..|ops| - 1], ops[|ops| - 1];
      CountIsAdvancesSinceWrite(cfg, base, start, rest);
      RunKeepsGapInv(cfg, base, start, rest);
      var w := Fresh(cfg, base, start, rest);
      if op.Commit? {
        WalkFrame(Recorded(w.c, op.position, op.sequence));
      }
    }
  }

  lemma {:induction false} CountBelowBatchSize(cfg: Config, base: Option<nat>, start: int, ops: seq<Op>)
    requires cfg.batchSize > 0 && NoFailures(ops)
    ensures Fresh(cfg, base, start, ops).c.count < cfg.batchSize
  {
    if ops != [] {
      var rest, op := ops[..|ops| - 1], ops[|ops| - 1];
      assert ops == rest + [op];
      CountBelowBatchSize(cfg, base, start, rest);
      if op.Commit? {
        var w := Fresh(cfg, base, start, rest);
        WalkFrame(Recorded(w.c, op.position, op.sequence));
      }
    }
  }

  /** `count` counts the advancing calls since the last write and stays below the batch size. */
  lemma BatchAccounting(cfg: Config, base: Option<nat>, start: int, ops: seq<Op>)
    requires cfg.batchSize > 0 && NoFailures(ops)
    ensures var c := Fresh(cfg, base, start, ops).c;
            AdvancesSinceWrite(cfg, base, start, ops) == c.count < cfg.batchSize && c.count <= Unstored(c)
  {
    CountIsAdvancesSinceWrite(cfg, base, start, ops);
    CountBelowBatchSize(cfg, base, start, ops);
  }

  lemma {:induction false} InOrderCountsEvents(cfg: Config, base: Option<nat>, start: int, ops: seq<Op>)
    requires InOrder(ops)
    ensures var c := Fresh(cfg, base, start, ops).c;
            c.pending == map[] && Frontier(c) == CommitCalls(ops) && c.count == Unstored(c)
  {
    if ops != [] {
      var rest, op := ops[..|ops| - 1], ops[|ops| - 1];
      assert InOrder(rest) by {
        assert forall i | 0 <= i < |rest| :: rest[..i] == ops[..i];
      }
      InOrderCountsEvents(cfg, base, start, rest);
      RunKeepsGapInv(cfg, base, start, rest);
      var w := Fresh(cfg, base, start, rest);
      if op.Commit? {
        var c := Recorded(w.c, op.position, op.sequence);
        var moved := MoveOver(c);
        assert moved.pending == map[];
        assert Walk(c) == moved;
      }
    }
  }

  /** In order, the batch limit does bound the events at risk. */
  lemma InOrderBatchBoundsUnstored(cfg: Config, base: Option<nat>, start: int, ops: seq<Op>)
    requires cfg.batchSize > 0 && NoFailures(ops) && InOrder(ops)
    ensures Unstored(Fresh(cfg, base, start, ops).c) < cfg.batchSize
  {
    InOrderCountsEvents(cfg, base, start, ops);
    CountBelowBatchSize(cfg, base, start, ops);
  }

  /** How many consecutive sequences from `k` on are waiting. */
  function Waiting(pending: map<nat, nat>, k: nat): nat
    decreases |pending|
  {
    if k !in pending then 0
    else
      PendingShrinks(pending, k);
      1 + Waiting(pending - {k}, k + 1)
  }

  lemma {:induction false} WaitingIgnoresEarlier(pending: map<nat, nat>, other: map<nat, nat>, k: nat)
    requires forall j | j >= k :: j in pending <==> j in other
    ensures Waiting(pending, k) == Waiting(other, k)
    decreases |pending|
  {
    if k in pending {
      PendingShrinks(pending, k);
      assert k in other;
      WaitingIgnoresEarlier(pending - {k}, other - {k}, k + 1);
    }
  }

  lemma {:induction false} WalkDistance(c: State)
    ensures Frontier(Walk(c)) == Frontier(c) + Waiting(c.pending, Frontier(c) + 1)
    decreases |c.pending|
  {
    if Frontier(c) + 1 in c.pending {
      PendingShrinks(c.pending, Frontier(c) + 1);
      WalkDistance(MoveOver(c));
    }
  }

  /**
   Out of order, the batch limit bounds the events at risk only sometimes, because a call that
   closes a gap counts once however many waiting events it releases. After a call to a
   committer with a batch limit, fewer than a batch of events are unstored exactly when the
   caller could have read this off beforehand from the waiting completions.
   */
  lemma BatchBoundExactly(cfg: Config, w: World, done: set<nat>, position: nat, sequence: nat, now: int, storedAt: int)
    requires cfg.batchSize > 0 && GapInv(w.c, done)
    ensures var f := Frontier(w.c);
            Unstored(Step(cfg, w, Commit(position, sequence, now, storedAt, true)).c) < cfg.batchSize <==>
            if sequence != f + 1 then Unstored(w.c) < cfg.batchSize
            else || w.c.count + 1 >= cfg.batchSize
                 || (cfg.interval > 0 && now - w.c.lastCommitTime >= cfg.interval)
                 || Unstored(w.c) + 1 + Waiting(w.c.pending, f + 2) < cfg.batchSize
  {
    var f := Frontier(w.c);
    var c := Recorded(w.c, position, sequence);
    WalkFrame(c);
    if sequence == f + 1 {
      WalkDistance(c);
      WaitingIgnoresEarlier(w.c.pending, c.pending - {f + 1}, f + 2);
    }
  }

  /** A report that leaves the gap open is only noted. */
  lemma ReportAheadWaits(cfg: Config, w: World, position: nat, sequence: nat, now: int, storedAt: int, ok: bool)
    requires Frontier(w.c) + 1 !in w.c.pending && sequence != Frontier(w.c) + 1
    ensures Step(cfg, w, Commit(position, sequence, now, storedAt, ok)) == w.(c := Recorded(w.c, position, sequence))
  {
    WalkFrame(Recorded(w.c, position, sequence));
  }

  /** A first advance of fewer than a batch's calls stores nothing, however far it goes. */
  lemma FirstAdvanceOnlyCounts(cfg: Config, w: World, position: nat, sequence: nat)
    requires cfg.batchSize > 1 && cfg.interval == 0 && w.c.count == 0
    ensures var w' := Step(cfg, w, Commit(position, sequence, 0, 0, true));
            w'.calls == w.calls && w'.c.lastCommittedSeq == w.c.lastCommittedSeq
  {
    WalkFrame(Recorded(w.c, position, sequence));
  }

  /** Reports of the events 2..n. */
  function ReportsFromTwo(n: nat): seq<Op> {
    if n < 2 then [] else ReportsFromTwo(n - 1) + [Commit(n, n, 0, 0, true)]
  }

  ghost predicate WaitingForFirst(w: World) {
    w.calls == 0 && w.c.count == 0 && Frontier(w.c) == 0 && w.c.lastCommittedSeq == 0 && 1 !in w.c.pending
  }

  lemma {:induction false} ReportsFromTwoWait(cfg: Config, base: Option<nat>, start: int, n: nat)
    ensures WaitingForFirst(Fresh(cfg, base, start, ReportsFromTwo(n)))
  {
    if n >= 2 {
      var w := Fresh(cfg, base, start, ReportsFromTwo(n - 1));
      ReportsFromTwoWait(cfg, base, start, n - 1);
      RunLast(cfg, Init(cfg, base, start), ReportsFromTwo(n - 1), Commit(n, n, 0, 0, true));
      ReportAheadWaits(cfg, w, n, n, 0, 0, true);
    }
  }

  lemma {:induction false} ReportsFromTwoComplete(n: nat)
    ensures forall k :: k in Completed(ReportsFromTwo(n)) <==> 2 <= k <= n
  {
    if n >= 2 {
      ReportsFromTwoComplete(n - 1);
      CompletedMore(ReportsFromTwo(n - 1), Commit(n, n, 0, 0, true));
    }
  }

  /** With batches of two or more, reporting 2..n and then 1 leaves n events unstored, for every n. */
  lemma BatchBoundFailsOutOfOrder(cfg: Config, base: Option<nat>, start: int, n: nat)
    requires cfg.batchSize > 1 && cfg.interval == 0 && n >= 1
    ensures var w := Fresh(cfg, base, start, ReportsFromTwo(n) + [Commit(1, 1, 0, 0, true)]);
            Unstored(w.c) == n && w.calls == 0
  {
    var rest, op := ReportsFromTwo(n), Commit(1, 1, 0, 0, true);
    ReportsFromTwoWait(cfg, base, start, n);
    ReportsFromTwoComplete(n);
    CompletedMore(rest, op);
    FrontierIs(cfg, base, start, rest + [op], n);
    RunLast(cfg, Init(cfg, base, start), rest, op);
    FirstAdvanceOnlyCounts(cfg, Fresh(cfg, base, start, rest), 1, 1);
  }

  /**
   A report made before any limit is reached: before the interval since the last write is over,
   if there is one, and with fewer than a batch of calls counted, if there are batches.
   */
  ghost predicate Early(cfg: Config, w: World, reports: nat, op: Op) {
    && op.Commit?
    && (cfg.interval > 0 ==> op.now < w.c.lastCommitTime + cfg.interval)
    && (cfg.batchSize > 0 ==> w.c.count + reports < cfg.batchSize)
  }

  /**
   Nothing is written too early: reports that reach neither limit do not even ask the store,
   however many they are. A negative number is no limit, but not the absence of both either.
   */
  lemma {:induction false} NoWriteBeforeALimit(cfg: Config, w: World, ops: seq<Op>)
    requires !(cfg.batchSize == 0 && cfg.interval == 0)
    requires forall op | op in ops :: Early(cfg, w, |ops|, op)
    ensures var r := Run(cfg, w, ops);
            && r.calls == w.calls && r.stored == w.stored
            && r.c.lastCommittedSeq == w.c.lastCommittedSeq && r.c.lastCommitTime == w.c.lastCommitTime
            && r.c.deadline == w.c.deadline && r.c.count <= w.c.count + |ops|
  {
    if ops != [] {
      var rest, op := ops[..|ops| - 1], ops[|ops| - 1];
      assert op in ops && forall o | o in rest :: o in ops;
      assert forall o | o in rest :: Early(cfg, w, |rest|, o);
      NoWriteBeforeALimit(cfg, w, rest);
      var c := Run(cfg, w, rest).c;
      WalkFrame(Recorded(c, op.position, op.sequence));
    }
  }

  /** Where a limit is reached, or there is none, the next call to advance does ask the store. */
  lemma AsksAtALimit(cfg: Config, w: World, position: nat, now: int, storedAt: int, ok: bool)
    requires || (cfg.batchSize > 0 && w.c.count + 1 >= cfg.batchSize)
             || (cfg.interval > 0 && now >= w.c.lastCommitTime + cfg.interval)
             || (cfg.batchSize == 0 && cfg.interval == 0)
    ensures var w' := Step(cfg, w, Commit(position, Frontier(w.c) + 1, now, storedAt, ok));
            && w'.calls == w.calls + 1
            && (if ok then Unstored(w'.c) == 0 && w'.c.count == 0 && w'.c.lastCommitTime == storedAt
                else w'.stored == w.stored && w'.c.count == w.c.count + 1
                     && w'.c.lastCommittedSeq == w.c.lastCommittedSeq)
  {
    WalkFrame(Recorded(w.c, position, Frontier(w.c) + 1));
  }

  /** When the checkpoint was last written in a history; at first, when the committer was made. */
  function LastWriteAt(cfg: Config, base: Option<nat>, start: int, ops: seq<Op>): int {
    if ops == [] then start
    else if LastWrote(cfg, base, start, ops) then ops[|ops| - 1].storedAt
    else LastWriteAt(cfg, base, start, ops[..|ops| - 1])
  }

  /**
   The clock of the interval starts anew with each write. A timer is armed for one interval after
   the last write or not at all, and never without an interval.
   */
  lemma {:induction false} ClockStartsAtLastWrite(cfg: Config, base: Option<nat>, start: int, ops: seq<Op>)
    ensures var c := Fresh(cfg, base, start, ops).c;
            && c.lastCommitTime == LastWriteAt(cfg, base, start, ops)
            && (c.deadline.Some? ==> cfg.interval > 0 && c.deadline.value == c.lastCommitTime + cfg.interval)
  {
    if ops != [] {
      var rest, op := ops[..|ops| - 1], ops[|ops| - 1];
      ClockStartsAtLastWrite(cfg, base, start, rest);
      if op.Commit? {
        WalkFrame(Recorded(Fresh(cfg, base, start, rest).c, op.position, op.sequence));
      }
    }
  }

  /** Closing does to checkpoint and committer what a flush does, except to the timer. */
  lemma CloseFlushes(cfg: Config, base: Option<nat>, start: int, ops: seq<Op>, at: int, ok: bool)
    ensures var flushed := Fresh(cfg, base, start, ops + [Flush(at, ok)]);
            var closed := Fresh(cfg, base, start, ops + [Close(at, ok)]);
            closed.(c := closed.c.(deadline := flushed.c.deadline)) == flushed
  {
    RunLast(cfg, Init(cfg, base, start), ops, Flush(at, ok));
    RunLast(cfg, Init(cfg, base, start), ops, Close(at, ok));
  }

  /** With neither limit set and a working store, the checkpoint is never behind the frontier. */
  lemma {:induction false} UnlimitedStoresAtOnce(base: Option<nat>, start: int, ops: seq<Op>, posOf: nat -> nat)
    requires NoFailures(ops) && Consistent(ops, posOf)
    ensures var w := Fresh(Config(0, 0), base, start, ops);
            Unstored(w.c) == 0 && w.stored == CheckpointAt(Frontier(w.c), posOf, base)
  {
    RunKeepsPositionInv(Config(0, 0), base, start, ops, posOf);
    RunKeepsGapInv(Config(0, 0), base, start, ops);
    if ops != [] {
      var rest, op := ops[..|ops| - 1], ops[|ops| - 1];
      assert ops == rest + [op];
      UnlimitedStoresAtOnce(base, start, rest, posOf);
      RunKeepsGapInv(Config(0, 0), base, start, rest);
      if op.Commit? {
        var w := Fresh(Config(0, 0), base, start, rest);
        WalkFrame(Recorded(w.c, op.position, op.sequence));
      }
    }
  }
}
