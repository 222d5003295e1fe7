/**
 The checkpoint committer: completions arrive as (position, sequence) pairs in any order,
 the committer walks the contiguous frontier of sequences and writes its position to a
 checkpoint store, in batches decided by a count and by a clock.

 `Step` gives the effect of one call on the committer and its store as a function; the class
 at the end is the code itself, whose methods are proved to have that effect.
 */
module Committer {
  import opened Wrappers

  const UINT64_RANGE: nat := 0x1_0000_0000_0000_0000

  /** Adding one to a uint64. */
  function Successor(n: nat): (r: nat)
    ensures n < 0xffff_ffff_ffff_ffff ==> r == n + 1
    ensures n == 0xffff_ffff_ffff_ffff ==> r == 0
  {
    (n + 1) % UINT64_RANGE
  }

  /** A limit that is 0 (or negative) is not set. */
  datatype Config = Config(batchSize: int, interval: int)

  datatype State = State(
    pending: map<nat, nat>,
    lastCommittedSeq: nat,
    lastCommittedPos: nat,
    hasCommittedPos: bool,
    uncommittedSeq: nat,
    uncommittedPos: nat,
    hasUncommittedPos: bool,
    count: nat,
    lastCommitTime: int,
    deadline: Option<int>)  // when the timer will fire; None when it is not armed

  /** The committer together with what the store holds and how often the store was called. */
  datatype World = World(c: State, stored: Option<nat>, calls: nat)

  /** One call; `ok` says whether the store accepts the write, should the call attempt one. */
  datatype Op =
    | Commit(position: nat, sequence: nat, now: int, storedAt: int, ok: bool)
    | Flush(storedAt: int, ok: bool)
    | Close(storedAt: int, ok: bool)

  function Frontier(c: State): nat {
    if c.hasUncommittedPos then c.uncommittedSeq else c.lastCommittedSeq
  }

  /** Completions behind the frontier whose position has not been stored. */
  function Unstored(c: State): int {
    Frontier(c) - c.lastCommittedSeq
  }

  function Init(cfg: Config, base: Option<nat>, start: int): World {
    World(State(map[], 0, 0, false, 0, 0, false, 0, start,
                if cfg.interval > 0 then Some(start + cfg.interval) else None),
          base, 0)
  }

  /** The state after the frontier has been moved over one pending completion. */
  function MoveOver(c: State): State
    requires Frontier(c) + 1 in c.pending
  {
    var next: nat := Frontier(c) + 1;
    c.(pending := c.pending - {next}, uncommittedSeq := next,
    uncommittedPos := c.pending[next], hasUncommittedPos := true)
  }

  /** The walk ends because every turn takes an entry out of `pending`. */
  lemma PendingShrinks(pending: map<nat, nat>, k: nat)
    requires k in pending
    ensures |pending - {k}| < |pending|
  {
    assert (pending - {k}).Keys == pending.Keys - {k};
  }

  function Walk(c: State): State
    decreases |c.pending|
  {
    if Frontier(c) + 1 in c.pending then
      PendingShrinks(c.pending, Frontier(c) + 1);
      Walk(MoveOver(c))
    else c
  }

  /** Whether an advancing call should write now; `c.count` already includes the call. */
  predicate Due(cfg: Config, c: State, now: int) {
    || (cfg.batchSize > 0 && c.count >= cfg.batchSize)
    || (cfg.interval > 0 && now - c.lastCommitTime >= cfg.interval)
    || (cfg.batchSize == 0 && cfg.interval == 0)
  }

  function StoreUncommitted(cfg: Config, w: World, storedAt: int, ok: bool): World {
    var c := w.c;
    if !c.hasUncommittedPos then w
    else if !ok then w.(calls := w.calls + 1)
    else
      World(c.(lastCommittedSeq := c.uncommittedSeq, lastCommittedPos := c.uncommittedPos,
            hasCommittedPos := true, hasUncommittedPos := false, count := 0,
            lastCommitTime := storedAt,
            deadline := if cfg.interval > 0 then Some(storedAt + cfg.interval) else c.deadline),
            Some(c.uncommittedPos), w.calls + 1)
  }

  function Recorded(c: State, position: nat, sequence: nat): State {
    c.(pending := c.pending[sequence := position])
  }

  /** What an advancing call does once the frontier stands at that of `c`. */
  function Settle(cfg: Config, w: World, c: State, now: int, storedAt: int, ok: bool): World {
    var counted := c.(count := c.count + 1);
    if Due(cfg, counted, now) then StoreUncommitted(cfg, w.(c := counted), storedAt, ok)
    else w.(c := counted)
  }

  function Step(cfg: Config, w: World, op: Op): World {
    match op
    case Commit(position, sequence, now, storedAt, ok) =>
      var c := Walk(Recorded(w.c, position, sequence));
      if Frontier(c) == Frontier(w.c) then w.(c := c) else Settle(cfg, w, c, now, storedAt, ok)
    case Flush(storedAt, ok) => StoreUncommitted(cfg, w, storedAt, ok)
    case Close(storedAt, ok) => StoreUncommitted(cfg, w.(c := w.c.(deadline := None)), storedAt, ok)
  }

  /** A call fails exactly when it asked the store to write and the store refused. */
  predicate Fails(cfg: Config, w: World, op: Op) {
    !op.ok && Step(cfg, w, op).calls > w.calls
  }

  // ---------------------------------------------------------------------------------------
  // The walk
  // ---------------------------------------------------------------------------------------

  /** A sequence the committer knows as processed: waiting, or at or behind the frontier. */
  predicate Known(c: State, k: nat) {
    k in c.pending || 1 <= k <= Frontier(c)
  }

  /** What a walk leaves alone, and that it moves exactly when the next sequence is pending. */
  ghost predicate WalkedFrom(c: State, r: State) {
    && r.lastCommittedSeq == c.lastCommittedSeq && r.lastCommittedPos == c.lastCommittedPos
    && r.hasCommittedPos == c.hasCommittedPos && r.count == c.count
    && r.lastCommitTime == c.lastCommitTime && r.deadline == c.deadline
    && (if Frontier(c) + 1 in c.pending then r.hasUncommittedPos && Frontier(r) > Frontier(c) else r == c)
  }

  lemma {:induction false} WalkFrame(c: State)
    ensures WalkedFrom(c, Walk(c))
    decreases |c.pending|
  {
    if Frontier(c) + 1 in c.pending {
      PendingShrinks(c.pending, Frontier(c) + 1);
      WalkFrame(MoveOver(c));
    }
  }

  /** The walk neither invents nor forgets a completion, and stops in front of a gap. */
  lemma {:induction false} WalkStopsAtGap(c: State)
    ensures Frontier(Walk(c)) + 1 !in Walk(c).pending
    ensures forall k: nat :: Known(Walk(c), k) <==> Known(c, k)
    decreases |c.pending|
  {
    if Frontier(c) + 1 in c.pending {
      PendingShrinks(c.pending, Frontier(c) + 1);
      WalkStopsAtGap(MoveOver(c));
    }
  }

  /** Sequences stay below the largest 64-bit value, so the walk never wraps around. */
  ghost predicate Bounded(c: State) {
    && (forall k :: k in c.pending ==> k + 1 < UINT64_RANGE)
    && Frontier(c) + 1 < UINT64_RANGE
    && c.lastCommittedSeq + 1 < UINT64_RANGE
  }

  lemma {:induction false} WalkKeepsBounded(c: State)
    requires Bounded(c)
    ensures Bounded(Walk(c))
    decreases |c.pending|
  {
    if Frontier(c) + 1 in c.pending {
      PendingShrinks(c.pending, Frontier(c) + 1);
      WalkKeepsBounded(MoveOver(c));
    }
  }

  // ---------------------------------------------------------------------------------------
  // The code
  // ---------------------------------------------------------------------------------------

  /** A checkpoint store holding the position of one subscription. */
  class CheckpointStore {
    var position: Option<nat>
    var calls: nat

    constructor (position: Option<nat>)
      ensures this.position == position && calls == 0
    {
      this.position := position;
      calls := 0;
    }

    method StoreCheckpoint(pos: nat, ok: bool) returns (failed: bool)
      modifies this
      ensures failed == !ok && calls == old(calls) + 1
      ensures position == if ok then Some(pos) else old(position)
    {
      calls := calls + 1;
      if ok {
        position := Some(pos);
      }
      failed := !ok;
    }
  }

  class CheckpointCommitter {
    const cfg: Config
    const store: CheckpointStore
    var pending: map<nat, nat>
    var lastCommittedSeq: nat
    var lastCommittedPos: nat
    var hasCommittedPos: bool
    var uncommittedSeq: nat
    var uncommittedPos: nat
    var hasUncommittedPos: bool
    var count: nat
    var lastCommitTime: int
    var deadline: Option<int>

    function View(): State
      reads this
    {
      State(pending, lastCommittedSeq, lastCommittedPos, hasCommittedPos, uncommittedSeq,
            uncommittedPos, hasUncommittedPos, count, lastCommitTime, deadline)
    }

    ghost function TheWorld(): World
      reads this, store
    {
      World(View(), store.position, store.calls)
    }

    ghost predicate Valid()
      reads this
    {
      Bounded(View())
    }

    constructor (store: CheckpointStore, cfg: Config, now: int)
      ensures Valid() && this.store == store && this.cfg == cfg
      ensures World(View(), store.position, 0) == Init(cfg, store.position, now)
    {
      this.cfg := cfg;
      this.store := store;
      pending := map[];
      lastCommittedSeq, lastCommittedPos, hasCommittedPos := 0, 0, false;
      uncommittedSeq, uncommittedPos, hasUncommittedPos := 0, 0, false;
      count := 0;
      lastCommitTime := now;
      deadline := if cfg.interval > 0 then Some(now + cfg.interval) else None;
    }

    /** One turn of the walking loop. */
    method TakeNext(next: nat)
      requires next == Frontier(View()) + 1 && next in pending
      modifies this
      ensures View() == MoveOver(old(View()))
    {
      var pos := pending[next];
      pending := pending - {next};
      uncommittedSeq := next;
      uncommittedPos := pos;
      hasUncommittedPos := true;
    }

    /** The walking loop of `Commit`. */
    method AdvanceFrontier() returns (advanced: bool)
      requires Valid()
      modifies this
      ensures Valid() && View() == Walk(old(View()))
      ensures advanced == (Frontier(View()) > Frontier(old(View())))
    {
      ghost var start := View();
      var startSeq := lastCommittedSeq;
      if hasUncommittedPos {
        startSeq := uncommittedSeq;
      }
      advanced := false;
      while true
        invariant startSeq == Frontier(View()) && Valid()
        invariant Walk(View()) == Walk(start)
        invariant Frontier(start) <= startSeq && advanced == (Frontier(start) < startSeq)
        decreases |pending|
      {
        var next := Successor(startSeq);
        if next !in pending {
          break;
        }
        PendingShrinks(pending, next);
        TakeNext(next);
        startSeq := next;
        advanced := true;
      }
    }

    method Commit(position: nat, sequence: nat, now: int, storedAt: int, ok: bool) returns (failed: bool)
      requires Valid() && sequence + 1 < UINT64_RANGE
      modifies this, store
      ensures Valid()
      ensures TheWorld() == Step(cfg, old(TheWorld()), Op.Commit(position, sequence, now, storedAt, ok))
      ensures failed == Fails(cfg, old(TheWorld()), Op.Commit(position, sequence, now, storedAt, ok))
    {
      ghost var w := TheWorld();
      pending := pending[sequence := position];
      assert View() == Recorded(w.c, position, sequence);
      WalkFrame(View());
      var advanced := AdvanceFrontier();
      ghost var walked := View();

      if !advanced {
        return false;
      }
      count := count + 1;
      ghost var counted := View();
      var shouldCommit := false;
      if cfg.batchSize > 0 && count >= cfg.batchSize {
        shouldCommit := true;
      }
      if cfg.interval > 0 && now - lastCommitTime >= cfg.interval {
        shouldCommit := true;
      }
      if cfg.batchSize == 0 && cfg.interval == 0 {
        shouldCommit := true;
      }
      assert counted == walked.(count := walked.count + 1);
      assert TheWorld() == w.(c := counted);
      if !shouldCommit {
        return false;
      }
      failed := StoreUncommittedLocked(storedAt, ok);
    }

    method StoreUncommittedLocked(storedAt: int, ok: bool) returns (failed: bool)
      requires Valid()
      modifies this, store
      ensures Valid()
      ensures TheWorld() == StoreUncommitted(cfg, old(TheWorld()), storedAt, ok)
      ensures failed == (old(hasUncommittedPos) && !ok)
    {
      if !hasUncommittedPos {
        return false;
      }
      failed := store.StoreCheckpoint(uncommittedPos, ok);
      if failed {
        return;
      }
      lastCommittedSeq := uncommittedSeq;
      lastCommittedPos := uncommittedPos;
      hasCommittedPos := true;
      hasUncommittedPos := false;
      count := 0;
      lastCommitTime := storedAt;
      if cfg.interval > 0 {
        deadline := Some(storedAt + cfg.interval);
      }
    }

    method Flush(storedAt: int, ok: bool) returns (failed: bool)
      requires Valid()
      modifies this, store
      ensures Valid()
      ensures TheWorld() == Step(cfg, old(TheWorld()), Op.Flush(storedAt, ok))
      ensures failed == Fails(cfg, old(TheWorld()), Op.Flush(storedAt, ok))
    {
      failed := StoreUncommittedLocked(storedAt, ok);
    }

    method Close(storedAt: int, ok: bool) returns (failed: bool)
      requires Valid()
      modifies this, store
      ensures Valid()
      ensures TheWorld() == Step(cfg, old(TheWorld()), Op.Close(storedAt, ok))
      ensures failed == Fails(cfg, old(TheWorld()), Op.Close(storedAt, ok))
    {
      deadline := None;
      failed := Flush(storedAt, ok);
    }
  }
}
