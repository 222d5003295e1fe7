/**
 The committer under a clock. Calls and timer firings are instants on one time line; a critical
 section takes no time, and an armed timer fires exactly at its deadline. The store may refuse
 any write.
 */
module CommitterTimer {
  import opened Wrappers
  import opened Committer
  import opened CommitterRuns

  datatype Event = Completion(position: nat, sequence: nat) | FlushCall | TimerFires

  /** `ok` says whether the store accepts the write, should this instant attempt one. */
  datatype Tick = Tick(at: int, event: Event, ok: bool)

  /** `waitingSince`: the instant since which an advanced position has been unstored. */
  datatype Timed = Timed(w: World, now: int, waitingSince: int)

  /** The timer goes off, which disarms it, and its function flushes. */
  function Fire(cfg: Config, w: World, at: int, ok: bool): World {
    Step(cfg, w.(c := w.c.(deadline := None)), Flush(at, ok))
  }

  function Apply(cfg: Config, w: World, tick: Tick): World {
    match tick.event
    case Completion(position, sequence) => Step(cfg, w, Commit(position, sequence, tick.at, tick.at, tick.ok))
    case FlushCall => Step(cfg, w, Flush(tick.at, tick.ok))
    case TimerFires => Fire(cfg, w, tick.at, tick.ok)
  }

  function After(cfg: Config, t: Timed, tick: Tick): Timed {
    var w := Apply(cfg, t.w, tick);
    Timed(w, tick.at, if t.w.c.hasUncommittedPos && w.c.hasUncommittedPos then t.waitingSince else tick.at)
  }

  /** Time does not run backwards, nor past a deadline at which the timer has yet to fire. */
  ghost predicate Punctual(t: Timed, tick: Tick) {
    && t.now <= tick.at
    && (t.w.c.deadline.Some? ==> tick.at <= t.w.c.deadline.value)
    && (tick.event.TimerFires? ==> t.w.c.deadline == Some(tick.at))
  }

  function Begin(cfg: Config, base: Option<nat>, start: int): Timed {
    Timed(Init(cfg, base, start), start, start)
  }

  function TimedRun(cfg: Config, t0: Timed, ticks: seq<Tick>): Timed {
    if ticks == [] then t0
    else After(cfg, TimedRun(cfg, t0, ticks[..|ticks| - 1]), ticks[|ticks| - 1])
  }

  ghost predicate Legal(cfg: Config, t0: Timed, ticks: seq<Tick>) {
    forall i | 0 <= i < |ticks| :: Punctual(TimedRun(cfg, t0, ticks[..i]), ticks[i])
  }

  lemma TimedRunLast(cfg: Config, t0: Timed, ticks: seq<Tick>, tick: Tick)
    ensures TimedRun(cfg, t0, ticks + [tick]) == After(cfg, TimedRun(cfg, t0, ticks), tick)
  {
    assert (ticks + [tick])[..|ticks + [tick]| - 1] == ticks;
  }

  lemma LegalLast(cfg: Config, t0: Timed, ticks: seq<Tick>, tick: Tick)
    ensures Legal(cfg, t0, ticks + [tick]) <==>
              Legal(cfg, t0, ticks) && Punctual(TimedRun(cfg, t0, ticks), tick)
  {
    var all := ticks + [tick];
    assert forall i | 0 <= i <= |ticks| :: all[..i] == ticks[..i];
    assert forall i | 0 <= i < |ticks| :: all[i] == ticks[i];
    assert ticks[..|ticks|] == ticks && all[|ticks|] == tick;
    if Legal(cfg, t0, all) {
      assert Punctual(TimedRun(cfg, t0, all[..|ticks|]), all[|ticks|]);
      forall i | 0 <= i < |ticks| ensures Punctual(TimedRun(cfg, t0, ticks[..i]), ticks[i]) {
        assert Punctual(TimedRun(cfg, t0, all[..i]), all[i]);
      }
    }
  }

  // ---------------------------------------------------------------------------------------
  // When the interval lapses
  // ---------------------------------------------------------------------------------------

  predicate Writes(cfg: Config, t: Timed, tick: Tick) {
    tick.ok && After(cfg, t, tick).w.calls > t.w.calls
  }

  predicate Refused(cfg: Config, t: Timed, tick: Tick) {
    !tick.ok && After(cfg, t, tick).w.calls > t.w.calls
  }

  /** A refused write that no armed timer will make up for: the timer has just fired, or had before. */
  predicate Lapses(cfg: Config, t: Timed, tick: Tick) {
    Refused(cfg, t, tick) && (tick.event.TimerFires? || t.w.c.deadline.None?)
  }

  predicate WritesAt(cfg: Config, t0: Timed, ticks: seq<Tick>, i: nat)
    requires i < |ticks|
  {
    Writes(cfg, TimedRun(cfg, t0, ticks[..i]), ticks[i])
  }

  predicate LapsesAt(cfg: Config, t0: Timed, ticks: seq<Tick>, i: nat)
    requires i < |ticks|
  {
    Lapses(cfg, TimedRun(cfg, t0, ticks[..i]), ticks[i])
  }

  /** Since the last good write, some write was refused by a firing, or while no timer was armed. */
  ghost predicate Lapsed(cfg: Config, t0: Timed, ticks: seq<Tick>) {
    exists i: nat :: i < |ticks| && LapsesAt(cfg, t0, ticks, i)
                     && forall j: nat :: i < j < |ticks| ==> !WritesAt(cfg, t0, ticks, j)
  }

  lemma LapsedLast(cfg: Config, t0: Timed, ticks: seq<Tick>, tick: Tick)
    ensures var t := TimedRun(cfg, t0, ticks);
            Lapsed(cfg, t0, ticks + [tick]) <==>
              Lapses(cfg, t, tick) || (Lapsed(cfg, t0, ticks) && !Writes(cfg, t, tick))
  {
    var all, n := ticks + [tick], |ticks|;
    assert all[..n] == ticks && all[n] == tick;
    forall i: nat | i < n
      ensures WritesAt(cfg, t0, all, i) <==> WritesAt(cfg, t0, ticks, i)
      ensures LapsesAt(cfg, t0, all, i) <==> LapsesAt(cfg, t0, ticks, i)
    {
      assert all[..i] == ticks[..i];
    }
    assert LapsesAt(cfg, t0, all, n) <==> Lapses(cfg, TimedRun(cfg, t0, ticks), tick);
    assert WritesAt(cfg, t0, all, n) <==> Writes(cfg, TimedRun(cfg, t0, ticks), tick);
    if Lapsed(cfg, t0, ticks) && !WritesAt(cfg, t0, all, n) {
      var i: nat :| i < n && LapsesAt(cfg, t0, ticks, i)
                    && forall j: nat :: i < j < n ==> !WritesAt(cfg, t0, ticks, j);
      assert LapsesAt(cfg, t0, all, i);
    }
  }

  /** An unarmed timer has fired in vain, so the next advance is due at once by the clock. */
  ghost predicate TimerInv(cfg: Config, t: Timed) {
    var c := t.w.c;
    && c.lastCommitTime <= t.waitingSince <= t.now
    && Frontier(c) + 1 !in c.pending
    && (if c.deadline.Some? then c.deadline.value == c.lastCommitTime + cfg.interval && t.now <= c.deadline.value
        else c.lastCommitTime + cfg.interval <= t.now)
  }

  /** An advanced position is unstored and no timer is armed. */
  predicate Stranded(t: Timed) {
    t.w.c.hasUncommittedPos && t.w.c.deadline.None?
  }

  lemma AfterKeepsTimerInv(cfg: Config, t: Timed, tick: Tick)
    requires cfg.interval > 0 && TimerInv(cfg, t) && Punctual(t, tick)
    ensures TimerInv(cfg, After(cfg, t, tick))
    ensures Stranded(After(cfg, t, tick)) <==> Lapses(cfg, t, tick) || (Stranded(t) && !Writes(cfg, t, tick))
  {
    if tick.event.Completion? {
      var c := Recorded(t.w.c, tick.event.position, tick.event.sequence);
      WalkFrame(c);
      WalkStopsAtGap(c);
    }
  }

  lemma {:induction false} RunKeepsTimerInv(cfg: Config, t0: Timed, ticks: seq<Tick>)
    requires cfg.interval > 0 && TimerInv(cfg, t0) && !Stranded(t0) && Legal(cfg, t0, ticks)
    ensures TimerInv(cfg, TimedRun(cfg, t0, ticks))
    ensures Stranded(TimedRun(cfg, t0, ticks)) <==> Lapsed(cfg, t0, ticks)
  {
    if ticks != [] {
      var rest, tick := ticks[..|ticks| - 1], ticks[|ticks| - 1];
      assert ticks == rest + [tick];
      LegalLast(cfg, t0, rest, tick);
      RunKeepsTimerInv(cfg, t0, rest);
      AfterKeepsTimerInv(cfg, TimedRun(cfg, t0, rest), tick);
      LapsedLast(cfg, t0, rest, tick);
    }
  }

  /**
   While an advanced position is unstored the timer is armed for one interval after the last
   write, which is within an interval of the advance, and its firing stores everything if the
   store lets it.
   */
  ghost predicate StoredInTime(cfg: Config, t: Timed) {
    var c := t.w.c;
    c.hasUncommittedPos ==>
      && c.deadline == Some(c.lastCommitTime + cfg.interval)
      && t.now <= c.deadline.value <= t.waitingSince + cfg.interval
      && Unstored(Fire(cfg, t.w, c.deadline.value, true).c) == 0
      && Fire(cfg, t.w, c.deadline.value, true).stored == Some(c.uncommittedPos)
  }

  /** With no timer armed, the next call that advances the frontier asks the store at once. */
  ghost predicate UnarmedAsksAtNextAdvance(cfg: Config, t: Timed, at: int, position: nat, ok: bool) {
    t.w.c.deadline.None? && t.now <= at ==>
      var tick := Tick(at, Completion(position, Frontier(t.w.c) + 1), ok);
      var r := After(cfg, t, tick);
      && Frontier(r.w.c) > Frontier(t.w.c) && (if ok then Writes(cfg, t, tick) else Lapses(cfg, t, tick))
      && (ok ==> Unstored(r.w.c) == 0 && r.w.c.deadline == Some(at + cfg.interval))
  }

  lemma InvStoresInTime(cfg: Config, t: Timed, at: int, position: nat, ok: bool)
    requires cfg.interval > 0 && TimerInv(cfg, t)
    ensures StoredInTime(cfg, t) <==> !Stranded(t)
    ensures UnarmedAsksAtNextAdvance(cfg, t, at, position, ok)
  {
    WalkFrame(Recorded(t.w.c, position, Frontier(t.w.c) + 1));
  }

  /** A position has stayed unstored for longer than the interval. */
  predicate Overdue(cfg: Config, t: Timed) {
    t.w.c.hasUncommittedPos && t.now > t.waitingSince + cfg.interval
  }

  /** Nothing but a gap's neighbours is reported. */
  predicate LeavesGap(t: Timed, tick: Tick) {
    tick.event.Completion? && tick.event.sequence != Frontier(t.w.c) + 1
  }

  lemma StrandedStays(cfg: Config, t: Timed, tick: Tick)
    requires Frontier(t.w.c) + 1 !in t.w.c.pending && Stranded(t) && LeavesGap(t, tick)
    ensures var r := After(cfg, t, tick);
            && Stranded(r) && r.now == tick.at && r.waitingSince == t.waitingSince
            && r.w.stored == t.w.stored && r.w.calls == t.w.calls
            && Frontier(r.w.c) == Frontier(t.w.c) && Frontier(r.w.c) + 1 !in r.w.c.pending
  {
    WalkFrame(Recorded(t.w.c, tick.event.position, tick.event.sequence));
  }

  /** The very next instant can find a position overdue exactly when the interval has lapsed. */
  lemma OverdueNextExactly(cfg: Config, t: Timed)
    requires cfg.interval > 0 && TimerInv(cfg, t)
    ensures Stranded(t) <==> exists tick :: Punctual(t, tick) && Overdue(cfg, After(cfg, t, tick))
  {
    if Stranded(t) {
      var tick := Tick(t.now + cfg.interval + 1, Completion(0, Frontier(t.w.c) + 2), true);
      StrandedStays(cfg, t, tick);
      assert Punctual(t, tick);
    }
  }

  /**
   The promise of the interval, for every history of reports, flushes, firings and refused writes:
   it is kept as long as, since the last good write, no write was refused by a firing or while no
   timer was armed, and otherwise it can be broken at the next instant. Whatever happened, without
   a timer armed the next advance asks the store again.
   */
  lemma TimedCommit(cfg: Config, base: Option<nat>, start: int, ticks: seq<Tick>, at: int, position: nat, ok: bool)
    requires cfg.interval > 0 && Legal(cfg, Begin(cfg, base, start), ticks)
    ensures var t := TimedRun(cfg, Begin(cfg, base, start), ticks);
            && (StoredInTime(cfg, t) <==> !Lapsed(cfg, Begin(cfg, base, start), ticks))
            && (Stranded(t) <==> Lapsed(cfg, Begin(cfg, base, start), ticks))
            && ((exists tick :: Punctual(t, tick) && Overdue(cfg, After(cfg, t, tick)))
                <==> Lapsed(cfg, Begin(cfg, base, start), ticks))
            && UnarmedAsksAtNextAdvance(cfg, t, at, position, ok)
  {
    RunKeepsTimerInv(cfg, Begin(cfg, base, start), ticks);
    InvStoresInTime(cfg, TimedRun(cfg, Begin(cfg, base, start), ticks), at, position, ok);
    OverdueNextExactly(cfg, TimedRun(cfg, Begin(cfg, base, start), ticks));
  }

  /** So a working store has every advanced position within the interval, at every instant of a run. */
  lemma WorkingStoreIsInTime(cfg: Config, base: Option<nat>, start: int, ticks: seq<Tick>)
    requires cfg.interval > 0 && Legal(cfg, Begin(cfg, base, start), ticks)
    requires forall tick | tick in ticks :: tick.ok
    ensures var t := TimedRun(cfg, Begin(cfg, base, start), ticks); StoredInTime(cfg, t) && !Overdue(cfg, t)
  {
    TimedCommit(cfg, base, start, ticks, 0, 0, true);
  }

  // ---------------------------------------------------------------------------------------
  // Runs whose interval has lapsed
  // ---------------------------------------------------------------------------------------

  /** Reports made at later and later instants, none of which fills the gap in front of f. */
  ghost predicate ReportsBeyondGap(now: int, f: nat, more: seq<Tick>) {
    && (forall i :: 0 <= i < |more| ==>
          more[i].event.Completion? && more[i].event.sequence != f + 1 && now <= more[i].at)
    && (forall i, j :: 0 <= i < j < |more| ==> more[i].at <= more[j].at)
  }

  /** What was unstored still is: the store has not even been asked, and no timer is armed. */
  ghost predicate StillWaits(t: Timed, r: Timed) {
    && Stranded(r) && r.waitingSince == t.waitingSince
    && r.w.stored == t.w.stored && r.w.calls == t.w.calls && Frontier(r.w.c) == Frontier(t.w.c)
  }

  lemma LapsedWaitsOnce(cfg: Config, t: Timed, x: Timed, tick: Tick)
    requires cfg.interval > 0 && TimerInv(cfg, x) && StillWaits(t, x) && LeavesGap(x, tick) && x.now <= tick.at
    ensures Punctual(x, tick) && After(cfg, x, tick).now == tick.at
    ensures TimerInv(cfg, After(cfg, x, tick)) && StillWaits(t, After(cfg, x, tick))
  {
    StrandedStays(cfg, x, tick);
    AfterKeepsTimerInv(cfg, x, tick);
  }

  lemma {:induction false} LapsedWaits(cfg: Config, t: Timed, more: seq<Tick>)
    requires cfg.interval > 0 && TimerInv(cfg, t) && Stranded(t)
    requires ReportsBeyondGap(t.now, Frontier(t.w.c), more)
    ensures var r := TimedRun(cfg, t, more);
            TimerInv(cfg, r) && StillWaits(t, r) && r.now == if more == [] then t.now else more[|more| - 1].at
  {
    if more != [] {
      var rest := more[..|more| - 1];
      LapsedWaits(cfg, t, rest);
      LapsedWaitsOnce(cfg, t, TimedRun(cfg, t, rest), more[|more| - 1]);
    }
  }

  /** After a lapse nothing is stored, however long one waits, until the frontier advances. */
  lemma LapsedRunWaits(cfg: Config, base: Option<nat>, start: int, ticks: seq<Tick>, more: seq<Tick>)
    requires var t := TimedRun(cfg, Begin(cfg, base, start), ticks);
             && cfg.interval > 0 && Legal(cfg, Begin(cfg, base, start), ticks)
             && Lapsed(cfg, Begin(cfg, base, start), ticks)
             && ReportsBeyondGap(t.now, Frontier(t.w.c), more)
    ensures var t := TimedRun(cfg, Begin(cfg, base, start), ticks);
            && Legal(cfg, t, more) && StillWaits(t, TimedRun(cfg, t, more))
  {
    RunKeepsTimerInv(cfg, Begin(cfg, base, start), ticks);
    var t := TimedRun(cfg, Begin(cfg, base, start), ticks);
    LapsedWaits(cfg, t, more);
    forall i | 0 <= i < |more| ensures Punctual(TimedRun(cfg, t, more[..i]), more[i]) {
      LapsedWaits(cfg, t, more[..i]);
      LapsedWaitsOnce(cfg, t, TimedRun(cfg, t, more[..i]), more[i]);
    }
  }

  lemma TwoTicks(cfg: Config, t0: Timed, first: Tick, second: Tick)
    ensures TimedRun(cfg, t0, [first, second]) == After(cfg, After(cfg, t0, first), second)
    ensures Legal(cfg, t0, [first, second]) <==> Punctual(t0, first) && Punctual(After(cfg, t0, first), second)
  {
    assert [] + [first] == [first] && [first] + [second] == [first, second];
    TimedRunLast(cfg, t0, [], first);
    TimedRunLast(cfg, t0, [first], second);
    LegalLast(cfg, t0, [], first);
    LegalLast(cfg, t0, [first], second);
  }

  /** A first lapse, from the start: the first event is reported, and the write of the firing is refused. */
  lemma RefusedFiringLapses(cfg: Config, base: Option<nat>, start: int, position: nat)
    requires cfg.interval > 0
    ensures var ticks := [Tick(start, Completion(position, 1), false), Tick(start + cfg.interval, TimerFires, false)];
            Legal(cfg, Begin(cfg, base, start), ticks) && Lapsed(cfg, Begin(cfg, base, start), ticks)
  {
    var first, second := Tick(start, Completion(position, 1), false), Tick(start + cfg.interval, TimerFires, false);
    WalkFrame(Recorded(Init(cfg, base, start).c, position, 1));
    TwoTicks(cfg, Begin(cfg, base, start), first, second);
    RunKeepsTimerInv(cfg, Begin(cfg, base, start), [first, second]);
  }

  /** A second one: the timer fires with nothing to store, and the write of the next report is refused. */
  lemma IdleFiringThenRefusedReportLapses(cfg: Config, base: Option<nat>, start: int, position: nat, later: nat)
    requires cfg.interval > 0
    ensures var fires := start + cfg.interval;
            var ticks := [Tick(fires, TimerFires, true), Tick(fires + later, Completion(position, 1), false)];
            Legal(cfg, Begin(cfg, base, start), ticks) && Lapsed(cfg, Begin(cfg, base, start), ticks)
  {
    var fires := start + cfg.interval;
    var first, second := Tick(fires, TimerFires, true), Tick(fires + later, Completion(position, 1), false);
    var t0 := Begin(cfg, base, start);
    WalkFrame(Recorded(After(cfg, t0, first).w.c, position, 1));
    TwoTicks(cfg, t0, first, second);
    RunKeepsTimerInv(cfg, t0, [first, second]);
  }

  // ---------------------------------------------------------------------------------------
  // When the timer is armed again
  // ---------------------------------------------------------------------------------------

  /**
   After any history a firing arms the timer again exactly when the event after the checkpoint
   had been reported and the store takes the write. So does closing, which is meant to stop it;
   that timer's firing then does nothing unless reports come after closing.
   */
  lemma RearmedExactlyWhenStored(cfg: Config, base: Option<nat>, start: int, ops: seq<Op>, at: int, ok: bool,
                                 later: int, laterOk: bool)
    requires cfg.interval > 0
    ensures var w := Fresh(cfg, base, start, ops);
            var fired, closed := Fire(cfg, w, at, ok), Fresh(cfg, base, start, ops + [Close(at, ok)]);
            var waiting := w.c.lastCommittedSeq + 1 in Completed(ops);
            && (fired.c.deadline.Some? <==> waiting && ok)
            && (Unstored(fired.c) > 0 <==> waiting && !ok)
            && (closed.c.deadline.Some? <==> waiting && ok)
            && (closed.c.deadline.Some? ==> Fire(cfg, closed, later, laterOk).calls == closed.calls)
  {
    RunLast(cfg, Init(cfg, base, start), ops, Close(at, ok));
    RunKeepsGapInv(cfg, base, start, ops);
  }
}
