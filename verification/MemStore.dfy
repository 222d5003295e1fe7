/**
 The in-memory event store: per-stream event lists, an optimistic version check on every
 writing operation, and one counter of global positions.
 */
module MemStore {
  import opened Wrappers
  import opened Eventuous

  datatype StreamEvent<+E> = StreamEvent(payload: E, position: int, globalPosition: nat)

  datatype State<+E> = State(streams: map<StreamName, seq<StreamEvent<E>>>, globalPosition: nat)

  datatype AppendResult = AppendResult(globalPosition: nat, nextExpectedVersion: int)

  function Events<E>(s: State<E>, name: StreamName): seq<StreamEvent<E>> {
    if name in s.streams then s.streams[name] else []
  }

  function PayloadsOf<E>(events: seq<StreamEvent<E>>): (r: seq<E>)
    ensures |r| == |events| && forall i :: 0 <= i < |r| ==> r[i] == events[i].payload
  {
    seq(|events|, i requires 0 <= i < |events| => events[i].payload)
  }

  function Payloads<E>(s: State<E>, name: StreamName): seq<E> {
    PayloadsOf(Events(s, name))
  }

  /** The version check shared by append, delete and truncate. */
  predicate VersionMatches(expected: int, present: bool, length: nat) {
    if expected == VERSION_NO_STREAM then !(present && length > 0)
    else if expected == VERSION_ANY then true
    else length - 1 == expected
  }

  predicate Accepts<E>(s: State<E>, name: StreamName, expected: int) {
    VersionMatches(expected, name in s.streams, |Events(s, name)|)
  }

  function Stamped<E>(payloads: seq<E>, position: nat, globalPosition: nat): seq<StreamEvent<E>> {
    seq(|payloads|, i requires 0 <= i < |payloads| => StreamEvent(payloads[i], position + i, globalPosition + i))
  }

  function Appended<E>(s: State<E>, name: StreamName, payloads: seq<E>): State<E> {
    var existing := Events(s, name);
    State(s.streams[name := existing + Stamped(payloads, |existing|, s.globalPosition)], s.globalPosition + |payloads|)
  }

  function AppendOutcome<E>(events: seq<StreamEvent<E>>): AppendResult {
    AppendResult(if events == [] then 0 else events[|events| - 1].globalPosition, |events| - 1)
  }

  function Append<E>(s: State<E>, name: StreamName, expected: int, payloads: seq<E>)
    : (State<E>, Result<AppendResult, Error>)
  {
    if !Accepts(s, name, expected) then (s, Err(OptimisticConcurrency))
    else
      var s' := Appended(s, name, payloads);
      (s', Ok(AppendOutcome(Events(s', name))))
  }

  function Delete<E>(s: State<E>, name: StreamName, expected: int): (State<E>, Result<(), Error>) {
    if !Accepts(s, name, expected) then (s, Err(OptimisticConcurrency))
    else (s.(streams := s.streams - {name}), Ok(()))
  }

  function From<E>(events: seq<StreamEvent<E>>, position: nat): seq<StreamEvent<E>> {
    if events == [] then []
    else
      var rest := From(events[..|events| - 1], position);
      if events[|events| - 1].position >= position then rest + [events[|events| - 1]] else rest
  }

  function Truncate<E>(s: State<E>, name: StreamName, position: nat, expected: int): (State<E>, Result<(), Error>) {
    if !Accepts(s, name, expected) then (s, Err(OptimisticConcurrency))
    else (s.(streams := s.streams[name := From(Events(s, name), position)]), Ok(()))
  }

  function Min(a: int, b: int): int {
    if a < b then a else b
  }

  function Read<E>(s: State<E>, name: StreamName, start: nat, count: nat): Result<seq<StreamEvent<E>>, Error> {
    var events := Events(s, name);
    if events == [] then Err(StreamNotFound)
    else if start >= |events| then Ok([])
    else Ok(events[start..Min(start + count, |events|)])
  }

  function Backwards<E>(events: seq<StreamEvent<E>>, from: nat, count: nat): (r: seq<StreamEvent<E>>)
    requires from < |events|
  {
    seq(Min(count, from + 1), i requires 0 <= i <= from => events[from - i])
  }

  function ReadBackwards<E>(s: State<E>, name: StreamName, start: nat, count: nat): Result<seq<StreamEvent<E>>, Error> {
    var events := Events(s, name);
    if events == [] then Err(StreamNotFound)
    else Ok(Backwards(events, Min(start, |events| - 1), count))
  }

  // ---------------------------------------------------------------------------------------
  // The code
  // ---------------------------------------------------------------------------------------

  /** Keeps the events from `position` on, in place; the first `kept` cells hold the result. */
  method FilterInPlace<E>(a: array<StreamEvent<E>>, position: nat) returns (kept: nat)
    modifies a
    ensures kept <= a.Length
    ensures a[..kept] == From(old(a[..]), position)
  {
    kept := 0;
    ghost var was := a[..];
    for i := 0 to a.Length
      invariant kept <= i
      invariant a[i..] == was[i..]
      invariant a[..kept] == From(was[..i], position)
    {
      var e := a[i];
      ghost var seen := was[..i + 1];
      assert e == a[i..][0] == was[i..][0] == seen[|seen| - 1] && seen[..|seen| - 1] == was[..i];
      assert a[i + 1..] == was[i + 1..];
      if e.position >= position {
        a[kept] := e;
        assert a[..kept + 1] == From(was[..i], position) + [e];
        kept := kept + 1;
      }
    }
    assert was[..a.Length] == was;
  }

  class Store<E> {
    var streams: map<StreamName, seq<StreamEvent<E>>>
    var globalPosition: nat

    function View(): State<E>
      reads this
    {
      State(streams, globalPosition)
    }

    constructor ()
      ensures View() == State(map[], 0)
    {
      streams := map[];
      globalPosition := 0;
    }

    method CheckVersion(stream: StreamName, expected: int) returns (ok: bool)
      ensures ok == Accepts(View(), stream, expected)
    {
      var currentLen := if stream in streams then |streams[stream]| else 0;
      if expected == VERSION_NO_STREAM {
        if stream in streams && currentLen > 0 {
          return false;
        }
      } else if expected != VERSION_ANY {
        if currentLen - 1 != expected {
          return false;
        }
      }
      return true;
    }

    method AppendEvents(stream: StreamName, expected: int, payloads: seq<E>) returns (r: Result<AppendResult, Error>)
      modifies this
      ensures (View(), r) == Append(old(View()), stream, expected, payloads)
    {
      ghost var before := View();
      var ok := CheckVersion(stream, expected);
      if !ok {
        return Err(OptimisticConcurrency);
      }
      var existing := if stream in streams then streams[stream] else [];
      var currentLen := |existing|;
      ghost var stamped := Stamped(payloads, |existing|, globalPosition);
      for i := 0 to |payloads|
        invariant streams == before.streams && globalPosition == before.globalPosition + i
        invariant existing == Events(before, stream) + stamped[..i]
      {
        existing := existing + [StreamEvent(payloads[i], currentLen + i, globalPosition)];
        globalPosition := globalPosition + 1;
        assert stamped[..i + 1] == stamped[..i] + [stamped[i]];
      }
      assert stamped[..|payloads|] == stamped;
      streams := streams[stream := existing];
      var lastGlobalPos := 0;
      if |existing| > 0 {
        lastGlobalPos := existing[|existing| - 1].globalPosition;
      }
      return Ok(AppendResult(lastGlobalPos, |existing| - 1));
    }

    method ReadEvents(stream: StreamName, start: nat, count: nat) returns (r: Result<seq<StreamEvent<E>>, Error>)
      requires start + count < INT64_BOUND
      ensures r == Read(View(), stream, start, count)
    {
      if stream !in streams || |streams[stream]| == 0 {
        return Err(StreamNotFound);
      }
      var events := streams[stream];
      if start >= |events| {
        return Ok([]);
      }
      var end := start + count;
      if end > |events| {
        end := |events|;
      }
      return Ok(events[start..end]);
    }

    method ReadEventsBackwards(stream: StreamName, start: nat, count: nat)
      returns (r: Result<seq<StreamEvent<E>>, Error>)
      ensures r == ReadBackwards(View(), stream, start, count)
    {
      if stream !in streams || |streams[stream]| == 0 {
        return Err(StreamNotFound);
      }
      var events := streams[stream];
      var fromIdx := if start >= |events| then |events| - 1 else start;
      var result := [];
      var i := fromIdx;
      while i >= 0 && |result| < count
        invariant -1 <= i <= fromIdx && |result| == fromIdx - i <= count
        invariant result == Backwards(events, fromIdx, |result|)
      {
        result := result + [events[i]];
        i := i - 1;
      }
      assert result == Backwards(events, fromIdx, count);
      return Ok(result);
    }

    method StreamExists(stream: StreamName) returns (r: bool)
      ensures r <==> Read(View(), stream, 0, 1).Ok?
    {
      r := stream in streams && |streams[stream]| > 0;
    }

    method DeleteStream(stream: StreamName, expected: int) returns (r: Result<(), Error>)
      modifies this
      ensures (View(), r) == Delete(old(View()), stream, expected)
    {
      var ok := CheckVersion(stream, expected);
      if !ok {
        return Err(OptimisticConcurrency);
      }
      streams := streams - {stream};
      return Ok(());
    }

    method TruncateStream(stream: StreamName, position: nat, expected: int) returns (r: Result<(), Error>)
      modifies this
      ensures (View(), r) == Truncate(old(View()), stream, position, expected)
    {
      var ok := CheckVersion(stream, expected);
      if !ok {
        return Err(OptimisticConcurrency);
      }
      var existing := if stream in streams then streams[stream] else [];
      var backing := new StreamEvent<E>[|existing|](i requires 0 <= i < |existing| => existing[i]);
      assert backing[..] == existing;
      var kept := FilterInPlace(backing, position);
      streams := streams[stream := backing[..kept]];
      return Ok(());
    }
  }

  // ---------------------------------------------------------------------------------------
  // What every run keeps
  // ---------------------------------------------------------------------------------------

  datatype Op<+E> =
    | AppendOp(name: StreamName, expected: int, payloads: seq<E>)
    | DeleteOp(name: StreamName, expected: int)
    | TruncateOp(name: StreamName, position: nat, expected: int)

  function ApplyOp<E>(s: State<E>, op: Op<E>): State<E> {
    match op
    case AppendOp(name, expected, payloads) => Append(s, name, expected, payloads).0
    case DeleteOp(name, expected) => Delete(s, name, expected).0
    case TruncateOp(name, position, expected) => Truncate(s, name, position, expected).0
  }

  function RunOps<E>(ops: seq<Op<E>>): State<E> {
    if ops == [] then State(map[], 0) else ApplyOp(RunOps(ops[..|ops| - 1]), ops[|ops| - 1])
  }

  /** Global positions increase along a stream, up to a bound they all stay below. */
  ghost predicate Increasing<E>(events: seq<StreamEvent<E>>, bound: nat) {
    && (forall i, j :: 0 <= i < j < |events| ==> events[i].globalPosition < events[j].globalPosition)
    && (forall i :: 0 <= i < |events| ==> events[i].globalPosition < bound)
  }

  ghost predicate Disjoint<E>(events: seq<StreamEvent<E>>, others: seq<StreamEvent<E>>) {
    forall i, j :: 0 <= i < |events| && 0 <= j < |others| ==> events[i].globalPosition != others[j].globalPosition
  }

  /** Global positions increase along each stream and are shared by no two streams. */
  ghost predicate GloballyOrdered<E>(s: State<E>) {
    && (forall n :: n in s.streams ==> Increasing(s.streams[n], s.globalPosition))
    && (forall n, m :: n in s.streams && m in s.streams && n != m ==> Disjoint(s.streams[n], s.streams[m]))
  }

  ghost predicate Indexed<E>(events: seq<StreamEvent<E>>) {
    forall i :: 0 <= i < |events| ==> events[i].position == i
  }

  ghost predicate AllIndexed<E>(s: State<E>) {
    forall n :: n in s.streams ==> Indexed(s.streams[n])
  }

  lemma {:induction false} FromMembers<E>(events: seq<StreamEvent<E>>, position: nat)
    ensures forall e :: e in From(events, position) <==> e in events && e.position >= position
    ensures forall e :: e in From(events, position) ==> e in events
  {
    if events != [] {
      FromMembers(events[..|events| - 1], position);
      assert events == events[..|events| - 1] + [events[|events| - 1]];
    }
  }

  /** Every kept event comes from the stream, in its order. */
  lemma {:induction false} FromKeepsOrder<E>(events: seq<StreamEvent<E>>, position: nat, bound: nat)
    requires Increasing(events, bound)
    ensures Increasing(From(events, position), bound)
  {
    if events != [] {
      var rest, last := events[..|events| - 1], events[|events| - 1];
      assert Increasing(rest, last.globalPosition);
      FromKeepsOrder(rest, position, last.globalPosition);
    }
  }

  lemma DisjointSubset<E>(events: seq<StreamEvent<E>>, kept: seq<StreamEvent<E>>, others: seq<StreamEvent<E>>)
    requires Disjoint(events, others) && forall e :: e in kept ==> e in events
    ensures Disjoint(kept, others)
  {
    forall i, j | 0 <= i < |kept| && 0 <= j < |others| ensures kept[i].globalPosition != others[j].globalPosition {
      assert kept[i] in events;
    }
  }

  lemma ReplaceKeepsOrder<E>(s: State<E>, name: StreamName, events: seq<StreamEvent<E>>, bound: nat)
    requires GloballyOrdered(s) && s.globalPosition <= bound
    requires Increasing(events, bound)
    requires forall n | n in s.streams && n != name :: Disjoint(events, s.streams[n])
    ensures GloballyOrdered(State(s.streams[name := events], bound))
  {
    var streams := s.streams[name := events];
    forall n | n in streams ensures Increasing(streams[n], bound) {
      assert n in s.streams ==> Increasing(s.streams[n], s.globalPosition);
    }
    forall n, m | n in streams && m in streams && n != m ensures Disjoint(streams[n], streams[m]) {
      if n == name {
        assert Disjoint(events, s.streams[m]);
      } else if m == name {
        assert Disjoint(events, s.streams[n]);
      } else {
        assert Disjoint(s.streams[n], s.streams[m]);
      }
    }
  }

  lemma AppendKeepsOrder<E>(s: State<E>, name: StreamName, payloads: seq<E>)
    requires GloballyOrdered(s)
    ensures GloballyOrdered(Appended(s, name, payloads))
  {
    assert name in s.streams ==> Increasing(s.streams[name], s.globalPosition);
    var events := Events(s, name) + Stamped(payloads, |Events(s, name)|, s.globalPosition);
    forall n | n in s.streams && n != name ensures Disjoint(events, s.streams[n]) {
      assert Increasing(s.streams[n], s.globalPosition);
      assert name in s.streams ==> Disjoint(s.streams[name], s.streams[n]);
    }
    ReplaceKeepsOrder(s, name, events, s.globalPosition + |payloads|);
  }

  lemma StepKeepsOrder<E>(s: State<E>, op: Op<E>)
    requires GloballyOrdered(s)
    ensures GloballyOrdered(ApplyOp(s, op))
  {
    match op
    case AppendOp(name, expected, payloads) =>
      AppendKeepsOrder(s, name, payloads);
    case DeleteOp(name, expected) =>
    case TruncateOp(name, position, expected) =>
      var events := Events(s, name);
      FromKeepsOrder(events, position, s.globalPosition);
      FromMembers(events, position);
      forall n | n in s.streams && n != name ensures Disjoint(From(events, position), s.streams[n]) {
        assert Disjoint(events, s.streams[n]);
        DisjointSubset(events, From(events, position), s.streams[n]);
      }
      ReplaceKeepsOrder(s, name, From(events, position), s.globalPosition);
  }

  /** Global positions stay increasing and unshared whatever is appended, deleted or truncated. */
  lemma {:induction false} GlobalOrderAlways<E>(ops: seq<Op<E>>)
    ensures GloballyOrdered(RunOps(ops))
  {
    if ops != [] {
      GlobalOrderAlways(ops[..|ops| - 1]);
      StepKeepsOrder(RunOps(ops[..|ops| - 1]), ops[|ops| - 1]);
    }
  }

  /** Without truncation an event's position is its index. */
  lemma {:induction false} PositionIsIndex<E>(ops: seq<Op<E>>)
    requires forall op :: op in ops ==> !op.TruncateOp?
    ensures AllIndexed(RunOps(ops))
  {
    if ops != [] {
      assert ops[|ops| - 1] in ops;
      PositionIsIndex(ops[..|ops| - 1]);
    }
  }

  lemma {:induction false} FromIsSuffix<E>(events: seq<StreamEvent<E>>, position: nat)
    requires Indexed(events)
    ensures From(events, position) == if position < |events| then events[position..] else []
  {
    if events != [] {
      var rest := events[..|events| - 1];
      FromIsSuffix(rest, position);
      assert position < |rest| ==> rest[position..] + [events[|events| - 1]] == events[position..];
    }
  }

  /** A truncation keeps positions equal to indices exactly when it removes nothing or everything. */
  lemma TruncationKeepsIndexExactly<E>(s: State<E>, name: StreamName, position: nat, expected: int)
    requires AllIndexed(s) && Accepts(s, name, expected)
    ensures AllIndexed(Truncate(s, name, position, expected).0) <==> position == 0 || position >= |Events(s, name)|
  {
    FromIsSuffix(Events(s, name), position);
    var s' := Truncate(s, name, position, expected).0;
    if position != 0 && position < |Events(s, name)| {
      assert s'.streams[name][0].position == position;
    }
  }

  /** After truncation the next append numbers from the shortened length: two events at position 1. */
  lemma TruncationRepeatsPositions(a: int, b: int, c: int)
    ensures var s1 := ApplyOp(State(map[], 0), AppendOp("s", VERSION_ANY, [a, b]));
            var s2 := ApplyOp(s1, TruncateOp("s", 1, VERSION_ANY));
            var s3 := ApplyOp(s2, AppendOp("s", VERSION_ANY, [c]));
            Events(s3, "s") == [StreamEvent(b, 1, 1), StreamEvent(c, 1, 2)]
  {
    var s1 := ApplyOp(State(map[], 0), AppendOp("s", VERSION_ANY, [a, b]));
    assert Events(s1, "s") == [StreamEvent(a, 0, 0), StreamEvent(b, 1, 1)];
    FromIsSuffix(Events(s1, "s"), 1);
  }

  /** An append is accepted exactly when any version will do or the stream has the expected length. */
  lemma AppendSucceedsExactly<E>(s: State<E>, name: StreamName, expected: int, payloads: seq<E>)
    ensures Append(s, name, expected, payloads).1.Ok? <==>
              expected == -2 || expected + 1 == |Events(s, name)|
    ensures Append(s, name, expected, payloads).1.Ok? ==>
              && Payloads(Append(s, name, expected, payloads).0, name) == Payloads(s, name) + payloads
              && Append(s, name, expected, payloads).1.value.nextExpectedVersion == |Events(s, name)| + |payloads| - 1
    ensures Append(s, name, expected, payloads).1.Err? ==>
              Append(s, name, expected, payloads) == (s, Err(OptimisticConcurrency))
  {
  }

  /** It touches one stream, and reports the global position of that stream's last event. */
  lemma AppendTouchesOneStream<E>(s: State<E>, name: StreamName, expected: int, payloads: seq<E>)
    ensures forall n :: n != name ==> Events(Append(s, name, expected, payloads).0, n) == Events(s, n)
    ensures Append(s, name, expected, payloads).1.Ok? && payloads != [] ==>
              && Append(s, name, expected, payloads).1.value.globalPosition == s.globalPosition + |payloads| - 1
              && Append(s, name, expected, payloads).0.globalPosition == s.globalPosition + |payloads|
    ensures Append(s, name, expected, payloads).1.Ok? && payloads == [] ==>
              && Events(Append(s, name, expected, payloads).0, name) == Events(s, name)
              && Append(s, name, expected, payloads).1.value.globalPosition ==
                 (if Events(s, name) == [] then 0 else Events(s, name)[|Events(s, name)| - 1].globalPosition)
  {
    if Accepts(s, name, expected) && payloads == [] {
      assert Stamped(payloads, |Events(s, name)|, s.globalPosition) == [];
    }
  }

  /** New events are numbered from the stream's length and from the store's counter; the rest keep theirs. */
  lemma AppendNumbers<E>(s: State<E>, name: StreamName, expected: int, payloads: seq<E>, i: nat)
    requires Append(s, name, expected, payloads).1.Ok? && i < |Events(s, name)| + |payloads|
    ensures var before, after := Events(s, name), Events(Append(s, name, expected, payloads).0, name);
            && i < |after|
            && after[i] == if i < |before| then before[i]
                           else StreamEvent(payloads[i - |before|], i, s.globalPosition + (i - |before|))
  {
    var before := Events(s, name);
    var stamped := Stamped(payloads, |before|, s.globalPosition);
    assert Events(Append(s, name, expected, payloads).0, name) == before + stamped;
  }

  /** Deleting and truncating pass the same check, touch one stream, and fail without effect. */
  lemma RemovalSucceedsExactly<E>(s: State<E>, name: StreamName, position: nat, expected: int)
    ensures var ok := expected == -2 || expected + 1 == |Events(s, name)|;
            var (d, deleted), (t, truncated) := Delete(s, name, expected), Truncate(s, name, position, expected);
            && deleted == truncated == (if ok then Ok(()) else Err(OptimisticConcurrency))
            && Events(d, name) == (if ok then [] else Events(s, name))
            && (forall e :: e in Events(t, name) <==> e in Events(s, name) && (ok ==> e.position >= position))
            && (forall n :: n != name ==> Events(d, n) == Events(s, n) && Events(t, n) == Events(s, n))
            && d.globalPosition == t.globalPosition == s.globalPosition
  {
    FromMembers(Events(s, name), position);
  }

  // ---------------------------------------------------------------------------------------
  // Reading
  // ---------------------------------------------------------------------------------------

  /**
   A forward read fails exactly on a stream without events, and otherwise yields what the stream
   holds from the start on, as far as asked and as far as there is any.
   */
  lemma ReadMeans<E>(s: State<E>, name: StreamName, start: nat, count: nat)
    ensures var events, r := Events(s, name), Read(s, name, start, count);
            if events == [] then r == Err(StreamNotFound)
            else
              var left := if start < |events| then |events| - start else 0;
              && r.Ok?
              && |r.value| == (if count < left then count else left)
              && (forall i :: 0 <= i < |r.value| ==> start + i < |events| && r.value[i] == events[start + i])
  {
  }

  /** Reads pages of `size` from `start` on until one comes back empty, and joins them. */
  function ReadPages<E>(s: State<E>, name: StreamName, start: nat, size: nat): seq<StreamEvent<E>>
    requires size > 0
    decreases |Events(s, name)| - start
  {
    var page := Read(s, name, start, size);
    if page.Err? || page.value == [] then [] else page.value + ReadPages(s, name, start + |page.value|, size)
  }

  /** However large the pages, forward reading yields the rest of the stream, each event once. */
  lemma {:induction false} PagesConcatenate<E>(s: State<E>, name: StreamName, start: nat, size: nat)
    requires size > 0 && start <= |Events(s, name)|
    ensures ReadPages(s, name, start, size) == Events(s, name)[start..]
    decreases |Events(s, name)| - start
  {
    var events := Events(s, name);
    if start < |events| {
      var end := Min(start + size, |events|);
      PagesConcatenate(s, name, end, size);
      assert events[start..end] + events[end..] == events[start..];
    }
  }

  function Reverse<T>(xs: seq<T>): seq<T> {
    if xs == [] then [] else Reverse(xs[1..]) + [xs[0]]
  }

  lemma {:induction false} ReverseAt<T>(xs: seq<T>, k: nat)
    requires k < |xs|
    ensures |Reverse(xs)| == |xs| && Reverse(xs)[k] == xs[|xs| - 1 - k]
  {
    if |xs| > 1 {
      ReverseAt(xs[1..], if k < |xs| - 1 then k else 0);
    }
  }

  /**
   Reading backwards yields the reverse of the stream up to the start, as far as asked; a start
   beyond the end, such as the largest 64-bit value, means the last event.
   */
  lemma BackwardIsReverse<E>(s: State<E>, name: StreamName, start: nat, count: nat)
    ensures var events, r := Events(s, name), ReadBackwards(s, name, start, count);
            if events == [] then r == Err(StreamNotFound)
            else
              var upTo := events[..if start < |events| then start + 1 else |events|];
              && |Reverse(upTo)| == |upTo|
              && r == Ok(Reverse(upTo)[..if count < |upTo| then count else |upTo|])
  {
    if Events(s, name) == [] {
      return;
    }
    var events := Events(s, name);
    var from := Min(start, |events| - 1);
    var upTo := events[..from + 1];
    ReverseAt(upTo, 0);
    var read := Backwards(events, from, count);
    forall k | 0 <= k < |read| ensures Reverse(upTo)[k] == read[k] {
      ReverseAt(upTo, k);
    }
    assert read == Reverse(upTo)[..Min(count, |upTo|)];
  }

  /** In particular a full backward read is the reverse of the stream. */
  lemma FullBackwardReadIsReverse<E>(s: State<E>, name: StreamName, start: nat, count: nat)
    requires Events(s, name) != [] && start + 1 >= |Events(s, name)| && count >= |Events(s, name)|
    ensures ReadBackwards(s, name, start, count) == Ok(Reverse(Events(s, name)))
  {
    BackwardIsReverse(s, name, start, count);
    var events := Events(s, name);
    assert events[..|events|] == events;
    assert Reverse(events)[..|Reverse(events)|] == Reverse(events);
  }
}
