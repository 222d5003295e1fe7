/** Folding events into state, and loading that state from a stream. */
module StateLoading {
  import opened Wrappers
  import opened Eventuous
  import opened MemStore

  function Fold<S, E>(fold: (S, E) -> S, state: S, events: seq<E>): S {
    if events == [] then state
    else fold(Fold(fold, state, events[..|events| - 1]), events[|events| - 1])
  }

  lemma {:induction false} FoldConcat<S, E>(fold: (S, E) -> S, state: S, first: seq<E>, second: seq<E>)
    ensures Fold(fold, state, first + second) == Fold(fold, Fold(fold, state, first), second)
  {
    if second == [] {
      assert first + second == first;
    } else {
      var rest := second[..|second| - 1];
      FoldConcat(fold, state, first, rest);
      assert (first + second)[..|first + second| - 1] == first + rest;
    }
  }

  datatype Loaded<+S, +E> = Loaded(state: S, events: seq<E>, version: int)

  /** What a single large read returns of a stream. */
  function Window<E>(payloads: seq<E>): seq<E> {
    payloads[..Min(|payloads|, MAX_INT32)]
  }

  function LoadPayloads<S, E>(payloads: seq<E>, fold: (S, E) -> S, zero: S, expected: ExpectedState)
    : Result<Loaded<S, E>, Error>
  {
    if payloads == [] then
      if expected.IsExisting? then Err(StreamNotFound) else Ok(Loaded(zero, [], VERSION_NO_STREAM))
    else if expected.IsNew? then Err(StreamAlreadyExists)
    else Ok(Loaded(Fold(fold, zero, Window(payloads)), Window(payloads), |Window(payloads)| - 1))
  }

  method LoadState<S, E>(reader: Store<E>, stream: StreamName, fold: (S, E) -> S, zero: S, expected: ExpectedState)
    returns (r: Result<Loaded<S, E>, Error>)
    ensures r == LoadPayloads(Payloads(reader.View(), stream), fold, zero, expected)
  {
    var read := reader.ReadEvents(stream, 0, MAX_INT32);
    if read.Err? {
      if read.error != StreamNotFound {
        return Err(read.error);
      }
      match expected
      case IsNew => return Ok(Loaded(zero, [], VERSION_NO_STREAM));
      case IsAny => return Ok(Loaded(zero, [], VERSION_NO_STREAM));
      case IsExisting => return Err(read.error);
    }
    if expected.IsNew? {
      return Err(StreamAlreadyExists);
    }
    var raw := read.value;
    ghost var window := Window(Payloads(reader.View(), stream));
    assert PayloadsOf(raw) == window;
    var payloads := [];
    var state := zero;
    for i := 0 to |raw|
      invariant payloads == window[..i] && state == Fold(fold, zero, payloads)
    {
      assert window[..i + 1][..i] == window[..i];
      state := fold(state, raw[i].payload);
      payloads := payloads + [raw[i].payload];
    }
    assert window[..|raw|] == window;
    if |payloads| == 0 {
      return Ok(Loaded(state, [], VERSION_NO_STREAM));
    }
    return Ok(Loaded(state, payloads, |payloads| - 1));
  }

  /**
   Loading succeeds exactly when the stream is there as expected, and then yields the fold of
   what was read; the version it yields is the stream's own exactly when the read saw it all.
   */
  lemma LoadMeansFold<S, E>(s: State<E>, name: StreamName, fold: (S, E) -> S, zero: S, expected: ExpectedState)
    ensures var stream := Payloads(s, name);
            var r := LoadPayloads(stream, fold, zero, expected);
            && (r.Ok? <==> match expected
                           case IsNew => stream == []
                           case IsExisting => stream != []
                           case IsAny => true)
            && (r.Err? ==> r.error == if expected.IsNew? then StreamAlreadyExists else StreamNotFound)
            && (r.Ok? ==>
                  && r.value.events <= stream
                  && (|r.value.events| == |stream| || |r.value.events| == 0x7fff_ffff < |stream|)
                  && r.value.state == Fold(fold, zero, r.value.events)
                  && r.value.version == |r.value.events| - 1
                  && (r.value.version + 1 == |stream| <==> |stream| <= 0x7fff_ffff))
  {
    assert Payloads(s, name) == [] ==> Fold(fold, zero, []) == zero;
  }
}
