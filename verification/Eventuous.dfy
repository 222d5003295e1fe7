/** Stream names, expected versions, expected states and the errors of the library. */
module Eventuous {

  type StreamName = string

  const VERSION_NO_STREAM := -1
  const VERSION_ANY := -2

  /** Half the range of a 64-bit word: the bound below which a uint64 survives becoming an int. */
  const INT64_BOUND: nat := 0x8000_0000_0000_0000
  const MAX_INT32: nat := 0x7fff_ffff

  datatype ExpectedState = IsNew | IsExisting | IsAny

  datatype Error =
    | StreamNotFound
    | StreamAlreadyExists
    | OptimisticConcurrency
    | HandlerNotFound
    | AggregateExists
    | AggregateNotExists
    | TypeNotRegistered
    | Rejected(reason: string)

  function NewStreamName(category: string, id: string): StreamName {
    category + "-" + id
  }

  /** The index of the first dash, or the length of a name without one. */
  function FirstDash(s: StreamName): (i: nat)
    ensures i <= |s|
    ensures '-' !in s[..i]
    ensures i < |s| ==> s[i] == '-'
  {
    if s == [] || s[0] == '-' then 0 else
      assert forall k | 0 < k <= |s| :: s[..k] == [s[0]] + s[1..][..k - 1];
      1 + FirstDash(s[1..])
  }

  function Category(s: StreamName): string {
    s[..FirstDash(s)]
  }

  function ID(s: StreamName): string {
    if FirstDash(s) == |s| then "" else s[FirstDash(s) + 1..]
  }

  lemma {:induction false} FirstDashAt(s: StreamName, i: nat)
    requires i < |s| && s[i] == '-' && '-' !in s[..i]
    ensures FirstDash(s) == i
  {
    if i > 0 {
      assert s[0] == s[..i][0] && s[1..][..i - 1] == s[..i][1..];
      FirstDashAt(s[1..], i - 1);
    }
  }

  /** A name can be taken apart again exactly when its category has no dash of its own. */
  lemma StreamNameRoundTrip(category: string, id: string)
    ensures Category(NewStreamName(category, id)) == category <==> '-' !in category
    ensures '-' !in category ==> ID(NewStreamName(category, id)) == id
  {
    var s := NewStreamName(category, id);
    assert s[..|category|] == category && s[|category| + 1..] == id;
    if '-' !in category {
      FirstDashAt(s, |category|);
    }
  }

  /** Within one category different ids have different streams. */
  lemma StreamNameInjective(category: string, id1: string, id2: string)
    requires NewStreamName(category, id1) == NewStreamName(category, id2)
    ensures id1 == id2
  {
    assert NewStreamName(category, id1)[|category| + 1..] == id1;
    assert NewStreamName(category, id2)[|category| + 1..] == id2;
  }
}
