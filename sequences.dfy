/** Sequence helpers shared by the serializer and the deployment model. */
module Sequences {

  /** Ruby's `Enumerable#map`: one result per element, in order. */
  function Map<A, B>(f: A -> B, s: seq<A>): seq<B>
  {
    seq(|s|, i requires 0 <= i < |s| => f(s[i]))
  }

  /** The index of the first element of `s` that lies in `bad`, or `|s|` if there is none.
      A loop that stops at its first failing call has made exactly this many successful calls. */
  function FirstIn<T>(s: seq<T>, bad: set<T>): (k: nat)
    ensures k <= |s|
    ensures forall j :: 0 <= j < k ==> s[j] !in bad
    ensures k < |s| ==> s[k] in bad
  {
    if s == [] || s[0] in bad then 0 else 1 + FirstIn(s[1..], bad)
  }
}
