/** Small shared vocabulary: an optional value and "the first index where a
    condition holds", the shape of every `while True` loop in the chat service
    that ends at the first input it does not simply absorb. */
module Util {

  datatype Option<T> = None | Some(value: T)

  /** The index of the first element of `s` that satisfies `stop`, or `|s|`
      when none does. The three ensures clauses determine it uniquely. */
  function FirstWhere<T>(s: seq<T>, stop: T -> bool): (i: nat)
    ensures i <= |s|
    ensures forall j :: 0 <= j < i ==> !stop(s[j])
    ensures i < |s| ==> stop(s[i])
  {
    if s == [] then 0
    else if stop(s[0]) then 0
    else 1 + FirstWhere(s[1..], stop)
  }

  /** Any index with the three properties of FirstWhere is FirstWhere. */
  lemma FirstWhereIs<T>(s: seq<T>, stop: T -> bool, i: nat)
    requires i <= |s|
    requires forall j :: 0 <= j < i ==> !stop(s[j])
    requires i < |s| ==> stop(s[i])
    ensures FirstWhere(s, stop) == i
  {
  }
}
