/** Linear search over a sequence, as `std::find_if` and `std::string::find` do it. */
module SeqSearch {
  import opened Wrappers

  /** `std::find_if`: the index of the first element satisfying `p`, if any. */
  function FindIf<T>(s: seq<T>, p: T -> bool): (r: Option<nat>)
    ensures r.Some? ==> r.value < |s| && p(s[r.value])
    ensures r.Some? ==> forall k :: 0 <= k < r.value ==> !p(s[k])
    ensures r.None? ==> forall k :: 0 <= k < |s| ==> !p(s[k])
  {
    FindIfFrom(s, p, 0)
  }

  /** The search of `FindIf` from index `from` on, when no earlier element satisfies `p`. */
  function FindIfFrom<T>(s: seq<T>, p: T -> bool, from: nat): (r: Option<nat>)
    requires from <= |s|
    requires forall k :: 0 <= k < from ==> !p(s[k])
    ensures r.Some? ==> from <= r.value < |s| && p(s[r.value])
    ensures r.Some? ==> forall k :: 0 <= k < r.value ==> !p(s[k])
    ensures r.None? ==> forall k :: 0 <= k < |s| ==> !p(s[k])
    decreases |s| - from
  {
    if from == |s| then None
    else if p(s[from]) then Some(from)
    else FindIfFrom(s, p, from + 1)
  }

  /** `std::string::find` of one character: the index of its first occurrence, if any. */
  function Find(s: string, c: char): (r: Option<nat>)
    ensures r.Some? ==> r.value < |s| && s[r.value] == c && c !in s[..r.value]
    ensures r.None? <==> c !in s
  {
    var r := FindIf(s, x => x == c);
    if r.Some? then
      assert forall k :: 0 <= k < r.value ==> s[..r.value][k] != c;
      r
    else r
  }
}
