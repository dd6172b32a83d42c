/** Index scans over a sequence: the primitives that locate the partner speaker before a
    dual speaker and the end of its dialogue after it. Indices are `nat`s; the Rust
    `usize` arithmetic never wraps for the indices a slice can have. */
module Utils {
  import opened Data

  /** `position_before`: the greatest index below `end` whose element satisfies `p`,
      scanning `end - 1, end - 2, …, 0`. The source indexes `slice[i]` for every `i < end`,
      so `end` may not exceed the length. */
  function PositionBefore<T>(s: seq<T>, end: nat, p: T -> bool): (r: Option<nat>)
    requires end <= |s|
    decreases end
    ensures r.Some? ==> r.value < end && p(s[r.value])
    ensures r.Some? ==> forall j :: r.value < j < end ==> !p(s[j])
    ensures r.None? <==> forall j :: 0 <= j < end ==> !p(s[j])
  {
    if end == 0 then None
    else if p(s[end - 1]) then Some(end - 1)
    else PositionBefore(s, end - 1, p)
  }

  /** The least index `i >= from` whose element satisfies `p`, if any. */
  function FirstFrom<T>(s: seq<T>, from: nat, p: T -> bool): (r: Option<nat>)
    decreases |s| - from
    ensures r.Some? ==> from <= r.value < |s| && p(s[r.value])
    ensures r.Some? ==> forall j :: from <= j < r.value ==> !p(s[j])
    ensures r.None? <==> forall j :: from <= j < |s| ==> !p(s[j])
  {
    if from >= |s| then None
    else if p(s[from]) then Some(from)
    else FirstFrom(s, from + 1, p)
  }

  /** `position_after`: the least index above `start` whose element satisfies `p`. Any
      `start` is accepted; past the end there is simply nothing to find. */
  function PositionAfter<T>(s: seq<T>, start: nat, p: T -> bool): (r: Option<nat>)
    ensures r.Some? ==> start < r.value < |s| && p(s[r.value])
    ensures r.Some? ==> forall j :: start < j < r.value ==> !p(s[j])
    ensures r.None? <==> forall j :: start < j < |s| ==> !p(s[j])
  {
    FirstFrom(s, start + 1, p)
  }

  /** The two scans bracket a region: after the last match before `end`, the next match
      is at `end` or later. */
  lemma BeforeThenAfter<T>(s: seq<T>, end: nat, p: T -> bool)
    requires end <= |s|
    ensures PositionBefore(s, end, p).Some? ==>
              var i := PositionBefore(s, end, p).value;
              PositionAfter(s, i, p).None? || end <= PositionAfter(s, i, p).value
  {
  }

  /** Any index that satisfies the characterisation of `position_before` is its result. */
  lemma PositionBeforeUnique<T>(s: seq<T>, end: nat, p: T -> bool, i: nat)
    requires end <= |s| && i < end && p(s[i]) && forall j :: i < j < end ==> !p(s[j])
    ensures PositionBefore(s, end, p) == Some(i)
  {
  }

  /** Any index that satisfies the characterisation of `position_after` is its result. */
  lemma PositionAfterUnique<T>(s: seq<T>, start: nat, p: T -> bool, i: nat)
    requires start < i < |s| && p(s[i]) && forall j :: start < j < i ==> !p(s[j])
    ensures PositionAfter(s, start, p) == Some(i)
  {
  }

  /** The unit tests: over `0..10`, the last odd number before index 5 is at 3, and the
      first even number after index 6 is at 8. */
  lemma PositionExamples(s: seq<int>)
    requires s == [0, 1, 2, 3, 4, 5, 6, 7, 8, 9]
    ensures PositionBefore(s, 5, x => x % 2 == 1) == Some(3)
    ensures PositionAfter(s, 6, x => x % 2 == 0) == Some(8)
  {
    PositionBeforeUnique(s, 5, x => x % 2 == 1, 3);
    PositionAfterUnique(s, 6, x => x % 2 == 0, 8);
  }
}
