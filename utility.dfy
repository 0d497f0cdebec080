/**
 * The two helpers of src/utility/utility.hpp: removing a vector element in
 * constant time by moving the last element into its slot, and a suffix test.
 */
module Utility {

  /**
   * swapAndPop: the element at `index` is replaced by the last element and
   * the vector shrinks by one. `index` must name an element (the source
   * indexes the vector there and pops from it).
   */
  function SwapAndPop<T>(container: seq<T>, index: nat): (r: seq<T>)
    requires index < |container|
    ensures |r| == |container| - 1
    ensures index < |r| ==> r[index] == container[|container| - 1]
    ensures forall i :: 0 <= i < |r| && i != index ==> r[i] == container[i]
    ensures multiset(r) == multiset(container) - multiset{container[index]}
  {
    var last := |container| - 1;
    if index != last then
      var swapped := container[index := container[last]][last := container[index]];
      assert multiset(swapped) == multiset(container) by { SwapPreservesMultiset(container, index, last); }
      assert swapped == swapped[..last] + [container[index]];
      swapped[..last]
    else
      assert container == container[..last] + [container[index]];
      container[..last]
  }

  lemma SwapPreservesMultiset<T>(s: seq<T>, i: nat, j: nat)
    requires i < j < |s|
    ensures multiset(s[i := s[j]][j := s[i]]) == multiset(s)
  {
    var t := s[i := s[j]][j := s[i]];
    SplitAround(s, i, j);
    SplitAround(t, i, j);
    assert t[..i] == s[..i] && t[i + 1..j] == s[i + 1..j] && t[j + 1..] == s[j + 1..];
    var a, b, c := multiset(s[..i]), multiset(s[i + 1..j]), multiset(s[j + 1..]);
    assert multiset(s) == a + multiset{s[i]} + b + multiset{s[j]} + c;
    assert multiset(t) == a + multiset{s[j]} + b + multiset{s[i]} + c;
  }

  /** A sequence is its pieces around two positions. */
  lemma SplitAround<T>(s: seq<T>, i: nat, j: nat)
    requires i < j < |s|
    ensures s == s[..i] + [s[i]] + s[i + 1..j] + [s[j]] + s[j + 1..]
  {
  }

  /**
   * swapAndPop on the vector's buffer: the first `size` slots of `buffer`
   * hold the vector. When `index` is not the back, its element and the back
   * element trade places; then the size drops by one, leaving the removed
   * element in the first slot past the end.
   */
  method SwapAndPopInPlace<T>(buffer: array<T>, size: nat, index: nat) returns (newSize: nat)
    requires index < size <= buffer.Length
    modifies buffer
    ensures newSize == size - 1
    ensures buffer[..newSize] == SwapAndPop(old(buffer[..size]), index)
    ensures buffer[newSize] == old(buffer[index])
    ensures buffer[size..] == old(buffer[size..])
  {
    if index + 1 != size {
      var back := buffer[size - 1];
      buffer[size - 1] := buffer[index];
      buffer[index] := back;
    }
    newSize := size - 1;
  }

  /**
   * endsWith: false when `ending` is longer than `value`; otherwise the
   * characters are compared from the back, as `std::equal` over the reverse
   * iterators does.
   */
  function EndsWith(value: string, ending: string): (r: bool)
    ensures r <==> |ending| <= |value| && value[|value| - |ending|..] == ending
  {
    if |ending| > |value| then false
    else EqualFromBack(value, ending)
  }

  function EqualFromBack(value: string, ending: string): (r: bool)
    requires |ending| <= |value|
    ensures r <==> value[|value| - |ending|..] == ending
  {
    if |ending| == 0 then true
    else if value[|value| - 1] != ending[|ending| - 1] then
      assert value[|value| - |ending|..][|ending| - 1] == value[|value| - 1];
      false
    else
      var r := EqualFromBack(value[..|value| - 1], ending[..|ending| - 1]);
      assert value[|value| - |ending|..] == value[..|value| - 1][|value| - |ending|..] + [value[|value| - 1]];
      assert ending == ending[..|ending| - 1] + [ending[|ending| - 1]];
      r
  }
}
