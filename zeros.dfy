/** Moving the zeros of a list to its end, keeping the order of the other
    elements (Day3/day3-all-zero-to-end.py): the two-list version that runs
    and the commented-out append-then-pad version. */
module MoveZeros {

  /** The non-zero elements, in their original order. */
  function NonZeros(s: seq<int>): (r: seq<int>)
    ensures |r| <= |s|
    ensures forall i :: 0 <= i < |r| ==> r[i] != 0
  {
    if s == [] then []
    else NonZeros(s[..|s| - 1]) + (if s[|s| - 1] != 0 then [s[|s| - 1]] else [])
  }

  /** How many elements are 0. */
  function ZeroCount(s: seq<int>): (n: nat)
    ensures n <= |s|
    ensures n == multiset(s)[0]
  {
    if s == [] then 0
    else
      assert s == s[..|s| - 1] + [s[|s| - 1]];
      ZeroCount(s[..|s| - 1]) + (if s[|s| - 1] == 0 then 1 else 0)
  }

  /** n zeros. */
  function Zeros(n: nat): (r: seq<int>)
    ensures |r| == n && forall i :: 0 <= i < n ==> r[i] == 0
  {
    seq(n, _ => 0)
  }

  /** The result both versions print. */
  function Moved(s: seq<int>): seq<int>
  {
    NonZeros(s) + Zeros(ZeroCount(s))
  }

  /** Every element is either kept among the non-zeros or counted as a zero. */
  lemma {:induction false} CountsAddUp(s: seq<int>)
    ensures |NonZeros(s)| + ZeroCount(s) == |s|
  {
    if s != [] {
      CountsAddUp(s[..|s| - 1]);
    }
  }

  /** The non-zeros hold each non-zero value as often as s does, and no 0. */
  lemma {:induction false} NonZerosMultiset(s: seq<int>)
    ensures forall x :: multiset(NonZeros(s))[x] == if x == 0 then 0 else multiset(s)[x]
  {
    if s != [] {
      var init, last := s[..|s| - 1], s[|s| - 1];
      NonZerosMultiset(init);
      assert s == init + [last];
      assert multiset(s) == multiset(init) + multiset{last};
      var extra := if last != 0 then [last] else [];
      assert NonZeros(s) == NonZeros(init) + extra;
      assert multiset(NonZeros(s)) == multiset(NonZeros(init)) + multiset(extra);
    }
  }

  /** The zero count is the multiplicity of 0 in s. */
  lemma {:induction false} ZeroCountMultiset(s: seq<int>)
    ensures ZeroCount(s) == multiset(s)[0]
  {
    if s != [] {
      var init, last := s[..|s| - 1], s[|s| - 1];
      ZeroCountMultiset(init);
      assert s == init + [last];
      assert multiset(s) == multiset(init) + multiset{last};
    }
  }

  lemma {:induction false} ZerosMultiset(n: nat)
    ensures multiset(Zeros(n)) == multiset{} [0 := n]
  {
    if n > 0 {
      ZerosMultiset(n - 1);
      assert Zeros(n) == Zeros(n - 1) + [0];
    }
  }

  /** The result is a permutation of the input. */
  lemma MovedPermutes(s: seq<int>)
    ensures multiset(Moved(s)) == multiset(s)
  {
    NonZerosMultiset(s);
    ZeroCountMultiset(s);
    ZerosMultiset(ZeroCount(s));
    var m := multiset(Moved(s));
    assert m == multiset(NonZeros(s)) + multiset(Zeros(ZeroCount(s)));
    forall x
      ensures m[x] == multiset(s)[x]
    {
    }
  }

  /** The result has the input's length: first the non-zeros, then only
      zeros, as many as the input has. */
  lemma MovedShape(s: seq<int>)
    ensures |Moved(s)| == |s|
    ensures Moved(s)[..|NonZeros(s)|] == NonZeros(s)
    ensures forall i :: 0 <= i < |NonZeros(s)| ==> Moved(s)[i] != 0
    ensures forall i :: |NonZeros(s)| <= i < |s| ==> Moved(s)[i] == 0
    ensures multiset(Moved(s))[0] == multiset(s)[0]
  {
    CountsAddUp(s);
    MovedPermutes(s);
  }

  /** The positions of the non-zero elements, ascending. */
  function NonZeroPositions(s: seq<int>): (p: seq<nat>)
    ensures |p| <= |s|
    ensures forall m :: 0 <= m < |p| ==> p[m] < |s|
  {
    if s == [] then []
    else NonZeroPositions(s[..|s| - 1]) + (if s[|s| - 1] != 0 then [|s| - 1] else [])
  }

  /** The non-zeros keep their original relative order: the m-th of them is
      the element at the m-th non-zero position of s. */
  lemma {:induction false} NonZerosKeepOrder(s: seq<int>)
    ensures |NonZeroPositions(s)| == |NonZeros(s)|
    ensures forall m :: 0 <= m < |NonZeros(s)| ==> NonZeros(s)[m] == s[NonZeroPositions(s)[m]]
  {
    if s != [] {
      var init := s[..|s| - 1];
      NonZerosKeepOrder(init);
      var p := NonZeroPositions(init);
      assert forall m :: 0 <= m < |p| ==> s[p[m]] == init[p[m]];
    }
  }

  /** The positions rise. */
  lemma {:induction false} PositionsRise(s: seq<int>)
    ensures forall m, m' :: 0 <= m < m' < |NonZeroPositions(s)| ==> NonZeroPositions(s)[m] < NonZeroPositions(s)[m']
  {
    if s != [] {
      PositionsRise(s[..|s| - 1]);
    }
  }

  /** The positions are exactly those holding a non-zero. */
  lemma {:induction false} PositionsExact(s: seq<int>)
    ensures forall i :: 0 <= i < |s| ==> (s[i] != 0 <==> i in NonZeroPositions(s))
  {
    if s != [] {
      var init := s[..|s| - 1];
      PositionsExact(init);
      var p, q := NonZeroPositions(init), NonZeroPositions(s);
      forall i | 0 <= i < |s|
        ensures s[i] != 0 <==> i in q
      {
        if i < |init| {
          assert s[i] == init[i];
          assert i in q <==> i in p;
        }
      }
    }
  }

  /** The running version: x == 0 goes to zero, anything else to nonzero,
      and result = nonzero + zero. */
  method TwoLists(nums: seq<int>) returns (result: seq<int>)
    ensures result == Moved(nums)
  {
    var nonzero, zero := [], [];
    for i := 0 to |nums|
      invariant nonzero == NonZeros(nums[..i])
      invariant zero == Zeros(ZeroCount(nums[..i]))
    {
      var x := nums[i];
      assert nums[..i + 1][..i] == nums[..i];
      if x == 0 {
        zero := zero + [x];
      } else {
        nonzero := nonzero + [x];
      }
    }
    assert nums[..|nums|] == nums;
    result := nonzero + zero;
  }

  /** The commented-out version: append the non-zeros and count the zeros,
      then append that many zeros.  It prints the same list. */
  method AppendThenPad(nums: seq<int>) returns (result: seq<int>)
    ensures result == Moved(nums)
  {
    result := [];
    var zeroCount := 0;
    for i := 0 to |nums|
      invariant result == NonZeros(nums[..i])
      invariant zeroCount == ZeroCount(nums[..i])
    {
      var x := nums[i];
      assert nums[..i + 1][..i] == nums[..i];
      if x != 0 {
        result := result + [x];
      } else {
        zeroCount := zeroCount + 1;
      }
    }
    assert nums[..|nums|] == nums;
    ghost var kept := result;
    for j := 0 to zeroCount
      invariant result == kept + Zeros(j)
    {
      result := result + [0];
    }
  }

  /** nums = [1, 0, 3, 0, 5, 2] prints [1, 3, 5, 2, 0, 0]. */
  lemma Example()
    ensures Moved([1, 0, 3, 0, 5, 2]) == [1, 3, 5, 2, 0, 0]
  {
    var s := [1, 0, 3, 0, 5, 2];
    assert [1][..0] == [];
    assert [1, 0][..1] == [1];
    assert [1, 0, 3][..2] == [1, 0];
    assert [1, 0, 3, 0][..3] == [1, 0, 3];
    assert [1, 0, 3, 0, 5][..4] == [1, 0, 3, 0];
    assert s[..5] == [1, 0, 3, 0, 5];
    assert NonZeros([1, 0, 3, 0, 5]) == [1, 3, 5];
    assert ZeroCount([1, 0, 3, 0, 5]) == 2;
    assert Zeros(2) == [0, 0];
  }
}
