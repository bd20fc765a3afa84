/** Small shared vocabulary: what a C routine leaves in a buffer after writing a window of
    it through a `pointer + offset`, and the sums and maxima the setup code accumulates. */
module Buffers {

  /** The buffer `s` after `w` has been written into it starting at index `off`: the
      elements that fall inside `s` are replaced, every other element keeps its value. */
  function Overwrite<T>(s: seq<T>, off: nat, w: seq<T>): (r: seq<T>)
    ensures |r| == |s|
    ensures off + |w| <= |s| ==> r[off..off + |w|] == w
    ensures forall k :: 0 <= k < |s| && !(off <= k < off + |w|) ==> r[k] == s[k]
  {
    if off + |w| <= |s| then s[..off] + w + s[off + |w|..]
    else if off <= |s| then s[..off] + w[..|s| - off]
    else s
  }

  /** Two writes side by side, the second starting where the first ends, leave the same
      buffer as one write of both windows. */
  lemma OverwriteAdjacent<T>(s: seq<T>, off: nat, x: seq<T>, y: seq<T>)
    requires off + |x| + |y| <= |s|
    ensures Overwrite(Overwrite(s, off, x), off + |x|, y) == Overwrite(s, off, x + y)
  {
    var lhs := Overwrite(Overwrite(s, off, x), off + |x|, y);
    var rhs := Overwrite(s, off, x + y);
    forall k | 0 <= k < |s|
      ensures lhs[k] == rhs[k]
    {
      if off <= k < off + |x| {
        assert rhs[off..off + |x| + |y|][k - off] == rhs[k];
        assert Overwrite(s, off, x)[off..off + |x|][k - off] == Overwrite(s, off, x)[k];
      } else if off + |x| <= k < off + |x| + |y| {
        assert rhs[off..off + |x| + |y|][k - off] == rhs[k];
        assert lhs[off + |x|..off + |x| + |y|][k - off - |x|] == lhs[k];
      }
    }
  }

  /** A write leaves every window that ends before it as it was. */
  lemma OverwriteLeavesBefore<T>(s: seq<T>, off: nat, w: seq<T>, a: nat, b: nat)
    requires a <= b <= off && b <= |s|
    ensures Overwrite(s, off, w)[a..b] == s[a..b]
  {
  }

  /** Writing nothing leaves the buffer as it was. */
  lemma OverwriteEmpty<T>(s: seq<T>, off: nat)
    ensures Overwrite(s, off, []) == s
  {
  }

  /** A write that covers the whole buffer leaves exactly what was written. */
  lemma OverwriteWhole<T>(s: seq<T>, w: seq<T>)
    requires |w| == |s|
    ensures Overwrite(s, 0, w) == w
  {
    assert s[..0] + w + s[|w|..] == w;
  }

  /** Writing one more element after a window is the window write followed by a store of that
      element (the step of a byte-by-byte copy loop). */
  lemma OverwriteSnoc<T>(s: seq<T>, off: nat, w: seq<T>, x: T)
    requires off + |w| < |s|
    ensures Overwrite(s, off, w + [x]) == Overwrite(s, off, w)[off + |w| := x]
  {
    var lhs := Overwrite(s, off, w + [x]);
    var rhs := Overwrite(s, off, w)[off + |w| := x];
    forall k | 0 <= k < |s|
      ensures lhs[k] == rhs[k]
    {
      if off <= k < off + |w| {
        assert lhs[off..off + |w| + 1][k - off] == lhs[k];
        assert Overwrite(s, off, w)[off..off + |w|][k - off] == Overwrite(s, off, w)[k];
      } else if k == off + |w| {
        assert lhs[off..off + |w| + 1][k - off] == lhs[k];
      }
    }
  }

  /** Three windows written back to back from the start, filling the whole buffer, leave
      their concatenation. */
  lemma OverwriteThree<T>(s: seq<T>, x: seq<T>, y: seq<T>, z: seq<T>)
    requires |s| == |x| + |y| + |z|
    ensures Overwrite(Overwrite(Overwrite(s, 0, x), |x|, y), |x| + |y|, z) == x + y + z
  {
    OverwriteAdjacent(s, 0, x, y);
    OverwriteAdjacent(s, 0, x + y, z);
    OverwriteWhole(s, x + y + z);
  }

  /** The extent of `count` consecutive blocks of `size` elements each (frames of samples,
      frames of bytes), accumulated block by block; BlocksIsProduct shows it is
      `count * size`. */
  function Blocks(count: nat, size: nat): nat
  {
    if count == 0 then 0 else Blocks(count - 1, size) + size
  }

  /** Blocks is the product of its arguments. */
  lemma {:induction false} BlocksIsProduct(count: nat, size: nat)
    ensures Blocks(count, size) == count * size
  {
    if count > 0 {
      BlocksIsProduct(count - 1, size);
      assert (count - 1) * size + size == count * size;
    }
  }

  /** Blocks side by side: `a + b` blocks span the first `a` and then `b` more. */
  lemma {:induction false} BlocksAdd(a: nat, b: nat, size: nat)
    ensures Blocks(a + b, size) == Blocks(a, size) + Blocks(b, size)
  {
    if b > 0 {
      BlocksAdd(a, b - 1, size);
      assert a + b - 1 == a + (b - 1);
    }
  }

  /** More blocks never span less. */
  lemma BlocksMono(a: nat, b: nat, size: nat)
    requires a <= b
    ensures Blocks(a, size) <= Blocks(b, size)
  {
    BlocksAdd(a, b - a, size);
  }

  /** Sum of a sequence of counts, accumulated left to right. */
  function SumOf(s: seq<nat>): nat
  {
    if s == [] then 0 else SumOf(s[..|s| - 1]) + s[|s| - 1]
  }

  /** Extending a sequence of counts by one adds that count to the sum. */
  lemma SumOfSnoc(s: seq<nat>, x: nat)
    ensures SumOf(s + [x]) == SumOf(s) + x
  {
    assert (s + [x])[..|s|] == s;
  }

  /** The sum of the first `v + 1` counts is the sum of the first `v` plus count `v`. */
  lemma SumOfTake(s: seq<nat>, v: nat)
    requires v < |s|
    ensures SumOf(s[..v + 1]) == SumOf(s[..v]) + s[v]
  {
    assert s[..v + 1][..v] == s[..v];
  }

  /** The largest of a sequence of counts, 0 for the empty sequence (the initial value of
      the accumulator in the source). */
  function MaxOf(s: seq<nat>): nat
  {
    if s == [] then 0
    else if s[|s| - 1] > MaxOf(s[..|s| - 1]) then s[|s| - 1]
    else MaxOf(s[..|s| - 1])
  }

  /** MaxOf really is the maximum: every element is at most it, and it is one of the
      elements (or 0 when there are none). */
  lemma {:induction false} MaxOfIsMaximum(s: seq<nat>)
    ensures forall k :: 0 <= k < |s| ==> s[k] <= MaxOf(s)
    ensures s == [] ==> MaxOf(s) == 0
    ensures s != [] ==> exists k :: 0 <= k < |s| && s[k] == MaxOf(s)
  {
    if s != [] {
      var init := s[..|s| - 1];
      MaxOfIsMaximum(init);
      assert forall k :: 0 <= k < |init| ==> s[k] == init[k];
      if s[|s| - 1] > MaxOf(init) {
        assert s[|s| - 1] == MaxOf(s);
      } else if init != [] {
        var j :| 0 <= j < |init| && init[j] == MaxOf(init);
        assert s[j] == init[j] == MaxOf(s);
      }
    }
  }

  /** Extending a sequence by one element: the maximum becomes that element if it is
      larger. */
  lemma MaxOfSnoc(s: seq<nat>, x: nat)
    ensures MaxOf(s + [x]) == if x > MaxOf(s) then x else MaxOf(s)
  {
    assert (s + [x])[..|s|] == s;
  }
}
