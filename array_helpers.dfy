/**
 * The two array helpers exported next to the fetcher: `chunk`, which cuts an
 * array into consecutive groups, and `flat`, which splices nested arrays into
 * their parent up to a given depth.
 */
module ArrayHelpers {

  function Min(a: int, b: int): int { if a < b then a else b }

  /**
   * `chunk(array, size)`: `ceil(|a| / size)` groups, group `i` being the slice
   * that starts at `i * size` and is at most `size` long. The slice bounds are
   * clamped to the array, as JavaScript's `slice` clamps them. A size of zero
   * makes the source build an array of length `Infinity` or `NaN`, which throws,
   * so the size must be positive.
   */
  function Chunk<T>(a: seq<T>, size: nat): (groups: seq<seq<T>>)
    requires size > 0
    ensures |groups| == (|a| + size - 1) / size
  {
    seq((|a| + size - 1) / size, i requires 0 <= i => a[Min(i * size, |a|)..Min(i * size + size, |a|)])
  }

  /** Splices a sequence of sequences together, in order (a depth-1 `flat` on arrays of arrays). */
  function Concat<T>(ss: seq<seq<T>>): seq<T> {
    if ss == [] then [] else ss[0] + Concat(ss[1..])
  }

  /** Every group of `Chunk` is non-empty and at most `size` long; all but the last are exactly `size` long. */
  lemma ChunkShape<T>(a: seq<T>, size: nat)
    requires size > 0
    ensures forall i :: 0 <= i < |Chunk(a, size)| ==> 0 < |Chunk(a, size)[i]| <= size
    ensures forall i :: 0 <= i < |Chunk(a, size)| - 1 ==> |Chunk(a, size)[i]| == size
    ensures |Chunk(a, size)| > 0 ==> |Chunk(a, size)[|Chunk(a, size)| - 1]| == |a| - (|Chunk(a, size)| - 1) * size
  {
    var groups := Chunk(a, size);
    forall i | 0 <= i < |groups|
      ensures 0 < |groups[i]| <= size
      ensures i < |groups| - 1 ==> |groups[i]| == size
      ensures i == |groups| - 1 ==> |groups[i]| == |a| - i * size
    {
      StartInside(|a|, size, i);
      if i < |groups| - 1 {
        StartInside(|a|, size, i + 1);
        assert (i + 1) * size == i * size + size;
      } else {
        LastGroupEnd(|a|, size, i);
      }
    }
  }

  /** The group that starts at `i * size` starts inside the array. */
  lemma StartInside(n: nat, size: nat, i: nat)
    requires size > 0 && i < (n + size - 1) / size
    ensures i * size < n
  {
    var q := (n + size - 1) / size;
    assert q * size <= n + size - 1;
    MulLe(i + 1, q, size);
    assert (i + 1) * size == i * size + size;
  }

  /** The last group ends at the end of the array. */
  lemma LastGroupEnd(n: nat, size: nat, i: nat)
    requires size > 0 && i + 1 == (n + size - 1) / size
    ensures n <= i * size + size
  {
    var q := (n + size - 1) / size;
    assert n + size - 1 < q * size + size;
    assert q * size == i * size + size;
  }

  /**
   * The positional mapping the fetcher relies on: element `x` sits in group
   * `x / size`, at position `x % size` within it.
   */
  lemma ChunkAt<T>(a: seq<T>, size: nat, x: nat)
    requires size > 0 && x < |a|
    ensures x / size < |Chunk(a, size)|
    ensures x % size < |Chunk(a, size)[x / size]|
    ensures Chunk(a, size)[x / size][x % size] == a[x]
  {
    var q, r := x / size, x % size;
    DivBound(x, |a|, size);
    GroupOf(a, size, x, q, r);
  }

  /** Group `q` starts at `q * size`, so it holds `x = q * size + r` at position `r`. */
  lemma GroupOf<T>(a: seq<T>, size: nat, x: nat, q: nat, r: nat)
    requires size > 0 && x < |a| && q < (|a| + size - 1) / size
    requires x == q * size + r && r < size
    ensures r < |Chunk(a, size)[q]| && Chunk(a, size)[q][r] == a[x]
  {
    var lo, hi := q * size, Min(q * size + size, |a|);
    assert Chunk(a, size)[q] == a[Min(lo, |a|)..hi];
    assert lo <= x < hi;
  }

  lemma DivBound(x: nat, n: nat, size: nat)
    requires size > 0 && x < n
    ensures x / size < (n + size - 1) / size
  {
    DivMonotone(x + size, n + size - 1, size);
    DivAddDivisor(x, size);
  }

  lemma MulLe(a: int, b: int, c: nat)
    requires a <= b
    ensures a * c <= b * c
  {
    assert b * c - a * c == (b - a) * c;
  }

  /** A strictly larger factor is larger by at least one whole multiple. */
  lemma MulStep(x: int, y: int, d: nat)
    ensures x > y ==> x * d >= y * d + d
  {
    if x > y {
      MulLe(y + 1, x, d);
      assert (y + 1) * d == y * d + d;
    }
  }

  /** Euclidean division is determined by the quotient-remainder decomposition. */
  lemma DivUnique(a: int, d: int, q: int, r: int)
    requires d > 0 && 0 <= r < d && a == q * d + r
    ensures a / d == q
  {
    var q' := a / d;
    assert a == q' * d + a % d;
    MulStep(q', q, d);
    MulStep(q, q', d);
  }

  lemma DivAddDivisor(x: int, d: int)
    requires d > 0
    ensures (x + d) / d == x / d + 1
  {
    assert x == (x / d) * d + x % d;
    assert x + d == (x / d + 1) * d + x % d;
    DivUnique(x + d, d, x / d + 1, x % d);
  }

  lemma DivMonotone(a: int, b: int, d: int)
    requires d > 0 && a <= b
    ensures a / d <= b / d
  {
    assert a == (a / d) * d + a % d;
    assert b == (b / d) * d + b % d;
    MulStep(a / d, b / d, d);
  }

  /** Peeling the first group off: `Chunk` of a non-empty array is its first `size` elements, then `Chunk` of the rest. */
  lemma ChunkCons<T>(a: seq<T>, size: nat)
    requires size > 0 && |a| > 0
    ensures Chunk(a, size) == [a[..Min(size, |a|)]] + Chunk(a[Min(size, |a|)..], size)
  {
    if |a| <= size {
      DivUnique(|a| + size - 1, size, 1, |a| - 1);
      assert Chunk(a[|a|..], size) == [];
    } else {
      ChunkConsLong(a, size);
    }
  }

  lemma ChunkConsLong<T>(a: seq<T>, size: nat)
    requires size > 0 && |a| > size
    ensures Chunk(a, size) == [a[..size]] + Chunk(a[size..], size)
  {
    var rest := a[size..];
    var lhs, rhs := Chunk(a, size), [a[..size]] + Chunk(rest, size);
    DivAddDivisor(|rest| + size - 1, size);
    assert |lhs| == |rhs|;
    forall i | 0 <= i < |lhs|
      ensures lhs[i] == rhs[i]
    {
      if i > 0 {
        GroupAfterFirst(a, size, i - 1);
      }
    }
  }

  lemma GroupAfterFirst<T>(a: seq<T>, size: nat, j: nat)
    requires size > 0 && |a| > size
    requires j < |Chunk(a[size..], size)| && j + 1 < |Chunk(a, size)|
    ensures Chunk(a, size)[j + 1] == Chunk(a[size..], size)[j]
  {
    var rest := a[size..];
    assert (j + 1) * size == j * size + size;
    assert Min(j * size, |rest|) + size == Min(j * size + size, |a|);
    assert Min(j * size + size, |rest|) + size == Min(j * size + size + size, |a|);
  }

  /** `flat(chunk(a, size), 1) == a`: chunking loses nothing and keeps the order. */
  lemma {:induction false} ConcatChunk<T>(a: seq<T>, size: nat)
    requires size > 0
    ensures Concat(Chunk(a, size)) == a
    decreases |a|
  {
    if |a| == 0 {
      assert Chunk(a, size) == [];
    } else {
      var m := Min(size, |a|);
      ChunkCons(a, size);
      ConcatChunk(a[m..], size);
      assert a[..m] + a[m..] == a;
    }
  }

  /** Concatenation distributes over appending sequences of groups. */
  lemma {:induction false} ConcatAppend<T>(a: seq<seq<T>>, b: seq<seq<T>>)
    ensures Concat(a + b) == Concat(a) + Concat(b)
  {
    if a == [] {
      assert a + b == b;
    } else {
      assert (a + b)[0] == a[0];
      assert (a + b)[1..] == a[1..] + b;
      ConcatAppend(a[1..], b);
    }
  }

  // ---------------------------------------------------------------------------
  // `flat`: JavaScript arrays may nest arrays and plain values freely.

  /** An element of a JavaScript array: a plain value or a nested array. */
  datatype Nested<T> = Item(value: T) | List(items: seq<Nested<T>>)

  /** The depth argument of `flat`: a count, or `Infinity`. */
  datatype Depth = Finite(n: nat) | Infinite {
    predicate Positive() { Infinite? || n > 0 }
    function Pred(): Depth requires Positive() { if Infinite? then Infinite else Finite(n - 1) }
  }

  /**
   * `flat(arr, d)`: for a positive depth, every nested array in `arr` is
   * replaced by its own elements flattened to depth `d - 1`, plain values are
   * kept, all in order; at depth zero `arr` is copied unchanged.
   */
  function Flat<T>(arr: seq<Nested<T>>, d: Depth): (r: seq<Nested<T>>)
    // at depth `Infinity` no nested array is left
    ensures d.Infinite? ==> forall i :: 0 <= i < |r| ==> r[i].Item?
    decreases arr
  {
    if !d.Positive() || arr == [] then arr
    else
      var head := match arr[0]
        case Item(_) => [arr[0]]
        case List(items) => Flat(items, d.Pred());
      head + Flat(arr[1..], d)
  }

  /** A sequence of plain values as an array. */
  function Items<T>(s: seq<T>): (r: seq<Nested<T>>)
    ensures |r| == |s| && forall i :: 0 <= i < |s| ==> r[i] == Item(s[i])
  {
    seq(|s|, i requires 0 <= i < |s| => Item(s[i]))
  }

  /** A sequence of sequences of plain values as an array of arrays. */
  function Lists<T>(ss: seq<seq<T>>): (r: seq<Nested<T>>)
    ensures |r| == |ss| && forall i :: 0 <= i < |ss| ==> r[i] == List(Items(ss[i]))
  {
    seq(|ss|, i requires 0 <= i < |ss| => List(Items(ss[i])))
  }

  /** An array of plain values is left as it is by `flat`, at any depth. */
  lemma {:induction false} FlatItems<T>(s: seq<T>, d: Depth)
    ensures Flat(Items(s), d) == Items(s)
  {
    if d.Positive() && s != [] {
      assert Items(s)[1..] == Items(s[1..]);
      FlatItems(s[1..], d);
      assert Items(s) == [Item(s[0])] + Items(s[1..]);
    }
  }

  /** `flat` at a positive depth of an array of arrays of values is their concatenation. */
  lemma {:induction false} FlatLists<T>(ss: seq<seq<T>>, d: Depth)
    requires d.Positive()
    ensures Flat(Lists(ss), d) == Items(Concat(ss))
  {
    if ss != [] {
      var arr := Lists(ss);
      assert arr[0] == List(Items(ss[0]));
      FlatItems(ss[0], d.Pred());
      assert arr[1..] == Lists(ss[1..]);
      FlatLists(ss[1..], d);
      ItemsAppend(ss[0], Concat(ss[1..]));
    }
  }

  lemma ItemsAppend<T>(s: seq<T>, t: seq<T>)
    ensures Items(s + t) == Items(s) + Items(t)
  {
  }

  /** `flat(chunk(a, size), 1)` gives back `a`, as an array. */
  lemma FlatChunk<T>(a: seq<T>, size: nat)
    requires size > 0
    ensures Flat(Lists(Chunk(a, size)), Finite(1)) == Items(a)
  {
    FlatLists(Chunk(a, size), Finite(1));
    ConcatChunk(a, size);
  }
}
