/** DA epochs (types/epoch.go), with Go's wrapping 64-bit arithmetic written out. */
module Epoch {
  import opened Basics

  type u64 = x: int | 0 <= x < U64

  /** Reduction modulo 2^64 after each machine operation. */
  function W(x: int): u64 {
    if 0 <= x < U64 then x else x % U64
  }

  function CalculateEpochNumber(daHeight: u64, daStartHeight: u64, daEpochSize: u64): u64 {
    if daHeight < daStartHeight then 0
    else if daEpochSize == 0 then 1
    else W((daHeight - daStartHeight) / daEpochSize + 1)
  }

  datatype Boundaries = Boundaries(start: u64, end: u64, number: u64)

  function CalculateEpochBoundaries(daHeight: u64, daStartHeight: u64, daEpochSize: u64): Boundaries {
    var n := CalculateEpochNumber(daHeight, daStartHeight, daEpochSize);
    if daEpochSize == 0 then Boundaries(daStartHeight, daStartHeight, n)
    else if daHeight < daStartHeight then Boundaries(daStartHeight, W(W(daStartHeight + daEpochSize) - 1), n)
    else Boundaries(W(daStartHeight + W(W(n - 1) * daEpochSize)),
                    W(W(daStartHeight + W(n * daEpochSize)) - 1), n)
  }

  /** Division facts for a height `r` past the start of the `q`-th block of `size` heights. */
  lemma Quotient(size: int, q: int, r: int)
    requires size >= 1 && 0 <= r < size && q >= 0
    ensures (q * size + r) / size == q
  {
    var d := (q * size + r) / size;
    assert d * size <= q * size + r < d * size + size;
    if d < q {
      MulMonotone(d + 1, q, size);
    } else if d > q {
      MulMonotone(q + 1, d, size);
    }
  }

  lemma MulMonotone(a: int, b: int, size: int)
    requires a <= b && size >= 0
    ensures a * size <= b * size
  {
  }

  lemma EpochOffset(x: int, size: int) returns (q: int, r: int)
    requires x >= 0 && size >= 1
    ensures q == x / size && x == q * size + r && 0 <= r < size && q >= 0
  {
    q, r := x / size, x % size;
  }

  /** Boundaries of the height at offset `r` in the epoch after `q` full ones. */
  lemma BoundariesAt(daStartHeight: u64, daEpochSize: u64, q: nat, r: nat, first: nat)
    requires r < daEpochSize && first == daStartHeight + q * daEpochSize && first + daEpochSize < U64
    ensures q + 1 < U64
    ensures CalculateEpochBoundaries(first + r, daStartHeight, daEpochSize)
            == Boundaries(first, first + daEpochSize - 1, q + 1)
  {
    Quotient(daEpochSize, q, r);
    assert q <= q * daEpochSize;
    assert (q + 1) * daEpochSize == q * daEpochSize + daEpochSize;
  }

  /** The start is that of the height's own epoch whatever happens to the end. */
  lemma StartExact(daHeight: u64, daStartHeight: u64, daEpochSize: u64)
    requires daEpochSize >= 1 && daStartHeight <= daHeight
    ensures
      var start := CalculateEpochBoundaries(daHeight, daStartHeight, daEpochSize).start;
      daStartHeight <= start <= daHeight < start + daEpochSize
  {
    var q, r := EpochOffset(daHeight - daStartHeight, daEpochSize);
    MulMonotone(1, daEpochSize, q);
    StartIs(daHeight, daStartHeight, daEpochSize, q, q * daEpochSize);
  }

  lemma StartIs(daHeight: u64, daStartHeight: u64, daEpochSize: u64, q: int, product: int)
    requires daEpochSize >= 1 && daStartHeight <= daHeight && q == (daHeight - daStartHeight) / daEpochSize
    requires product == q * daEpochSize && 0 <= q <= product && daStartHeight + product <= daHeight
    ensures CalculateEpochBoundaries(daHeight, daStartHeight, daEpochSize).start == daStartHeight + product
  {
    var n: int := CalculateEpochNumber(daHeight, daStartHeight, daEpochSize);
    NumberBack(q);
    assert W(n - 1) == q;
    assert W(W(n - 1) * daEpochSize) == W(product) == product;
    assert W(daStartHeight + product) == daStartHeight + product;
  }

  lemma NumberBack(q: int)
    requires 0 <= q < U64
    ensures W(W(q + 1) - 1) == q
  {
  }

  /** The boundaries contain the height, span exactly `daEpochSize` heights and never wrap. */
  lemma BoundariesExact(daHeight: u64, daStartHeight: u64, daEpochSize: u64)
    requires daEpochSize >= 1 && daStartHeight <= daHeight && daHeight + daEpochSize < U64
    ensures
      var b := CalculateEpochBoundaries(daHeight, daStartHeight, daEpochSize);
      && daStartHeight <= b.start <= daHeight <= b.end
      && b.end - b.start + 1 == daEpochSize
      && b.number >= 1 && b.start == daStartHeight + (b.number - 1) * daEpochSize
  {
    var q, r := EpochOffset(daHeight - daStartHeight, daEpochSize);
    var first := daStartHeight + q * daEpochSize;
    assert daHeight == first + r;
    BoundariesAt(daStartHeight, daEpochSize, q, r, first);
    assert CalculateEpochBoundaries(daHeight, daStartHeight, daEpochSize) == Boundaries(first, first + daEpochSize - 1, q + 1);
  }

  /** Epochs tile the DA heights: every height of an epoch computes the same boundaries, and the
      height after its end starts the next epoch. */
  lemma EpochsTile(daHeight: u64, daStartHeight: u64, daEpochSize: u64, other: u64)
    requires daEpochSize >= 1 && daStartHeight <= daHeight && daHeight + daEpochSize < U64
    requires other + daEpochSize < U64
    ensures
      var b := CalculateEpochBoundaries(daHeight, daStartHeight, daEpochSize);
      var o := CalculateEpochBoundaries(other, daStartHeight, daEpochSize);
      && (b.start <= other <= b.end ==> o == b)
      && (other == b.end + 1 ==> o.start == other && o.end == b.end + daEpochSize && o.number == b.number + 1)
  {
    var q, r := EpochOffset(daHeight - daStartHeight, daEpochSize);
    var first := daStartHeight + q * daEpochSize;
    assert daHeight == first + r;
    BoundariesAt(daStartHeight, daEpochSize, q, r, first);
    TileAt(daStartHeight, daEpochSize, q, first, other);
  }

  lemma TileAt(daStartHeight: u64, daEpochSize: u64, q: nat, first: nat, other: u64)
    requires daEpochSize >= 1 && first == daStartHeight + q * daEpochSize && other + daEpochSize < U64
    ensures first <= other < first + daEpochSize ==>
              && q + 1 < U64 && first + daEpochSize - 1 < U64
              && CalculateEpochBoundaries(other, daStartHeight, daEpochSize) == Boundaries(first, first + daEpochSize - 1, q + 1)
    ensures other == first + daEpochSize ==>
              && q + 2 < U64
              && CalculateEpochBoundaries(other, daStartHeight, daEpochSize) == Boundaries(other, other + daEpochSize - 1, q + 2)
  {
    if first <= other < first + daEpochSize {
      BoundariesAt(daStartHeight, daEpochSize, q, other - first, first);
    } else if other == first + daEpochSize {
      assert (q + 1) * daEpochSize == q * daEpochSize + daEpochSize;
      BoundariesAt(daStartHeight, daEpochSize, q + 1, 0, other);
    }
  }

  /** Two heights have the same epoch number exactly when one lies within the other's boundaries. */
  lemma SameEpochIffWithin(a: u64, b: u64, daStartHeight: u64, daEpochSize: u64)
    requires daEpochSize >= 1 && daStartHeight <= a && daStartHeight <= b
    requires a + daEpochSize < U64 && b + daEpochSize < U64
    ensures
      var e := CalculateEpochBoundaries(a, daStartHeight, daEpochSize);
      CalculateEpochNumber(a, daStartHeight, daEpochSize) == CalculateEpochNumber(b, daStartHeight, daEpochSize)
      <==> e.start <= b <= e.end
  {
    BoundariesExact(a, daStartHeight, daEpochSize);
    BoundariesExact(b, daStartHeight, daEpochSize);
    EpochsTile(a, daStartHeight, daEpochSize, b);
  }

  /** The last epoch before 2^64 is not a full one: its end wraps exactly when the true end does
      not fit, and a wrapped end lies below the height, so it can never be reached from there. */
  lemma EndWrapsIffOutOfRange(daHeight: u64, daStartHeight: u64, daEpochSize: u64)
    requires daEpochSize >= 1 && daStartHeight <= daHeight && (daHeight - daStartHeight) / daEpochSize + 1 < U64
    ensures
      var trueEnd := daStartHeight + ((daHeight - daStartHeight) / daEpochSize + 1) * daEpochSize - 1;
      var end := CalculateEpochBoundaries(daHeight, daStartHeight, daEpochSize).end;
      (end == trueEnd <==> trueEnd < U64) && (trueEnd >= U64 ==> end == trueEnd - U64 < daHeight)
  {
    var q, r := EpochOffset(daHeight - daStartHeight, daEpochSize);
    var product := (q + 1) * daEpochSize;
    assert product == q * daEpochSize + daEpochSize;
    WrappedEnd(daStartHeight, product);
  }

  lemma WrappedEnd(start: u64, product: nat)
    requires 0 < product && start + product < 2 * U64
    ensures W(W(start + W(product)) - 1) == if start + product - 1 < U64 then start + product - 1 else start + product - 1 - U64
  {
  }
}
