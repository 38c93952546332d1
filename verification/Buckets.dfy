/** The cursor over bucket numbers with which the database module cuts a round into queries. */
module Buckets {

  /** Buckets min..max are checked in batches; min < max and batch >= 1. */
  datatype Range = Range(min: int, max: int, batch: int)
  {
    ghost predicate Proper() { min < max && 1 <= batch <= max - min }
  }

  datatype Cursor = Cursor(from: int, to: int)

  function Start(r: Range): Cursor {
    Cursor(r.min, r.min + r.batch - 1)
  }

  function Advance(r: Range, c: Cursor): Cursor {
    var from := if c.from + r.batch >= r.max then r.min else c.from + r.batch;
    var to := from + r.batch - 1;
    Cursor(from, if to > r.max then r.max else to)
  }

  /** Whether a call that leaves the cursor here has issued the last query of its round. */
  predicate Wrapped(r: Range, c: Cursor) { c.from == r.min }

  class BucketCursor {
    const range: Range
    var fromBucketNo: int
    var toBucketNo: int

    constructor (range: Range)
      ensures this.range == range && Cursor(fromBucketNo, toBucketNo) == Start(range)
    {
      this.range := range;
      fromBucketNo := range.min;
      toBucketNo := range.min + range.batch - 1;
    }

    /** Issues the query lo..hi and moves the cursor on; `done` says that the round is complete. */
    method GetNextBatch() returns (lo: int, hi: int, done: bool)
      modifies this
      ensures lo == old(fromBucketNo) && hi == old(toBucketNo)
      ensures Cursor(fromBucketNo, toBucketNo) == Advance(range, old(Cursor(fromBucketNo, toBucketNo)))
      ensures done == Wrapped(range, Cursor(fromBucketNo, toBucketNo))
    {
      lo, hi := fromBucketNo, toBucketNo;
      fromBucketNo := fromBucketNo + range.batch;
      if fromBucketNo >= range.max {
        fromBucketNo := range.min;
      }
      toBucketNo := fromBucketNo + range.batch - 1;
      if toBucketNo > range.max {
        toBucketNo := range.max;
      }
      done := range.min == fromBucketNo;
    }
  }

  /** How many queries a round has: the width of the range over the batch size, rounded up. */
  function RoundLength(r: Range): int
    requires r.batch >= 1
  {
    (r.max - r.min + r.batch - 1) / r.batch
  }

  /** The cursor before query k of a round. */
  function At(r: Range, k: int): Cursor {
    Cursor(r.min + k * r.batch,
           if r.min + k * r.batch + r.batch - 1 > r.max then r.max else r.min + k * r.batch + r.batch - 1)
  }

  /** RoundLength is the number n with (n-1)*batch < width <= n*batch. */
  lemma RoundLengthBounds(r: Range)
    requires r.min < r.max && r.batch >= 1
    ensures var n := RoundLength(r);
      n >= 1 && (n - 1) * r.batch < r.max - r.min <= n * r.batch
  {
    var x := r.max - r.min + r.batch - 1;
    assert x == (x / r.batch) * r.batch + x % r.batch;
    assert (RoundLength(r) - 1) * r.batch == RoundLength(r) * r.batch - r.batch;
  }

  lemma {:induction false} MulMono(a: int, b: int, c: int)
    requires a <= b && c >= 0
    ensures a * c <= b * c
  {
    assert (b - a) * c >= 0;
    assert b * c == a * c + (b - a) * c;
  }

  /** A call at query k of a round goes to query k+1, or wraps exactly when k was the last one. */
  lemma AdvanceInRound(r: Range, k: int)
    requires r.Proper() && 0 <= k < RoundLength(r)
    ensures Advance(r, At(r, k)) == At(r, if k + 1 == RoundLength(r) then 0 else k + 1)
    ensures Wrapped(r, Advance(r, At(r, k))) <==> k + 1 == RoundLength(r)
  {
    RoundLengthBounds(r);
    var n := RoundLength(r);
    assert (k + 1) * r.batch == k * r.batch + r.batch;
    if k + 1 < n {
      MulMono(k + 1, n - 1, r.batch);
      MulMono(1, k + 1, r.batch);
    } else {
      assert k + 1 == n;
    }
  }

  lemma StartIsFirst(r: Range)
    requires r.Proper()
    ensures Start(r) == At(r, 0)
  {
  }

  ghost predicate Covers(c: Cursor, b: int) { c.from <= b <= c.to }

  /** Two different queries of a round never fetch the same bucket. */
  lemma Disjoint(r: Range, i: int, j: int, b: int)
    requires r.Proper() && 0 <= i < j < RoundLength(r)
    ensures !(Covers(At(r, i), b) && Covers(At(r, j), b))
  {
    MulMono(i + 1, j, r.batch);
    assert (i + 1) * r.batch == i * r.batch + r.batch;
  }

  /** The query of a round that fetches a bucket. */
  function QueryOf(r: Range, b: int): int
    requires r.batch >= 1
  {
    (b - r.min) / r.batch
  }

  /**
   A round fetches exactly the buckets from min up to, not including, max; and max itself if and only
   if the batch size does not divide the width of the range.
   */
  lemma RoundCovers(r: Range, b: int)
    requires r.Proper()
    ensures (exists k :: 0 <= k < RoundLength(r) && Covers(At(r, k), b))
       <==> r.min <= b < r.max || (b == r.max && (r.max - r.min) % r.batch != 0)
  {
    RoundLengthBounds(r);
    if r.min <= b < r.max {
      Located(r, b);
      assert Covers(At(r, QueryOf(r, b)), b);
    } else if b == r.max && (r.max - r.min) % r.batch != 0 {
      Located(r, b);
      assert Covers(At(r, QueryOf(r, b)), b);
    } else if k :| 0 <= k < RoundLength(r) && Covers(At(r, k), b) {
      MulMono(0, k, r.batch);
      MulMono(k, RoundLength(r) - 1, r.batch);
      if b == r.max {
        LastQueryExact(r, k);
      }
      assert false;
    }
  }

  lemma Located(r: Range, b: int)
    requires r.Proper()
    requires r.min <= b < r.max || (b == r.max && (r.max - r.min) % r.batch != 0)
    ensures 0 <= QueryOf(r, b) < RoundLength(r) && Covers(At(r, QueryOf(r, b)), b)
  {
    RoundLengthBounds(r);
    var k, n := QueryOf(r, b), RoundLength(r);
    var d := b - r.min;
    assert d == k * r.batch + d % r.batch;
    if k < 0 {
      MulMono(k, -1, r.batch);
    }
    if k >= n {
      MulMono(n, k, r.batch);
    }
  }

  /** When the batch size divides the width, no query reaches max. */
  lemma LastQueryExact(r: Range, k: int)
    requires r.Proper() && 0 <= k < RoundLength(r) && (r.max - r.min) % r.batch == 0
    ensures At(r, k).to < r.max
  {
    RoundLengthBounds(r);
    var w := r.max - r.min;
    var q := w / r.batch;
    assert w == q * r.batch;
    if k >= q {
      MulMono(q, k, r.batch);
      MulMono(k, RoundLength(r) - 1, r.batch);
    } else {
      MulMono(k + 1, q, r.batch);
      assert (k + 1) * r.batch == k * r.batch + r.batch;
    }
  }
}
