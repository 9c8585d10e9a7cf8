/**
 * Rolling slices over a job list: a cursor walks the list circularly, one batch per round.
 * Shared by the snapshot warm-up scheduler and the precompute scheduler.
 */
module RollingBatch {
  import opened MinMax
  import opened Options

  /** Position visited by slot `i` of a batch that starts at `cursor`. */
  function Position(cursor: nat, i: nat, total: nat): nat
    requires total > 0
  {
    (cursor + i) % total
  }

  function Window<T>(allJobs: seq<T>, cursor: nat, n: nat): (batch: seq<T>)
    requires |allJobs| > 0
  {
    seq(n, i requires 0 <= i < n => allJobs[Position(cursor, i, |allJobs|)])
  }

  /** The `%` of the source: it has the sign of its left side, and dividing by 0 gives NaN. */
  function Remainder(a: int, b: nat): Option<int> {
    if b == 0 then None else if a >= 0 then Some(a % b) else Some(-(-a % b))
  }

  lemma RemainderIsPosition(cursor: nat, i: nat, total: nat)
    requires total > 0
    ensures Remainder(cursor + i, total) == Some(Position(cursor, i, total)) && Position(cursor, i, total) < total
  {
  }

  /** The slice loop of both schedulers. Of an empty list the batch is empty and every position NaN. */
  method SliceBatch<T>(allJobs: seq<T>, cursor: nat, batchSize: nat)
    returns (batch: seq<T>, batchStart: Option<int>, batchEnd: Option<int>, nextCursor: Option<int>)
    ensures allJobs == [] ==> batch == [] && batchStart.None? && batchEnd.None? && nextCursor.None?
    ensures allJobs != [] ==> batch == Window(allJobs, cursor, Min(batchSize, |allJobs|))
    ensures allJobs != [] ==> nextCursor == Some(Advance(cursor, batchSize, |allJobs|))
    ensures batch != [] ==> batchStart.Some? && 0 <= batchStart.value < |allJobs| && batch[0] == allJobs[batchStart.value]
    ensures batch != [] ==> batchEnd.Some? && 0 <= batchEnd.value < |allJobs| && batch[|batch| - 1] == allJobs[batchEnd.value]
    ensures allJobs != [] && batchSize == 0 ==> batch == [] && nextCursor == batchStart == Some(Position(cursor, 0, |allJobs|))
    ensures |allJobs| > 1 && batchSize == 0 && cursor == 0 ==> batchEnd == Some(-1)
  {
    var total := |allJobs|;
    var n := Min(batchSize, total);
    batch := [];
    for i := 0 to n
      invariant allJobs != [] ==> batch == Window(allJobs, cursor, i)
      invariant allJobs == [] ==> batch == []
    {
      batch := batch + [allJobs[Position(cursor, i, total)]];
    }
    if total > 0 {
      RemainderIsPosition(cursor, 0, total);
      RemainderIsPosition(cursor, n, total);
      if n > 0 { RemainderIsPosition(cursor, n - 1, total); }
    }
    batchStart := Remainder(cursor, total);
    batchEnd := Remainder(cursor + n - 1, total);
    nextCursor := Remainder(cursor + n, total);
  }

  function Advance(cursor: nat, batchSize: nat, total: nat): (c: nat)
    requires total > 0
    ensures c < total
  {
    Position(cursor, Min(batchSize, total), total)
  }

  function CursorAfter(cursor: nat, rounds: nat, batchSize: nat, total: nat): (c: nat)
    requires total > 0
    ensures cursor < total ==> c < total
  {
    if rounds == 0 then cursor else Advance(CursorAfter(cursor, rounds - 1, batchSize, total), batchSize, total)
  }

  /** How often position `j` is taken by `len` consecutive slots starting at `c`. */
  function Count(c: nat, len: nat, j: nat, total: nat): nat
    requires total > 0
  {
    if len == 0 then 0
    else Count(c, len - 1, j, total) + (if Position(c, len - 1, total) == j then 1 else 0)
  }

  /** How often position `j` is taken over a run of rounds; each round starts where the stored cursor says. */
  function Visits(cursor: nat, rounds: nat, batchSize: nat, j: nat, total: nat): nat
    requires total > 0
  {
    if rounds == 0 then 0
    else
      var start := CursorAfter(cursor, rounds - 1, batchSize, total);
      Visits(cursor, rounds - 1, batchSize, j, total) + Count(start, Min(batchSize, total), j, total)
  }

  // ---------------------------------------------------------------- modular arithmetic

  lemma ModIsUnique(a: int, q: int, r: int, t: int)
    requires 0 <= r < t && a == q * t + r
    ensures a % t == r
  {
    var q', r' := a / t, a % t;
    assert a == q' * t + r';
    assert (q - q') * t == r' - r;
    assert q - q' >= 1 ==> (q - q') * t >= t;
    assert q - q' <= -1 ==> (q - q') * t + t <= 0;
  }

  lemma ModOfMod(a: nat, b: nat, t: nat)
    requires t > 0
    ensures (a % t + b) % t == (a + b) % t
  {
    var x := a % t + b;
    assert a == (a / t) * t + a % t;
    assert x == (x / t) * t + x % t;
    assert a + b == (a / t + x / t) * t + x % t;
    ModIsUnique(a + b, a / t + x / t, x % t, t);
  }

  lemma ModPeriod(a: nat, t: nat)
    requires t > 0
    ensures (a + t) % t == a % t
  {
    ModIsUnique(a + t, a / t + 1, a % t, t);
  }

  lemma DivStep(a: nat, t: nat)
    requires t > 0
    ensures a < t ==> a / t == 0
    ensures a >= t ==> a / t == (a - t) / t + 1
  {
    var q := a / t;
    assert a == q * t + a % t;
    assert q >= 1 ==> q * t >= t;
    if a >= t {
      var k := (a - t) / t + 1;
      assert a == k * t + (a - t) % t;
      assert q - k >= 1 ==> (q - k) * t >= t;
      assert q - k <= -1 ==> (q - k) * t + t <= 0;
      assert (q - k) * t == (a - t) % t - a % t;
    }
  }

  // ---------------------------------------------------------------- the run of rounds is one long walk

  lemma {:induction false} CountSplit(c: nat, a: nat, b: nat, j: nat, t: nat)
    requires t > 0
    ensures Count(c, a + b, j, t) == Count(c, a, j, t) + Count(c + a, b, j, t)
  {
    if b > 0 { CountSplit(c, a, b - 1, j, t); }
  }

  lemma {:induction false} CountReduced(c: nat, len: nat, j: nat, t: nat)
    requires t > 0
    ensures Count(c % t, len, j, t) == Count(c, len, j, t)
  {
    if len > 0 {
      CountReduced(c, len - 1, j, t);
      ModOfMod(c, len - 1, t);
    }
  }

  /** After `rounds` rounds of n slots the cursor is (c + rounds * n) mod total. */
  lemma {:induction false} CursorClosedForm(c: nat, rounds: nat, batchSize: nat, t: nat)
    requires c < t
    ensures CursorAfter(c, rounds, batchSize, t) == (c + rounds * Min(batchSize, t)) % t
  {
    var n := Min(batchSize, t);
    if rounds == 0 {
      ModIsUnique(c, 0, c, t);
    } else {
      CursorClosedForm(c, rounds - 1, batchSize, t);
      var a := c + (rounds - 1) * n;
      assert a >= 0;
      ModOfMod(a, n, t);
      assert a + n == c + rounds * n;
    }
  }

  lemma {:induction false} VisitsAreOneWalk(c: nat, rounds: nat, batchSize: nat, j: nat, t: nat)
    requires c < t
    ensures rounds * Min(batchSize, t) >= 0
    ensures Visits(c, rounds, batchSize, j, t) == Count(c, rounds * Min(batchSize, t), j, t)
  {
    var n := Min(batchSize, t);
    if rounds > 0 {
      VisitsAreOneWalk(c, rounds - 1, batchSize, j, t);
      CursorClosedForm(c, rounds - 1, batchSize, t);
      var done := (rounds - 1) * n;
      assert done >= 0;
      CountReduced(c + done, n, j, t);
      CountSplit(c, done, n, j, t);
      assert done + n == rounds * n;
    }
  }

  lemma {:induction false} CountFromZero(len: nat, j: nat, t: nat)
    requires len <= t && j < t
    ensures Count(0, len, j, t) == if j < len then 1 else 0
  {
    if len > 0 {
      CountFromZero(len - 1, j, t);
      ModIsUnique(len - 1, 0, len - 1, t);
    }
  }

  /** One full turn takes every position exactly once, wherever it starts. */
  lemma {:induction false} FullTurn(c: nat, j: nat, t: nat)
    requires j < t
    ensures Count(c, t, j, t) == 1
    decreases c
  {
    if c == 0 {
      CountFromZero(t, j, t);
    } else {
      FullTurn(c - 1, j, t);
      CountSplit(c - 1, 1, t, j, t);
      CountSplit(c - 1, t, 1, j, t);
      ModPeriod(c - 1, t);
      assert Position(c - 1, 0, t) == Position(c - 1 + t, 0, t);
      assert Count(c - 1, 1, j, t) == Count(c - 1 + t, 1, j, t) by {
        assert Count(c - 1, 0, j, t) == 0 && Count(c - 1 + t, 0, j, t) == 0;
      }
    }
  }

  lemma {:induction false} CountBounds(c: nat, len: nat, j: nat, t: nat)
    requires j < t
    ensures len / t <= Count(c, len, j, t) <= len / t + 1
    decreases len
  {
    if len < t {
      CountSplit(c, len, t - len, j, t);
      FullTurn(c, j, t);
      DivStep(len, t);
    } else {
      CountSplit(c, t, len - t, j, t);
      FullTurn(c, j, t);
      CountBounds(c + t, len - t, j, t);
      DivStep(len, t);
    }
  }

  // ---------------------------------------------------------------- fairness

  /** No batch names the same position twice. */
  lemma BatchPositionsAreDistinct(c: nat, n: nat, t: nat, i: nat, i': nat)
    requires n <= t && i < i' < n
    ensures Position(c, i, t) != Position(c, i', t)
  {
    var j := Position(c, i, t);
    FullTurn(c, j, t);
    CountSplit(c, i + 1, t - (i + 1), j, t);
    CountSplit(c, i' + 1, t - (i' + 1), j, t);
    CountSplit(c, i + 1, i' - (i + 1), j, t);
    assert Count(c, i + 1, j, t) >= 1;
    assert Count(c, i' + 1, j, t) == Count(c, i', j, t) + (if Position(c, i', t) == j then 1 else 0);
  }

  /** Over any run of rounds, every position is taken floor or floor + 1 times, so counts differ by at most one. */
  lemma VisitCountsDifferByAtMostOne(c: nat, rounds: nat, batchSize: nat, j: nat, j': nat, t: nat)
    requires c < t && j < t && j' < t
    ensures -1 <= Visits(c, rounds, batchSize, j, t) - Visits(c, rounds, batchSize, j', t) <= 1
  {
    var len := rounds * Min(batchSize, t);
    VisitsAreOneWalk(c, rounds, batchSize, j, t);
    VisitsAreOneWalk(c, rounds, batchSize, j', t);
    CountBounds(c, len, j, t);
    CountBounds(c, len, j', t);
  }

  /** A position with a positive count is taken by some slot. */
  lemma {:induction false} CountedIsTaken(c: nat, len: nat, j: nat, t: nat) returns (i: nat)
    requires t > 0 && Count(c, len, j, t) > 0
    ensures i < len && Position(c, i, t) == j
  {
    if Position(c, len - 1, t) == j { i := len - 1; } else { i := CountedIsTaken(c, len - 1, j, t); }
  }

  lemma {:induction false} VisitedInSomeRound(c: nat, rounds: nat, batchSize: nat, j: nat, t: nat) returns (q: nat, i: nat)
    requires t > 0 && Visits(c, rounds, batchSize, j, t) > 0
    ensures q < rounds && i < Min(batchSize, t)
    ensures Position(CursorAfter(c, q, batchSize, t), i, t) == j
  {
    var start := CursorAfter(c, rounds - 1, batchSize, t);
    if Count(start, Min(batchSize, t), j, t) > 0 {
      q := rounds - 1;
      i := CountedIsTaken(start, Min(batchSize, t), j, t);
    } else {
      q, i := VisitedInSomeRound(c, rounds - 1, batchSize, j, t);
    }
  }

  /** Any ceil(total / n) consecutive rounds run every job of an unchanged list. */
  lemma ConsecutiveRoundsCoverEveryJob<T>(allJobs: seq<T>, c: nat, rounds: nat, batchSize: nat, j: nat)
    returns (q: nat)
    requires c < |allJobs| && j < |allJobs|
    requires rounds * Min(batchSize, |allJobs|) >= |allJobs|
    ensures q < rounds
    ensures allJobs[j] in Window(allJobs, CursorAfter(c, q, batchSize, |allJobs|), Min(batchSize, |allJobs|))
  {
    var t := |allJobs|;
    var n := Min(batchSize, t);
    VisitsAreOneWalk(c, rounds, batchSize, j, t);
    CountSplit(c, t, rounds * n - t, j, t);
    FullTurn(c, j, t);
    var i;
    q, i := VisitedInSomeRound(c, rounds, batchSize, j, t);
    var w := Window(allJobs, CursorAfter(c, q, batchSize, t), n);
    assert w[i] == allJobs[j];
  }
}
