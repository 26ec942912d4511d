/** The brown and pink noise generators (internal/domain/noise/generator.go). Random draws are parameters. */
module Noise {
  import opened Sums

  type int16 = x: int | -32768 <= x <= 32767
  type int32 = x: int | -0x8000_0000 <= x <= 0x7fff_ffff
  /** One draw of rand.Int63n(65536). */
  type Draw = x: int | 0 <= x < 65536

  function White(d: Draw): int16 {
    d - 32768
  }

  // ---- Brown noise: a leaky integrator ----

  /** The shift right of a signed number rounds down, as Dafny's division by a positive number does. */
  function Leak(x: int): int {
    x - x / 128
  }

  function Clamp(x: int): int16 {
    if x > 32767 then 32767 else if x < -32768 then -32768 else x
  }

  function BrownStep(running: int16, d: Draw): int16 {
    Clamp(Leak(running + White(d) / 16))
  }

  function BrownAfter(running: int16, draws: seq<Draw>): int16
    decreases |draws|
  {
    if draws == [] then running else BrownAfter(BrownStep(running, draws[0]), draws[1..])
  }

  class BrownGenerator {
    var running: int32

    constructor ()
      ensures running == 0
    {
      running := 0;
    }

    /** Sample i is the integrator after the first i + 1 draws, always a 16-bit number. */
    method Fill(buf: array<int16>, draws: seq<Draw>)
      requires |draws| == buf.Length && -32768 <= running <= 32767
      modifies this, buf
      ensures -32768 <= running <= 32767 && running == BrownAfter(old(running), draws)
      ensures forall i :: 0 <= i < buf.Length ==> buf[i] == BrownAfter(old(running), draws[..i + 1])
    {
      hide BrownStep, BrownAfter;
      assert BrownAfter(running, draws[..0]) == running by {
        BrownNothing(running);
      }
      for i := 0 to buf.Length
        invariant -32768 <= running <= 32767 && running == BrownAfter(old(running), draws[..i])
        invariant forall j :: 0 <= j < i ==> buf[j] == BrownAfter(old(running), draws[..j + 1])
      {
        assert draws[..i + 1] == draws[..i] + [draws[i]];
        BrownLast(old(running), draws[..i], draws[i]);
        Advance(draws[i]);
        buf[i] := running;
      }
      assert draws[..buf.Length] == draws;
    }

    /** One turn of the loop in Fill; no addition leaves 32 bits. */
    method Advance(draw: Draw)
      requires -32768 <= running <= 32767
      modifies this
      ensures -32768 <= running <= 32767 && running == BrownStep(old(running), draw)
    {
      var white: int32 := (draw as int) - 32768;
      assert -2048 <= white / 16 <= 2047;
      running := running + white / 16;
      assert -272 <= running / 128 <= 271;
      running := running - running / 128;
      if running > 32767 {
        running := 32767;
      } else if running < -32768 {
        running := -32768;
      }
    }
  }

  lemma BrownNothing(running: int16)
    ensures BrownAfter(running, []) == running
  {
  }

  lemma {:induction false} BrownLast(running: int16, draws: seq<Draw>, d: Draw)
    ensures BrownAfter(running, draws + [d]) == BrownStep(BrownAfter(running, draws), d)
    decreases |draws|
  {
    if draws == [] {
      assert [d][1..] == [];
    } else {
      assert (draws + [d])[1..] == draws[1..] + [d];
      BrownLast(BrownStep(running, draws[0]), draws[1..], d);
    }
  }

  /** Filling one buffer after another gives the samples of one long buffer. */
  lemma {:induction false} BrownInPieces(running: int16, first: seq<Draw>, second: seq<Draw>)
    ensures BrownAfter(running, first + second) == BrownAfter(BrownAfter(running, first), second)
    decreases |second|
  {
    if second == [] {
      assert first + second == first;
    } else {
      var last := |second| - 1;
      assert first + second == (first + second[..last]) + [second[last]] && second == second[..last] + [second[last]];
      BrownInPieces(running, first, second[..last]);
      BrownLast(running, first + second[..last], second[last]);
      BrownLast(BrownAfter(running, first), second[..last], second[last]);
    }
  }

  /**
   * The next sample is 127/128 of what the integrator and a sixteenth of the white draw come to, up to the rounding of
   * the two divisions, or the limit of 16 bits on its side.
   */
  lemma BrownSampleIsClose(running: int16, d: Draw)
    ensures var total, sample := 16 * running + (d - 32768), BrownStep(running, d);
            && (sample < 32767 ==> 127 * (total - 15) <= 2048 * sample)
            && (sample > -32768 ==> 2048 * sample <= 127 * total + 2032)
  {
    var w := d - 32768;
    var x := running + w / 16;
    assert 16 * (w / 16) <= w <= 16 * (w / 16) + 15;
    assert 128 * (x / 128) <= x <= 128 * (x / 128) + 127;
  }

  /** The same draw keeps the order of two generators; their gap does not grow, and shrinks from 128 on. */
  lemma BrownStepContracts(low: int16, high: int16, d: Draw)
    requires low <= high
    ensures 0 <= BrownStep(high, d) - BrownStep(low, d) <= high - low
    ensures high - low >= 128 ==> BrownStep(high, d) - BrownStep(low, d) < high - low
  {
    var x, y := low + White(d) / 16, high + White(d) / 16;
    assert x / 128 <= y / 128;
    assert Leak(x) <= Leak(y);
  }

  /** Any two brown generators fed the same n draws keep their order and end at most max(127, gap - n) apart. */
  lemma {:induction false} BrownForgets(low: int16, high: int16, draws: seq<Draw>)
    requires low <= high
    ensures BrownAfter(low, draws) <= BrownAfter(high, draws)
    ensures var gap := BrownAfter(high, draws) - BrownAfter(low, draws);
            gap <= high - low && (gap <= 127 || gap <= high - low - |draws|)
    decreases |draws|
  {
    if draws != [] {
      BrownStepContracts(low, high, draws[0]);
      BrownForgets(BrownStep(low, draws[0]), BrownStep(high, draws[0]), draws[1..]);
    }
  }

  // ---- Pink noise: sixteen rows, each refreshed half as often as the one before ----

  const ROWS: nat := 16

  function Pow2(n: nat): (p: nat)
    ensures p >= 1
  {
    if n == 0 then 1 else 2 * Pow2(n - 1)
  }

  function TrailingZeros64(c: nat): nat {
    if c == 0 then 64 else if c % 2 == 1 then 0 else 1 + TrailingZeros64(c / 2)
  }

  function RowIndex(counter: nat): (k: nat)
    ensures k < ROWS
  {
    TrailingZeros64(counter) % ROWS
  }

  /** The 64-bit counter wraps around. */
  function Incremented(counter: nat): nat {
    (counter + 1) % Pow2(64)
  }

  datatype PinkState = PinkState(rows: seq<int16>, running: int, counter: nat) {
    ghost predicate Valid() {
      |rows| == ROWS && running == Total(rows) && counter < Pow2(64)
    }
  }

  function PinkStep(s: PinkState, white: Draw): PinkState
    requires s.Valid()
  {
    var counter := Incremented(s.counter);
    var k := RowIndex(counter);
    PinkState(s.rows[k := White(white)], s.running + White(white) - s.rows[k], counter)
  }

  /** Division of signed integers in Go: toward zero. */
  function Quotient(n: int, d: int): int
    requires d > 0
  {
    if n >= 0 then n / d else -(-n / d)
  }

  lemma {:induction false} SumUpdate(rows: seq<int>, k: nat, x: int)
    requires k < |rows|
    ensures Total(rows[k := x]) == Total(rows) + x - rows[k]
  {
    var last := |rows| - 1;
    if k < last {
      assert rows[k := x][..last] == rows[..last][k := x];
      SumUpdate(rows[..last], k, x);
    } else {
      assert rows[k := x][..last] == rows[..last];
    }
  }

  lemma {:induction false} AllZero(rows: seq<int>)
    requires forall k :: 0 <= k < |rows| ==> rows[k] == 0
    ensures Total(rows) == 0
  {
    if rows != [] {
      AllZero(rows[..|rows| - 1]);
    }
  }

  lemma {:induction false} SumRange(rows: seq<int16>)
    ensures -32768 * |rows| <= Total(rows) <= 32767 * |rows|
  {
    if rows != [] {
      SumRange(rows[..|rows| - 1]);
    }
  }

  /** The running total stays the sum of the sixteen rows, and the row of the new counter holds the new draw. */
  lemma PinkStepKeeps(s: PinkState, white: Draw)
    requires s.Valid()
    ensures PinkStep(s, white).Valid()
  {
    SumUpdate(s.rows, RowIndex(Incremented(s.counter)), White(white));
  }

  function PinkAfter(s: PinkState, whites: seq<Draw>): (r: PinkState)
    requires s.Valid()
    ensures r.Valid()
    decreases |whites|
  {
    if whites == [] then s else
      PinkStepKeeps(s, whites[0]);
      PinkAfter(PinkStep(s, whites[0]), whites[1..])
  }

  /** Sum of the rows and the extra draw, over 17; the verifier checks that it is a 16-bit number. */
  function PinkSample(s: PinkState, extra: Draw): int16
    requires s.Valid()
  {
    SumRange(s.rows);
    Quotient(s.running + White(extra), 17)
  }

  /** Seventeen times the sample is the sum of the rows and the centred extra draw, rounded toward zero. */
  lemma PinkSampleIsClose(s: PinkState, extra: Draw)
    requires s.Valid()
    ensures var sum, sample := Total(s.rows) + (extra - 32768), PinkSample(s, extra);
            if sum >= 0 then 17 * sample <= sum < 17 * sample + 17 else 17 * sample - 17 < sum <= 17 * sample
  {
  }

  class PinkGenerator {
    const rows: array<int16>
    var running: int32
    var counter: nat

    constructor ()
      ensures Valid() && fresh(rows)
      ensures Value().running == Value().counter == 0 && forall k :: 0 <= k < ROWS ==> rows[k] == 0
    {
      rows := new int16[ROWS](_ => 0);
      running, counter := 0, 0;
      new;
      AllZero(Value().rows);
    }

    function Value(): PinkState
      reads this, rows
    {
      PinkState(rows[..], running, counter)
    }

    ghost predicate Valid()
      reads this, rows
    {
      Value().Valid()
    }

    /** No addition leaves 32 bits and no sample 16 bits; sample i comes from the rows after i + 1 draws. */
    method Fill(buf: array<int16>, whites: seq<Draw>, extras: seq<Draw>)
      requires Valid() && buf != rows && |whites| == |extras| == buf.Length
      modifies this, rows, buf
      ensures Valid() && Value() == PinkAfter(old(Value()), whites)
      ensures forall i :: 0 <= i < buf.Length ==>
                buf[i] == PinkSample(PinkAfter(old(Value()), whites[..i + 1]), extras[i])
    {
      hide PinkStep, PinkAfter, PinkSample;
      assert PinkAfter(Value(), whites[..0]) == Value() by {
        PinkNothing(Value());
      }
      for i := 0 to buf.Length
        invariant Valid() && Value() == PinkAfter(old(Value()), whites[..i])
        invariant forall j :: 0 <= j < i ==>
                    buf[j] == PinkSample(PinkAfter(old(Value()), whites[..j + 1]), extras[j])
      {
        assert whites[..i + 1] == whites[..i] + [whites[i]];
        PinkLast(old(Value()), whites[..i], whites[i]);
        buf[i] := Next(whites[i], extras[i]);
      }
      assert whites[..buf.Length] == whites;
    }

    /** One turn of the loop in Fill. */
    method Next(draw: Draw, extraDraw: Draw) returns (sample: int16)
      requires Valid()
      modifies this, rows
      ensures Valid() && Value() == PinkStep(old(Value()), draw)
      ensures sample == PinkSample(Value(), extraDraw)
    {
      hide TrailingZeros64, Pow2, Total;
      PinkStepKeeps(Value(), draw);
      SumRange(rows[..]);
      SumRange(PinkStep(Value(), draw).rows);
      counter := (counter + 1) % Pow2(64);
      var k := TrailingZeros64(counter) % 16;
      var white: int32 := (draw as int) - 32768;
      var change: int32 := white - rows[k];
      running := running + change;
      rows[k] := white;
      var extra: int32 := (extraDraw as int) - 32768;
      var total: int32 := running + extra;
      assert rows[..] == old(rows[..])[k := White(draw)];
      sample := Quotient(total, 17);
    }
  }

  lemma PinkNothing(s: PinkState)
    requires s.Valid()
    ensures PinkAfter(s, []) == s
  {
  }

  lemma {:induction false} PinkLast(s: PinkState, whites: seq<Draw>, white: Draw)
    requires s.Valid()
    ensures PinkAfter(s, whites + [white]) == PinkStep(PinkAfter(s, whites), white)
    decreases |whites|
  {
    PinkStepKeeps(s, (whites + [white])[0]);
    if whites == [] {
      assert [white][1..] == [];
    } else {
      assert (whites + [white])[1..] == whites[1..] + [white];
      PinkLast(PinkStep(s, whites[0]), whites[1..], white);
    }
  }

  // ---- How often a row is refreshed ----

  /** The counter after j more samples. */
  function CounterAfter(counter: nat, j: nat): nat {
    (counter + j) % Pow2(64)
  }

  lemma {:induction false} SomeNumberHas(k: nat, c: nat) returns (j: nat)
    ensures 1 <= j <= Pow2(k + 1) && TrailingZeros64(c + j) == k
  {
    if k == 0 {
      j := 1 + c % 2;
    } else {
      var half := SomeNumberHas(k - 1, c / 2);
      j := 2 * half - c % 2;
      hide TrailingZeros64;
      ZerosOfDouble(c / 2 + half);
      assert 2 * (c / 2 + half) == c + j;
    }
  }

  lemma ZerosOfDouble(n: nat)
    requires n > 0
    ensures TrailingZeros64(2 * n) == 1 + TrailingZeros64(n)
  {
    assert 2 * n / 2 == n && 2 * n % 2 == 0;
  }

  lemma {:induction false} ZerosOfPow2(w: nat)
    ensures TrailingZeros64(Pow2(w)) == w
  {
    if w > 0 {
      ZerosOfPow2(w - 1);
      assert Pow2(w) / 2 == Pow2(w - 1);
    }
  }

  /** Dropping a high bit leaves fewer than that many trailing zeros alone. */
  lemma {:induction false} ZerosAfterWrap(n: nat, w: nat)
    requires n >= Pow2(w) && TrailingZeros64(n) < w
    ensures n > Pow2(w) && TrailingZeros64(n - Pow2(w)) == TrailingZeros64(n)
  {
    ZerosOfPow2(w);
    assert Pow2(w) == 2 * Pow2(w - 1);
    if n % 2 == 0 {
      ZerosAfterWrap(n / 2, w - 1);
      assert (n - Pow2(w)) / 2 == n / 2 - Pow2(w - 1);
    }
  }

  lemma {:induction false} Pow2Ascends(a: nat, b: nat)
    requires a <= b
    ensures Pow2(a) <= Pow2(b)
  {
    if a < b {
      Pow2Ascends(a, b - 1);
    }
  }

  /** A counter whose lowest bit is number j refreshes row j, counted modulo 16; and 0 refreshes row 0. */
  lemma RefreshedBy(counter: nat, j: nat)
    requires counter % Pow2(j + 1) == Pow2(j)
    ensures RowIndex(counter) == j % 16 && RowIndex(0) == 0
  {
    LowestBit(counter, j);
  }

  lemma {:induction false} LowestBit(c: nat, j: nat)
    requires c % Pow2(j + 1) == Pow2(j)
    ensures TrailingZeros64(c) == j
  {
    if j > 0 {
      HalfOf(c, Pow2(j - 1), Pow2(j), Pow2(j + 1));
      hide Pow2;
      LowestBit(c / 2, j - 1);
    }
  }

  lemma HalfOf(c: nat, h: nat, p: nat, p2: nat)
    requires 0 < h && p == 2 * h && p2 == 2 * p && c % p2 == p
    ensures c % 2 == 0 && c / 2 % p == h
  {
    var q := c / p2;
    Regrouped(q, p);
    assert c == 2 * (q * p + h);
    Unique(c / 2, p, q, h);
  }

  lemma Regrouped(q: int, p: int)
    ensures q * (2 * p) == 2 * (q * p)
  {
  }

  /** Row k is refreshed within any 2^(k+1) consecutive samples, also across the wrap of the counter. */
  lemma RowIsRefreshed(counter: nat, k: nat) returns (j: nat)
    requires counter < Pow2(64) && k < ROWS
    ensures 1 <= j <= Pow2(k + 1) && RowIndex(CounterAfter(counter, j)) == k
  {
    hide Pow2, TrailingZeros64;
    j := SomeNumberHas(k, counter);
    Pow2Ascends(k + 1, 64);
    if counter + j >= Pow2(64) {
      ZerosAfterWrap(counter + j, 64);
      WrapOnce(counter + j, Pow2(64));
    } else {
      NoWrap(counter + j, Pow2(64));
    }
  }

  lemma WrapOnce(n: nat, m: nat)
    requires 0 < m <= n < 2 * m
    ensures n % m == n - m
  {
    assert n == m + (n - m);
    assert n / m == 1;
  }

  lemma NoWrap(n: nat, m: nat)
    requires n < m
    ensures n % m == n
  {
  }

  /** A row holds the draw of the last sample that refreshed it, or what it held at first. */
  lemma {:induction false} RowHoldsLatest(s: PinkState, whites: seq<Draw>, k: nat, j: nat)
    requires s.Valid() && k < ROWS && j <= |whites| && (j > 0 ==> RowIndex(CounterAfter(s.counter, j)) == k)
    requires forall i: nat :: j < i <= |whites| ==> RowIndex(CounterAfter(s.counter, i)) != k
    ensures PinkAfter(s, whites).rows[k] == if j == 0 then s.rows[k] else White(whites[j - 1])
    decreases |whites|
  {
    hide RowIndex, Pow2, Total, PinkStep, CounterAfter;
    if whites != [] {
      var s' := PinkStep(s, whites[0]);
      StepBoth(s, s, whites[0], k);
      StepRow(s, whites[0], k);
      forall i: nat | (if j > 0 then j - 1 else 0) < i <= |whites| - 1 ensures RowIndex(CounterAfter(s'.counter, i)) != k {
        NextCounter(s.counter, i + 1);
      }
      NextCounter(s.counter, j);
      RowHoldsLatest(s', whites[1..], k, if j > 0 then j - 1 else 0);
    }
  }

  lemma StepRow(s: PinkState, white: Draw, k: nat)
    requires s.Valid() && k < ROWS
    ensures PinkStep(s, white).counter == Incremented(s.counter) == CounterAfter(s.counter, 1)
    ensures |PinkStep(s, white).rows| == ROWS
    ensures PinkStep(s, white).rows[k] == if RowIndex(CounterAfter(s.counter, 1)) == k then White(white) else s.rows[k]
  {
    hide RowIndex, Pow2;
  }

  lemma StepBoth(s: PinkState, t: PinkState, white: Draw, k: nat)
    requires s.Valid() && t.Valid() && s.counter == t.counter && k < ROWS
    ensures var (s', t') := (PinkStep(s, white), PinkStep(t, white));
            && s'.Valid() && t'.Valid() && s'.counter == t'.counter == CounterAfter(s.counter, 1)
            && (s.rows[k] == t.rows[k] || RowIndex(s'.counter) == k ==> s'.rows[k] == t'.rows[k])
  {
    hide RowIndex, Pow2, Total;
    PinkStepKeeps(s, white);
    PinkStepKeeps(t, white);
  }

  /** Once row k of two generators that are fed the same draws has been refreshed, it stays the same in both. */
  lemma {:induction false} RowForgets(s: PinkState, t: PinkState, whites: seq<Draw>, k: nat, j: nat)
    requires s.Valid() && t.Valid() && s.counter == t.counter && k < ROWS
    requires s.rows[k] == t.rows[k] || (1 <= j <= |whites| && RowIndex(CounterAfter(s.counter, j)) == k)
    ensures PinkAfter(s, whites).rows[k] == PinkAfter(t, whites).rows[k]
    decreases |whites|
  {
    hide RowIndex, Pow2, Total, PinkStep;
    if whites != [] {
      StepBoth(s, t, whites[0], k);
      NextCounter(s.counter, j);
      RowForgets(PinkStep(s, whites[0]), PinkStep(t, whites[0]), whites[1..], k, if j > 0 then j - 1 else 0);
    }
  }

  lemma NextCounter(counter: nat, j: nat)
    requires counter < Pow2(64)
    ensures j >= 1 ==> CounterAfter(Incremented(counter), j - 1) == CounterAfter(counter, j)
  {
    hide Pow2;
    if counter + 1 < Pow2(64) {
      NoWrap(counter + 1, Pow2(64));
    } else if j >= 1 {
      WrapOnce(counter + 1, Pow2(64));
      ModAdds(j - 1, Pow2(64));
    }
  }

  lemma ModAdds(n: nat, m: nat)
    requires m > 0
    ensures (n + m) % m == n % m
  {
    var q, r := n / m, n % m;
    Unique(n + m, m, q + 1, r);
  }

  lemma Multiple(d: int, m: nat)
    ensures d >= 1 ==> d * m >= m
    ensures d <= -1 ==> d * m + m <= 0
  {
  }

  lemma Unique(n: nat, m: nat, q: nat, r: nat)
    requires 0 <= r < m && n == q * m + r
    ensures n % m == r
  {
    var d := q - n / m;
    assert d * m == n % m - r;
    Multiple(d, m);
  }

  lemma {:induction false} CountersAgree(s: PinkState, t: PinkState, whites: seq<Draw>)
    requires s.Valid() && t.Valid() && s.counter == t.counter
    ensures PinkAfter(s, whites).counter == PinkAfter(t, whites).counter
    decreases |whites|
  {
    if whites != [] {
      PinkStepKeeps(s, whites[0]);
      PinkStepKeeps(t, whites[0]);
      CountersAgree(PinkStep(s, whites[0]), PinkStep(t, whites[0]), whites[1..]);
    }
  }

  /**
   * After 65536 draws nothing of the rows before them is left: two generators at the same counter that are fed the
   * same draws are then in the same state, so all their later samples are equal.
   */
  lemma PinkForgets(s: PinkState, t: PinkState, whites: seq<Draw>)
    requires s.Valid() && t.Valid() && s.counter == t.counter && |whites| >= 65536
    ensures PinkAfter(s, whites) == PinkAfter(t, whites)
  {
    var s', t' := PinkAfter(s, whites), PinkAfter(t, whites);
    hide *;
    forall k: nat | k < ROWS ensures s'.rows[k] == t'.rows[k] {
      RowIsForgotten(s, t, whites, k);
    }
    CountersAgree(s, t, whites);
    SameRows(s', t');
  }

  lemma SameRows(s: PinkState, t: PinkState)
    requires s.Valid() && t.Valid() && s.counter == t.counter && forall k: nat :: k < ROWS ==> s.rows[k] == t.rows[k]
    ensures s == t
  {
    assert s.rows == t.rows;
  }

  lemma RowIsForgotten(s: PinkState, t: PinkState, whites: seq<Draw>, k: nat)
    requires s.Valid() && t.Valid() && s.counter == t.counter && |whites| >= 65536 && k < ROWS
    ensures PinkAfter(s, whites).rows[k] == PinkAfter(t, whites).rows[k]
  {
    hide PinkAfter, RowIndex, Pow2, Total;
    var j := RowIsRefreshed(s.counter, k);
    Pow2Ascends(k + 1, ROWS);
    SixtyFourK();
    RowForgets(s, t, whites, k, j);
  }

  lemma SixtyFourK()
    ensures Pow2(16) == 65536
  {
    assert Pow2(4) == 16;
    assert Pow2(8) == 16 * Pow2(4);
    assert Pow2(12) == 16 * Pow2(8);
    assert Pow2(16) == 16 * Pow2(12);
  }
}
