/** The price of blob gas: a Taylor expansion in integers. */
module BlobFee {
  import opened Primitives
  import opened Arithmetic

  /** Steps until the factor `numerator / (denominator * i)` is below one. */
  function Distance(numerator: nat, denominator: nat, i: nat): nat {
    if denominator * i <= numerator then numerator - denominator * i + 1 else 0
  }

  function NextTerm(accum: nat, numerator: nat, denominator: nat, i: nat): nat
    requires denominator > 0 && i > 0
  {
    MulMonotone(1, denominator, i);
    MulSign(accum, numerator);
    DivBound(accum * numerator, denominator * i);
    accum * numerator / (denominator * i)
  }

  /** Each turn comes closer to the point from which terms shrink, or shrinks the term. */
  lemma Shrinks(accum: nat, numerator: nat, denominator: nat, i: nat)
    requires denominator > 0 && i > 0 && accum > 0
    ensures var d, d' := Distance(numerator, denominator, i), Distance(numerator, denominator, i + 1);
            d' < d || (d' == d == 0 && NextTerm(accum, numerator, denominator, i) < accum)
  {
    var divisor := denominator * i;
    assert denominator * (i + 1) == divisor + denominator;
    if divisor > numerator {
      var next := NextTerm(accum, numerator, denominator, i);
      DivDef(accum * numerator, divisor);
      MulMonotone(numerator + 1, divisor, accum);
      Below(accum, numerator, divisor, next, (accum * numerator) % divisor);
    }
  }

  lemma Below(accum: nat, numerator: nat, divisor: nat, q: nat, r: nat)
    requires accum > 0 && numerator < divisor && accum * numerator == divisor * q + r
    ensures q < accum
  {
    MulMonotone(numerator + 1, divisor, accum);
    assert (numerator + 1) * accum == accum * numerator + accum;
    if q >= accum {
      MulMonotone(accum, q, divisor);
      assert false;
    }
  }

  /** The sum of the terms from `accum` on, until one is zero. */
  function Series(accum: nat, numerator: nat, denominator: nat, i: nat): nat
    requires denominator > 0 && i > 0
    decreases Distance(numerator, denominator, i), accum
  {
    if accum == 0 then 0
    else
      Shrinks(accum, numerator, denominator, i);
      accum + Series(NextTerm(accum, numerator, denominator, i), numerator, denominator, i + 1)
  }

  function FakeExponential(factor: nat, numerator: nat, denominator: nat): nat
    requires denominator > 0
  {
    MulSign(factor, denominator);
    var series := Series(factor * denominator, numerator, denominator, 1);
    DivBound(series, denominator);
    series / denominator
  }

  // ----- Bounds and monotonicity -----

  lemma AtLeastFactor(factor: nat, numerator: nat, denominator: nat)
    requires denominator > 0
    ensures FakeExponential(factor, numerator, denominator) >= factor
  {
    MulSign(factor, denominator);
    var series := Series(factor * denominator, numerator, denominator, 1);
    assert series >= factor * denominator;
    DivMonotone(factor * denominator, series, denominator);
    DivExact(factor, denominator);
  }

  lemma NextTermMonotone(accum: nat, accum': nat, numerator: nat, numerator': nat, denominator: nat, i: nat)
    requires denominator > 0 && i > 0 && accum <= accum' && numerator <= numerator'
    ensures NextTerm(accum, numerator, denominator, i) <= NextTerm(accum', numerator', denominator, i)
  {
    MulMonotone(1, denominator, i);
    MulMonotone(accum, accum', numerator);
    MulMonotone(numerator, numerator', accum');
    DivMonotone(accum * numerator, accum' * numerator', denominator * i);
  }

  lemma {:induction false} SeriesMonotone(
    accum: nat, accum': nat, numerator: nat, numerator': nat, denominator: nat, i: nat)
    requires denominator > 0 && i > 0 && accum <= accum' && numerator <= numerator'
    ensures Series(accum, numerator, denominator, i) <= Series(accum', numerator', denominator, i)
    decreases Distance(numerator', denominator, i), accum'
  {
    if accum > 0 {
      Shrinks(accum', numerator', denominator, i);
      NextTermMonotone(accum, accum', numerator, numerator', denominator, i);
      SeriesMonotone(NextTerm(accum, numerator, denominator, i), NextTerm(accum', numerator', denominator, i),
                     numerator, numerator', denominator, i + 1);
    }
  }

  /** A larger excess never lowers the price. */
  lemma Monotone(factor: nat, numerator: nat, numerator': nat, denominator: nat)
    requires denominator > 0 && numerator <= numerator'
    ensures FakeExponential(factor, numerator, denominator) <= FakeExponential(factor, numerator', denominator)
  {
    MulSign(factor, denominator);
    SeriesMonotone(factor * denominator, factor * denominator, numerator, numerator', denominator, 1);
    DivMonotone(Series(factor * denominator, numerator, denominator, 1),
                Series(factor * denominator, numerator', denominator, 1), denominator);
  }

  // ----- The terms -----

  /** The accumulator after `i` turns. */
  function Accumulator(factor: nat, numerator: nat, denominator: nat, i: nat): nat
    requires denominator > 0
  {
    MulSign(factor, denominator);
    if i == 0 then factor * denominator
    else NextTerm(Accumulator(factor, numerator, denominator, i - 1), numerator, denominator, i)
  }

  function Pow(b: nat, n: nat): nat {
    if n == 0 then 1 else MulSign(b, Pow(b, n - 1)); b * Pow(b, n - 1)
  }

  function Factorial(n: nat): nat {
    if n == 0 then 1 else MulSign(n, Factorial(n - 1)); n * Factorial(n - 1)
  }

  lemma NextTermBound(accum: nat, numerator: nat, denominator: nat, i: nat)
    requires denominator > 0 && i > 0
    ensures NextTerm(accum, numerator, denominator, i) * (denominator * i) <= accum * numerator
  {
    MulMonotone(1, denominator, i);
    DivDef(accum * numerator, denominator * i);
  }

  /** Scaling both sides of a step by the factors gathered before it. */
  lemma BoundStep(a: nat, a': nat, d: nat, i: nat, scale: nat, numerator: nat, bound: nat)
    requires a' * (d * i) <= a * numerator && a * scale <= bound
    ensures a' * ((d * i) * scale) <= bound * numerator
  {
    MulMonotone(a' * (d * i), a * numerator, scale);
    MulMonotone(a * scale, bound, numerator);
    assert a' * ((d * i) * scale) == (a' * (d * i)) * scale;
    assert (a * numerator) * scale == (a * scale) * numerator;
  }

  /** `denominator^i * i!` */
  function Scale(denominator: nat, i: nat): nat {
    MulSign(Pow(denominator, i), Factorial(i));
    Pow(denominator, i) * Factorial(i)
  }

  /** `factor * denominator * numerator^i` */
  function Exact(factor: nat, numerator: nat, denominator: nat, i: nat): nat {
    MulSign(factor, denominator);
    MulSign(factor * denominator, Pow(numerator, i));
    (factor * denominator) * Pow(numerator, i)
  }

  lemma Reorder(d: nat, i: nat, p: nat, f: nat)
    ensures (d * i) * (p * f) == (d * p) * (i * f)
  {
    calc {
      (d * i) * (p * f);
      d * (i * (p * f));
      { assert i * (p * f) == p * (i * f); }
      d * (p * (i * f));
      (d * p) * (i * f);
    }
  }

  lemma ScaleStep(denominator: nat, i: nat)
    requires i > 0
    ensures Scale(denominator, i) == (denominator * i) * Scale(denominator, i - 1)
  {
    Reorder(denominator, i, Pow(denominator, i - 1), Factorial(i - 1));
  }

  lemma ExactStep(factor: nat, numerator: nat, denominator: nat, i: nat)
    requires i > 0
    ensures Exact(factor, numerator, denominator, i) == Exact(factor, numerator, denominator, i - 1) * numerator
  {
    var x, p := factor * denominator, Pow(numerator, i - 1);
    assert x * (numerator * p) == (x * p) * numerator;
  }

  /** The i-th term is at most its exact value in the Taylor series, `factor * denominator * (n/d)^i / i!`. */
  lemma {:induction false} TermBound(factor: nat, numerator: nat, denominator: nat, i: nat)
    requires denominator > 0
    ensures Accumulator(factor, numerator, denominator, i) * Scale(denominator, i) <=
            Exact(factor, numerator, denominator, i)
  {
    if i > 0 {
      TermBound(factor, numerator, denominator, i - 1);
      TermBoundStep(Accumulator(factor, numerator, denominator, i - 1), factor, numerator, denominator, i);
    }
  }

  lemma TermBoundStep(a: nat, factor: nat, numerator: nat, denominator: nat, i: nat)
    requires denominator > 0 && i > 0
    requires a * Scale(denominator, i - 1) <= Exact(factor, numerator, denominator, i - 1)
    ensures NextTerm(a, numerator, denominator, i) * Scale(denominator, i) <= Exact(factor, numerator, denominator, i)
  {
    NextTermBound(a, numerator, denominator, i);
    BoundStep(a, NextTerm(a, numerator, denominator, i), denominator, i, Scale(denominator, i - 1), numerator,
              Exact(factor, numerator, denominator, i - 1));
    ScaleStep(denominator, i);
    ExactStep(factor, numerator, denominator, i);
  }

  function SumOfTerms(factor: nat, numerator: nat, denominator: nat, n: nat): nat
    requires denominator > 0
  {
    if n == 0 then 0
    else SumOfTerms(factor, numerator, denominator, n - 1) + Accumulator(factor, numerator, denominator, n - 1)
  }

  /** After `n` turns the loop has summed the first `n` terms and the rest is still to come. */
  lemma {:induction false} SeriesSplits(factor: nat, numerator: nat, denominator: nat, n: nat)
    requires denominator > 0
    ensures factor * denominator >= 0
    ensures Series(factor * denominator, numerator, denominator, 1) ==
            SumOfTerms(factor, numerator, denominator, n)
            + Series(Accumulator(factor, numerator, denominator, n), numerator, denominator, n + 1)
  {
    MulSign(factor, denominator);
    if n > 0 {
      SeriesSplits(factor, numerator, denominator, n - 1);
      var a := Accumulator(factor, numerator, denominator, n - 1);
      if a == 0 {
        ZeroStays(numerator, denominator, n);
      }
    }
  }

  lemma ZeroStays(numerator: nat, denominator: nat, i: nat)
    requires denominator > 0 && i > 0
    ensures NextTerm(0, numerator, denominator, i) == 0
  {
    MulMonotone(1, denominator, i);
    assert 0 * numerator == 0;
  }

  lemma {:induction false} ZeroReached(factor: nat, numerator: nat, denominator: nat, i: nat) returns (n: nat)
    requires denominator > 0
    ensures Accumulator(factor, numerator, denominator, n) == 0
    decreases Distance(numerator, denominator, i + 1), Accumulator(factor, numerator, denominator, i)
  {
    var a := Accumulator(factor, numerator, denominator, i);
    if a == 0 {
      n := i;
    } else {
      Shrinks(a, numerator, denominator, i + 1);
      n := ZeroReached(factor, numerator, denominator, i + 1);
    }
  }

  /** The result is the sum of all the terms that are not zero, divided by the denominator. */
  lemma SumsTheSeries(factor: nat, numerator: nat, denominator: nat) returns (n: nat)
    requires denominator > 0
    ensures Accumulator(factor, numerator, denominator, n) == 0
    ensures FakeExponential(factor, numerator, denominator) ==
            SumOfTerms(factor, numerator, denominator, n) / denominator
  {
    n := ZeroReached(factor, numerator, denominator, 0);
    SeriesSplits(factor, numerator, denominator, n);
  }

  // ----- In 128 bits -----

  const TWO_128: int := TWO_64 * TWO_64

  lemma MulCancel(x: nat, y: nat, d: nat)
    requires d > 0 && x * d <= y * d
    ensures x <= y
  {
    assert (y + 1) * d == y * d + d;
    if x > y {
      MulMonotone(y + 1, x, d);
    }
  }

  /** Whether a turn of the loop needs a number that 128 bits cannot hold. */
  predicate Overflows(accum: nat, output: nat, i: nat, numerator: nat, denominator: nat) {
    accum * numerator >= TWO_128 || output + accum >= TWO_128 || denominator * i >= TWO_128
  }

  /** No turn from this one on overflows. */
  predicate Fits128(accum: nat, output: nat, i: nat, numerator: nat, denominator: nat)
    requires denominator > 0 && i > 0
    decreases Distance(numerator, denominator, i), accum
  {
    accum == 0 ||
    (!Overflows(accum, output, i, numerator, denominator) &&
     (Shrinks(accum, numerator, denominator, i);
      Fits128(NextTerm(accum, numerator, denominator, i), output + accum, i + 1, numerator, denominator)))
  }

  /** What one turn of the loop does to the sum still to come and to the room left. */
  lemma OneTurn(accum: nat, output: nat, i: nat, numerator: nat, denominator: nat) returns (next: nat)
    requires denominator > 0 && i > 0 && accum > 0
    ensures next == NextTerm(accum, numerator, denominator, i)
    ensures Distance(numerator, denominator, i + 1) < Distance(numerator, denominator, i) ||
            (Distance(numerator, denominator, i + 1) == Distance(numerator, denominator, i) && next < accum)
    ensures Series(accum, numerator, denominator, i) == accum + Series(next, numerator, denominator, i + 1)
    ensures Fits128(accum, output, i, numerator, denominator) <==>
            !Overflows(accum, output, i, numerator, denominator) &&
            Fits128(next, output + accum, i + 1, numerator, denominator)
  {
    next := NextTerm(accum, numerator, denominator, i);
    Shrinks(accum, numerator, denominator, i);
  }

  /** The loop over the accumulator, which ends for every numerator; None where a number outgrows 128 bits. */
  method SumTerms(start: nat, numerator: nat, denominator: nat) returns (r: Option<nat>)
    requires denominator > 0
    ensures r == if Fits128(start, 0, 1, numerator, denominator)
                 then Some(Series(start, numerator, denominator, 1)) else None
  {
    var i: nat := 1;
    var output: nat := 0;
    var accum: nat := start;
    while accum > 0
      invariant i > 0
      invariant output + Series(accum, numerator, denominator, i) == Series(start, numerator, denominator, 1)
      invariant Fits128(accum, output, i, numerator, denominator) <==> Fits128(start, 0, 1, numerator, denominator)
      decreases Distance(numerator, denominator, i), accum
    {
      ghost var next := OneTurn(accum, output, i, numerator, denominator);
      if Overflows(accum, output, i, numerator, denominator) {
        return None;
      }
      output, accum, i := output + accum, NextTerm(accum, numerator, denominator, i), i + 1;
    }
    r := Some(output);
  }

  // How terms rise and fall.

  lemma Rises(accum: nat, numerator: nat, denominator: nat, i: nat)
    requires denominator > 0 && i > 0 && denominator * i <= numerator
    ensures accum <= NextTerm(accum, numerator, denominator, i)
  {
    MulMonotone(1, denominator, i);
    MulMonotone(denominator * i, numerator, accum);
    DivMonotone(accum * (denominator * i), accum * numerator, denominator * i);
    DivExact(accum, denominator * i);
  }

  lemma Falls(accum: nat, numerator: nat, denominator: nat, i: nat)
    requires denominator > 0 && i > 0 && numerator <= denominator * i
    ensures NextTerm(accum, numerator, denominator, i) <= accum
  {
    MulMonotone(1, denominator, i);
    NextTermBound(accum, numerator, denominator, i);
    MulMonotone(numerator, denominator * i, accum);
    MulCancel(NextTerm(accum, numerator, denominator, i), accum, denominator * i);
  }

  lemma Halves(accum: nat, numerator: nat, denominator: nat, i: nat)
    requires denominator > 0 && i > 0 && 2 * numerator <= denominator * i
    ensures 2 * NextTerm(accum, numerator, denominator, i) <= accum
  {
    var next := NextTerm(accum, numerator, denominator, i);
    MulMonotone(1, denominator, i);
    NextTermBound(accum, numerator, denominator, i);
    MulMonotone(2 * numerator, denominator * i, accum);
    assert (2 * next) * (denominator * i) == 2 * (next * (denominator * i));
    assert (2 * numerator) * accum == 2 * (accum * numerator);
    MulCancel(2 * next, accum, denominator * i);
  }

  lemma {:induction false} RisesTo(factor: nat, numerator: nat, denominator: nat, j: nat, k: nat)
    requires denominator > 0 && j <= k && denominator * k <= numerator
    ensures Accumulator(factor, numerator, denominator, j) <= Accumulator(factor, numerator, denominator, k)
    decreases k
  {
    if j < k {
      assert denominator * k == denominator * (k - 1) + denominator;
      RisesTo(factor, numerator, denominator, j, k - 1);
      Rises(Accumulator(factor, numerator, denominator, k - 1), numerator, denominator, k);
    }
  }

  lemma {:induction false} FallsFrom(factor: nat, numerator: nat, denominator: nat, j: nat, k: nat)
    requires denominator > 0 && j <= k && numerator <= denominator * (j + 1)
    ensures Accumulator(factor, numerator, denominator, k) <= Accumulator(factor, numerator, denominator, j)
    decreases k
  {
    if j < k {
      MulMonotone(j + 1, k, denominator);
      FallsFrom(factor, numerator, denominator, j, k - 1);
      Falls(Accumulator(factor, numerator, denominator, k - 1), numerator, denominator, k);
    }
  }

  /** The number of turns in which the accumulator rises. */
  function Turns(numerator: nat, denominator: nat): (turns: nat)
    requires denominator > 0
    ensures denominator * turns <= numerator < denominator * (turns + 1)
  {
    DivBound(numerator, denominator);
    DivDef(numerator, denominator);
    assert denominator * (numerator / denominator + 1) == denominator * (numerator / denominator) + denominator;
    numerator / denominator
  }

  /** The largest accumulator. */
  function Peak(factor: nat, numerator: nat, denominator: nat): nat
    requires denominator > 0
  {
    Accumulator(factor, numerator, denominator, Turns(numerator, denominator))
  }

  lemma PeakIsLargest(factor: nat, numerator: nat, denominator: nat, j: nat)
    requires denominator > 0
    ensures Accumulator(factor, numerator, denominator, j) <= Peak(factor, numerator, denominator)
  {
    var turns := Turns(numerator, denominator);
    if j <= turns {
      RisesTo(factor, numerator, denominator, j, turns);
    } else {
      FallsFrom(factor, numerator, denominator, turns, j);
    }
  }

  // What a loop without overflow implies.

  lemma {:induction false} FitsAfter(factor: nat, numerator: nat, denominator: nat, k: nat)
    requires denominator > 0 && factor * denominator >= 0
    requires Fits128(factor * denominator, 0, 1, numerator, denominator)
    ensures Fits128(Accumulator(factor, numerator, denominator, k), SumOfTerms(factor, numerator, denominator, k),
                    k + 1, numerator, denominator)
    decreases k
  {
    if k > 0 {
      FitsAfter(factor, numerator, denominator, k - 1);
      var accum := Accumulator(factor, numerator, denominator, k - 1);
      if accum == 0 {
        ZeroStays(numerator, denominator, k);
      } else {
        var next := OneTurn(accum, SumOfTerms(factor, numerator, denominator, k - 1), k, numerator, denominator);
      }
    }
  }

  lemma {:induction false} FittingSum(accum: nat, output: nat, i: nat, numerator: nat, denominator: nat)
    requires denominator > 0 && i > 0 && output < TWO_128 && Fits128(accum, output, i, numerator, denominator)
    ensures output + Series(accum, numerator, denominator, i) < TWO_128
    decreases Distance(numerator, denominator, i), accum
  {
    if accum > 0 {
      var next := OneTurn(accum, output, i, numerator, denominator);
      FittingSum(next, output + accum, i + 1, numerator, denominator);
    }
  }

  // What rules overflow out.

  /** The divisor fits: it is small, or the accumulator is, and a term is zero once the divisor exceeds it. */
  predicate Room(accum: nat, i: nat, numerator: nat, denominator: nat) {
    && accum * numerator < TWO_128 && denominator * i < TWO_128
    && (denominator * i <= 2 * numerator + 2 * denominator || 2 * (accum * numerator) < TWO_128)
  }

  lemma StaysRoomy(accum: nat, i: nat, numerator: U64, denominator: U64)
    requires denominator > 0 && i > 0 && Room(accum, i, numerator, denominator)
    requires var next := NextTerm(accum, numerator, denominator, i); next > 0 && next * numerator < TWO_128
    ensures Room(NextTerm(accum, numerator, denominator, i), i + 1, numerator, denominator)
  {
    var next, divisor, product := NextTerm(accum, numerator, denominator, i), denominator * i, accum * numerator;
    assert denominator * (i + 1) == divisor + denominator;
    NextTermBound(accum, numerator, denominator, i);
    MulMonotone(1, next, divisor);
    if divisor > 2 * numerator {
      Halves(accum, numerator, denominator, i);
      MulMonotone(2 * next, accum, numerator);
      assert (2 * next) * numerator == 2 * (next * numerator);
    }
  }

  lemma {:induction false} RoomyFits(factor: U64, numerator: U64, denominator: U64, k: nat)
    requires denominator > 0 && Peak(factor, numerator, denominator) * numerator < TWO_128
    requires var accum := Accumulator(factor, numerator, denominator, k);
             && SumOfTerms(factor, numerator, denominator, k) + Series(accum, numerator, denominator, k + 1) < TWO_128
             && (accum > 0 ==> Room(accum, k + 1, numerator, denominator))
    ensures Fits128(Accumulator(factor, numerator, denominator, k), SumOfTerms(factor, numerator, denominator, k),
                    k + 1, numerator, denominator)
    decreases Distance(numerator, denominator, k + 1), Accumulator(factor, numerator, denominator, k)
  {
    var accum, output := Accumulator(factor, numerator, denominator, k), SumOfTerms(factor, numerator, denominator, k);
    if accum > 0 {
      var next := OneTurn(accum, output, k + 1, numerator, denominator);
      PeakIsLargest(factor, numerator, denominator, k + 1);
      MulMonotone(next, Peak(factor, numerator, denominator), numerator);
      if next > 0 {
        StaysRoomy(accum, k + 1, numerator, denominator);
      }
      RoomyFits(factor, numerator, denominator, k + 1);
    }
  }

  /**
   For all 64-bit arguments: the loop stays within 128 bits if and only if the largest accumulator, the one
   after numerator / denominator turns, can be multiplied by the numerator, and the sum of the terms fits.
   */
  lemma FitsExactly(factor: U64, numerator: U64, denominator: U64)
    requires denominator > 0
    ensures factor * denominator >= 0
    ensures Fits128(factor * denominator, 0, 1, numerator, denominator) <==>
            && Peak(factor, numerator, denominator) * numerator < TWO_128
            && Series(factor * denominator, numerator, denominator, 1) < TWO_128
  {
    MulSign(factor, denominator);
    var start := factor * denominator;
    if Fits128(start, 0, 1, numerator, denominator) {
      FittingSum(start, 0, 1, numerator, denominator);
      FitsAfter(factor, numerator, denominator, Turns(numerator, denominator));
    } else if Peak(factor, numerator, denominator) * numerator < TWO_128 {
      PeakIsLargest(factor, numerator, denominator, 0);
      MulMonotone(start, Peak(factor, numerator, denominator), numerator);
      if Series(start, numerator, denominator, 1) < TWO_128 {
        RoomyFits(factor, numerator, denominator, 0);
      }
    }
  }

  // The product decides.

  lemma {:induction false} HalvingSum(accum: nat, numerator: nat, denominator: nat, i: nat)
    requires denominator > 0 && i > 0 && 2 * numerator <= denominator * i
    ensures Series(accum, numerator, denominator, i) <= 2 * accum
    decreases Distance(numerator, denominator, i), accum
  {
    if accum > 0 {
      var next := OneTurn(accum, 0, i, numerator, denominator);
      Halves(accum, numerator, denominator, i);
      MulMonotone(i, i + 1, denominator);
      HalvingSum(next, numerator, denominator, i + 1);
    }
  }

  lemma OneMorePeak(accum: nat, rest: nat, m: nat, peak: nat)
    requires accum <= peak && rest <= m * peak
    ensures accum + rest <= (m + 1) * peak
  {
    assert (m + 1) * peak == m * peak + peak;
  }

  /** The sum from `m` turns before the terms halve. */
  lemma {:induction false} SumBelowPeaks(factor: nat, numerator: nat, denominator: nat, k: nat, m: nat, peak: nat)
    requires denominator > 0 && 2 * numerator <= denominator * (k + 1 + m)
    requires peak == Peak(factor, numerator, denominator)
    ensures Series(Accumulator(factor, numerator, denominator, k), numerator, denominator, k + 1) <= (m + 2) * peak
    decreases m
  {
    var accum := Accumulator(factor, numerator, denominator, k);
    PeakIsLargest(factor, numerator, denominator, k);
    if m == 0 {
      HalvingSum(accum, numerator, denominator, k + 1);
      assert (m + 2) * peak == 2 * peak;
    } else if accum == 0 {
      MulSign(m + 2, peak);
    } else {
      var next := OneTurn(accum, 0, k + 1, numerator, denominator);
      SumBelowPeaks(factor, numerator, denominator, k + 1, m - 1, peak);
      OneMorePeak(accum, Series(next, numerator, denominator, k + 2), m + 1, peak);
    }
  }

  /** But for the smallest numerators the sum fits whenever the largest product does. */
  lemma ProductDecides(factor: U64, numerator: U64, denominator: U64)
    requires denominator > 0 && numerator >= 2 * Turns(numerator, denominator) + 3
    ensures factor * denominator >= 0
    ensures Fits128(factor * denominator, 0, 1, numerator, denominator) <==>
            Peak(factor, numerator, denominator) * numerator < TWO_128
  {
    FitsExactly(factor, numerator, denominator);
    var turns, peak := Turns(numerator, denominator), Peak(factor, numerator, denominator);
    assert denominator * (2 * turns + 2) == 2 * (denominator * (turns + 1));
    SumBelowPeaks(factor, numerator, denominator, 0, 2 * turns + 1, peak);
    MulMonotone(2 * turns + 3, numerator, peak);
  }

  /** A test without any loop: the exact Taylor terms bound the accumulators. */
  lemma ClosedFormFits(factor: U64, numerator: U64, denominator: U64)
    requires denominator > 0 && numerator >= 2 * Turns(numerator, denominator) + 3
    requires var turns := Turns(numerator, denominator);
             Exact(factor, numerator, denominator, turns) * numerator < TWO_128 * Scale(denominator, turns)
    ensures factor * denominator >= 0
    ensures Fits128(factor * denominator, 0, 1, numerator, denominator)
  {
    var turns := Turns(numerator, denominator);
    var peak, scale := Accumulator(factor, numerator, denominator, turns), Scale(denominator, turns);
    TermBound(factor, numerator, denominator, turns);
    MulMonotone(peak * scale, Exact(factor, numerator, denominator, turns), numerator);
    assert (peak * scale) * numerator == (peak * numerator) * scale;
    if peak * numerator >= TWO_128 {
      MulMonotone(TWO_128, peak * numerator, scale);
    }
    ProductDecides(factor, numerator, denominator);
  }

  /** None where a number does not fit in 128 bits. */
  method ComputeFakeExponential(factor: U64, numerator: U64, denominator: U64) returns (r: Option<nat>)
    requires denominator > 0
    ensures factor * denominator >= 0
    ensures r.Some? <==> && Peak(factor, numerator, denominator) * numerator < TWO_128
                         && Series(factor * denominator, numerator, denominator, 1) < TWO_128
    ensures r.Some? ==> r.value == FakeExponential(factor, numerator, denominator)
  {
    MulSign(factor, denominator);
    FitsExactly(factor, numerator, denominator);
    var output := SumTerms(factor * denominator, numerator, denominator);
    if output.None? {
      return None;
    }
    DivBound(output.value, denominator);
    r := Some(output.value / denominator);
  }
}
