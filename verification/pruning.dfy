/** The candidate sets of the frequency generators: the tuning grid of a range,
    the open windows taken out of it around each channel and product, and the
    smallest candidate. A `HashMap<Integer, Integer>` whose keys equal their
    values is modelled as the set of its keys. Every function here needs a
    positive tuning accuracy except `FirstValidAny`: with zero the Java loops never
    advance, and with a negative one they step away from `hi`. */
module Pruning {

  // ---- Multiples of the tuning accuracy --------------------------------------

  /** Multiplying by a positive accuracy keeps the order. */
  lemma MulMono(x: int, y: int, acc: int)
    requires acc > 0
    ensures x <= y ==> x * acc <= y * acc
  {
    if x <= y {
      MulNonneg(y - x, acc);
      assert y * acc - x * acc == (y - x) * acc;
    }
  }

  lemma {:induction false} MulNonneg(d: nat, acc: nat)
    ensures d * acc >= 0
    decreases d
  {
    if d > 0 {
      MulNonneg(d - 1, acc);
      assert d * acc == (d - 1) * acc + acc;
    }
  }

  /** The quotient and remainder are the only ones with `0 <= m < acc`. */
  lemma DivModUnique(x: int, acc: int, q: int, m: int)
    requires acc > 0 && x == q * acc + m && 0 <= m < acc
    ensures x / acc == q && x % acc == m
  {
    var q', m' := x / acc, x % acc;
    assert x == q' * acc + m';
    assert (q' - q) * acc == m - m';
    MulMono(1, q' - q, acc);
    MulMono(q' - q, -1, acc);
  }

  /** Subtracting `acc` does not change the remainder. */
  lemma ShiftMod(x: int, acc: int)
    requires acc > 0
    ensures (x - acc) % acc == x % acc
    ensures (x - acc) / acc == x / acc - 1
  {
    var q, m := x / acc, x % acc;
    assert x - acc == (q - 1) * acc + m;
    DivModUnique(x - acc, acc, q - 1, m);
  }

  /** A multiple plus an offset has the offset's remainder. */
  lemma MultipleShift(k: int, acc: int, x: int)
    requires acc > 0
    ensures (k * acc + x) % acc == x % acc
  {
    var q, m := x / acc, x % acc;
    assert k * acc + x == (k + q) * acc + m;
    DivModUnique(k * acc + x, acc, k + q, m);
  }

  /** Two distinct multiples of `acc` are at least `acc` apart. */
  lemma MultiplesApart(a: int, b: int, acc: int)
    requires acc > 0 && a % acc == 0 && b % acc == 0 && a < b
    ensures b - a >= acc
  {
    var qa, qb := a / acc, b / acc;
    assert a == qa * acc && b == qb * acc;
    assert (qb - qa) * acc == b - a;
    MulMono(qb - qa, 0, acc);
    MulMono(1, qb - qa, acc);
  }

  /** When `base` is a multiple, a point is a multiple exactly when its distance
      from `base` is. */
  lemma OffsetMod(p: int, base: int, acc: int)
    requires acc > 0 && base % acc == 0
    ensures (p - base) % acc == 0 <==> p % acc == 0
  {
    var k := base / acc;
    assert base == k * acc;
    MultipleShift(-k, acc, p);
    assert p - base == (-k) * acc + p;
  }

  /** `tuningAccuracy * ceil(low / tuningAccuracy)`, written with integer
      division (the `double` quotient is exact for 32-bit operands). */
  function FirstValid(low: int, acc: int): (r: int)
    requires acc > 0
    ensures r % acc == 0 && low <= r < low + acc
  {
    var q, m := (-low) / acc, (-low) % acc;
    assert -low == q * acc + m;
    MultipleShift(-q, acc, 0);
    var r := (-q) * acc;
    assert r == low + m;
    r
  }

  /** It is the least multiple of the accuracy at or above `low`. */
  lemma FirstValidIsLeast(low: int, acc: int, m: int)
    requires acc > 0 && m % acc == 0 && m >= low
    ensures FirstValid(low, acc) <= m
  {
    var r := FirstValid(low, acc);
    if m < r {
      MultiplesApart(m, r, acc);
    }
  }

  /** `getFirstValidFrequencyInRange` for any accuracy. A negative accuracy rounds
      the quotient up and so lands on the greatest multiple at or below `low`; a
      zero accuracy makes the quotient infinite or NaN, and the product with zero
      is 0. */
  function FirstValidAny(low: int, acc: int): (r: int)
    ensures acc == 0 ==> r == 0
    ensures acc > 0 ==> r % acc == 0 && low <= r < low + acc
    ensures acc < 0 ==> r % acc == 0 && low + acc < r <= low
  {
    if acc == 0 then 0
    else if acc > 0 then FirstValid(low, acc)
    else
      var up := FirstValid(-low, -acc);
      NegatedMultiple(up, -acc);
      -up
  }

  /** The negation of a multiple of `a` is a multiple of `a` and of `-a`. */
  lemma NegatedMultiple(x: int, a: int)
    requires a > 0 && x % a == 0
    ensures (-x) % a == 0 && (-x) % (-a) == 0
  {
    var q := x / a;
    assert x == q * a;
    DivModUnique(-x, a, -q, 0);
    var r := (-x) % (-a);
    assert -x == ((-x) / (-a)) * (-a) + r && 0 <= r < a;
    assert -x == (-((-x) / (-a))) * a + r;
    DivModUnique(-x, a, -((-x) / (-a)), r);
  }

  // ---- Stepping through a range ------------------------------------------------

  /** A point beyond `start` is on its grid exactly when it is at least one step on
      and on the grid of the next step. */
  lemma StepMember(p: int, start: int, acc: int)
    requires acc > 0
    ensures p > start && (p - start) % acc == 0 <==> p >= start + acc && (p - (start + acc)) % acc == 0
  {
    ShiftMod(p - start, acc);
    assert p - (start + acc) == (p - start) - acc;
    if p > start && (p - start) % acc == 0 {
      MultiplesApart(0, p - start, acc);
    }
  }

  /** The keys the loop `counter := start; while counter <= hi: put(counter);
      counter += acc` stores, in the order it stores them. */
  function Steps(start: int, hi: int, acc: int): (r: seq<int>)
    requires acc > 0
    ensures forall p :: p in r <==> start <= p <= hi && (p - start) % acc == 0
    ensures forall i, j :: 0 <= i < j < |r| ==> r[i] < r[j]
    decreases hi - start + acc
  {
    if start > hi then []
    else
      var rest := Steps(start + acc, hi, acc);
      var r := [start] + rest;
      forall p ensures p in r <==> start <= p <= hi && (p - start) % acc == 0 {
        StepMember(p, start, acc);
      }
      forall i, j | 0 <= i < j < |r| ensures r[i] < r[j] {
        assert r[j] == rest[j - 1] && r[j] in rest;
        if i > 0 {
          assert r[i] == rest[i - 1];
        }
      }
      r
  }

  /** The loop runs `1 + (hi - start) / acc` times, or not at all. */
  lemma {:induction false} StepsCount(start: int, hi: int, acc: int)
    requires acc > 0
    ensures |Steps(start, hi, acc)| == if start > hi then 0 else 1 + (hi - start) / acc
    decreases hi - start + acc
  {
    if start <= hi {
      StepsCount(start + acc, hi, acc);
      ShiftMod(hi - start, acc);
      if start + acc > hi {
        DivModUnique(hi - start, acc, 0, hi - start);
      }
    }
  }

  /** The multiples of `acc` in `[lo, hi]`, from the first one up. */
  function GridPoints(lo: int, hi: int, acc: int): (r: seq<int>)
    requires acc > 0
    ensures forall p :: p in r <==> lo <= p <= hi && p % acc == 0
    ensures forall i, j :: 0 <= i < j < |r| ==> r[i] < r[j]
  {
    var start := FirstValid(lo, acc);
    var r := Steps(start, hi, acc);
    forall p ensures p in r <==> lo <= p <= hi && p % acc == 0 {
      OffsetMod(p, start, acc);
      if lo <= p && p % acc == 0 {
        FirstValidIsLeast(lo, acc, p);
      }
    }
    r
  }

  /** The set of the grid points of `[lo, hi]`. */
  function Grid(lo: int, hi: int, acc: int): (s: set<int>)
    requires acc > 0
    ensures forall p :: p in s <==> lo <= p <= hi && p % acc == 0
  {
    set p | p in GridPoints(lo, hi, acc)
  }

  /** The grid points strictly inside the window `(lo, hi)`: the loop
      `for i = FirstValid(lo + 1); i < hi; i += acc`. */
  function WindowPoints(lo: int, hi: int, acc: int): (s: set<int>)
    requires acc > 0
    ensures forall p :: p in s <==> lo < p < hi && p % acc == 0
  {
    var start := FirstValid(lo + 1, acc);
    var st := Steps(start, hi - 1, acc);
    forall p ensures p in st <==> lo < p < hi && p % acc == 0 {
      OffsetMod(p, start, acc);
      if lo + 1 <= p && p % acc == 0 {
        FirstValidIsLeast(lo + 1, acc, p);
      }
    }
    set p | p in st
  }

  // ---- The removal window ------------------------------------------------------

  /** Every candidate lies in the range `[lo, hi]`. */
  predicate InRange(s: set<int>, lo: int, hi: int) {
    forall p :: p in s ==> lo <= p <= hi
  }

  /** The window of a component at `freq` with clearance `spacing` covers the grid
      point `p`. */
  predicate Covers(freq: int, spacing: int, acc: int, p: int) {
    freq - spacing < p < freq + spacing && acc != 0 && p % acc == 0
  }

  /** `removeConflictRange`: nothing happens when the window `(freq - spacing,
      freq + spacing)` lies wholly beyond the range `[lo, hi]`; otherwise every
      grid point strictly inside the window is removed. */
  function PruneWindow(s: set<int>, lo: int, hi: int, acc: int, freq: int, spacing: int): (r: set<int>)
    requires acc > 0
    ensures r <= s
    ensures freq + spacing < lo || freq - spacing > hi ==> r == s
    ensures !(freq + spacing < lo || freq - spacing > hi) ==>
              forall p :: p in r <==> p in s && !Covers(freq, spacing, acc, p)
  {
    if freq + spacing < lo || freq - spacing > hi then s
    else s - WindowPoints(freq - spacing, freq + spacing, acc)
  }

  /** The early return loses nothing: on candidates inside the range, the removal
      takes out exactly the covered grid points, whether or not the window meets
      the range. */
  lemma PruneWindowExact(s: set<int>, lo: int, hi: int, acc: int, freq: int, spacing: int)
    requires acc > 0 && InRange(s, lo, hi)
    ensures forall p :: p in PruneWindow(s, lo, hi, acc, freq, spacing) <==> p in s && !Covers(freq, spacing, acc, p)
  {
  }

  /** A zero (or negative) clearance removes nothing. */
  lemma PruneWindowEmpty(s: set<int>, lo: int, hi: int, acc: int, freq: int, spacing: int)
    requires acc > 0 && spacing <= 0
    ensures PruneWindow(s, lo, hi, acc, freq, spacing) == s
  {
  }

  // ---- The smallest candidate ----------------------------------------------------

  lemma HasElement(s: set<int>)
    requires s != {}
    ensures exists x :: x in s
  {
    if forall x :: x !in s {
      assert false;
    }
  }

  /** A finite non-empty set of integers has a least element. */
  lemma {:induction false} HasMinimum(s: set<int>)
    requires s != {}
    ensures exists m :: m in s && forall y :: y in s ==> m <= y
    decreases |s|
  {
    HasElement(s);
    var x :| x in s;
    if s != {x} {
      HasMinimum(s - {x});
      var m :| m in s - {x} && forall y :: y in s - {x} ==> m <= y;
      var least := if x < m then x else m;
      forall y | y in s ensures least <= y {
        if y != x {
          assert y in s - {x};
        }
      }
    } else {
      assert forall y :: y in s ==> x <= y;
    }
  }

  /** `Collections.min` of the key set. */
  function SetMin(s: set<int>): (m: int)
    requires s != {}
    ensures m in s && forall y :: y in s ==> m <= y
  {
    HasMinimum(s);
    var m :| m in s && forall y :: y in s ==> m <= y;
    m
  }
}
