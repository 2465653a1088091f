/**
 What a paced share allows, in whole numbers (budget.rs).

 A share of a long window is allowed as the window passes, a tenth of it ahead
 of time, and the whole share once that much has passed. The bound is stated
 here with neither a pace nor a division, for module `Budgets` to be measured by.
 */
module Allowances {

  /** The use is within `share` percent of the window; of one longer than five hours, within what has passed of it and a tenth. */
  predicate WithinPace(used: real, share: real, elapsed: nat, secs: nat) {
    && used <= share
    && (secs > 18_000 ==> 10.0 * used * secs as real <= share * (10 * elapsed + secs) as real)
  }

  /** What the share allows: as much of it as has passed of a long window, and a tenth, but no more than the whole. */
  function AllowedOf(share: real, elapsed: nat, secs: nat): real {
    if secs > 18_000 && 10 * elapsed < 9 * secs then share * (10 * elapsed + secs) as real / (10 * secs) as real else share
  }

  function ElapsedSince(start: nat, now: nat): nat {
    if start <= now then now - start else 0
  }

  lemma Scaled(a: real, b: real, k: real)
    requires k > 0.0
    ensures a <= b <==> a * k <= b * k
  {
    if a <= b {
      assert (b - a) * k >= 0.0;
    } else {
      assert (a - b) * k > 0.0;
    }
  }

  lemma Whole(paced: real, elapsed: real, secs: real)
    requires secs > 0.0 && paced == elapsed / secs + 0.1
    ensures paced * (10.0 * secs) == 10.0 * elapsed + secs
  {
    assert elapsed / secs * secs == elapsed;
  }

  /** The part of the share that is allowed, multiplied out. */
  lemma Multiplied(used: real, share: real, elapsed: real, secs: real, paced: real)
    requires secs > 0.0 && paced == elapsed / secs + 0.1
    ensures used <= share * paced <==> 10.0 * used * secs <= share * (10.0 * elapsed + secs)
  {
    Whole(paced, elapsed, secs);
    Scaled(used, share * paced, 10.0 * secs);
    assert share * paced * (10.0 * secs) == share * (paced * (10.0 * secs));
    assert used * (10.0 * secs) == 10.0 * used * secs;
  }

  lemma AtMostWhole(share: real, paced: real)
    requires share >= 0.0
    ensures paced <= 1.0 ==> share * paced <= share
    ensures paced >= 1.0 ==> share * paced >= share
  {
    assert share * (1.0 - paced) == share - share * paced;
    if paced <= 1.0 {
      assert share * (1.0 - paced) >= 0.0;
    } else {
      assert share * (paced - 1.0) >= 0.0;
    }
  }

  /** Being within the share times the pace, at most one, is being within both bounds. */
  lemma PacedExactly(used: real, share: real, elapsed: nat, secs: nat, paced: real)
    requires share >= 0.0 && secs > 0 && paced == elapsed as real / secs as real + 0.1
    ensures used <= share * (if paced < 1.0 then paced else 1.0) <==>
            used <= share && 10.0 * used * secs as real <= share * (10 * elapsed + secs) as real
  {
    Multiplied(used, share, elapsed as real, secs as real, paced);
    AtMostWhole(share, paced);
    assert (10 * elapsed + secs) as real == 10.0 * elapsed as real + secs as real;
  }

  lemma Divided(n: real, d: real, q: real)
    requires d > 0.0 && q * d == n
    ensures q == n / d
  {
    assert n / d * d == n;
    Scaled(q, n / d, d);
    Scaled(n / d, q, d);
  }

  lemma PacedShare(share: real, paced: real, whole: real, allowed: real)
    requires whole > 0.0 && paced * whole == allowed
    ensures share * paced == share * allowed / whole
  {
    assert share * paced * whole == share * (paced * whole);
    Divided(share * allowed, whole, share * paced);
  }

  lemma InWholeNumbers(elapsed: nat, secs: nat)
    ensures (10 * elapsed + secs) as real == 10.0 * elapsed as real + secs as real
    ensures (10 * secs) as real == 10.0 * secs as real
    ensures 10.0 * secs as real <= 10.0 * elapsed as real + secs as real <==> 9 * secs <= 10 * elapsed
  {
    assert 10.0 * elapsed as real + secs as real - 10.0 * secs as real == (10 * elapsed - 9 * secs) as real;
  }

  lemma AllowedExactly(share: real, elapsed: nat, secs: nat, paced: real)
    requires secs > 18_000 && paced == elapsed as real / secs as real + 0.1
    ensures share * (if paced < 1.0 then paced else 1.0) == AllowedOf(share, elapsed, secs)
  {
    var whole, allowed := 10.0 * secs as real, 10.0 * elapsed as real + secs as real;
    Whole(paced, elapsed as real, secs as real);
    InWholeNumbers(elapsed, secs);
    Scaled(1.0, paced, whole);
    PacedShare(share, paced, whole, allowed);
  }

  lemma Sums(a: real, b: real, total: real, p: real, q: real, x: real, y: real)
    requires y >= 0.0 && 10.0 * a * y <= p * x && 10.0 * b * y <= q * x && total <= a + b
    ensures 10.0 * total * y <= (p + q) * x
  {
    assert (a + b - total) * y >= 0.0;
    assert (p + q) * x == p * x + q * x;
    assert 10.0 * total * y == 10.0 * a * y + 10.0 * b * y - 10.0 * ((a + b - total) * y);
  }

  /** Two uses within their shares are together within both shares. */
  lemma WithinTogether(a: real, b: real, total: real, p: real, q: real, elapsed: nat, secs: nat)
    requires WithinPace(a, p, elapsed, secs) && WithinPace(b, q, elapsed, secs) && total <= a + b
    ensures WithinPace(total, p + q, elapsed, secs)
  {
    if secs > 18_000 {
      Sums(a, b, total, p, q, (10 * elapsed + secs) as real, secs as real);
    }
  }
}
