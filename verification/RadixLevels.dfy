/** The arithmetic of a radix tree that only grows at its end: six levels of 1024
    slots below a root (fuzzy_log_server/src/trie.rs). Level 7 stands for the
    values themselves. */
module RadixLevels {

  /** How many keys one segment of level d covers; the level's mask is one less. */
  function Span(d: nat): (p: nat)
    requires 1 <= d <= 7
    ensures p > 0
  {
    if d == 7 then 1
    else if d == 6 then 0x400
    else if d == 5 then 0x10_0000
    else if d == 4 then 0x4000_0000
    else if d == 3 then 0x100_0000_0000
    else if d == 2 then 0x4_0000_0000_0000
    else 0x1000_0000_0000_0000
  }

  /** level_index_for_key: shift, then mask. */
  function LevelIndex(d: nat, k: nat): nat
    requires 1 <= d <= 6
  {
    k / Span(d + 1) % 1024
  }

  /** The segment of level d that key k belongs to. */
  function Ordinal(d: nat, k: nat): nat
    requires 1 <= d <= 7
    decreases 7 - d
  {
    if d == 7 then k else Ordinal(d + 1, k) / 1024
  }

  /** n is the first key of a segment of level d. */
  predicate Aligned(d: nat, n: nat)
    requires 1 <= d <= 7
    decreases 7 - d
  {
    d < 7 ==> Aligned(d + 1, n) && Ordinal(d + 1, n) % 1024 == 0
  }

  /** The number of segments level d needs for n keys. */
  function Count(d: nat, n: nat): nat
    requires 1 <= d <= 7
    decreases 7 - d
  {
    if d == 7 then n else (Count(d + 1, n) + 1023) / 1024
  }

  // ---------------------------------------------------------------------------
  // Shifts and masks

  lemma Scale(p: nat, a: int, b: int)
    requires a >= b
    ensures p * a >= p * b
  {
  }

  lemma Cancel(p: nat, a: int, b: int)
    requires p * a < p * b
    ensures a < b
  {
  }

  lemma Quotient(n: nat, p: nat, q: nat, r: nat)
    requires p > 0 && r < p && n == p * q + r
    ensures n / p == q && n % p == r
  {
    var q', r' := n / p, n % p;
    assert n == p * q' + r';
    assert p * q < p * (q' + 1) by { assert p * (q' + 1) == p * q' + p; }
    assert p * q' < p * (q + 1) by { assert p * (q + 1) == p * q + p; }
    Cancel(p, q, q' + 1);
    Cancel(p, q', q + 1);
  }

  /** Shifting further, and masking more. */
  lemma ShiftMore(n: nat, s: nat, m: nat)
    requires s > 0 && m > 0
    ensures m * s > 0 && n / (m * s) == n / s / m
    ensures n % (m * s) == s * (n / s % m) + n % s
  {
    var q := n / s;
    assert n == s * q + n % s;
    assert q == m * (q / m) + q % m;
    ShiftParts(n, s, m, q, n % s, q / m, q % m);
  }

  lemma Distribute(s: nat, m: nat, a: nat, b: nat)
    ensures s * (m * a + b) == (m * s) * a + s * b
  {
    calc {
      s * (m * a + b);
      s * (m * a) + s * b;
      (s * m) * a + s * b;
      (m * s) * a + s * b;
    }
  }

  /** What is left after two shifts is below the product of the two spans. */
  lemma Remainder(s: nat, m: nat, b: nat, r: nat)
    requires r < s && b < m
    ensures s * b + r < m * s
  {
    Scale(s, m - 1, b);
    assert s * (m - 1) == m * s - s;
  }

  lemma ShiftParts(n: nat, s: nat, m: nat, q: nat, r: nat, a: nat, b: nat)
    requires n == s * q + r && q == m * a + b && r < s && b < m
    ensures m * s > 0 && n / (m * s) == a && n % (m * s) == s * b + r
  {
    Distribute(s, m, a, b);
    Remainder(s, m, b, r);
    Scale(s, b, 0);
    Quotient(n, m * s, a, s * b + r);
  }

  lemma {:induction false} OrdinalIsShift(d: nat, k: nat)
    requires 1 <= d <= 7
    ensures Ordinal(d, k) == k / Span(d)
    decreases 7 - d
  {
  }

  lemma {:induction false} AlignedIsMask(d: nat, n: nat)
    requires 1 <= d <= 7
    ensures Aligned(d, n) <==> n % Span(d) == 0
    decreases 7 - d
  {
    if d < 7 {
      AlignedIsMask(d + 1, n);
      OrdinalIsShift(d + 1, n);
      ShiftMore(n, Span(d + 1), 1024);
      assert Span(d) == 1024 * Span(d + 1);
      BothZero(Span(d + 1), n / Span(d + 1) % 1024, n % Span(d + 1));
    }
  }

  lemma BothZero(s: nat, a: nat, b: nat)
    requires s > 0
    ensures s * a + b == 0 <==> a == 0 && b == 0
  {
  }

  /** Where a key's segment hangs: below its parent's, at the level's index. */
  lemma OrdinalSplits(d: nat, k: nat)
    requires 1 <= d <= 6
    ensures Ordinal(d + 1, k) == Ordinal(d, k) * 1024 + LevelIndex(d, k)
  {
    OrdinalIsShift(d + 1, k);
  }

  // ---------------------------------------------------------------------------
  // Counting segments

  function Up(m: nat): nat {
    (m + 1023) / 1024
  }

  lemma RoundUp(m: nat)
    ensures Up(m) == if m % 1024 == 0 then m / 1024 else m / 1024 + 1
    ensures Up(m + 1) == m / 1024 + 1
    ensures m % 1024 == 0 ==> m == 1024 * (m / 1024)
  {
  }

  /** One level further up. */
  lemma OneUp(d: nat, n: nat)
    requires 1 <= d < 7
    ensures Count(d, n) == Up(Count(d + 1, n)) && Ordinal(d, n) == Ordinal(d + 1, n) / 1024
    ensures Aligned(d, n) <==> Aligned(d + 1, n) && Ordinal(d + 1, n) % 1024 == 0
  {
  }

  lemma Bottom(n: nat)
    ensures Count(7, n) == n && Ordinal(7, n) == n && Aligned(7, n)
  {
  }

  lemma CountUp(c: nat, c': nat, o: nat, aligned: bool)
    requires c' == (if aligned then c + 1 else c) && (aligned ==> c == o)
    ensures Up(c') == if aligned && o % 1024 == 0 then Up(c) + 1 else Up(c)
    ensures aligned && o % 1024 == 0 ==> Up(c) == o / 1024 && c == 1024 * Up(c)
  {
    RoundUp(c);
  }

  /** A level gets a new segment exactly when the next key is aligned to it; then
      all the segments it has are full. */
  lemma {:induction false} CountGrows(d: nat, n: nat)
    requires 1 <= d <= 7
    ensures Count(d, n + 1) == if Aligned(d, n) then Count(d, n) + 1 else Count(d, n)
    ensures Aligned(d, n) ==> Count(d, n) == Ordinal(d, n)
    ensures Aligned(d, n) && d < 7 ==> Count(d + 1, n) == 1024 * Count(d, n)
    decreases 7 - d
  {
    hide Count, Ordinal, Aligned, Up;
    if d == 7 {
      Bottom(n);
      Bottom(n + 1);
    } else {
      OneUp(d, n);
      OneUp(d, n + 1);
      CountGrows(d + 1, n);
      CountUp(Count(d + 1, n), Count(d + 1, n + 1), Ordinal(d + 1, n), Aligned(d + 1, n));
    }
  }

  lemma {:induction false} NoKeys(d: nat)
    requires 1 <= d <= 7
    ensures Count(d, 0) == 0
    decreases 7 - d
  {
    if d < 7 {
      NoKeys(d + 1);
    }
  }
}
