/** The source's 64-bit counters and their saturating addition. */
module Numbers {
  const U64_MAX: nat := 0xFFFF_FFFF_FFFF_FFFF

  type u64 = n: nat | n <= U64_MAX

  function Sat(n: nat): u64 {
    if n <= U64_MAX then n else U64_MAX
  }

  function SatAdd(a: u64, b: u64): u64 {
    Sat(a + b)
  }

  /** Saturating at every addition or once at the end comes to the same. */
  lemma SatTwice(a: nat, b: nat)
    ensures SatAdd(Sat(a), Sat(b)) == Sat(a + b)
  {
  }

  function Max(a: nat, b: nat): nat {
    if a < b then b else a
  }

  function Min(a: nat, b: nat): nat {
    if a < b then a else b
  }
}
