/** Arithmetic helpers shared by the crawl queue and the table pages. */
module Numbers {

  /** The smaller of two naturals. */
  function MinNat(a: nat, b: nat): (m: nat)
    ensures m <= a && m <= b && (m == a || m == b)
  {
    if a <= b then a else b
  }
}
