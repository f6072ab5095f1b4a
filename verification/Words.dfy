/** Machine words of the C sources, as ranges of the natural numbers. */
module Words {
  const TWO_24: nat := 0x100_0000
  const TWO_32: nat := 0x1_0000_0000
  const TWO_64: nat := 0x1_0000_0000_0000_0000

  type u8 = x: nat | x < 0x100
  type u16 = x: nat | x < 0x1_0000
  type u32 = x: nat | x < 0x1_0000_0000
  type u64 = x: nat | x < 0x1_0000_0000_0000_0000

  datatype Option<+T> = None | Some(value: T)

  function Min(a: nat, b: nat): nat { if a <= b then a else b }

  function Max(a: nat, b: nat): nat { if a >= b then a else b }

  lemma MulMonotone(n: nat, a: nat, b: nat)
    requires a <= b
    ensures n * a <= n * b
  {
  }

  ghost predicate Distinct(ks: seq<u32>) { forall i, j :: 0 <= i < j < |ks| ==> ks[i] != ks[j] }

  ghost predicate Covered(k: u32, s: set<u32>, m: nat)
    requires m > 0
  {
    exists q: u32 :: q in s && q % m == k
  }

  /** Distinct remainders of the members of a set are no more than its members. */
  lemma {:induction false} Pigeonhole(ks: seq<u32>, s: set<u32>, m: nat)
    requires m > 0 && Distinct(ks) && forall i :: 0 <= i < |ks| ==> Covered(ks[i], s, m)
    ensures |ks| <= |s|
  {
    if |ks| > 0 {
      var n := |ks| - 1;
      assert Covered(ks[n], s, m);
      var q: u32 :| q in s && q % m == ks[n];
      forall i | 0 <= i < n ensures Covered(ks[i], s - {q}, m) {
        assert Covered(ks[i], s, m);
        var p: u32 :| p in s && p % m == ks[i];
        assert p in s - {q};
      }
      Pigeonhole(ks[..n], s - {q}, m);
    }
  }

  lemma {:induction false} SubsetSize(a: set<u32>, b: set<u32>)
    requires a <= b
    ensures |a| <= |b|
  {
    assert b == a + (b - a);
  }
}
