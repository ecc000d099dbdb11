/**
 * The amounts that the fixture generators derive from an index, in 64-bit arithmetic, and
 * when two of them coincide.
 */
module Amounts {
  import opened MachineInts

  function AsInt64(x: Uint64): int {
    if x <= MAX_INT64 then x else x - TWO_TO_64
  }

  function Successor(index: Uint64): Uint64 {
    (index + 1) % TWO_TO_64
  }

  function Times(factor: nat, n: Uint64): Uint64 {
    factor * n % TWO_TO_64
  }

  // The index's successor n, as n000_00n.
  function UnstakedBalance(index: Uint64): int {
    AsInt64(Times(1000001, Successor(index)))
  }

  // As n0n00.
  function SupplierStake(index: Uint64): int {
    AsInt64(Times(10100, Successor(index)))
  }

  // As n00_0n0.
  function ApplicationStake(index: Uint64): int {
    AsInt64(Times(100010, Successor(index)))
  }

  // --- One generator ------------------------------------------------------------------

  // Equal products modulo 2^64 differ by a multiple of it.
  lemma ProductsMeet(factor: nat, n: Uint64, m: Uint64) returns (q: int)
    requires Times(factor, n) == Times(factor, m)
    ensures factor * n - factor * m == TWO_TO_64 * q
  {
    q := factor * n / TWO_TO_64 - factor * m / TWO_TO_64;
  }

  lemma SuccessorsDiffer(i: Uint64, j: Uint64) returns (q: int)
    ensures Successor(i) - Successor(j) == i - j + TWO_TO_64 * q
  {
    q := (if Successor(i) == 0 then -1 else 0) + (if Successor(j) == 0 then 1 else 0);
  }

  // The odd parts of the three factors have inverses modulo powers of two.
  lemma InvertUnstaked(x: int, q: int) returns (k: int)
    requires 1000001 * x == TWO_TO_64 * q
    ensures x == TWO_TO_64 * k
  {
    k := 0xD3EBE4488E31CDC1 * q - 0xCA1AB * x;
  }

  lemma InvertSupplier(x: int, q: int) returns (k: int)
    requires 10100 * x == TWO_TO_64 * q
    ensures x == 0x4000_0000_0000_0000 * k
  {
    k := 0x262C0067D1C49675 * q - 0x5E2 * x;
  }

  lemma InvertApplication(x: int, q: int) returns (k: int)
    requires 100010 * x == TWO_TO_64 * q
    ensures x == 0x8000_0000_0000_0000 * k
  {
    k := 0x3D49B72B8FCD21FD * q - 0x5D87 * x;
  }

  lemma Between(d: int, z: int)
    requires -d < d * z < d
    ensures z == 0
  {
  }

  lemma SameRemainder(a: int, b: int, k: int, d: int)
    requires d > 0 && a - b == d * k
    ensures a % d == b % d
  {
    var z := k - a / d + b / d;
    assert a % d - b % d == d * z;
    Between(d, z);
  }

  // Equal amounts of one generator: their indices differ by a multiple of the modulus.
  lemma IndicesApart(i: Uint64, j: Uint64, k: int, modulus: int)
    requires modulus == TWO_TO_64 || 2 * modulus == TWO_TO_64 || 4 * modulus == TWO_TO_64
    requires Successor(i) - Successor(j) == modulus * k
    ensures (i - j) % modulus == 0
  {
    var r := SuccessorsDiffer(i, j);
    var times := if modulus == TWO_TO_64 then 1 else if 2 * modulus == TWO_TO_64 then 2 else 4;
    SameRemainder(i - j, 0, k - times * r, modulus);
  }

  // The unstaked balances never repeat, over all of 64 bits: their factor is odd.
  lemma UnstakedInjective(i: Uint64, j: Uint64)
    requires UnstakedBalance(i) == UnstakedBalance(j)
    ensures i == j
  {
    hide Times, Successor;
    var q := ProductsMeet(1000001, Successor(i), Successor(j));
    var k := InvertUnstaked(Successor(i) - Successor(j), q);
    IndicesApart(i, j, k, TWO_TO_64);
  }

  // The supplier stakes repeat exactly every 2^62 indices.
  lemma SupplierRepeats(i: Uint64, j: Uint64)
    ensures SupplierStake(i) == SupplierStake(j) <==> (i - j) % 0x4000_0000_0000_0000 == 0
  {
    if SupplierStake(i) == SupplierStake(j) {
      hide Times, Successor;
      var q := ProductsMeet(10100, Successor(i), Successor(j));
      var k := InvertSupplier(Successor(i) - Successor(j), q);
      IndicesApart(i, j, k, 0x4000_0000_0000_0000);
    } else if (i - j) % 0x4000_0000_0000_0000 == 0 {
      var r := SuccessorsDiffer(i, j);
      var t := (i - j) / 0x4000_0000_0000_0000;
      SameRemainder(10100 * Successor(i), 10100 * Successor(j), 2525 * (t + 4 * r), TWO_TO_64);
    }
  }

  // The application stakes repeat exactly every 2^63 indices.
  lemma ApplicationRepeats(i: Uint64, j: Uint64)
    ensures ApplicationStake(i) == ApplicationStake(j) <==> (i - j) % 0x8000_0000_0000_0000 == 0
  {
    if ApplicationStake(i) == ApplicationStake(j) {
      hide Times, Successor;
      var q := ProductsMeet(100010, Successor(i), Successor(j));
      var k := InvertApplication(Successor(i) - Successor(j), q);
      IndicesApart(i, j, k, 0x8000_0000_0000_0000);
    } else if (i - j) % 0x8000_0000_0000_0000 == 0 {
      var r := SuccessorsDiffer(i, j);
      var t := (i - j) / 0x8000_0000_0000_0000;
      SameRemainder(100010 * Successor(i), 100010 * Successor(j), 50005 * (t + 2 * r), TWO_TO_64);
    }
  }

  // --- Two generators -----------------------------------------------------------------

  // The product fits, so that the amount is the product.
  predicate Fits(factor: nat, index: Uint64) {
    factor * (index + 1) <= MAX_INT64
  }

  // While they fit, the amounts are the documented patterns of the index's successor.
  lemma AmountsFit(i: Uint64)
    ensures Fits(1000001, i) ==> UnstakedBalance(i) == 1000001 * (i + 1)
    ensures Fits(100010, i) ==> ApplicationStake(i) == 100010 * (i + 1)
    ensures Fits(10100, i) ==> SupplierStake(i) == 10100 * (i + 1)
  {
  }

  // An unstaked balance is a supplier stake exactly at 100k and 9901k.
  lemma UnstakedMeetsSupplier(i: Uint64, j: Uint64)
    requires Fits(1000001, i) && Fits(10100, j)
    ensures UnstakedBalance(i) == SupplierStake(j) <==> (exists k: nat :: i + 1 == 100 * k && j + 1 == 9901 * k)
  {
    AmountsFit(i);
    AmountsFit(j);
    var n, m := i + 1, j + 1;
    if 1000001 * n == 10100 * m {
      var k := m - 99 * n;
      assert n == 100 * k && m == 9901 * k;
    }
  }

  // An unstaked balance is an application stake exactly at 100010k and 1000001k.
  lemma UnstakedMeetsApplication(i: Uint64, j: Uint64)
    requires Fits(1000001, i) && Fits(100010, j)
    ensures UnstakedBalance(i) == ApplicationStake(j) <==>
            (exists k: nat :: i + 1 == 100010 * k && j + 1 == 1000001 * k)
  {
    AmountsFit(i);
    AmountsFit(j);
    var n, m := i + 1, j + 1;
    if 1000001 * n == 100010 * m {
      var k := -50505 * n + 5051 * m;
      assert n == 100010 * k && m == 1000001 * k;
    }
  }

  // A supplier stake is an application stake exactly at 10001k and 1010k.
  lemma SupplierMeetsApplication(i: Uint64, j: Uint64)
    requires Fits(10100, i) && Fits(100010, j)
    ensures SupplierStake(i) == ApplicationStake(j) <==> (exists k: nat :: i + 1 == 10001 * k && j + 1 == 1010 * k)
  {
    AmountsFit(i);
    AmountsFit(j);
    var n, m := i + 1, j + 1;
    if 10100 * n == 100010 * m {
      var k := 51 * n - 505 * m;
      assert n == 10001 * k && m == 1010 * k;
    }
  }

  // No amount of one kind, for fewer than `bound` accounts, is an amount of another.
  ghost predicate KindsApart(bound: nat)
    requires bound <= TWO_TO_64
  {
    forall i: Uint64, j: Uint64 :: i < bound && j < bound ==>
      && UnstakedBalance(i) != SupplierStake(j)
      && UnstakedBalance(i) != ApplicationStake(j)
      && SupplierStake(i) != ApplicationStake(j)
  }

  // The three kinds of amounts stay apart for up to 9900 accounts, and for no more.
  lemma KindsApartExactly(bound: nat)
    requires bound <= TWO_TO_64
    ensures KindsApart(bound) <==> bound <= 9900
  {
    if bound <= 9900 {
      forall i: Uint64, j: Uint64 | i < bound && j < bound
        ensures UnstakedBalance(i) != SupplierStake(j)
        ensures UnstakedBalance(i) != ApplicationStake(j)
        ensures SupplierStake(i) != ApplicationStake(j)
      {
        UnstakedMeetsSupplier(i, j);
        UnstakedMeetsApplication(i, j);
        SupplierMeetsApplication(i, j);
      }
    } else {
      assert UnstakedBalance(99) == SupplierStake(9900);
    }
  }
}
