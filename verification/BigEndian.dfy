/** Unsigned integers as bytes, most significant byte first. */
module BigEndian {
  import opened Protocol

  type U16 = n: int | 0 <= n < 0x1_0000
  type U32 = n: int | 0 <= n < 0x1_0000_0000

  function Pow256(k: nat): (p: nat)
    ensures p > 0
  {
    if k == 0 then 1 else 256 * Pow256(k - 1)
  }

  function ToBytes(n: nat, k: nat): (b: Bytes)
    ensures |b| == k
  {
    if k == 0 then [] else ToBytes(n / 256, k - 1) + [(n % 256) as Byte]
  }

  function FromBytes(b: Bytes): (n: nat)
    ensures n < Pow256(|b|)
  {
    if b == [] then 0 else FromBytes(b[..|b| - 1]) * 256 + b[|b| - 1] as nat
  }

  lemma {:induction false} ReadsBack(n: nat, k: nat)
    requires n < Pow256(k)
    ensures FromBytes(ToBytes(n, k)) == n
  {
    if k > 0 {
      ReadsBack(n / 256, k - 1);
      var b := ToBytes(n, k);
      assert b[..|b| - 1] == ToBytes(n / 256, k - 1);
    }
  }

  lemma {:induction false} WritesBack(b: Bytes)
    ensures ToBytes(FromBytes(b), |b|) == b
  {
    if b != [] {
      WritesBack(b[..|b| - 1]);
      assert b == b[..|b| - 1] + [b[|b| - 1]];
    }
  }

  lemma Sizes()
    ensures Pow256(1) == 0x100 && Pow256(2) == 0x1_0000 && Pow256(4) == 0x1_0000_0000
    ensures Pow256(16) == 0x1_0000_0000 * 0x1_0000_0000 * 0x1_0000_0000 * 0x1_0000_0000
  {
    assert Pow256(0) == 1;
    assert Pow256(1) == 0x100;
    assert Pow256(2) == 0x1_0000;
    assert Pow256(3) == 0x100_0000;
    assert Pow256(4) == 0x1_0000_0000;
    assert Pow256(8) == 0x1_0000_0000 * 0x1_0000_0000 by {
      assert Pow256(5) == 0x1_0000_0000 * 0x100;
      assert Pow256(6) == 0x1_0000_0000 * 0x1_0000;
      assert Pow256(7) == 0x1_0000_0000 * 0x100_0000;
    }
    assert Pow256(12) == Pow256(8) * 0x1_0000_0000 by {
      assert Pow256(9) == Pow256(8) * 0x100;
      assert Pow256(10) == Pow256(8) * 0x1_0000;
      assert Pow256(11) == Pow256(8) * 0x100_0000;
    }
    assert Pow256(16) == Pow256(12) * 0x1_0000_0000 by {
      assert Pow256(13) == Pow256(12) * 0x100;
      assert Pow256(14) == Pow256(12) * 0x1_0000;
      assert Pow256(15) == Pow256(12) * 0x100_0000;
    }
  }
}
