// Machine words, and the little-endian byte order of every integer the firmware sends or stores.
module Words {

  datatype Option<+T> = None | Some(value: T)

  type u8 = x: int | 0 <= x < 0x100
  type u16 = x: int | 0 <= x < 0x1_0000
  type u32 = x: int | 0 <= x < 0x1_0000_0000

  /** `x++` on a byte. */
  function Inc8(x: u8): u8 {
    if x == 0xff then 0 else x + 1
  }

  /** `x++` on a 32-bit word. */
  function Inc32(x: u32): u32 {
    if x == 0xffff_ffff then 0 else x + 1
  }

  /** 256 to the power n: one more than the largest value that n bytes hold. */
  function Pow256(n: nat): (p: nat)
    ensures p > 0
  {
    if n == 0 then 1 else 256 * Pow256(n - 1)
  }

  /** The n low bytes of v, least significant first. */
  function Le(n: nat, v: nat): (bs: seq<u8>)
    ensures |bs| == n
  {
    if n == 0 then [] else [v % 256] + Le(n - 1, v / 256)
  }

  function FromLe(bs: seq<u8>): nat {
    if |bs| == 0 then 0 else bs[0] + 256 * FromLe(bs[1..])
  }

  lemma ModSplit(v: nat, p: nat)
    requires p > 0
    ensures v % (256 * p) == v % 256 + 256 * ((v / 256) % p)
  {
    var q := v / 256;
    var rest := v % 256 + 256 * (q % p);
    assert v == (256 * p) * (q / p) + rest by {
      assert q == p * (q / p) + q % p;
      assert 256 * (p * (q / p)) == (256 * p) * (q / p);
    }
    assert 0 <= rest < 256 * p;
    DivModUnique(v, 256 * p, q / p, rest);
  }

  lemma DivModUnique(v: nat, d: nat, q: nat, rest: nat)
    requires 0 <= rest < d && v == d * q + rest
    ensures v % d == rest
  {
    var k := v / d - q;
    assert d * k == rest - v % d by {
      assert v == d * (v / d) + v % d;
      assert d * k == d * (v / d) - d * q;
    }
    if k >= 1 {
      assert false;
    } else if k <= -1 {
      assert false;
    }
  }

  /** Storing n bytes of v and reading them back keeps v modulo 256^n. */
  lemma {:induction false} FromLeOfLe(n: nat, v: nat)
    ensures FromLe(Le(n, v)) == v % Pow256(n)
  {
    if n > 0 {
      FromLeOfLe(n - 1, v / 256);
      ModSplit(v, Pow256(n - 1));
      assert Le(n, v)[1..] == Le(n - 1, v / 256);
    }
  }

  /** Any byte string is the little-endian form of the number it reads as. */
  lemma {:induction false} LeOfFromLe(bs: seq<u8>)
    ensures FromLe(bs) < Pow256(|bs|)
    ensures Le(|bs|, FromLe(bs)) == bs
  {
    if |bs| > 0 {
      LeOfFromLe(bs[1..]);
      var hi := FromLe(bs[1..]);
      assert (bs[0] + 256 * hi) % 256 == bs[0] && (bs[0] + 256 * hi) / 256 == hi;
      assert bs == [bs[0]] + bs[1..];
    }
  }

  lemma Pow256Values()
    ensures Pow256(1) == 0x100 && Pow256(2) == 0x1_0000 && Pow256(4) == 0x1_0000_0000
    ensures Pow256(8) == 0x1_0000_0000_0000_0000
  {
    assert Pow256(1) == 256 && Pow256(2) == 256 * Pow256(1) && Pow256(3) == 256 * Pow256(2);
    assert Pow256(4) == 256 * Pow256(3) && Pow256(5) == 256 * Pow256(4) && Pow256(6) == 256 * Pow256(5);
    assert Pow256(7) == 256 * Pow256(6) && Pow256(8) == 256 * Pow256(7);
  }
}
