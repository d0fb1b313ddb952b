/** The ids of messages: seven bits of a 16-bit counter and a tag (acq32busprot.h). */
module Ids {
  import opened Bits

  /** A value stored in a C `short`. */
  function Short(n: int): int {
    (n + 0x8000) % 0x1_0000 - 0x8000
  }

  function MakeId(n: int): nat {
    (n % 0x80) * 0x100 + 0xDC
  }

  /** What a C `short` keeps: a value in range as it is, any other modulo 2^16. */
  lemma ShortWraps(n: int)
    ensures -0x8000 <= Short(n) < 0x8000 && (n - Short(n)) % 0x1_0000 == 0
    ensures -0x8000 <= n < 0x8000 ==> Short(n) == n
  {
    var q := (n + 0x8000) / 0x1_0000;
    assert n - Short(n) == 0x1_0000 * q;
  }

  /** Ids coincide exactly for requests a multiple of 128 sends apart. */
  lemma SameIdIff(a: int, b: int)
    ensures MakeId(a) == MakeId(b) <==> (a - b) % 0x80 == 0
  {
    assert a == 0x80 * (a / 0x80) + a % 0x80 && b == 0x80 * (b / 0x80) + b % 0x80;
    assert a - b == 0x80 * (a / 0x80 - b / 0x80) + (a % 0x80 - b % 0x80);
    ModAdd(a % 0x80 - b % 0x80, 0x80, a / 0x80 - b / 0x80);
  }

  /** Overflow of the 16-bit counter does not disturb the ids. */
  lemma ShortKeepsId(n: int)
    ensures MakeId(Short(n)) == MakeId(n) && MakeId(Short(n) + 1) == MakeId(n + 1)
    ensures Short(Short(n) + 1) == Short(n + 1)
  {
    var q := (n + 0x8000) / 0x1_0000;
    assert Short(n) == n - 0x1_0000 * q;
    ModAdd(n, 0x80, -0x200 * q);
    ModAdd(n + 1, 0x80, -0x200 * q);
    ModAdd(n + 1 + 0x8000, 0x1_0000, -q);
  }

  /** The id as the code computes it, masking the 32-bit pattern of its argument: the
      low seven bits above the tag 0xDC. */
  lemma MakeIdMasks(n: int)
    ensures MakeId(n) == And(n % 0x1_0000_0000, 0x7f) * 0x100 + 0xDC
    ensures MakeId(n) % 0x100 == 0xDC && MakeId(n) / 0x100 == n % 0x80 && MakeId(n) < 0x8000
  {
    assert Pow2(7) == 0x80 by {
      assert Pow2(7) == 2 * Pow2(6) && Pow2(6) == 2 * Pow2(5) && Pow2(5) == 2 * Pow2(4);
      assert Pow2(4) == 2 * Pow2(3) && Pow2(3) == 2 * Pow2(2) && Pow2(2) == 2 * Pow2(1) && Pow2(1) == 2;
    }
    var q := n / 0x1_0000_0000;
    assert n % 0x1_0000_0000 == n + 0x80 * (-0x200_0000 * q);
    ModAdd(n, 0x80, -0x200_0000 * q);
    MaskIsMod(n % 0x1_0000_0000, 7);
  }
}
