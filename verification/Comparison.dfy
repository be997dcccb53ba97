/** The branch-free byte comparison behind the machine-binding and integrity gates (client/src/lib.rs:407-416). */
module Comparison {
  import opened Bytes

  function Pow2(width: nat): nat {
    if width == 0 then 1 else 2 * Pow2(width - 1)
  }

  /** Bitwise exclusive or of the low `width` bits. */
  function Xor(x: nat, y: nat, width: nat): nat {
    if width == 0 then 0 else 2 * Xor(x / 2, y / 2, width - 1) + (x % 2 + y % 2) % 2
  }

  /** Bitwise or of the low `width` bits. */
  function Or(x: nat, y: nat, width: nat): nat {
    if width == 0 then 0 else 2 * Or(x / 2, y / 2, width - 1) + (if x % 2 + y % 2 == 0 then 0 else 1)
  }

  lemma {:induction false} XorIsZero(x: nat, y: nat, width: nat)
    requires x < Pow2(width) && y < Pow2(width)
    ensures Xor(x, y, width) < Pow2(width)
    ensures Xor(x, y, width) == 0 <==> x == y
  {
    if width != 0 {
      XorIsZero(x / 2, y / 2, width - 1);
    }
  }

  lemma {:induction false} OrIsZero(x: nat, y: nat, width: nat)
    requires x < Pow2(width) && y < Pow2(width)
    ensures Or(x, y, width) < Pow2(width)
    ensures Or(x, y, width) == 0 <==> x == 0 && y == 0
  {
    if width != 0 {
      OrIsZero(x / 2, y / 2, width - 1);
    }
  }

  lemma ByteWidth()
    ensures Pow2(8) == 256
  {
    assert Pow2(8) == 2 * Pow2(7) && Pow2(7) == 2 * Pow2(6) && Pow2(6) == 2 * Pow2(5);
    assert Pow2(5) == 2 * Pow2(4) && Pow2(4) == 2 * Pow2(3) && Pow2(3) == 2 * Pow2(2);
  }

  /** One round: `diff |= x ^ y`. */
  function Round(diff: byte, x: byte, y: byte): (r: byte)
    ensures r == 0 <==> diff == 0 && x == y
  {
    ByteWidth();
    XorIsZero(x as nat, y as nat, 8);
    OrIsZero(diff as nat, Xor(x as nat, y as nat, 8), 8);
    Or(diff as nat, Xor(x as nat, y as nat, 8), 8) as byte
  }

  method CtEq(a: bytes, b: bytes) returns (equal: bool)
    ensures equal <==> a == b
  {
    if |a| != |b| {
      return false;
    }
    var diff: byte := 0;
    for i := 0 to |a|
      invariant diff == 0 <==> a[..i] == b[..i]
    {
      assert a[..i + 1] == a[..i] + [a[i]] && b[..i + 1] == b[..i] + [b[i]];
      diff := Round(diff, a[i], b[i]);
    }
    assert a[..|a|] == a && b[..|b|] == b;
    return diff == 0;
  }
}
