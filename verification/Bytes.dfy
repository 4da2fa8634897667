/** Big-endian integers, as written and read by Go's encoding/binary: the one place
    where numbers become bytes. Every on-disk and wire format below is built from these. */
module Bytes {

  type byte = b: int | 0 <= b < 256

  /** 256^n, the number of values n bytes can hold. */
  function Radix(n: nat): (r: nat)
    ensures r > 0
  {
    if n == 0 then 1 else 256 * Radix(n - 1)
  }

  /** The low n bytes of v, most significant first (binary.BigEndian.PutUintN). */
  function BigEndian(v: nat, n: nat): (s: seq<byte>)
    ensures |s| == n
  {
    if n == 0 then [] else BigEndian(v / 256, n - 1) + [v % 256]
  }

  /** The number a run of bytes denotes (binary.BigEndian.UintN). */
  function Uint(s: seq<byte>): (v: nat)
    ensures v < Radix(|s|)
  {
    if s == [] then 0 else Uint(s[..|s| - 1]) * 256 + s[|s| - 1]
  }

  /** Two's complement reading of an n-byte unsigned value: intN(uintN). */
  function Signed(u: nat, n: nat): (v: int)
  {
    if 2 * u >= Radix(n) then u - Radix(n) else u
  }

  /** The signed number a run of bytes denotes. */
  function Int(s: seq<byte>): (v: int)
  {
    Signed(Uint(s), |s|)
  }

  /** The n bytes of a signed number: PutUintN(uintN(v)), which keeps v modulo 256^n. */
  function PutInt(v: int, n: nat): (s: seq<byte>)
    ensures |s| == n
  {
    BigEndian(v % Radix(n), n)
  }

  predicate FitsInt(v: int, n: nat) {
    -2 * v <= Radix(n) && 2 * v < Radix(n)
  }

  lemma {:induction false} UintOfBigEndian(v: nat, n: nat)
    ensures Uint(BigEndian(v, n)) == v % Radix(n)
  {
    if n == 0 {
    } else {
      var s := BigEndian(v / 256, n - 1);
      assert BigEndian(v, n)[..n - 1] == s;
      UintOfBigEndian(v / 256, n - 1);
      ModByDigits(v, Radix(n - 1));
    }
  }

  lemma ModByDigits(v: nat, m: nat)
    requires m > 0
    ensures (v / 256 % m) * 256 + v % 256 == v % (256 * m)
  {
    var q, r := v / 256 / m, v / 256 % m;
    var low := r * 256 + v % 256;
    assert v == (256 * m) * q + low by {
      assert v / 256 == m * q + r;
      assert 256 * (m * q) == (256 * m) * q;
    }
    assert 0 <= low < 256 * m by {
      assert r <= m - 1;
    }
    ModUnique(v, 256 * m, q, low);
  }

  lemma MultipleOutside(m: int, d: int)
    requires m > 0
    ensures d >= 1 ==> m * d >= m
    ensures d <= -1 ==> m * d <= -m
  {
    if d >= 1 {
      assert m * d == m * (d - 1) + m;
    } else if d <= -1 {
      assert m * d == m * (d + 1) - m;
    }
  }

  lemma ModUnique(v: int, m: int, q: int, r: int)
    requires m > 0 && 0 <= r < m && v == m * q + r
    ensures v % m == r
  {
    var d := q - v / m;
    assert m * d == v % m - r by {
      assert m * d == m * q - m * (v / m);
    }
    MultipleOutside(m, d);
  }

  /** Writing a signed number in n bytes and reading it back returns it whenever it fits. */
  lemma IntOfPutInt(v: int, n: nat)
    requires FitsInt(v, n)
    ensures Int(PutInt(v, n)) == v
  {
    var m := Radix(n);
    UintOfBigEndian(v % m, n);
    if v >= 0 {
      ModUnique(v, m, 0, v);
    } else {
      ModUnique(v, m, -1, v + m);
    }
    ModUnique(v % m, m, 0, v % m);
  }

  lemma RadixValues()
    ensures Radix(1) == 0x100 && Radix(2) == 0x1_0000
    ensures Radix(4) == 0x1_0000_0000 && Radix(8) == 0x1_0000_0000_0000_0000
  {
    assert Radix(3) == 0x100_0000;
    assert Radix(5) == 0x100_0000_0000;
    assert Radix(6) == 0x1_0000_0000_0000;
    assert Radix(7) == 0x100_0000_0000_0000;
  }
}
