/** Bytes and big-endian integers. */
module Bytes {
  type Byte = x: int | 0 <= x < 256

  /** `n` in `width` big-endian bytes; higher bits are dropped, as the source's narrowing casts drop them. */
  function BigEndian(n: nat, width: nat): (bytes: seq<Byte>)
    ensures |bytes| == width
  {
    if width == 0 then [] else BigEndian(n / 256, width - 1) + [n % 256]
  }

  function Value(bytes: seq<Byte>): nat {
    if bytes == [] then 0 else Value(bytes[..|bytes| - 1]) * 256 + bytes[|bytes| - 1]
  }

  function Capacity(width: nat): (c: nat)
    ensures c > 0
  {
    if width == 0 then 1 else 256 * Capacity(width - 1)
  }

  /** Reading back what was written. */
  lemma {:induction false} ValueOfBigEndian(n: nat, width: nat)
    ensures Value(BigEndian(n, width)) == n % Capacity(width)
    ensures n < Capacity(width) ==> Value(BigEndian(n, width)) == n
  {
    if width > 0 {
      ValueOfBigEndian(n / 256, width - 1);
      var bytes := BigEndian(n, width);
      assert bytes[..width - 1] == BigEndian(n / 256, width - 1);
      ModSplit(n, Capacity(width - 1));
    }
  }

  lemma ModSplit(n: nat, c: nat)
    requires c > 0
    ensures n % (256 * c) == n / 256 % c * 256 + n % 256
  {
    var q, r := n / 256 / c, n / 256 % c;
    assert n == 256 * (q * c + r) + n % 256;
    assert n == q * (256 * c) + (256 * r + n % 256);
    ModUnique(n, 256 * c, q, 256 * r + n % 256);
  }

  lemma ModUnique(n: nat, c: nat, q: nat, r: nat)
    requires c > 0 && n == q * c + r && r < c
    ensures n % c == r
  {
    var d, m := n / c, n % c;
    assert (q - d) * c == m - r;
    assert q - d >= 1 ==> (q - d) * c >= c;
    assert q - d <= -1 ==> (q - d) * c <= -1 * c;
  }

  /** Each byte is a digit to the base of 256, the most significant first. */
  lemma {:induction false} ByteIsDigit(n: nat, width: nat, i: nat)
    requires i < width
    ensures BigEndian(n, width)[i] == n / Capacity(width - 1 - i) % 256
    decreases width
  {
    if i < width - 1 {
      ByteIsDigit(n / 256, width - 1, i);
      var c := Capacity(width - 2 - i);
      DivDiv(n, c);
    }
  }

  lemma DivDiv(n: nat, c: nat)
    requires c > 0
    ensures n / 256 / c == n / (256 * c)
  {
    var q, r := n / 256 / c, n / 256 % c;
    assert n / 256 == q * c + r;
    assert n == q * (256 * c) + (256 * r + n % 256);
    DivUniquely(n, 256 * c, q, 256 * r + n % 256);
  }

  lemma DivUniquely(n: nat, c: nat, q: nat, r: nat)
    requires c > 0 && n == q * c + r && r < c
    ensures n / c == q
  {
    var d, m := n / c, n % c;
    assert (q - d) * c == m - r;
    assert q - d >= 1 ==> (q - d) * c >= c;
    assert q - d <= -1 ==> (q - d) * c <= -1 * c;
  }
}
