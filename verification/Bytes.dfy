/** Fixed-width unsigned integers as little-endian bytes, and copying bytes into a buffer. */
module Bytes {
  const WORD32: nat := 0x1_0000_0000
  const WORD64: nat := 0x1_0000_0000_0000_0000

  type byte = x: int | 0 <= x < 256

  function Pow256(k: nat): (p: nat)
    ensures p > 0
  {
    if k == 0 then 1 else 256 * Pow256(k - 1)
  }

  function Le(n: nat, k: nat): (bytes: seq<byte>)
    ensures |bytes| == k
  {
    if k == 0 then [] else [n % 256] + Le(n / 256, k - 1)
  }

  function FromLe(bytes: seq<byte>): nat {
    if bytes == [] then 0 else bytes[0] + 256 * FromLe(bytes[1..])
  }

  /** k bytes carry a number modulo 256^k, so a number that fits comes back unchanged. */
  lemma {:induction false} FromLeLe(n: nat, k: nat)
    ensures FromLe(Le(n, k)) == n % Pow256(k)
    ensures n < Pow256(k) ==> FromLe(Le(n, k)) == n
  {
    if k > 0 {
      FromLeLe(n / 256, k - 1);
      ModNested(n, Pow256(k - 1));
      assert Le(n, k)[1..] == Le(n / 256, k - 1);
      if n < Pow256(k) {
        assert n / 256 < Pow256(k - 1);
      }
    }
  }

  lemma ModNested(n: nat, p: nat)
    requires p > 0
    ensures n % (256 * p) == n % 256 + 256 * (n / 256 % p)
  {
    var q, m := n / 256, n / 256 % p;
    assert n == 256 * q + n % 256 && q == p * (q / p) + m;
    var r := n % 256 + 256 * m;
    assert n == (256 * p) * (q / p) + r;
    assert 0 <= m <= p - 1;
    assert 0 <= r < 256 * p;
    DivModUnique(n, 256 * p, q / p, r);
  }

  lemma MulBound(d: nat, x: int)
    ensures x >= 1 ==> d * x >= d
    ensures x <= -1 ==> d * x + d <= 0
  {
  }

  lemma DivModUnique(n: nat, d: nat, q: nat, r: nat)
    requires d > 0 && n == d * q + r && r < d
    ensures n % d == r && n / d == q
  {
    var q', r' := n / d, n % d;
    var x := q - q';
    assert d * q == d * q' + d * x;
    assert d * x == r' - r;
    MulBound(d, x);
  }

  function Zeros(n: nat): (z: seq<byte>)
    ensures |z| == n
  {
    seq(n, _ => 0)
  }

  /** The buffer after a memcpy of `data` to `offset`. */
  function Overwrite(buffer: seq<byte>, offset: nat, data: seq<byte>): (b: seq<byte>)
    requires offset + |data| <= |buffer|
    ensures |b| == |buffer|
  {
    buffer[..offset] + data + buffer[offset + |data|..]
  }

  lemma OverwriteAt(buffer: seq<byte>, offset: nat, data: seq<byte>, a: nat)
    requires offset + |data| <= |buffer| && a < |buffer|
    ensures Overwrite(buffer, offset, data)[a] == if offset <= a < offset + |data| then data[a - offset] else buffer[a]
  {
  }

  /** Two copies, one behind the other, are one copy. */
  lemma OverwriteBehind(buffer: seq<byte>, offset: nat, data: seq<byte>, more: seq<byte>)
    requires offset + |data| + |more| <= |buffer|
    ensures Overwrite(Overwrite(buffer, offset, data), offset + |data|, more) == Overwrite(buffer, offset, data + more)
  {
  }

  /** memcpy, one byte after the other. */
  method CopyInto(buffer: array<byte>, offset: nat, data: seq<byte>)
    requires offset + |data| <= buffer.Length
    modifies buffer
    ensures buffer[..] == Overwrite(old(buffer[..]), offset, data)
  {
    var i := 0;
    while i < |data|
      invariant 0 <= i <= |data|
      invariant buffer[..] == Overwrite(old(buffer[..]), offset, data[..i])
    {
      buffer[offset + i] := data[i];
      i := i + 1;
    }
    assert data[..|data|] == data;
  }
}
