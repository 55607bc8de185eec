// Byte strings and the big-endian number encoding every argument, key and
// counter of the built-in functions goes through (big.Int.Bytes / SetBytes).
module Bytes {

  type byte = b: int | 0 <= b < 256
  type bytes = seq<byte>

  const TWO32: nat := 0x1_0000_0000
  const TWO64: nat := 0x1_0000_0000_0000_0000

  datatype Option<+T> = None | Some(value: T)

  // The number written by the first n bytes.
  function PrefixValue(b: bytes, n: nat): nat
    requires n <= |b|
  {
    if n == 0 then 0 else PrefixValue(b, n - 1) * 256 + b[n - 1]
  }

  // big.Int.SetBytes
  function FromBytes(b: bytes): nat {
    PrefixValue(b, |b|)
  }

  // big.Int.Bytes: no leading zero, and nothing at all for zero.
  function ToBytes(n: nat): bytes {
    if n == 0 then [] else ToBytes(n / 256) + [n % 256]
  }

  // The low 64 bits: what uint64 arithmetic and big.Int.Uint64 keep.
  function Low64(n: nat): (r: nat)
    ensures r < TWO64
  {
    if n < TWO64 then n else Low64(n - TWO64)
  }

  // The low 32 bits
  function Low32(n: nat): (r: nat)
    ensures r < TWO32
  {
    if n < TWO32 then n else Low32(n - TWO32)
  }

  lemma {:induction false} Low64IsRemainder(n: nat)
    ensures Low64(n) == n % TWO64
  {
    if n >= TWO64 {
      Low64IsRemainder(n - TWO64);
      assert n % TWO64 == (n - TWO64) % TWO64;
    }
  }

  // big.Int.Uint64
  function ToUint64(b: bytes): nat {
    Low64(FromBytes(b))
  }

  predicate Minimal(b: bytes) {
    b == [] || b[0] != 0
  }

  // Decoding an encoded number gives the number back, and the encoding has no
  // leading zero byte.
  lemma {:induction false} FromToBytes(n: nat)
    ensures FromBytes(ToBytes(n)) == n
    ensures Minimal(ToBytes(n))
    ensures n > 0 ==> ToBytes(n) != []
  {
    if n != 0 {
      FromToBytes(n / 256);
      var t := ToBytes(n / 256);
      PrefixOnly(ToBytes(n), t, |t|);
      if t != [] {
        assert ToBytes(n)[0] == t[0];
      }
    }
  }

  lemma {:induction false} PrefixOnly(a: bytes, b: bytes, n: nat)
    requires n <= |a| && n <= |b| && a[..n] == b[..n]
    ensures PrefixValue(a, n) == PrefixValue(b, n)
  {
    if n > 0 {
      assert a[..n][..n - 1] == a[..n - 1] && b[..n][..n - 1] == b[..n - 1];
      assert a[..n][n - 1] == b[..n][n - 1];
      PrefixOnly(a, b, n - 1);
    }
  }

  // A uint64 survives the trip through its bytes.
  lemma Uint64RoundTrip(n: nat)
    requires n < TWO64
    ensures ToUint64(ToBytes(n)) == n
  {
    FromToBytes(n);
  }

  lemma {:induction false} PositiveValue(b: bytes, n: nat)
    requires 0 < n <= |b| && b[0] != 0
    ensures PrefixValue(b, n) > 0
  {
    if n > 1 {
      PositiveValue(b, n - 1);
    }
  }

  function Power256(k: nat): (r: nat)
    ensures r > 0
  {
    if k == 0 then 1 else 256 * Power256(k - 1)
  }
}
