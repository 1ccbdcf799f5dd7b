/** Machine words: bytes, the usize range for a word of `width` bytes, the
    little-endian encoding of a word in memory, and usize arithmetic. */
module Words {
  import opened Wrappers

  /** One byte of memory. */
  type Byte = b: int | 0 <= b < 256

  /** 256^n: the number of values a word of n bytes can hold. A usize of
      `width` bytes ranges over [0, Pow256(width)). */
  function Pow256(n: nat): (r: nat)
    ensures r >= 1
  {
    if n == 0 then 1 else 256 * Pow256(n - 1)
  }

  /** A word of n >= 1 bytes holds at least 256 * n values, so it can hold
      its own width and more. */
  lemma {:induction false} Pow256Grows(n: nat)
    ensures Pow256(n) >= 256 * n
  {
    if n > 1 {
      Pow256Grows(n - 1);
    }
  }

  /** The n bytes of a word holding v, least significant byte first (the
      byte order of the RISC-V target the shim is built for). */
  function Encode(v: nat, n: nat): (r: seq<Byte>)
    ensures |r| == n
  {
    if n == 0 then [] else [v % 256] + Encode(v / 256, n - 1)
  }

  /** The value of a word stored least significant byte first. */
  function Decode(bs: seq<Byte>): (r: nat)
    ensures r < Pow256(|bs|)
  {
    if |bs| == 0 then 0 else bs[0] + 256 * Decode(bs[1..])
  }

  /** Reading back a word gives the value stored, for every value that fits. */
  lemma {:induction false} DecodeEncode(v: nat, n: nat)
    requires v < Pow256(n)
    ensures Decode(Encode(v, n)) == v
  {
    if n > 0 {
      var e := Encode(v, n);
      assert e[1..] == Encode(v / 256, n - 1);
      DecodeEncode(v / 256, n - 1);
    }
  }

  /** Conversely, every byte pattern is the encoding of the value it reads as:
      the encoding is a bijection between [0, 256^n) and n-byte sequences. */
  lemma {:induction false} EncodeDecode(bs: seq<Byte>)
    ensures Encode(Decode(bs), |bs|) == bs
  {
    if |bs| > 0 {
      var d := Decode(bs[1..]);
      assert (bs[0] + 256 * d) % 256 == bs[0];
      assert (bs[0] + 256 * d) / 256 == d;
      EncodeDecode(bs[1..]);
      assert bs == [bs[0]] + bs[1..];
    }
  }

  /** `a + b` on usize in a build with overflow checks: None where the
      addition overflows and the program panics. */
  function CheckedAdd(a: nat, b: nat, width: nat): Option<nat>
  {
    if a + b < Pow256(width) then Some(a + b) else None
  }

  /** `a * b` on usize in a build with overflow checks. */
  function CheckedMul(a: nat, b: nat, width: nat): Option<nat>
  {
    if a * b < Pow256(width) then Some(a * b) else None
  }

  /** A value between one and two moduli wraps around once. */
  lemma WrapOnce(x: int, m: int)
    requires 0 < m <= x < 2 * m
    ensures x % m == x - m
  {
  }

  /** `a + b` on usize in a build without overflow checks: modulo 2^(8 * width). */
  function WrappingAdd(a: nat, b: nat, width: nat): nat
  {
    (a + b) % Pow256(width)
  }
}
