/** Bytes, addresses and the little-endian integers both sides of the system read. */
module Bytes {

  type Byte = b: int | 0 <= b < 256

  /** A public key. The keeper's base58 text is a bijective rendering of the same 32 bytes. */
  type Address = a: seq<Byte> | |a| == 32 witness LeBytes(0, 32)

  datatype Option<+T> = None | Some(value: T) {
    predicate IsFailure() {
      None?
    }

    function PropagateFailure<U>(): Option<U>
      requires None?
    {
      None
    }

    function Extract(): T
      requires Some?
    {
      value
    }
  }

  /** An account as the runtime presents it. */
  datatype Account = Account(owner: Address, data: seq<Byte>)

  function Slice(data: seq<Byte>, at: nat, len: nat): (s: seq<Byte>)
    requires at + len <= |data|
    ensures |s| == len
  {
    data[at..at + len]
  }

  function KeyAt(data: seq<Byte>, at: nat): Address
    requires at + 32 <= |data|
  {
    Slice(data, at, 32)
  }

  predicate StartsWith(data: seq<Byte>, prefix: seq<Byte>) {
    |data| >= |prefix| && data[..|prefix|] == prefix
  }

  function Pow256(width: nat): (p: nat)
    ensures p >= 1
  {
    if width == 0 then 1 else 256 * Pow256(width - 1)
  }

  /** The unsigned integer a little-endian byte string denotes. */
  function LeNat(s: seq<Byte>): (n: nat)
    ensures n < Pow256(|s|)
  {
    if s == [] then 0 else s[0] + 256 * LeNat(s[1..])
  }

  function LeBytes(n: nat, width: nat): (s: seq<Byte>)
    ensures |s| == width
  {
    if width == 0 then [] else [n % 256] + LeBytes(n / 256, width - 1)
  }

  /** Writing an integer little-endian and reading it back is the identity on what fits. */
  lemma {:induction false} LeRoundTrip(n: nat, width: nat)
    requires n < Pow256(width)
    ensures LeNat(LeBytes(n, width)) == n
  {
    if width != 0 {
      LeRoundTrip(n / 256, width - 1);
      assert LeBytes(n, width)[1..] == LeBytes(n / 256, width - 1);
    }
  }

  const TWO_63: nat := 0x8000_0000_0000_0000
  const TWO_64: nat := 0x1_0000_0000_0000_0000

  type U64 = v: int | 0 <= v < 0x1_0000_0000_0000_0000

  type I64 = v: int | -0x8000_0000_0000_0000 <= v < 0x8000_0000_0000_0000

  lemma Pow256Values()
    ensures Pow256(4) == 0x1_0000_0000 && Pow256(8) == TWO_64
  {
    assert Pow256(3) == 256 * Pow256(2) && Pow256(2) == 256 * Pow256(1) && Pow256(1) == 256 * Pow256(0);
    assert Pow256(6) == 256 * Pow256(5) && Pow256(5) == 256 * Pow256(4);
    assert Pow256(8) == 256 * Pow256(7) && Pow256(7) == 256 * Pow256(6);
  }

  /** Two's complement, 8 bytes. */
  function LeI64(s: seq<Byte>): I64
    requires |s| == 8
  {
    Pow256Values();
    var u := LeNat(s);
    if u < TWO_63 then u else u - TWO_64
  }

  function I64Bytes(v: I64): (s: seq<Byte>)
    ensures |s| == 8
  {
    LeBytes(if v >= 0 then v else v + TWO_64, 8)
  }

  lemma I64RoundTrip(v: I64)
    ensures LeI64(I64Bytes(v)) == v
  {
    Pow256Values();
    LeRoundTrip(if v >= 0 then v else v + TWO_64, 8);
  }

  /** ASCII text as bytes (program seeds). */
  function Ascii(s: string): (r: seq<Byte>)
    requires forall i :: 0 <= i < |s| ==> s[i] < 128 as char
    ensures |r| == |s|
  {
    seq(|s|, i requires 0 <= i < |s| => s[i] as int)
  }
}
