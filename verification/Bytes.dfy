/**
 Byte strings, 32-byte hashes and the fixed-width big-endian integers shared by the
 header serialisation and the wire frame.
 */
module Bytes {
  import opened Wrappers

  newtype byte = b: int | 0 <= b < 256

  /** The output of a 256-bit hash function. */
  type Hash = h: seq<byte> | |h| == 32 witness seq(32, _ => 0 as byte)

  /** The 32 zero bytes used for padding and for the empty tree. */
  const ZERO_HASH: Hash := [
    0, 0, 0, 0, 0, 0, 0, 0, 0, 0, 0, 0, 0, 0, 0, 0,
    0, 0, 0, 0, 0, 0, 0, 0, 0, 0, 0, 0, 0, 0, 0, 0]

  function Pow256(n: nat): (p: nat)
    ensures p > 0
  {
    if n == 0 then 1 else 256 * Pow256(n - 1)
  }

  /** w shifted right by k bytes, that is w div 2^(8k). */
  function ShiftRight(w: nat, k: nat): nat
  {
    if k == 0 then w else ShiftRight(w / 256, k - 1)
  }

  /** The low n bytes of w, most significant first, one shift a byte. */
  function BigEndian(n: nat, w: nat): (s: seq<byte>)
    ensures |s| == n
  {
    if n == 0 then [] else [(ShiftRight(w, n - 1) % 256) as byte] + BigEndian(n - 1, w)
  }

  /** The number a big-endian byte string denotes. */
  function Value(s: seq<byte>): (w: nat)
    ensures w < Pow256(|s|)
  {
    if s == [] then 0 else 256 * Value(s[..|s| - 1]) + s[|s| - 1] as nat
  }

  /** The shifting recursion can also be read from the other end. */
  lemma {:induction false} BigEndianLast(n: nat, w: nat)
    requires n > 0
    ensures BigEndian(n, w) == BigEndian(n - 1, w / 256) + [(w % 256) as byte]
  {
    if n > 1 {
      BigEndianLast(n - 1, w);
    }
  }

  /** Decoding undoes encoding for every number that fits. */
  lemma {:induction false} ValueOfBigEndian(n: nat, w: nat)
    requires w < Pow256(n)
    ensures Value(BigEndian(n, w)) == w
  {
    if n > 0 {
      BigEndianLast(n, w);
      ValueOfBigEndian(n - 1, w / 256);
      assert BigEndian(n, w)[..n - 1] == BigEndian(n - 1, w / 256);
    }
  }

  /** Encoding undoes decoding for every byte string. */
  lemma {:induction false} BigEndianOfValue(s: seq<byte>)
    ensures BigEndian(|s|, Value(s)) == s
  {
    if s != [] {
      BigEndianOfValue(s[..|s| - 1]);
      BigEndianLast(|s|, Value(s));
    }
  }

  /** The first of four bytes weighs most. */
  lemma FourBytes(a: byte, b: byte, c: byte, d: byte)
    ensures Value([a, b, c, d]) == 0x100_0000 * (a as nat) + 0x1_0000 * (b as nat) + 0x100 * (c as nat) + d as nat
  {
    assert [a, b, c, d][..3] == [a, b, c] && [a, b, c][..2] == [a, b] && [a, b][..1] == [a] && [a][..0] == [];
    assert Value([a]) == a as nat;
    assert Value([a, b]) == 0x100 * (a as nat) + b as nat;
    assert Value([a, b, c]) == 0x1_0000 * (a as nat) + 0x100 * (b as nat) + c as nat;
  }

  lemma Widths()
    ensures Pow256(4) == WORD32
    ensures Pow256(8) == WORD64
  {
    assert Pow256(2) == 0x1_0000;
    assert Pow256(4) == WORD32;
    assert Pow256(6) == 0x1_0000_0000_0000;
  }

  /** What stands at an offset, and what follows it. */
  lemma FieldAt<T>(s: seq<T>, at: nat, field: seq<T>, rest: seq<T>)
    requires at <= |s| && s[at..] == field + rest
    ensures at + |field| <= |s| && s[at..at + |field|] == field && s[at + |field|..] == rest
  {
    assert s[at..][..|field|] == field && s[at..][|field|..] == rest;
    assert s[at..][..|field|] == s[at..at + |field|] && s[at..][|field|..] == s[at + |field|..];
  }

  /** A prefix of known length splits off a concatenation. */
  lemma SplitConcat<T>(a: seq<T>, b: seq<T>, c: seq<T>, d: seq<T>)
    requires a + b == c + d && |a| == |c|
    ensures a == c && b == d
  {
    assert a == (a + b)[..|a|] == (c + d)[..|c|] == c;
    assert b == (a + b)[|a|..] == (c + d)[|c|..] == d;
  }
}
