/** Byte memory: little-endian words and writes into a sequence of bytes. */
module Bytes {
  type Byte = x: int | 0 <= x < 256

  const TWO64: nat := 0x1_0000_0000_0000_0000

  function Pow256(n: nat): (r: nat)
    ensures r > 0
  {
    if n == 0 then 1 else 256 * Pow256(n - 1)
  }

  lemma Pow256Eight()
    ensures Pow256(8) == TWO64
  {
    assert Pow256(4) == 0x1_0000_0000;
    assert Pow256(8) == 256 * 256 * 256 * 256 * Pow256(4);
  }

  /** The `n` low bytes of `v`, least significant first. */
  function Encode(v: nat, n: nat): (bs: seq<Byte>)
    ensures |bs| == n
  {
    if n == 0 then [] else [v % 256] + Encode(v / 256, n - 1)
  }

  function Decode(bs: seq<Byte>): (v: nat) {
    if bs == [] then 0 else bs[0] + 256 * Decode(bs[1..])
  }

  lemma {:induction false} DecodeEncode(v: nat, n: nat)
    requires v < Pow256(n)
    ensures Decode(Encode(v, n)) == v
  {
    if n > 0 {
      DecodeEncode(v / 256, n - 1);
      assert Encode(v, n)[1..] == Encode(v / 256, n - 1);
    }
  }

  /** A 64-bit word. */
  function Word(m: seq<Byte>, a: nat): (v: nat)
    requires a + 8 <= |m|
  {
    Decode(m[a..a + 8])
  }

  function Put(m: seq<Byte>, a: nat, bs: seq<Byte>): (r: seq<Byte>)
    requires a + |bs| <= |m|
    ensures |r| == |m|
  {
    m[..a] + bs + m[a + |bs|..]
  }

  /** A write changes what it covers and nothing else. */
  lemma PutInside(m: seq<Byte>, a: nat, bs: seq<Byte>)
    requires a + |bs| <= |m|
    ensures Put(m, a, bs)[a..a + |bs|] == bs
  {
  }

  lemma PutOutside(m: seq<Byte>, a: nat, bs: seq<Byte>, lo: nat, hi: nat)
    requires a + |bs| <= |m| && lo <= hi <= |m|
    requires hi <= a || a + |bs| <= lo
    ensures Put(m, a, bs)[lo..hi] == m[lo..hi]
  {
  }

  lemma PutNothing(m: seq<Byte>, a: nat)
    requires a <= |m|
    ensures Put(m, a, []) == m
  {
  }

  /** Copying byte by byte between ranges that do not overlap. */
  lemma CopyStep(m: seq<Byte>, dst: nat, src: nat, i: nat, n: nat)
    requires i < n && dst + n <= |m| && src + n <= |m| && (dst + n <= src || src + n <= dst)
    ensures var m' := Put(m, dst, m[src..src + i]);
            m'[src + i] == m[src + i] && m'[dst + i := m[src + i]] == Put(m, dst, m[src..src + i + 1])
  {
    var m', r := Put(m, dst, m[src..src + i]), Put(m, dst, m[src..src + i + 1]);
    assert m'[src + i] == m[src + i];
    forall k | 0 <= k < |m| ensures m'[dst + i := m[src + i]][k] == r[k] {
    }
  }

  function PutWord(m: seq<Byte>, a: nat, v: nat): (r: seq<Byte>)
    requires a + 8 <= |m|
    ensures |r| == |m|
  {
    Put(m, a, Encode(v, 8))
  }

  lemma WordPut(m: seq<Byte>, a: nat, v: nat)
    requires a + 8 <= |m| && v < TWO64
    ensures Word(PutWord(m, a, v), a) == v
  {
    Pow256Eight();
    DecodeEncode(v, 8);
    PutInside(m, a, Encode(v, 8));
  }
}
