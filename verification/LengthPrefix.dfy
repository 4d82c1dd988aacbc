/**
 Length-prefixed byte strings: an eight-byte little-endian size followed by the payload,
 as the write-ahead log and the replica sockets lay them out.
 */
module LengthPrefix {

  type byte = x: int | 0 <= x < 256

  type Bytes = seq<byte>

  /** sizeof(size_t), and the first size that no longer fits. */
  const WORD := 8
  const LIMIT: nat := 0x1_0000_0000_0000_0000

  /** `k` bytes of `n`, least significant first. */
  function LittleEndian(n: nat, k: nat): (s: Bytes)
    ensures |s| == k
  {
    if k == 0 then [] else [n % 256] + LittleEndian(n / 256, k - 1)
  }

  function Number(s: Bytes): nat {
    if s == [] then 0 else s[0] + 256 * Number(s[1..])
  }

  function Pow256(k: nat): (p: nat)
    ensures p >= 1
  {
    if k == 0 then 1 else 256 * Pow256(k - 1)
  }

  lemma {:induction false} NumberOfLittleEndian(n: nat, k: nat)
    requires n < Pow256(k)
    ensures Number(LittleEndian(n, k)) == n
  {
    if k > 0 {
      var s := LittleEndian(n, k);
      assert s[1..] == LittleEndian(n / 256, k - 1);
      NumberOfLittleEndian(n / 256, k - 1);
    }
  }

  function Word(n: nat): (s: Bytes)
    ensures |s| == WORD
  {
    LittleEndian(n, WORD)
  }

  /** A size written as a word reads back as itself. */
  lemma WordRoundTrip(n: nat)
    requires n < LIMIT
    ensures Number(Word(n)) == n
  {
    assert Pow256(8) == 256 * (256 * (256 * (256 * Pow256(4))));
    assert Pow256(4) == 256 * (256 * (256 * (256 * Pow256(0))));
    NumberOfLittleEndian(n, WORD);
  }

  function Frame(data: Bytes): (s: Bytes)
    ensures |s| == WORD + |data|
  {
    Word(|data|) + data
  }

  function Frames(items: seq<Bytes>): Bytes {
    if items == [] then [] else Frame(items[0]) + Frames(items[1..])
  }

  lemma {:induction false} FramesAppend(a: seq<Bytes>, b: seq<Bytes>)
    ensures Frames(a + b) == Frames(a) + Frames(b)
  {
    if a == [] {
      assert a + b == b;
    } else {
      assert (a + b)[1..] == a[1..] + b;
      FramesAppend(a[1..], b);
    }
  }

  lemma FramesOfOneAndTwo(a: Bytes, b: Bytes)
    ensures Frames([a]) == Frame(a) && Frames([a, b]) == Frame(a) + Frame(b)
  {
    assert [a][1..] == [] && [b][1..] == [] && [a, b][1..] == [b];
    assert Frames([b]) == Frame(b) + [];
    assert Frames([a]) == Frame(a) + [];
  }
}
