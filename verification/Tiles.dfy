/** What the two block allocators share: 32-bit sizes, memory as cells, and lists of block addresses. */
module Tiles {
  import opened Seqs

  const WORD: int := 0x1_0000_0000

  /** RT_ALIGN(size, 4) on 32-bit sizes. */
  function Align(size: int): int { (size + 3) % WORD / 4 * 4 }

  /** A byte of memory: of a block header, or of data. */
  datatype Cell = Meta | Data(byte: int)

  /** Bytes overwritten by a header at n. */
  function Stamp(bytes: seq<Cell>, n: int, hdr: int): (r: seq<Cell>)
    ensures |r| == |bytes|
    ensures forall k :: 0 <= k < |bytes| ==> r[k] == if n <= k < n + hdr then Meta else bytes[k]
  {
    seq(|bytes|, k requires 0 <= k < |bytes| => if n <= k < n + hdr then Meta else bytes[k])
  }

  /** rt_memcpy between disjoint regions. */
  function Copy(bytes: seq<Cell>, to: int, from: int, len: int): (r: seq<Cell>)
    requires 0 <= from && from + len <= |bytes|
    ensures |r| == |bytes|
    ensures forall k :: 0 <= k < |bytes| ==> r[k] == if to <= k < to + len then bytes[from + k - to] else bytes[k]
  {
    seq(|bytes|, k requires 0 <= k < |bytes| => if to <= k < to + len then bytes[from + k - to] else bytes[k])
  }

  function Ins(b: seq<int>, i: nat, n: int): seq<int>
    requires i < |b|
  {
    b[..i + 1] + [n] + b[i + 1..]
  }

  function Del(b: seq<int>, i: nat): seq<int>
    requires i < |b|
  {
    b[..i] + b[i + 1..]
  }

  lemma InsAt(b: seq<int>, i: nat, n: int)
    requires i < |b|
    ensures |Ins(b, i, n)| == |b| + 1
    ensures var r := Ins(b, i, n); forall k {:trigger r[k]} :: 0 <= k < |r| ==> r[k] == if k <= i then b[k] else if k == i + 1 then n else b[k - 1]
    ensures forall x :: x in Ins(b, i, n) <==> x in b || x == n
  {
    InsertMembers(b, i + 1, n);
  }

  lemma DelAt(b: seq<int>, i: nat)
    requires i < |b|
    ensures var r := Del(b, i); |r| == |b| - 1 && forall k {:trigger r[k]} :: 0 <= k < |r| ==> r[k] == if k < i then b[k] else b[k + 1]
    ensures NoDup(b) ==> forall x :: x in Del(b, i) <==> x in b && x != b[i]
  {
    var r := Del(b, i);
    if NoDup(b) {
      forall x | x in b && x != b[i] ensures x in r {
        var k := IndexOf(b, x);
        assert x == r[if k < i then k else k - 1];
      }
    }
  }

  lemma IndexAt(b: seq<int>, i: nat)
    requires NoDup(b) && i < |b|
    ensures b[i] in b && IndexOf(b, b[i]) == i
  {
  }
}
