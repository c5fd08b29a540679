/** The circular doubly linked list of rt-thread/include/rtservice.h, on which every queue of the kernel is built. */
module RtList {
  import opened Seqs

  class Node {
    var next: Node
    var prev: Node

    /** rt_list_init */
    constructor ()
      ensures Ring([this])
    {
      next, prev := this, this;
    }
  }

  function Succ(i: nat, n: nat): nat
    requires i < n
  {
    if i + 1 == n then 0 else i + 1
  }

  function Pred(i: nat, n: nat): nat
    requires i < n
  {
    if i == 0 then n - 1 else i - 1
  }

  /** Nodes i and i + 1 of the ring point at each other. */
  ghost predicate Linked(c: seq<Node>, i: nat)
    requires i < |c|
    reads c
  {
    c[i].next == c[Succ(i, |c|)] && c[Succ(i, |c|)].prev == c[i]
  }

  /** c is the ring of nodes, once round from c[0]. */
  ghost predicate Ring(c: seq<Node>)
    reads c
  {
    c != [] && NoDup(c) && forall i :: 0 <= i < |c| ==> Linked(c, i)
  }

  /** The list with head l holds the nodes s, in this order. */
  ghost predicate Holds(l: Node, s: seq<Node>)
    reads l, s
  {
    Ring([l] + s)
  }

  /** What rt_list_insert_after does to a ring. */
  ghost function Inserted(c: seq<Node>, i: nat, n: Node): seq<Node>
    requires i < |c|
  {
    c[..i + 1] + [n] + c[i + 1..]
  }

  /** n has been put between nodes i and i + 1; the other links are as in the ring. */
  ghost predicate Between(c: seq<Node>, i: nat, n: Node)
    requires i < |c|
    reads c, n
  {
    && c[i].next == n && n.prev == c[i] && n.next == c[Succ(i, |c|)] && c[Succ(i, |c|)].prev == n
    && forall k :: 0 <= k < |c| && k != i ==> Linked(c, k)
  }

  lemma InsertedLinks(c: seq<Node>, i: nat, n: Node, k: nat)
    requires i < |c| && Between(c, i, n) && k <= |c|
    ensures Linked(Inserted(c, i, n), k)
  {
    var d, m := Inserted(c, i, n), |c|;
    assert |d| == m + 1 && forall j :: 0 <= j <= m ==> d[j] == if j <= i then c[j] else if j == i + 1 then n else c[j - 1];
    hide Inserted;
    if k < i { assert Linked(c, k); } else if k > i + 1 { assert Linked(c, k - 1); }
  }

  lemma InsertedRing(c: seq<Node>, i: nat, n: Node)
    requires i < |c| && NoDup(c) && n !in c && Between(c, i, n)
    ensures Ring(Inserted(c, i, n))
  {
    InsertMembers(c, i + 1, n);
    forall k | 0 <= k <= |c| ensures Linked(Inserted(c, i, n), k) { InsertedLinks(c, i, n, k); }
  }

  lemma Neighbours(c: seq<Node>, i: nat)
    requires Ring(c) && i < |c|
    ensures c[i].next == c[Succ(i, |c|)] && c[i].next.prev == c[i]
    ensures c[i].prev == c[Pred(i, |c|)] && c[i].prev.next == c[i]
  {
    assert Linked(c, i) && Linked(c, Pred(i, |c|));
  }

  /** rt_list_insert_after, of a node that is in no other list. */
  method InsertAfter(l: Node, n: Node, ghost c: seq<Node>, ghost i: nat)
    requires Ring(c) && i < |c| && c[i] == l && n !in c
    modifies c, n
    ensures Ring(Inserted(c, i, n))
  {
    Neighbours(c, i);
    l.next.prev := n;
    n.next := l.next;
    l.next := n;
    n.prev := l;
    InsertedRing(c, i, n);
  }

  /** rt_list_insert_before: after the node before. */
  method InsertBefore(l: Node, n: Node, ghost c: seq<Node>, ghost i: nat)
    requires Ring(c) && i < |c| && c[i] == l && n !in c
    modifies c, n
    ensures Ring(if i == 0 then c + [n] else c[..i] + [n] + c[i..])
  {
    ghost var j := Pred(i, |c|);
    assert Inserted(c, j, n) == if i == 0 then c + [n] else c[..i] + [n] + c[i..];
    Neighbours(c, i);
    assert c[j] == l.prev && Succ(j, |c|) == i && Linked(c, j);
    l.prev.next := n;
    n.prev := l.prev;
    l.prev := n;
    n.next := l;
    forall k | 0 <= k < |c| && k != j ensures Linked(c, k) {
      assert old(Linked(c, k));
      assert c[k] != c[j] && c[Succ(k, |c|)] != c[i];
    }
    InsertedRing(c, j, n);
  }

  /** rt_list_remove of a list member: it ends up alone, and removing it again changes nothing. */
  method Remove(n: Node, ghost c: seq<Node>, ghost i: nat)
    requires Ring(c) && i < |c| && c[i] == n
    modifies c
    ensures Ring([n]) && (|c| > 1 ==> Ring(c[..i] + c[i + 1..]))
  {
    Neighbours(c, i);
    n.next.prev := n.prev;
    n.prev.next := n.next;
    n.next, n.prev := n, n;
    if |c| > 1 { RemovedRing(c, i); }
  }

  /** The neighbours of node i have been linked to each other. */
  ghost predicate Skipped(c: seq<Node>, i: nat)
    requires i < |c|
    reads c
  {
    && c[Pred(i, |c|)].next == c[Succ(i, |c|)] && c[Succ(i, |c|)].prev == c[Pred(i, |c|)]
    && forall k :: 0 <= k < |c| && k != i && k != Pred(i, |c|) ==> Linked(c, k)
  }

  lemma RemovedLinks(c: seq<Node>, i: nat, k: nat)
    requires i < |c| && Skipped(c, i) && k + 1 < |c|
    ensures Linked(c[..i] + c[i + 1..], k)
  {
    var d, m := c[..i] + c[i + 1..], |c|;
    var a := if k < i then k else k + 1;
    var b := Succ(k, m - 1);
    assert d[k] == c[a] && d[b] == c[if b < i then b else b + 1];
    if a != Pred(i, m) { assert Linked(c, a); }
  }

  lemma RemovedRing(c: seq<Node>, i: nat)
    requires i < |c| && |c| > 1 && NoDup(c) && Skipped(c, i)
    ensures Ring(c[..i] + c[i + 1..])
  {
    var d := c[..i] + c[i + 1..];
    forall k | 0 <= k < |d| ensures Linked(d, k) { RemovedLinks(c, i, k); }
  }

  // ---------- a list with its head ----------

  /** At the tail: rt_list_insert_before on the head, as ready queues and FIFO wait lists do. */
  method Append(l: Node, n: Node, ghost s: seq<Node>)
    requires Holds(l, s) && n != l && n !in s
    modifies l, s, n
    ensures Holds(l, s + [n])
  {
    InsertBefore(l, n, [l] + s, 0);
    assert [l] + s + [n] == [l] + (s + [n]);
  }

  /** Before the member at position i, as RT_IPC_FLAG_PRIO wait lists do. */
  method InsertAt(l: Node, n: Node, ghost s: seq<Node>, ghost i: nat, at: Node)
    requires Holds(l, s) && n != l && n !in s && i < |s| && s[i] == at
    modifies l, s, n
    ensures Holds(l, s[..i] + [n] + s[i..])
  {
    InsertBefore(at, n, [l] + s, i + 1);
    assert ([l] + s)[..i + 1] + [n] + ([l] + s)[i + 1..] == [l] + (s[..i] + [n] + s[i..]);
  }

  /** rt_list_remove of the member at position i leaves the others in order (Seqs.WithoutAt); of a node that is in
      no list it changes nothing. */
  method Unlink(l: Node, n: Node, ghost s: seq<Node>, ghost i: nat)
    requires Holds(l, s) && n != l
    requires if n in s then i < |s| && s[i] == n else Ring([n])
    modifies l, s, n
    ensures Ring([n]) && Holds(l, if n in s then s[..i] + s[i + 1..] else s)
  {
    ghost var c, j := [n], 0;
    if n in s {
      c, j := [l] + s, i + 1;
      assert c[..j] + c[j + 1..] == [l] + (s[..i] + s[i + 1..]);
    }
    Remove(n, c, j);
  }

  /** rt_list_isempty */
  method IsEmpty(l: Node, ghost s: seq<Node>) returns (r: bool)
    requires Holds(l, s)
    ensures r <==> s == []
  {
    Neighbours([l] + s, 0);
    r := l.next == l;
  }

  /** rt_list_len */
  method Len(l: Node, ghost s: seq<Node>) returns (len: nat)
    requires Holds(l, s)
    ensures len == |s|
  {
    ghost var c := [l] + s;
    len := 0;
    var p := l;
    while p.next != l
      invariant len < |c| && p == c[len]
      decreases |c| - len
    {
      Neighbours(c, len);
      p := p.next;
      len := len + 1;
    }
    Neighbours(c, len);
  }
}
