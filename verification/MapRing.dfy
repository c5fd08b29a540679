/** Circular doubly linked lists whose links are stored in two tables, one entry per node. */
module MapRing {
  import opened Seqs

  type Links = map<int, int>

  function Succ(i: nat, n: nat): nat
    requires i < n
  {
    if i + 1 == n then 0 else i + 1
  }

  function Pred(i: nat, n: nat): nat
    requires i < n
  {
    if i == 0 then n - 1 else i - 1
  }

  ghost predicate Linked(next: Links, prev: Links, c: seq<int>, i: nat)
    requires i < |c|
  {
    var y := c[Succ(i, |c|)];
    c[i] in next && y in prev && next[c[i]] == y && prev[y] == c[i]
  }

  /** c is the ring of nodes, once round from c[0]. */
  ghost predicate Ring(next: Links, prev: Links, c: seq<int>) {
    c != [] && NoDup(c) && forall i :: 0 <= i < |c| ==> Linked(next, prev, c, i)
  }

  lemma Neighbours(next: Links, prev: Links, c: seq<int>, i: nat)
    requires Ring(next, prev, c) && i < |c|
    ensures c[i] in next && next[c[i]] == c[Succ(i, |c|)] && c[i] in prev && prev[c[i]] == c[Pred(i, |c|)]
    ensures Succ(Pred(i, |c|), |c|) == i && Pred(Succ(i, |c|), |c|) == i
  {
    assert Linked(next, prev, c, i) && Linked(next, prev, c, Pred(i, |c|));
  }

  ghost function Inserted(c: seq<int>, i: nat, n: int): seq<int>
    requires i < |c|
  {
    c[..i + 1] + [n] + c[i + 1..]
  }

  /** Linking n in after node i. */
  lemma InsertRing(next: Links, prev: Links, c: seq<int>, i: nat, n: int, next1: Links, prev1: Links)
    requires Ring(next, prev, c) && i < |c| && n !in c && c[i] in next
    requires next1 == next[n := next[c[i]]][c[i] := n]
    requires prev1 == prev[next[c[i]] := n][n := c[i]]
    ensures Ring(next1, prev1, Inserted(c, i, n))
  {
    var d, m := Inserted(c, i, n), |c|;
    InsertMembers(c, i + 1, n);
    forall k | 0 <= k <= m ensures Linked(next1, prev1, d, k) {
      InsertedLink(next, prev, c, i, n, next1, prev1, k);
    }
  }

  lemma InsertedLink(next: Links, prev: Links, c: seq<int>, i: nat, n: int, next1: Links, prev1: Links, k: nat)
    requires Ring(next, prev, c) && i < |c| && n !in c && c[i] in next && k <= |c|
    requires next1 == next[n := next[c[i]]][c[i] := n]
    requires prev1 == prev[next[c[i]] := n][n := c[i]]
    ensures Linked(next1, prev1, Inserted(c, i, n), k)
  {
    var d, m := Inserted(c, i, n), |c|;
    assert |d| == m + 1 && forall j {:trigger d[j]} :: 0 <= j <= m ==> d[j] == if j <= i then c[j] else if j == i + 1 then n else c[j - 1];
    Neighbours(next, prev, c, i);
    hide Inserted;
    if k < i {
      assert Linked(next, prev, c, k);
      assert c[k + 1] != c[Succ(i, m)] || i + 1 == m;
    } else if k > i + 1 {
      assert Linked(next, prev, c, k - 1);
    }
  }

  /** Taking node i out. */
  lemma RemoveRing(next: Links, prev: Links, c: seq<int>, i: nat, next1: Links, prev1: Links)
    requires Ring(next, prev, c) && i < |c| && |c| > 1 && c[i] in next && c[i] in prev
    requires next1 == next[prev[c[i]] := next[c[i]]] && prev1 == prev[next[c[i]] := prev[c[i]]]
    ensures Ring(next1, prev1, c[..i] + c[i + 1..])
  {
    var d := c[..i] + c[i + 1..];
    forall k | 0 <= k < |d| ensures Linked(next1, prev1, d, k) { RemovedLink(next, prev, c, i, next1, prev1, k); }
  }

  lemma RemovedLink(next: Links, prev: Links, c: seq<int>, i: nat, next1: Links, prev1: Links, k: nat)
    requires Ring(next, prev, c) && i < |c| && k + 1 < |c| && c[i] in next && c[i] in prev
    requires next1 == next[prev[c[i]] := next[c[i]]] && prev1 == prev[next[c[i]] := prev[c[i]]]
    ensures Linked(next1, prev1, c[..i] + c[i + 1..], k)
  {
    var d, m := c[..i] + c[i + 1..], |c|;
    Neighbours(next, prev, c, i);
    var a := if k < i then k else k + 1;
    var b := Succ(k, m - 1);
    assert d[k] == c[a] && d[b] == c[if b < i then b else b + 1];
    if a != Pred(i, m) { assert Linked(next, prev, c, a); }
  }
}
