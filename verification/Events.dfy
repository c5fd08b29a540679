/** Flags over a run that some of its steps raise and others lower. */
module Events {

  /** Each event of the first kind among steps lo to hi - 1 is followed there by one of the second. */
  ghost predicate Undone(up: seq<bool>, down: seq<bool>, lo: nat, hi: nat)
    requires lo <= hi <= |up| == |down|
  {
    forall m :: lo <= m < hi && up[m] ==> exists n :: m < n < hi && down[n]
  }

  /** A flag that up raises and down lowers, and that was down at lo, is down at hi iff every raise was undone. */
  lemma {:induction false} FlagUndone(flag: seq<bool>, up: seq<bool>, down: seq<bool>, lo: nat, hi: nat)
    requires lo <= hi <= |up| == |down| && |flag| == |up| + 1 && !flag[lo]
    requires forall m :: lo <= m < hi ==> (flag[m + 1] <==> ((flag[m] && !down[m]) || up[m])) && !(up[m] && down[m])
    ensures !flag[hi] <==> Undone(up, down, lo, hi)
  {
    if lo < hi {
      var m := hi - 1;
      FlagUndone(flag, up, down, lo, m);
      assert flag[m + 1] <==> ((flag[m] && !down[m]) || up[m]);
      if down[m] {
        assert forall l :: lo <= l < hi && up[l] ==> l < m < hi;
      } else if up[m] {
        assert !Undone(up, down, lo, hi);
      } else {
        UndoneLater(up, down, lo, m);
      }
    }
  }

  lemma UndoneLater(up: seq<bool>, down: seq<bool>, lo: nat, m: nat)
    requires lo <= m < |up| == |down| && !up[m] && !down[m]
    ensures Undone(up, down, lo, m) <==> Undone(up, down, lo, m + 1)
  {
    if Undone(up, down, lo, m + 1) {
      forall l | lo <= l < m && up[l] ensures exists n :: l < n < m && down[n] {
        var n :| l < n < m + 1 && down[n];
      }
    }
  }
}
