/** The ready-priority bitmap of rt-thread/src/scheduler.c, in both of its compiled forms:
    up to 32 priorities in one word, or up to 256 as a word over a table of 32 bytes. */
module ReadyBitmap {
  import opened Bits

  /** The priority attributes a thread caches: number, number_mask and high_mask. */
  datatype Attr = Attr(number: nat, numberMask: nat, highMask: nat)

  datatype Bitmap = OneLevel(group: nat) | TwoLevel(group: nat, table: seq<nat>) {

    function Levels(): nat { if OneLevel? then 32 else 256 }

    ghost predicate Valid() {
      && group < WORD
      && (TwoLevel? ==>
            && |table| == 32
            && (forall n :: 0 <= n < 32 ==> table[n] < 0x100)
            && (forall n: nat :: n < 32 ==> (Has(group, n) <==> table[n] != 0)))
    }

    /** The bit of priority p. */
    ghost predicate Marked(p: nat)
      requires Valid() && p < Levels()
    {
      if OneLevel? then Has(group, p) else Has(table[p / 8], p % 8)
    }

    /** The attributes recomputed whenever a priority is assigned (thread.c:299-305, 586-592). */
    function AttrOf(p: nat): Attr
    {
      if OneLevel? then Attr(0, Shl1(p), 0)
      else Attr(p / 8, Shl1(p / 8), Shl1(p % 8))
    }

    /** The bits rt_schedule_insert_thread turns on. */
    function Mark(a: Attr): Bitmap
      requires TwoLevel? ==> a.number < |table|
    {
      if OneLevel? then OneLevel(Or(group, a.numberMask))
      else TwoLevel(Or(group, a.numberMask), table[a.number := Or(table[a.number], a.highMask)])
    }

    /** The bits rt_schedule_remove_thread turns off when the queue has become empty. */
    function Unmark(a: Attr): Bitmap
      requires TwoLevel? ==> a.number < |table|
    {
      if OneLevel? then OneLevel(AndNot(group, a.numberMask))
      else
        var byte := AndNot(table[a.number], a.highMask);
        TwoLevel(if byte == 0 then AndNot(group, a.numberMask) else group, table[a.number := byte])
    }

    /** highest_ready_priority as _get_highest_priority_thread computes it. */
    function Highest(): int
      requires group < WORD
      requires TwoLevel? ==> |table| == 32 && (forall n :: 0 <= n < 32 ==> table[n] < 0x100) && 0 < Ffs(group) <= 32
    {
      if OneLevel? then Ffs(group) - 1
      else
        var number := Ffs(group) - 1;
        number * 8 + Ffs(table[number]) - 1
    }

    lemma Words()
      ensures Shl1(8) == 0x100 && Shl1(32) == WORD
    {
      assert Shl1(8) == 256 && Shl1(16) == 65536 && Shl1(24) == 0x100_0000;
    }

    lemma MarkSetsOneBit(p: nat)
      requires Valid() && p < Levels()
      ensures var b := Mark(AttrOf(p));
        b.Valid() && b.Levels() == Levels() && forall q: nat :: q < Levels() ==> (b.Marked(q) <==> q == p || Marked(q))
    {
      var a := AttrOf(p);
      var b := Mark(a);
      Words();
      var bit := if OneLevel? then p else a.number;
      Shl1Monotone(bit, 32);
      OrBound(group, a.numberMask, 32);
      forall q: nat ensures Has(b.group, q) <==> q == bit || Has(group, q) {
        HasOr(group, a.numberMask, q);
        HasShl1(bit, q);
      }
      if TwoLevel? {
        var byte := table[a.number];
        Shl1Monotone(p % 8, 8);
        OrBound(byte, a.highMask, 8);
        forall q: nat ensures Has(b.table[a.number], q) <==> q == p % 8 || Has(byte, q) {
          HasOr(byte, a.highMask, q);
          HasShl1(p % 8, q);
        }
        HasZero(p % 8);
      }
    }

    lemma UnmarkClearsOneBit(p: nat)
      requires Valid() && p < Levels()
      ensures var b := Unmark(AttrOf(p));
        b.Valid() && b.Levels() == Levels() && forall q: nat :: q < Levels() ==> (b.Marked(q) <==> q != p && Marked(q))
    {
      var a := AttrOf(p);
      var b := Unmark(a);
      var bit := if OneLevel? then p else a.number;
      AndNotBound(group, a.numberMask);
      forall q: nat ensures Has(AndNot(group, a.numberMask), q) <==> q != bit && Has(group, q) {
        HasAndNot(group, a.numberMask, q);
        HasShl1(bit, q);
      }
      if TwoLevel? {
        var byte := table[a.number];
        AndNotBound(byte, a.highMask);
        forall q: nat ensures Has(b.table[a.number], q) <==> q != p % 8 && Has(byte, q) {
          HasAndNot(byte, a.highMask, q);
          HasShl1(p % 8, q);
        }
      }
    }

    /** Marking a marked priority, or unmarking an unmarked one, changes no word. */
    lemma NoChange(p: nat)
      requires Valid() && p < Levels()
      ensures Marked(p) ==> Mark(AttrOf(p)) == this
      ensures !Marked(p) ==> Unmark(AttrOf(p)) == this
    {
      if OneLevel? {
        if Marked(p) { OrSet(group, p); } else { AndNotClear(group, p); }
      } else {
        var n, b := p / 8, p % 8;
        if Marked(p) {
          HasZero(b);
          OrSet(group, n);
          OrSet(table[n], b);
          assert table[n := table[n]] == table;
        } else {
          AndNotClear(table[n], b);
          if table[n] == 0 { AndNotClear(group, n); }
          assert table[n := table[n]] == table;
        }
      }
    }

    /** The group word alone tells whether anything is ready, and bitmap plus __rt_ffs
        finds the same priority as a search upwards from 0. */
    lemma HighestIsLeastMarked()
      requires Valid()
      ensures group == 0 <==> forall p: nat :: p < Levels() ==> !Marked(p)
      ensures group != 0 ==> 0 < Ffs(group) <= 32 && 0 <= Highest() < Levels() && Marked(Highest())
      ensures group != 0 ==> forall p: nat :: p < Highest() ==> !Marked(p)
    {
      FfsFindsLowestBit(group);
      if OneLevel? {
        forall p: nat ensures group == 0 ==> !Has(group, p) { HasZero(p); }
        if group != 0 { assert Marked(Highest()); }
      } else {
        TwoLevelHighest();
      }
    }

    lemma TwoLevelHighest()
      requires Valid() && TwoLevel?
      ensures group == 0 ==> forall p: nat :: p < 256 ==> !Marked(p)
      ensures group != 0 ==> 0 < Ffs(group) <= 32 && 0 <= Highest() < 256 && Marked(Highest())
      ensures group != 0 ==> forall p: nat :: p < Highest() ==> !Marked(p)
    {
      FfsFindsLowestBit(group);
      if group == 0 {
        forall p: nat | p < 256 ensures !Marked(p) { HasZero(p / 8); HasZero(p % 8); }
      } else {
        var number := Ffs(group) - 1;
        var low := LowInTable(number);
        forall p: nat | p < Highest() ensures !Marked(p) {
          if p / 8 < number { HasZero(p % 8); } else { assert p / 8 == number && p % 8 < low; }
        }
      }
    }

    lemma LowInTable(number: nat) returns (low: nat)
      requires Valid() && TwoLevel? && group != 0 && number < 32 && number == Ffs(group) - 1 && Has(group, number)
      ensures Highest() == number * 8 + low && low < 8 && Has(table[number], low)
      ensures Highest() / 8 == number && Highest() % 8 == low
      ensures forall q: nat :: q < low ==> !Has(table[number], q)
    {
      hide Has, Shl1;
      FfsFindsLowestBit(table[number]);
      hide Ffs;
      assert table[number] != 0;
      low := Ffs(table[number]) - 1;
      Words();
      HasBelow(table[number], low, 8);
      ByteAndBit(number, low);
    }

    static lemma ByteAndBit(number: nat, low: nat)
      requires low < 8
      ensures (number * 8 + low) / 8 == number && (number * 8 + low) % 8 == low
    {
    }
  }
}
