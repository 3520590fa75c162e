/** Spill slots of the trace assembler: 32 bit slots in pairs, 64 bit values in even slots. */
module Spill {

  const SPS_FIRST := 2

  /** The slots that a value in slot s takes up. */
  function Cells(s: int, is64: bool): set<int> { if is64 then {s, s + 1} else {s} }

  datatype Spilled = Slot(offset: int) | Overflow

  ghost predicate Taken(slots: map<int, int>, wide: set<int>, c: int) {
    exists r {:trigger slots[r]} :: r in slots && c in Cells(slots[r], r in wide)
  }

  /** There is a free slot, for a 64 bit value a free even one with the next one free too. */
  ghost predicate Fits(slots: map<int, int>, wide: set<int>, is64: bool) {
    exists c {:trigger Taken(slots, wide, c)} ::
      && SPS_FIRST <= c < 256 && !Taken(slots, wide, c)
      && (is64 ==> c % 2 == 0 && !Taken(slots, wide, c + 1))
  }

  ghost predicate Layout(evenspill: int, oddspill: int, slots: map<int, int>, wide: set<int>) {
    && evenspill % 2 == 0 && SPS_FIRST <= evenspill <= 256
    && (oddspill == 0 || (oddspill % 2 == 1 && SPS_FIRST < oddspill < evenspill))
    && (forall r {:trigger r in slots} :: r in slots ==>
          && SPS_FIRST <= slots[r] && (forall c :: c in Cells(slots[r], r in wide) ==> c < evenspill && c != oddspill)
          && (r in wide ==> slots[r] % 2 == 0))
    && (forall r, q {:trigger r in slots, q in slots} :: r in slots && q in slots && r != q ==>
          Cells(slots[r], r in wide) !! Cells(slots[q], q in wide))
    && (forall c {:trigger Taken(slots, wide, c)} :: SPS_FIRST <= c < evenspill && c != oddspill ==>
        Taken(slots, wide, c))
  }

  /** Exactly the slots below evenspill are taken, but for oddspill. */
  lemma {:induction false} TakenExactly(evenspill: int, oddspill: int, slots: map<int, int>, wide: set<int>, c: int)
    requires Layout(evenspill, oddspill, slots, wide) && SPS_FIRST <= c
    ensures Taken(slots, wide, c) <==> c < evenspill && c != oddspill
  {
  }

  lemma {:induction false} FitsExactly(evenspill: int, oddspill: int, slots: map<int, int>, wide: set<int>, is64: bool)
    requires Layout(evenspill, oddspill, slots, wide)
    ensures Fits(slots, wide, is64) <==> evenspill < 256 || (!is64 && oddspill != 0)
  {
    forall c | SPS_FIRST <= c ensures Taken(slots, wide, c) <==> c < evenspill && c != oddspill {
      TakenExactly(evenspill, oddspill, slots, wide, c);
    }
    hide Layout, Taken;
    assert evenspill % 2 == 0 && (oddspill == 0 || SPS_FIRST < oddspill < evenspill <= 256);
    if !is64 && oddspill != 0 {
      assert !Taken(slots, wide, oddspill);
    } else if evenspill < 256 {
      assert !Taken(slots, wide, evenspill) && !Taken(slots, wide, evenspill + 1);
    }
  }

  lemma {:induction false} Added(evenspill: int, oddspill: int, slots: map<int, int>, wide: set<int>, ref: int,
      is64: bool, s: int, even': int, odd': int)
    requires Layout(evenspill, oddspill, slots, wide) && ref !in slots && (is64 <==> ref in wide)
    requires evenspill <= even' <= 256 && even' % 2 == 0
    requires (odd' == 0 || odd' == oddspill || (odd' == evenspill + 1 && even' == evenspill + 2 && !is64))
    requires (s == evenspill && even' == evenspill + 2) || (!is64 && s == oddspill != 0 && odd' == 0)
    requires odd' == oddspill ==> s == evenspill
    requires s == evenspill ==> odd' == if is64 then oddspill else evenspill + 1
    requires s == evenspill && !is64 ==> oddspill == 0
    requires s != evenspill ==> even' == evenspill
    ensures Layout(even', odd', slots[ref := s], wide)
  {
    forall r {:trigger r in slots} | r in slots ensures Cells(slots[r], r in wide) !! Cells(s, is64) {
      assert forall c :: c in Cells(slots[r], r in wide) ==> c < evenspill && c != oddspill;
    }
    forall c {:trigger Taken(slots[ref := s], wide, c)} | SPS_FIRST <= c < even' && c != odd'
      ensures Taken(slots[ref := s], wide, c) {
      if c < evenspill && c != oddspill {
        assert Taken(slots, wide, c);
        var r :| r in slots && c in Cells(slots[r], r in wide);
        assert slots[ref := s][r] == slots[r];
      } else {
        assert slots[ref := s][ref] == s && c in Cells(s, is64);
      }
    }
  }

  lemma {:induction false} EvenOnly(evenspill: int, oddspill: int, slots: map<int, int>, wide: set<int>)
    requires Layout(evenspill, oddspill, slots, wide)
    ensures evenspill % 2 == 0 && SPS_FIRST <= evenspill <= 256 && oddspill < 256
    ensures forall r :: r in slots ==> slots[r] < 256
  {
    forall r | r in slots ensures slots[r] < 256 { assert slots[r] in Cells(slots[r], r in wide); }
  }

  class Spiller {
    var evenspill: int
    var oddspill: int
    /** Slot of each value that has one. */
    var slots: map<int, int>
    /** Values of 64 bits. */
    const wide: set<int>

    ghost predicate Valid()
      reads this
    {
      Layout(evenspill, oddspill, slots, wide)
    }

    constructor (wide: set<int>)
      ensures Valid() && this.wide == wide && slots == map[]
    {
      this.wide := wide;
      evenspill, oddspill, slots := SPS_FIRST, 0, map[];
    }

    /**
     ra_spill: a value keeps the slot it has, otherwise it gets one that overlaps no other; slots of
     64 bit values are aligned. Beyond 256 slots the trace is given up.
     */
    method Spill(ref: int) returns (r: Spilled)
      requires Valid()
      modifies this
      ensures r.Slot? ==> Valid() && ref in slots && r.offset == 4 * slots[ref] && slots[ref] < 256
      ensures r.Slot? ==> slots == (if ref in old(slots) then old(slots) else old(slots)[ref := slots[ref]])
      ensures r.Overflow? <==> ref !in old(slots) && !old(Fits(slots, wide, ref in wide))
    {
      FitsExactly(evenspill, oddspill, slots, wide, ref in wide);
      hide Layout, Fits;
      EvenOnly(evenspill, oddspill, slots, wide);
      if ref !in slots {
        ghost var e0, o0, s0 := evenspill, oddspill, slots;
        var slot := evenspill;
        if ref in wide {
          evenspill := evenspill + 2;
        } else if oddspill != 0 {
          slot := oddspill;
          oddspill := 0;
        } else {
          oddspill := slot + 1;
          evenspill := evenspill + 2;
        }
        if evenspill > 256 { return Overflow; }
        Added(e0, o0, s0, wide, ref, ref in wide, slot, evenspill, oddspill);
        slots := slots[ref := slot];
      }
      EvenOnly(evenspill, oddspill, slots, wide);
      return Slot(4 * slots[ref]);
    }
  }
}
