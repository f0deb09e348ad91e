/** The address arithmetic of the mapping loops: 64-bit addresses against the 48 bits that
    translation uses. Everything is in pages: an address is `top * Span(5) + w`. */
module Window {
  import opened Levels
  import opened PageTables
  import opened PageMapping

  lemma ShiftSlot(a: nat, s: nat, x: nat)
    ensures (a * (FANOUT * s) + x) / FANOUT == a * s + x / FANOUT
    ensures (a * (FANOUT * s) + x) % FANOUT == x % FANOUT
  {
    var y := a * s;
    assert a * (FANOUT * s) == FANOUT * y;
  }

  /** The high bits of an address change neither its offset nor its index at any level. */
  lemma {:induction false} HighOffset(l: nat, m: nat, top: nat, w: nat)
    requires 1 <= l <= m
    ensures Offset(l, top * Span(m) + w) == Offset(l, w)
  {
    if l > 1 {
      var v := top * Span(m) + w;
      assert v / FANOUT == top * Span(m - 1) + w / FANOUT && v % FANOUT == w % FANOUT by {
        ShiftSlot(top, Span(m - 1), w);
      }
      HighOffset(l - 1, m - 1, top, w / FANOUT);
    }
  }

  lemma {:induction false} HighSlot(l: nat, top: nat, w: nat)
    requires 1 <= l <= 5
    ensures Slot(l, top * Span(5) + w) == top * Span(6 - l) + Slot(l, w)
  {
    if l > 1 {
      HighSlot(l - 1, top, w);
      ShiftSlot(top, Span(6 - l), Slot(l - 1, w));
    }
  }

  lemma HighIndex(l: nat, top: nat, w: nat)
    requires 1 <= l <= 4
    ensures Index(l, top * Span(5) + w) == Index(l, w)
  {
    HighSlot(l, top, w);
    ShiftSlot(top, Span(5 - l), Slot(l, w));
  }

  /** The end of the entry that holds `start`, or the end of the range if that comes first. The
      entry that ends at the top of the address space wraps to zero. */
  function EntryEnd(l: nat, start: nat, end: nat): nat
    requires 1 <= l
  {
    var boundary := AlignDown(l, Wrap(start + Span(l)));
    if boundary != 0 && boundary - 1 < end then boundary else end
  }

  /** The page after the slot of `w`. */
  function SlotEnd(l: nat, w: nat): nat
    requires 1 <= l
  {
    AlignDown(l, w) + Span(l)
  }

  lemma SlotEndAfter(l: nat, w: nat)
    requires 1 <= l
    ensures w < SlotEnd(l, w) && Slot(l, SlotEnd(l, w) - 1) == Slot(l, w)
    ensures Slot(l, SlotEnd(l, w)) == Slot(l, w) + 1 && Offset(l, SlotEnd(l, w)) == 0
  {
    AlignDownAligned(l, w);
    SlotFrom(l, AlignDown(l, w), Span(l) - 1);
    NextSlot(l, AlignDown(l, w));
  }

  /** Slots end inside the slot of the next level. */
  lemma SlotsNest(l: nat, w: nat)
    requires 1 <= l
    ensures SlotEnd(l, w) <= SlotEnd(l + 1, w)
  {
    SlotEndAfter(l, w);
    SlotEndAfter(l + 1, w);
    AlignedNests(l, l + 1, SlotEnd(l + 1, w));
    SlotFrom(l, SlotEnd(l + 1, w), 0);
    SlotsStayApart(l, l + 1, w, SlotEnd(l + 1, w));
    if SlotEnd(l + 1, w) < SlotEnd(l, w) {
      SlotMonotone(l, SlotEnd(l + 1, w), SlotEnd(l, w) - 1);
    }
  }

  lemma {:induction false} SlotEndInWindow(l: nat, w: nat)
    requires 1 <= l <= 5 && w < Span(5)
    ensures SlotEnd(l, w) <= Span(5)
    decreases 5 - l
  {
    if l < 5 {
      SlotEndInWindow(l + 1, w);
      SlotsNest(l, w);
    } else {
      OneTop(w);
      SlotOffset(5, w);
    }
  }

  lemma LastSlot(q: nat, s: nat, off: nat, n: nat)
    requires off < s && q * s + off < n * s
    ensures q * s + s == n * s || q * s + 2 * s <= n * s
  {
    if q >= n {
      ProductMonotone(n, q, s);
    } else if q + 1 < n {
      ProductMonotone(q + 2, n, s);
    }
  }

  /** The address space ends at a boundary of every level. */
  lemma TopAligned(l: nat, x: nat)
    requires 1 <= l <= 4 && x < ADDRESS_PAGES
    ensures SlotEnd(l, x) == ADDRESS_PAGES || SlotEnd(l, x) + Span(l) <= ADDRESS_PAGES
  {
    var n := AddressSlots(l);
    SlotOffset(l, x);
    LastSlot(Slot(l, x), Span(l), Offset(l, x), n);
  }

  /** Stepping past the next boundary and masking, with wrap-around. */
  lemma NextAligned(l: nat, x: nat)
    requires 1 <= l <= 4 && x < ADDRESS_PAGES
    ensures AlignDown(l, Wrap(x + Span(l))) == Wrap(SlotEnd(l, x))
  {
    TopAligned(l, x);
    if SlotEnd(l, x) == ADDRESS_PAGES {
      ZeroOffset(l);
      SlotFrom(l, 0, Offset(l, x));
    } else {
      SlotEndAfter(l, x);
      SlotFrom(l, SlotEnd(l, x), Offset(l, x));
    }
  }

  /** The loop's entry end, in window terms: the end of the slot or of the range. */
  lemma EntryEndIs(l: nat, top: nat, w: nat, we: nat)
    requires 1 <= l <= 4 && w < we <= Span(5) && top * Span(5) + Span(5) <= ADDRESS_PAGES
    ensures EntryEnd(l, top * Span(5) + w, top * Span(5) + we)
         == top * Span(5) + if SlotEnd(l, w) < we then SlotEnd(l, w) else we
  {
    hide Slot, Offset, Span;
    var base := top * Span(5);
    NextAligned(l, base + w);
    TopAligned(l, base + w);
    HighOffset(l, 5, top, w);
    SlotEndInWindow(l, w);
    assert SlotEnd(l, base + w) == base + SlotEnd(l, w);
  }

  /** The loop's physical address after its first entry. */
  lemma PhysFirst(l: nat, ws: nat, p: nat)
    requires 1 <= l <= 4 && p < ADDRESS_PAGES
    ensures AlignDown(l, Wrap(p + Span(l))) == PhysAt(l, ws, p, SlotEnd(l, ws))
  {
    NextAligned(l, p);
    assert SlotEnd(l, ws) != ws;
  }

  lemma NextAlignedPhys(l: nat, y: nat)
    requires 1 <= l <= 4 && Offset(l, y) == 0 && y + Span(l) < 2 * ADDRESS_PAGES
    ensures AlignDown(l, Wrap(Wrap(y) + Span(l))) == Wrap(y + Span(l))
  {
    WrapAligned(l, y);
    NextAligned(l, Wrap(y));
    TopAligned(l, Wrap(y));
  }

  /** The loop's physical address after another entry. */
  lemma PhysNext(l: nat, ws: nat, p: nat, wc: nat)
    requires 1 <= l <= 4 && p < ADDRESS_PAGES && ws < wc < Span(5) && Offset(l, wc) == 0
    ensures AlignDown(l, Wrap(PhysAt(l, ws, p, wc) + Span(l))) == PhysAt(l, ws, p, SlotEnd(l, wc))
  {
    AlignedSum(l, p, ws, wc);
    SpanValues();
    NextAlignedPhys(l, AlignDown(l, p) + (wc - AlignDown(l, ws)));
  }

  lemma PhysStep(l: nat, ws: nat, p: nat, wc: nat, x: nat)
    requires 1 <= l <= 4 && p < ADDRESS_PAGES && ws <= wc < Span(5) && x == PhysAt(l, ws, p, wc)
    requires wc == ws || Offset(l, wc) == 0
    ensures AlignDown(l, Wrap(x + Span(l))) == PhysAt(l, ws, p, SlotEnd(l, wc))
  {
    if wc == ws { PhysFirst(l, ws, p); } else { PhysNext(l, ws, p, wc); }
  }

  /** Past its first entry, the loop's physical address is aligned. */
  lemma PhysAligned(l: nat, ws: nat, p: nat, wc: nat)
    requires 1 <= l <= 4 && ws < wc < Span(5) && Offset(l, wc) == 0 && p < ADDRESS_PAGES
    ensures PhysAt(l, ws, p, wc) < ADDRESS_PAGES && Offset(l, PhysAt(l, ws, p, wc)) == 0
  {
    SpanValues();
    AlignedSum(l, p, ws, wc);
    WrapAligned(l, AlignDown(l, p) + (wc - AlignDown(l, ws)));
  }
}
