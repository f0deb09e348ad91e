/** Page arithmetic shared by the allocator and the page tables.

    Addresses are counted in 4 KiB pages. A table at level `l` covers
    `Span(l + 1)` pages with 512 entries of `Span(l)` pages each; the three
    frame sizes of the allocator are `Span(1)`, `Span(2)` and `Span(3)`. */
module Levels {

  const PAGE_BYTES: nat := 4096
  const FANOUT: nat := 512

  /** Pages in a 64-bit address space. */
  const ADDRESS_PAGES: nat := 0x10_0000_0000_0000

  /** Frame numbers that fit in the 40-bit address field of an entry. */
  const FRAME_NUMBERS: nat := 0x100_0000_0000

  /** A sum of two addresses, wrapped to 64 bits. */
  function Wrap(x: nat): nat {
    if x < ADDRESS_PAGES then x else x - ADDRESS_PAGES
  }

  /** Pages covered by one entry of a table at level `l`. */
  function Span(l: nat): (s: nat)
    requires 1 <= l
    ensures s > 0
  {
    if l == 1 then 1 else FANOUT * Span(l - 1)
  }

  /** The entry-sized slot of level `l` that holds page `w`. */
  function Slot(l: nat, w: nat): nat
    requires 1 <= l
  {
    if l == 1 then w else Slot(l - 1, w) / FANOUT
  }

  /** The position of page `w` in its slot of level `l`. */
  function Offset(l: nat, w: nat): (r: nat)
    requires 1 <= l
    ensures r <= w && r < Span(l)
  {
    if l == 1 then 0 else w % FANOUT + FANOUT * Offset(l - 1, w / FANOUT)
  }

  /** The first page of the slot of level `l` that holds `w`, as `& ~(entry_size - 1)` gives it. */
  function AlignDown(l: nat, w: nat): nat
    requires 1 <= l
  {
    w - Offset(l, w)
  }

  // ---------------------------------------------------------------------------------------
  // Products, quotients and remainders

  lemma {:induction false} ProductMonotone(a: nat, b: nat, s: nat)
    requires a <= b
    ensures a * s <= b * s
    decreases b - a
  {
    if a < b {
      ProductMonotone(a + 1, b, s);
      assert (a + 1) * s == a * s + s;
    }
  }

  /** Quotient and remainder are unique. */
  lemma Quotient(a: nat, b: nat, s: nat, x: nat, y: nat)
    requires a * s + x == b * s + y && x < s && y < s
    ensures a == b && x == y
  {
    if a < b {
      ProductMonotone(a + 1, b, s);
    } else if b < a {
      ProductMonotone(b + 1, a, s);
    }
  }

  lemma Remainder(x: nat, m: nat, a: nat, r: nat)
    requires x == a * m + r && r < m
    ensures x % m == r && x / m == a
  {
    Quotient(x / m, a, m, x % m, r);
  }

  lemma LastPart(r: nat, n: nat, s: nat, off: nat)
    requires r < n && off < s
    ensures r * s + off < n * s
  {
    ProductMonotone(r + 1, n, s);
  }

  lemma Reassociate(a: nat, n: nat, r: nat, s: nat)
    ensures (a * n + r) * s == a * (n * s) + r * s
  {
    assert (a * n) * s == a * (n * s);
  }

  /** Wrapping at a multiple of `s` wraps the quotient and keeps the remainder. */
  lemma WrapMultiple(q: nat, s: nat, n: nat, off: nat)
    requires n > 0 && off < s
    ensures n * s > 0 && (q * s + off) % (n * s) == q % n * s + off
  {
    LastPart(q % n, n, s, off);
    Reassociate(q / n, n, q % n, s);
    Remainder(q * s + off, n * s, q / n, q % n * s + off);
  }

  // ---------------------------------------------------------------------------------------
  // Slots and offsets

  lemma {:induction false} SlotLow(l: nat, w: nat)
    requires 2 <= l
    ensures Slot(l, w) == Slot(l - 1, w / FANOUT)
  {
    if l > 2 { SlotLow(l - 1, w); }
  }

  lemma Reorder(a: nat, s: nat)
    ensures FANOUT * (a * s) == a * (FANOUT * s)
  {
  }

  /** A page is its slot and its offset. */
  lemma {:induction false} SlotOffset(l: nat, w: nat)
    requires 1 <= l
    ensures AlignDown(l, w) == Slot(l, w) * Span(l)
  {
    if l > 1 {
      SlotLow(l, w);
      SlotOffset(l - 1, w / FANOUT);
      assert AlignDown(l, w) == FANOUT * AlignDown(l - 1, w / FANOUT);
      Reorder(Slot(l, w), Span(l - 1));
    }
  }

  lemma SlotOfMultiple(l: nat, q: nat, r: nat)
    requires 1 <= l && r < Span(l)
    ensures Slot(l, q * Span(l) + r) == q && Offset(l, q * Span(l) + r) == r
  {
    var w := q * Span(l) + r;
    SlotOffset(l, w);
    Quotient(q, Slot(l, w), Span(l), r, Offset(l, w));
  }

  /** The slots of level `l` start at the pages with no offset. */
  lemma SlotFrom(l: nat, w: nat, r: nat)
    requires 1 <= l && Offset(l, w) == 0 && r < Span(l)
    ensures Slot(l, w + r) == Slot(l, w) && Offset(l, w + r) == r
  {
    SlotOffset(l, w);
    SlotOfMultiple(l, Slot(l, w), r);
  }

  lemma NextSlot(l: nat, w: nat)
    requires 1 <= l && Offset(l, w) == 0
    ensures Slot(l, w + Span(l)) == Slot(l, w) + 1 && Offset(l, w + Span(l)) == 0
  {
    SlotOffset(l, w);
    assert (Slot(l, w) + 1) * Span(l) == Slot(l, w) * Span(l) + Span(l);
    SlotOfMultiple(l, Slot(l, w) + 1, 0);
  }

  lemma {:induction false} AlignDownAligned(l: nat, w: nat)
    requires 1 <= l
    ensures Offset(l, AlignDown(l, w)) == 0 && Slot(l, AlignDown(l, w)) == Slot(l, w)
  {
    SlotOffset(l, w);
    SlotOfMultiple(l, Slot(l, w), 0);
  }

  /** Pages of one slot differ by their offsets, and pages with the same start share a slot. */
  lemma SameSlot(l: nat, a: nat, b: nat)
    requires 1 <= l
    ensures Slot(l, a) == Slot(l, b) <==> AlignDown(l, a) == AlignDown(l, b)
  {
    SlotOffset(l, a);
    SlotOffset(l, b);
    if AlignDown(l, a) == AlignDown(l, b) {
      Quotient(Slot(l, a), Slot(l, b), Span(l), 0, 0);
    }
  }

  lemma {:induction false} SlotMonotone(l: nat, a: nat, b: nat)
    requires 1 <= l && a <= b
    ensures Slot(l, a) <= Slot(l, b)
  {
    if l > 1 { SlotMonotone(l - 1, a, b); }
  }

  /** Pages in different slots at a level stay apart at every lower level. */
  lemma {:induction false} SlotsStayApart(l: nat, m: nat, a: nat, b: nat)
    requires 1 <= l <= m
    requires Slot(m, a) < Slot(m, b)
    ensures Slot(l, a) < Slot(l, b)
  {
    if l < m { SlotsStayApart(l, m - 1, a, b); }
  }

  /** Offsets at a level determine offsets at lower levels. */
  lemma {:induction false} OffsetNests(l: nat, m: nat, a: nat, b: nat)
    requires 1 <= l <= m && Offset(m, a) == Offset(m, b)
    ensures Offset(l, a) == Offset(l, b)
  {
    if 1 < l < m {
      OffsetNests(l - 1, m - 1, a / FANOUT, b / FANOUT);
    }
  }

  lemma {:induction false} ZeroOffset(l: nat)
    requires 1 <= l
    ensures Offset(l, 0) == 0 && Slot(l, 0) == 0
  {
    if l > 1 { ZeroOffset(l - 1); }
  }

  /** A page with no offset at a level has none at lower levels. */
  lemma AlignedNests(l: nat, m: nat, w: nat)
    requires 1 <= l <= m && Offset(m, w) == 0
    ensures Offset(l, w) == 0
  {
    ZeroOffset(l);
    ZeroOffset(m);
    OffsetNests(l, m, w, 0);
  }

  /** The sizes of 4 KiB, 2 MiB, 1 GiB, 512 GiB and 256 TiB, in pages. */
  lemma SpanValues()
    ensures Span(1) == 1
    ensures Span(2) == 0x200
    ensures Span(3) == 0x4_0000
    ensures Span(4) == 0x800_0000
    ensures Span(5) == 0x10_0000_0000
  {
    assert Span(2) == FANOUT * Span(1);
    assert Span(3) == FANOUT * Span(2);
    assert Span(4) == FANOUT * Span(3);
    assert Span(5) == FANOUT * Span(4);
  }

  /** The whole 48-bit address range is one slot of level 5. */
  lemma OneTop(w: nat)
    requires w < Span(5)
    ensures Slot(5, w) == 0
  {
    SlotOffset(5, w);
    if Slot(5, w) > 0 { ProductMonotone(1, Slot(5, w), Span(5)); }
  }
}
