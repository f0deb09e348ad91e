/** What mapping the pieces of an object one after the other does to an address space. */
module VasPages {
  import opened Basics
  import opened Levels
  import opened PageTables
  import opened PageMapping
  import opened Translation
  import opened Vm
  import opened Paging
  import opened PagingTheorems
  import opened Vmo
  import Pmm
  import Window

  /** Pages, and bytes, below the half that all address spaces share. */
  const LOWER_PAGES: nat := 0x8_0000_0000
  const LOWER_BYTES: nat := 0x8000_0000_0000

  /** A range of the lower half needs no wrapping. */
  lemma LowerRange(page: nat, pages: nat)
    requires page + pages <= LOWER_PAGES
    ensures Offset(5, page) == page && Canonical(page, pages) && page + pages < ADDRESS_PAGES
    ensures Span(5) == 2 * LOWER_PAGES
  {
    SpanValues();
    SlotOffset(5, page);
    OneTop(page);
  }

  lemma LowerPage(w: nat)
    requires w < Span(5)
    ensures !UpperPage(w) <==> w < LOWER_PAGES
  {
    SpanValues();
    SlotOffset(4, w);
  }

  // ---------------------------------------------------------------------------------------
  // Pages of an object, and pages of the tables

  /** Which page of an object that starts at page `first` page `w` of the tables is: translation looks
      at 48 bits of an address, so that page `k` of the object is page `Offset(5, first + k)`. */
  function PageNo(first: nat, w: nat): (k: nat)
    requires w < Span(5)
    ensures k < Span(5)
  {
    if Offset(5, first) <= w then w - Offset(5, first) else w + Span(5) - Offset(5, first)
  }

  lemma OffsetPlus(first: nat, k: nat)
    requires k < Span(5)
    ensures var o := Offset(5, first); Offset(5, first + k) == if o + k < Span(5) then o + k else o + k - Span(5)
  {
    hide Offset, Slot, Span;
    var o, q := Offset(5, first), Slot(5, first);
    SlotOffset(5, first);
    if o + k < Span(5) {
      SlotOfMultiple(5, q, o + k);
    } else {
      assert (q + 1) * Span(5) == q * Span(5) + Span(5);
      SlotOfMultiple(5, q + 1, o + k - Span(5));
    }
  }

  lemma PageNoOf(first: nat, k: nat)
    requires k < Span(5)
    ensures Offset(5, first + k) < Span(5) && PageNo(first, Offset(5, first + k)) == k
  {
    hide Offset, Slot, Span;
    OffsetPlus(first, k);
  }

  lemma PageOfNo(first: nat, w: nat)
    requires w < Span(5)
    ensures Offset(5, first + PageNo(first, w)) == w
  {
    hide Offset, Slot, Span;
    OffsetPlus(first, PageNo(first, w));
  }

  lemma LowNumber(first: nat, w: nat)
    requires w < Span(5) && first < Span(5)
    ensures Offset(5, first) == first && (first <= w ==> PageNo(first, w) == w - first)
  {
    hide Slot, Span;
    OneTop(first);
    SlotOffset(5, first);
  }

  /** Byte addresses and sizes of pieces, in pages. */
  lemma PieceRange(layer: nat, base: nat, i: nat)
    requires layer < Pmm.LAYERS && base % Unit(layer) == 0
    ensures (base + i * Unit(layer)) / PAGE_BYTES == base / PAGE_BYTES + i * Pmm.Size(layer)
    ensures PageCount(1, Unit(layer)) == Pmm.Size(layer)
    ensures base % PAGE_BYTES == 0 && (base / PAGE_BYTES) % Pmm.Size(layer) == 0
  {
    var S, q := Pmm.Size(layer), base / Unit(layer);
    assert base == q * Unit(layer);
    assert S > 0;
    hide Pmm.Size, PageCount;
    CountOfPages(S * PAGE_BYTES);
    WholePages(q, S);
    WholePages(i, S);
    Remainder(q * S, S, q, 0);
  }

  lemma WholePages(n: nat, s: nat)
    ensures n * (s * PAGE_BYTES) == n * s * PAGE_BYTES
  {
  }

  /** A piece lies in one table of the highest level. */
  lemma PieceInWindow(layer: nat, v: nat)
    requires layer < Pmm.LAYERS && v % Pmm.Size(layer) == 0
    ensures Offset(5, v) % Pmm.Size(layer) == 0 && Offset(5, v) + Pmm.Size(layer) <= Span(5)
  {
    hide Offset, Slot, Span, Pmm.Size;
    var o := Offset(5, v);
    SizeAligned(layer, v);
    SlotOffset(5, v);
    Window.HighOffset(layer + 1, 5, Slot(5, v), o);
    RestAligned(layer + 1, o);
    MultipleOfSize(layer, o);
    MultipleOfSize(layer, Span(5) - o);
  }

  lemma SpanOfSize(layer: nat)
    requires layer < Pmm.LAYERS
    ensures Span(layer + 1) == Pmm.Size(layer) > 0
  {
    SpanValues();
  }

  lemma MultipleOfSize(layer: nat, x: nat)
    requires layer < Pmm.LAYERS && Offset(layer + 1, x) == 0
    ensures x % Pmm.Size(layer) == 0 && (x > 0 ==> x >= Pmm.Size(layer))
  {
    hide Offset, Slot, Span, Pmm.Size;
    SpanOfSize(layer);
    SlotOffset(layer + 1, x);
    Remainder(x, Pmm.Size(layer), Slot(layer + 1, x), 0);
    if x > 0 {
      ProductMonotone(1, Slot(layer + 1, x), Pmm.Size(layer));
    }
  }

  /** The pages of piece `n`. */
  lemma PiecePlace(layer: nat, first: nat, n: nat)
    requires layer < Pmm.LAYERS && first % Pmm.Size(layer) == 0 && n * Pmm.Size(layer) < Span(5)
    ensures n * Pmm.Size(layer) + Pmm.Size(layer) <= Span(5)
    ensures var S, ws := Pmm.Size(layer), Offset(5, first + n * Pmm.Size(layer));
            && ws % S == 0 && ws + S <= Span(5)
            && forall w: nat {:trigger PageNo(first, w)} :: w < Span(5) ==>
                 && (ws <= w < ws + S <==> n * S <= PageNo(first, w) < n * S + S)
                 && (ws <= w < ws + S ==> PageNo(first, w) == n * S + (w - ws))
  {
    hide Offset, Slot, Span;
    var S := Pmm.Size(layer);
    StartAligned(layer, first, n);
    StartAligned(layer, 0, n);
    PieceInWindow(layer, first);
    PieceInWindow(layer, first + n * S);
    OffsetPlus(first, n * S);
    RoomForPiece(layer, n * S);
  }

  lemma RoomForPiece(layer: nat, x: nat)
    requires layer < Pmm.LAYERS && x % Pmm.Size(layer) == 0 && x < Span(5)
    ensures x + Pmm.Size(layer) <= Span(5)
  {
    hide Slot, Span;
    OneTop(x);
    SlotOffset(5, x);
    PieceInWindow(layer, x);
  }

  /** A multiple of a frame size is aligned at the level whose entries have that size. */
  lemma SizeAligned(layer: nat, p: nat)
    requires layer < Pmm.LAYERS && p % Pmm.Size(layer) == 0
    ensures Span(layer + 1) == Pmm.Size(layer) && Offset(layer + 1, p) == 0
  {
    SpanValues();
    hide Offset, Slot, Span;
    var q := p / Pmm.Size(layer);
    assert p == q * Span(layer + 1) + 0;
    SlotOfMultiple(layer + 1, q, 0);
  }

  lemma {:induction false} TopCrossBelow(l: nat, layer: nat, ws: nat, last: nat)
    requires 1 <= l && ws <= last && Slot(layer + 1, ws) == Slot(layer + 1, last)
    ensures TopCross(l, ws, last) <= Max1(layer)
  {
    if l > Max1(layer) {
      SlotsEqual(layer + 1, l, ws, last);
      TopCrossBelow(l - 1, layer, ws, last);
    }
  }

  function Max1(n: nat): nat {
    if n == 0 then 1 else n
  }

  lemma {:induction false} SlotsEqual(l: nat, m: nat, a: nat, b: nat)
    requires 1 <= l <= m && Slot(l, a) == Slot(l, b)
    ensures Slot(m, a) == Slot(m, b)
    decreases m
  {
    if l < m {
      SlotsEqual(l, m - 1, a, b);
    }
  }

  /** Pages of a piece go to consecutive pages of its frame: both are aligned to the frame size. */
  lemma PieceLinear(layer: nat, ws: nat, p: nat, w: nat)
    requires layer < Pmm.LAYERS && ws % Pmm.Size(layer) == 0 && p % Pmm.Size(layer) == 0
    requires ws <= w < ws + Pmm.Size(layer)
    ensures MappedFrame(4, ws, p, w) == p + (w - ws)
  {
    var last := ws + Pmm.Size(layer) - 1;
    SizeAligned(layer, ws);
    SizeAligned(layer, p);
    SlotFrom(layer + 1, ws, Pmm.Size(layer) - 1);
    TopCrossBelow(4, layer, ws, last);
    var h := TopCross(4, ws, last);
    AlignedNests(h, if layer == 0 then h else layer + 1, ws);
    AlignedNests(h, if layer == 0 then h else layer + 1, p);
    LinearIfCongruent(4, ws, p, last, w);
  }

  /** The frame that backs page `k` of an object. */
  ghost function PageFrame(layer: nat, elements: seq<Element>, k: nat): nat
    requires layer < Pmm.LAYERS && k / Pmm.Size(layer) < |elements| && elements[k / Pmm.Size(layer)].backing.Some?
  {
    elements[k / Pmm.Size(layer)].backing.value + k % Pmm.Size(layer)
  }

  /** Page `w` shows the object that starts at page `first`. */
  ghost predicate Shows(t: Tables, r: nat, layer: nat, elements: seq<Element>, first: nat, w: nat, user: bool)
    requires layer < Pmm.LAYERS && w < Span(5)
  {
    var k := PageNo(first, w);
    && k / Pmm.Size(layer) < |elements| && elements[k / Pmm.Size(layer)].backing.Some?
    && Hit(Translate(t, r, 4, w), PageFrame(layer, elements, k) % FRAME_NUMBERS, user, 1)
  }

  ghost predicate PageOk(t0: Tables, t1: Tables, r: nat, layer: nat, elements: seq<Element>,
                         first: nat, pages: nat, user: bool, w: nat)
    requires layer < Pmm.LAYERS && w < Span(5)
  {
    if PageNo(first, w) < pages then Translate(t0, r, 4, w).None? && Shows(t1, r, layer, elements, first, w, user)
    else Kept(Translate(t0, r, 4, w), Translate(t1, r, 4, w), user)
  }

  /** From `t0` to `t1`, the first pages of an object were mapped, and all other pages kept. */
  ghost predicate MapsObject(t0: Tables, t1: Tables, r: nat, layer: nat, elements: seq<Element>,
                             first: nat, pages: nat, user: bool)
    requires layer < Pmm.LAYERS
  {
    && pages <= Span(5)
    && forall w: nat {:trigger Translate(t1, r, 4, w)} {:trigger PageOk(t0, t1, r, layer, elements, first, pages, user, w)} ::
         w < Span(5) ==> PageOk(t0, t1, r, layer, elements, first, pages, user, w)
  }

  lemma KeptHit(a: Option<Leaf>, b: Option<Leaf>, frame: nat, user: bool)
    requires Hit(a, frame, user, 1) && Kept(a, b, user)
    ensures Hit(b, frame, user, 1)
  {
  }

  lemma PieceOf(layer: nat, i: nat, k: nat)
    requires layer < Pmm.LAYERS && i * Pmm.Size(layer) <= k < i * Pmm.Size(layer) + Pmm.Size(layer)
    ensures k / Pmm.Size(layer) == i && k % Pmm.Size(layer) == k - i * Pmm.Size(layer)
  {
    Remainder(k, Pmm.Size(layer), i, k - i * Pmm.Size(layer));
  }

  /** One more piece. */
  lemma MapsPiece(t0: Tables, t1: Tables, t2: Tables, places1: Places, places2: Places, r: nat,
                  layer: nat, elements: seq<Element>, first: nat, n: nat, user: bool)
    requires layer < Pmm.LAYERS && first % Pmm.Size(layer) == 0
    requires n < |elements| && elements[n].backing.Some? && elements[n].backing.value % Pmm.Size(layer) == 0
    requires MapsObject(t0, t1, r, layer, elements, first, n * Pmm.Size(layer), user)
    requires Linked(t1, places1) && Linked(t2, places2) && IsRoot(places1, r)
    requires var ws := Offset(5, first + n * Pmm.Size(layer));
             Mapped(t1, t2, places1, places2, r, 4, ws, ws + Pmm.Size(layer), elements[n].backing.value, user, 1)
    ensures MapsObject(t0, t2, r, layer, elements, first, n * Pmm.Size(layer) + Pmm.Size(layer), user)
  {
    hide Mapped, Linked, MappedFrame, PageOk, Hit, Kept, Accessible, UpperPage, SameFrame, Offset, Span, Slot, PageNo;
    var S := Pmm.Size(layer);
    var ws, p := Offset(5, first + n * S), elements[n].backing.value;
    MapIsFlat(t1, t2, places1, places2, r, ws, ws + S, p, user, 1);
    PieceFits(t0, t1, r, layer, elements, first, n, user);
    PiecePlace(layer, first, n);
    var pages := n * S + S;
    forall w: nat | w < Span(5)
      ensures PageOk(t0, t2, r, layer, elements, first, pages, user, w)
    {
      assert PageOk(t0, t1, r, layer, elements, first, n * S, user, w);
      MapsPieceAt(t0, t1, t2, r, layer, elements, first, n, user, w);
    }
  }

  /** If the first page of piece `n` is free, the pieces before it do not fill the table. */
  lemma PieceFits(t0: Tables, t1: Tables, r: nat, layer: nat, elements: seq<Element>, first: nat, n: nat, user: bool)
    requires layer < Pmm.LAYERS && first % Pmm.Size(layer) == 0
    requires MapsObject(t0, t1, r, layer, elements, first, n * Pmm.Size(layer), user)
    requires Translate(t1, r, 4, Offset(5, first + n * Pmm.Size(layer))).None?
    ensures n * Pmm.Size(layer) < Span(5)
  {
    hide Offset, Span, Slot;
    var ws := Offset(5, first + n * Pmm.Size(layer));
    StartAligned(layer, first, n);
    PieceInWindow(layer, first + n * Pmm.Size(layer));
    assert PageOk(t0, t1, r, layer, elements, first, n * Pmm.Size(layer), user, ws);
  }

  /** One page, before and after. */
  lemma MapsPieceAt(t0: Tables, t1: Tables, t2: Tables, r: nat, layer: nat, elements: seq<Element>, first: nat, n: nat, user: bool, w: nat)
    requires layer < Pmm.LAYERS && first % Pmm.Size(layer) == 0 && n * Pmm.Size(layer) < Span(5) && w < Span(5)
    requires n < |elements| && elements[n].backing.Some? && elements[n].backing.value % Pmm.Size(layer) == 0
    requires PageOk(t0, t1, r, layer, elements, first, n * Pmm.Size(layer), user, w)
    requires var ws, p := Offset(5, first + n * Pmm.Size(layer)), elements[n].backing.value;
             if ws <= w < ws + Pmm.Size(layer) then
               Translate(t1, r, 4, w).None? && Hit(Translate(t2, r, 4, w), MappedFrame(4, ws, p, w) % FRAME_NUMBERS, user, 1)
             else Kept(Translate(t1, r, 4, w), Translate(t2, r, 4, w), user)
    ensures PageOk(t0, t2, r, layer, elements, first, n * Pmm.Size(layer) + Pmm.Size(layer), user, w)
  {
    hide Translate, MappedFrame, Offset, Span, Slot, PageNo;
    var S, k := Pmm.Size(layer), PageNo(first, w);
    var ws, p := Offset(5, first + n * S), elements[n].backing.value;
    PiecePlace(layer, first, n);
    if ws <= w < ws + S {
      PieceLinear(layer, ws, p, w);
      PieceOf(layer, n, k);
    } else if k < n * S {
      KeptHit(Translate(t1, r, 4, w), Translate(t2, r, 4, w), PageFrame(layer, elements, k) % FRAME_NUMBERS, user);
    } else {
      KeptTransitive(Translate(t0, r, 4, w), Translate(t1, r, 4, w), Translate(t2, r, 4, w), user);
    }
  }

  lemma StartAligned(layer: nat, first: nat, n: nat)
    requires layer < Pmm.LAYERS && first % Pmm.Size(layer) == 0
    ensures (first + n * Pmm.Size(layer)) % Pmm.Size(layer) == 0
  {
    var S := Pmm.Size(layer);
    var q := first / S;
    assert first + n * S == (q + n) * S + 0;
    Remainder(first + n * S, S, q + n, 0);
  }

  // ---------------------------------------------------------------------------------------
  // What mapping leaves alone

  /** The same translations in the lower half. */
  ghost predicate SameLower(t0: Tables, t1: Tables, r: nat) {
    forall w: nat {:trigger Translate(t1, r, 4, w)} :: w < LOWER_PAGES ==> Translate(t1, r, 4, w) == Translate(t0, r, 4, w)
  }

  /** What was mapped still shows the same. */
  ghost predicate Lasts(t0: Tables, t1: Tables, r: nat) {
    forall w: nat {:trigger Translate(t1, r, 4, w)} :: w < Span(5) && Translate(t0, r, 4, w).Some? ==>
      if w < LOWER_PAGES then Kept(Translate(t0, r, 4, w), Translate(t1, r, 4, w), true)
      else SameFrame(Translate(t0, r, 4, w), Translate(t1, r, 4, w))
  }

  /** Every address space is still there and shows what it did, and the lower half of each but `r` is
      as it was. */
  ghost predicate Elsewhere(t0: Tables, t1: Tables, places0: Places, places1: Places, r: nat) {
    forall other :: IsRoot(places0, other) ==>
      IsRoot(places1, other) && Lasts(t0, t1, other) && (other != r ==> SameLower(t0, t1, other))
  }

  /** Pages that were mapped still show the same, to the last bit that a mapping can keep. */
  ghost predicate Steady(t0: Tables, t1: Tables, r: nat) {
    forall w: nat {:trigger Translate(t1, r, 4, w)} :: w < Span(5) && Translate(t0, r, 4, w).Some? ==>
      Kept(Translate(t0, r, 4, w), Translate(t1, r, 4, w), true)
  }

  lemma NothingElsewhere(t: Tables, places: Places, r: nat)
    ensures Elsewhere(t, t, places, places, r) && Steady(t, t, r)
  {
  }

  lemma MappedElsewhere(t0: Tables, t1: Tables, places0: Places, places1: Places, r: nat, ws: nat, we: nat, p: nat, user: bool)
    requires Linked(t0, places0) && Linked(t1, places1) && IsRoot(places0, r)
    requires Mapped(t0, t1, places0, places1, r, 4, ws, we, p, user, 1)
    ensures Elsewhere(t0, t1, places0, places1, r) && Steady(t0, t1, r)
  {
    MapIsFlat(t0, t1, places0, places1, r, ws, we, p, user, 1);
    LowerRange(0, 0);
    assert forall other :: IsRoot(places0, other) ==> IsRoot(places1, other);
    hide Mapped, Linked, IsRoot, Translate, Accessible, Span, UpperPage;
    assert Steady(t0, t1, r);
    forall other, w: nat | IsRoot(places0, other) && other != r && w < LOWER_PAGES
      ensures Translate(t1, other, 4, w) == Translate(t0, other, 4, w)
    {
      LowerPage(w);
    }
    forall other, w: nat | IsRoot(places0, other) && LOWER_PAGES <= w < Span(5) && Translate(t0, other, 4, w).Some?
      ensures SameFrame(Translate(t0, other, 4, w), Translate(t1, other, 4, w))
    {
      LowerPage(w);
      UpperShared(t0, places0, other, r, w);
      assert Kept(Translate(t0, r, 4, w), Translate(t1, r, 4, w), true);
      UpperShared(t1, places1, other, r, w);
    }
  }

  lemma ElsewhereTransitive(t0: Tables, t1: Tables, t2: Tables, places0: Places, places1: Places, places2: Places, r: nat)
    requires Elsewhere(t0, t1, places0, places1, r) && Elsewhere(t1, t2, places1, places2, r)
    ensures Elsewhere(t0, t2, places0, places2, r)
  {
    hide IsRoot, SameLower, Lasts;
    forall other | IsRoot(places0, other)
      ensures Lasts(t0, t2, other) && (other != r ==> SameLower(t0, t2, other))
    {
      LastsTransitive(t0, t1, t2, other);
      if other != r {
        SameLowerTransitive(t0, t1, t2, other);
      }
    }
  }

  lemma SameLowerTransitive(t0: Tables, t1: Tables, t2: Tables, r: nat)
    requires SameLower(t0, t1, r) && SameLower(t1, t2, r)
    ensures SameLower(t0, t2, r)
  {
    forall w: nat | w < LOWER_PAGES
      ensures Translate(t2, r, 4, w) == Translate(t0, r, 4, w)
    {
      assert Translate(t1, r, 4, w) == Translate(t0, r, 4, w);
    }
  }

  lemma LastsTransitive(t0: Tables, t1: Tables, t2: Tables, r: nat)
    requires Lasts(t0, t1, r) && Lasts(t1, t2, r)
    ensures Lasts(t0, t2, r)
  {
    hide Translate, Span;
    forall w: nat | w < Span(5) && Translate(t0, r, 4, w).Some?
      ensures if w < LOWER_PAGES then Kept(Translate(t0, r, 4, w), Translate(t2, r, 4, w), true)
              else SameFrame(Translate(t0, r, 4, w), Translate(t2, r, 4, w))
    {
      assert Translate(t1, r, 4, w).Some?;
    }
  }

  lemma ObjectSteady(t0: Tables, t1: Tables, r: nat, layer: nat, elements: seq<Element>, first: nat, pages: nat, user: bool)
    requires layer < Pmm.LAYERS && MapsObject(t0, t1, r, layer, elements, first, pages, user)
    ensures Steady(t0, t1, r)
  {
    hide Translate, Span, PageNo;
    forall w: nat | w < Span(5) && Translate(t0, r, 4, w).Some?
      ensures Kept(Translate(t0, r, 4, w), Translate(t1, r, 4, w), true)
    {
      assert PageOk(t0, t1, r, layer, elements, first, pages, user, w);
    }
  }

  /** Page `w` shows the object, to user code if asked for. In the half that all address spaces share,
      an address space that others map in shows the frame, and the last user bit. */
  ghost predicate OnPage(t: Tables, r: nat, layer: nat, elements: seq<Element>, first: nat, w: nat, user: bool)
    requires layer < Pmm.LAYERS && w < Span(5)
  {
    var k, o := PageNo(first, w), Translate(t, r, 4, w);
    && k / Pmm.Size(layer) < |elements| && elements[k / Pmm.Size(layer)].backing.Some?
    && o.Some? && o.value.frame == PageFrame(layer, elements, k) % FRAME_NUMBERS && o.value.user == user
    && (w < LOWER_PAGES ==> Shows(t, r, layer, elements, first, w, user))
  }

  /** All pages of an object are on display from page `first` on. */
  ghost predicate Displays(t: Tables, r: nat, layer: nat, elements: seq<Element>, first: nat, user: bool)
    requires layer < Pmm.LAYERS
  {
    && |elements| * Pmm.Size(layer) <= Span(5)
    && forall w: nat {:trigger OnPage(t, r, layer, elements, first, w, user)} ::
         w < Span(5) && PageNo(first, w) < |elements| * Pmm.Size(layer) ==> OnPage(t, r, layer, elements, first, w, user)
  }

  lemma NowDisplays(t0: Tables, t1: Tables, r: nat, layer: nat, elements: seq<Element>, first: nat, user: bool)
    requires layer < Pmm.LAYERS && MapsObject(t0, t1, r, layer, elements, first, |elements| * Pmm.Size(layer), user)
    ensures Displays(t1, r, layer, elements, first, user)
  {
    hide Translate, Span, PageNo;
    forall w: nat | w < Span(5) && PageNo(first, w) < |elements| * Pmm.Size(layer)
      ensures OnPage(t1, r, layer, elements, first, w, user)
    {
      assert PageOk(t0, t1, r, layer, elements, first, |elements| * Pmm.Size(layer), user, w);
    }
  }

  /** What is on display stays on display. */
  lemma StillDisplays(t0: Tables, t1: Tables, r: nat, layer: nat, elements: seq<Element>, first: nat, user: bool)
    requires layer < Pmm.LAYERS && Displays(t0, r, layer, elements, first, user) && Lasts(t0, t1, r)
    ensures Displays(t1, r, layer, elements, first, user)
  {
    hide Translate, PageFrame, Span, PageNo;
    forall w: nat | w < Span(5) && PageNo(first, w) < |elements| * Pmm.Size(layer)
      ensures OnPage(t1, r, layer, elements, first, w, user)
    {
      assert OnPage(t0, r, layer, elements, first, w, user);
      assert Translate(t1, r, 4, w) == Translate(t1, r, 4, w);
    }
  }

  // ---------------------------------------------------------------------------------------
  // Frames of different objects

  lemma FrameHolds(layer: nat, elements: seq<Element>, k: nat)
    requires layer < Pmm.LAYERS && k / Pmm.Size(layer) < |elements| && elements[k / Pmm.Size(layer)].backing.Some?
    ensures var f := Pmm.Frame(layer, elements[k / Pmm.Size(layer)].backing.value);
            f in Backing(layer, elements) && Pmm.Holds(f, PageFrame(layer, elements, k))
  {
    assert elements[k / Pmm.Size(layer)] in elements;
  }

  /** Objects that hold different frames never share a physical page. */
  lemma NeverShared(free: Pmm.Stacks, held: set<Pmm.Frame>, la: nat, a: seq<Element>, lb: nat, b: seq<Element>, i: nat, j: nat)
    requires Pmm.Separated(free, held) && Backing(la, a) <= held && Backing(lb, b) <= held && Backing(la, a) !! Backing(lb, b)
    requires la < Pmm.LAYERS && i / Pmm.Size(la) < |a| && a[i / Pmm.Size(la)].backing.Some?
    requires lb < Pmm.LAYERS && j / Pmm.Size(lb) < |b| && b[j / Pmm.Size(lb)].backing.Some?
    ensures PageFrame(la, a, i) != PageFrame(lb, b, j)
  {
    FrameHolds(la, a, i);
    FrameHolds(lb, b, j);
    var f := Pmm.Frame(la, a[i / Pmm.Size(la)].backing.value);
    var g := Pmm.Frame(lb, b[j / Pmm.Size(lb)].backing.value);
    assert Pmm.Known(free, held, f) && Pmm.Known(free, held, g);
    assert Pmm.Apart(f, g);
  }

  /** Nor do two pages of one object. */
  lemma NeverFolded(free: Pmm.Stacks, held: set<Pmm.Frame>, layer: nat, a: seq<Element>, i: nat, j: nat)
    requires Pmm.Separated(free, held) && Backing(layer, a) <= held && Unshared(a, |a|) && layer < Pmm.LAYERS && i != j
    requires i / Pmm.Size(layer) < |a| && a[i / Pmm.Size(layer)].backing.Some?
    requires j / Pmm.Size(layer) < |a| && a[j / Pmm.Size(layer)].backing.Some?
    ensures PageFrame(layer, a, i) != PageFrame(layer, a, j)
  {
    var x, y := i / Pmm.Size(layer), j / Pmm.Size(layer);
    if x != y {
      FrameHolds(layer, a, i);
      FrameHolds(layer, a, j);
      var f, g := Pmm.Frame(layer, a[x].backing.value), Pmm.Frame(layer, a[y].backing.value);
      assert a[x].backing != a[y].backing;
      assert Pmm.Known(free, held, f) && Pmm.Known(free, held, g);
      assert Pmm.Apart(f, g);
    } else {
      assert i == x * Pmm.Size(layer) + i % Pmm.Size(layer) && j == y * Pmm.Size(layer) + j % Pmm.Size(layer);
    }
  }

  /** The pages of all address spaces that show different pages of committed objects translate to
      different frames. */
  lemma NeverOverlaps(t: Tables, free: Pmm.Stacks, held: set<Pmm.Frame>,
                      r1: nat, la: nat, a: seq<Element>, first1: nat, w1: nat, user1: bool,
                      r2: nat, lb: nat, b: seq<Element>, first2: nat, w2: nat, user2: bool)
    requires Pmm.Separated(free, held) && la < Pmm.LAYERS && lb < Pmm.LAYERS && w1 < Span(5) && w2 < Span(5)
    requires Within(la, a, held) && Within(lb, b, held)
    requires Backing(la, a) !! Backing(lb, b) || (la == lb && a == b && PageNo(first1, w1) != PageNo(first2, w2))
    requires OnPage(t, r1, la, a, first1, w1, user1) && OnPage(t, r2, lb, b, first2, w2, user2)
    ensures Translate(t, r1, 4, w1).value.frame != Translate(t, r2, 4, w2).value.frame
  {
    hide Translate, PageFrame, Pmm.Separated, Span, PageNo;
    var k1, k2 := PageNo(first1, w1), PageNo(first2, w2);
    InMemory(la, a, held, k1);
    InMemory(lb, b, held, k2);
    if Backing(la, a) !! Backing(lb, b) {
      NeverShared(free, held, la, a, lb, b, k1, k2);
    } else {
      NeverFolded(free, held, la, a, k1, k2);
    }
  }

  /** The object's frames are its own, held, and within physical memory. */
  ghost predicate Within(layer: nat, elements: seq<Element>, held: set<Pmm.Frame>) {
    && Backing(layer, elements) <= held && Unshared(elements, |elements|)
    && forall e :: e in elements && e.backing.Some? ==> e.backing.value + Pmm.Size(layer) <= FRAME_NUMBERS
  }

  lemma InMemory(layer: nat, elements: seq<Element>, held: set<Pmm.Frame>, k: nat)
    requires Within(layer, elements, held) && layer < Pmm.LAYERS
    requires k / Pmm.Size(layer) < |elements| && elements[k / Pmm.Size(layer)].backing.Some?
    ensures PageFrame(layer, elements, k) % FRAME_NUMBERS == PageFrame(layer, elements, k)
  {
    assert elements[k / Pmm.Size(layer)] in elements;
  }

  /** Frames that anyone holds are not page tables taken since. */
  lemma TablesApart(free: Pmm.Stacks, held: set<Pmm.Frame>, f: nat)
    requires Pmm.Separated(free, held) && Pmm.FreePage(free, f)
    ensures !Pmm.HeldPage(held, f)
  {
    var g :| Pmm.Free(free, g) && Pmm.Holds(g, f);
    assert Pmm.Known(free, held, g);
    assert forall h :: h in held ==> Pmm.Known(free, held, h) && h != g && Pmm.Apart(g, h);
  }
}
