/** What mapping does to translations: which frames pages get, and whose pages change. */
module Translation {
  import opened Basics
  import opened Levels
  import opened PageTables
  import opened PageMapping

  // ---------------------------------------------------------------------------------------
  // When a mapping is linear

  /** The highest level, up to `l`, at which the range from `ws` to `last` leaves a slot. */
  function TopCross(l: nat, ws: nat, last: nat): (h: nat)
    requires 1 <= l
    ensures 1 <= h <= l
  {
    if l == 1 || Slot(l, ws) != Slot(l, last) then l else TopCross(l - 1, ws, last)
  }

  lemma {:induction false} LinearIfCongruent(l: nat, ws: nat, p: nat, last: nat, w: nat)
    requires 1 <= l && ws <= w <= last
    requires var h := TopCross(l, ws, last); Offset(h, ws) == Offset(h, p)
    ensures MappedFrame(l, ws, p, w) == p + (w - ws)
  {
    SlotMonotone(l, ws, w);
    SlotMonotone(l, w, last);
    if Slot(l, w) == Slot(l, ws) && l > 1 {
      if Slot(l, ws) != Slot(l, last) {
        CongruentFrame(l - 1, ws, p, w);
      } else {
        LinearIfCongruent(l - 1, ws, p, last, w);
      }
    }
  }

  /** The last page misses its linear frame by the difference of the starts' offsets. */
  lemma {:induction false} LastFrame(l: nat, ws: nat, p: nat, last: nat)
    requires 1 <= l && ws <= last
    ensures var h := TopCross(l, ws, last);
            MappedFrame(l, ws, p, last) == p + (last - ws) + Offset(h, ws) - Offset(h, p)
  {
    if Slot(l, ws) == Slot(l, last) && l > 1 {
      LastFrame(l - 1, ws, p, last);
    }
  }

  lemma SpanBelowField(h: nat)
    requires 1 <= h <= 4
    ensures 2 * Span(h) <= FRAME_NUMBERS
  {
    SpanValues();
  }

  lemma WrapClose(x: nat, y: nat)
    requires x % FRAME_NUMBERS == y % FRAME_NUMBERS && x < y + FRAME_NUMBERS && y < x + FRAME_NUMBERS
    ensures x == y
  {
  }

  /** A mapping of `ws..we` gives page `ws + k` frame `p + k` for every `k` exactly if `ws` and
      `p` have the same offset at the highest level whose boundary the range crosses. */
  lemma LinearIff(ws: nat, we: nat, p: nat)
    requires ws < we
    ensures (forall w :: ws <= w < we ==>
               MappedFrame(4, ws, p, w) % FRAME_NUMBERS == (p + (w - ws)) % FRAME_NUMBERS)
       <==> var h := TopCross(4, ws, we - 1); Offset(h, ws) == Offset(h, p)
  {
    var h := TopCross(4, ws, we - 1);
    var last := we - 1;
    if Offset(h, ws) == Offset(h, p) {
      forall w | ws <= w < we
        ensures MappedFrame(4, ws, p, w) == p + (w - ws)
      {
        LinearIfCongruent(4, ws, p, last, w);
      }
    } else {
      LastFrame(4, ws, p, last);
      SpanBelowField(h);
      var x, y := MappedFrame(4, ws, p, last), p + (last - ws);
      assert x != y;
      if x % FRAME_NUMBERS == y % FRAME_NUMBERS {
        WrapClose(x, y);
      }
    }
  }

  /** Two pages across a 2 MiB boundary, from frame 0: the second gets frame 512, not 1. */
  lemma NotAlwaysLinear()
    ensures MappedFrame(4, 511, 0, 512) == 512
  {
    assert Slot(2, 511) == 0 && Slot(2, 512) == 1;
    assert Slot(3, 511) == 0 && Slot(3, 512) == 0;
    assert Slot(4, 511) == 0 && Slot(4, 512) == 0;
    assert Offset(2, 511) == 511 && Offset(2, 0) == 0;
    assert MappedFrame(2, 511, 0, 512) == 512;
    assert MappedFrame(3, 511, 0, 512) == 512;
  }

  // ---------------------------------------------------------------------------------------
  // Address spaces

  predicate IsRoot(places: Places, r: nat) {
    r in places && places[r].level == 4
  }

  predicate UpperPage(w: nat) {
    Slot(4, w) >= FANOUT / 2
  }

  /** The same frame with the same last user bit, or neither is mapped. */
  predicate SameFrame(a: Option<Leaf>, b: Option<Leaf>) {
    (a.Some? <==> b.Some?) && (a.Some? ==> a.value.frame == b.value.frame && a.value.user == b.value.user)
  }

  /** All address spaces translate the upper half to the same frames. */
  lemma UpperShared(t: Tables, places: Places, r1: nat, r2: nat, w: nat)
    requires Linked(t, places) && IsRoot(places, r1) && IsRoot(places, r2) && w < Span(5) && UpperPage(w)
    ensures SameFrame(Translate(t, r1, 4, w), Translate(t, r2, 4, w))
  {
    var i := Index(4, w);
    OneTop(w);
    assert PlaceOk(r1, places[r1]) && PlaceOk(r2, places[r2]);
    assert EntryLinked(t, places, r1, i) && EntryLinked(t, places, r2, i);
    assert i >= FANOUT / 2;
    assert forall h :: Below(places, r1, i, h) <==> Below(places, r2, i, h);
  }

  /** An update through one address space leaves the lower halves of all others alone. */
  lemma LowerIndependent(t0: Tables, t1: Tables, places0: Places, places1: Places,
                         r: nat, ws: nat, we: nat, other: nat, w: nat)
    requires Linked(t0, places0) && Linked(t1, places1) && IsRoot(places0, other) && other != r
    requires Frames(t0, t1, places0, places1, 4, Private(r), ws, we) && w < Span(5) && !UpperPage(w)
    ensures Translate(t1, other, 4, w) == Translate(t0, other, 4, w)
  {
    OneTop(w);
    assert PlaceOk(other, places0[other]);
    WalkFrames(t0, t1, places0, places1, 4, Private(r), ws, we, other, 4, w);
  }

  /** User code can reach the page: the user bit is set on every entry of the walk. */
  predicate Accessible(o: Option<Leaf>) {
    o.Some? && o.value.user && o.value.pathUser
  }
}
