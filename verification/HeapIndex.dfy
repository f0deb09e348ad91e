/** The arithmetic that finds a slot of the heap from its number. */
module HeapIndex {
  import opened Basics
  import Levels

  /** The number of binary digits, as the hardware's count of leading zeroes gives it. */
  function Digits(n: nat): (r: nat)
    requires n >= 1
    ensures r >= 1 && Power(r - 1) <= n < Power(r)
  {
    if n == 1 then
      assert Power(1) == 2 * Power(0);
      1
    else
      var r := Digits(n / 2) + 1;
      assert Power(r) == 2 * Power(r - 1) && Power(r - 1) == 2 * Power(r - 2);
      r
  }

  lemma {:induction false} PowerSum(a: nat, b: nat)
    ensures Power(a + b) == Power(a) * Power(b)
  {
    if a > 0 {
      PowerSum(a - 1, b);
      Assoc(2, Power(a - 1), Power(b));
    }
  }

  lemma Assoc(a: int, b: int, c: int)
    ensures (a * b) * c == a * (b * c)
  {
  }

  /** Dividing a level in two, `n` times. */
  lemma PowerQuotient(a: nat, n: nat)
    requires n <= a
    ensures Power(a) / Power(n) == Power(a - n)
  {
    PowerSum(a - n, n);
    Levels.Remainder(Power(a), Power(n), Power(a - n), 0);
  }

  /** Slot `i` is on level `n`, and its subtree covers slot `nth` at the bottom level, `w` slots wide. */
  ghost predicate Covers(i: nat, nth: nat, w: nat) {
    i * w <= nth < i * w + w
  }

  lemma CoversChild(i: nat, nth: nat, w: nat)
    requires Covers(i, nth, 2 * w)
    ensures i * (2 * w) == (2 * i) * w && (2 * i + 1) * w == i * (2 * w) + w
    ensures nth < i * (2 * w) + w ==> Covers(2 * i, nth, w)
    ensures nth >= i * (2 * w) + w ==> Covers(2 * i + 1, nth, w)
  {
    assert i * (2 * w) == (2 * i) * w;
    assert (2 * i + 1) * w == (2 * i) * w + w;
  }

  lemma CoversBound(i: nat, nth: nat, w: nat)
    requires Covers(i, nth, w) && w >= 1
    ensures i <= nth && (w == 1 ==> i == nth)
  {
    assert i * w >= i * 1;
  }
}
