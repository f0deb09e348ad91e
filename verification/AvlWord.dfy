/** The word of a tree element that holds its parent's address and its balance factor. */
module AvlWord {

  /** The parent: the address without its lowest three bits. */
  function Parent(word: bv64): bv64 {
    word & !7
  }

  /** The lowest three bits, as a number from -4 to 3. */
  function Factor(word: bv64): int {
    if word & 4 != 0 then Low(word) - 8 else Low(word)
  }

  function Low(word: bv64): nat {
    if word & 7 == 0 then 0 else if word & 7 == 1 then 1 else if word & 7 == 2 then 2 else if word & 7 == 3 then 3
    else if word & 7 == 4 then 4 else if word & 7 == 5 then 5 else if word & 7 == 6 then 6 else 7
  }

  /** The lowest three bits of a number in two's complement. */
  function Bits(factor: int): (b: bv64)
    ensures b & !7 == 0
  {
    var r := factor % 8;
    if r == 0 then 0 else if r == 1 then 1 else if r == 2 then 2 else if r == 3 then 3
    else if r == 4 then 4 else if r == 5 then 5 else if r == 6 then 6 else 7
  }

  function SetFactor(word: bv64, factor: int): bv64 {
    Parent(word) | Bits(factor)
  }

  function SetParent(word: bv64, parent: bv64): bv64 {
    SetFactor(parent, Factor(word))
  }

  /** Setting the balance factor leaves the parent alone, and gives back every factor that rebalancing
      can store. */
  lemma FactorRoundTrip(word: bv64, factor: int)
    ensures Parent(SetFactor(word, factor)) == Parent(word)
    ensures Factor(SetFactor(word, factor)) == factor <==> -4 <= factor <= 3
  {
    hide Factor, Bits, SetFactor, Parent;
    SetParts(word, factor);
    FactorOfBits(factor);
  }

  lemma SetParts(word: bv64, factor: int)
    ensures Parent(SetFactor(word, factor)) == Parent(word)
    ensures Factor(SetFactor(word, factor)) == Factor(Bits(factor))
  {
    hide Factor, Bits;
    JoinParts(word, Bits(factor));
    SameFactor(SetFactor(word, factor), Bits(factor));
  }

  lemma JoinParts(word: bv64, b: bv64)
    requires b & !7 == 0
    ensures Parent(Parent(word) | b) == Parent(word)
    ensures (Parent(word) | b) & 7 == b & 7 && (Parent(word) | b) & 4 == b & 4
  {
  }

  lemma SameFactor(word: bv64, b: bv64)
    requires word & 7 == b & 7 && word & 4 == b & 4
    ensures Factor(word) == Factor(b)
  {
  }

  lemma FactorOfBits(factor: int)
    ensures Factor(Bits(factor)) == factor <==> -4 <= factor <= 3
  {
  }

  /** Setting the parent leaves the balance factor alone, and gives back every aligned address. */
  lemma ParentRoundTrip(word: bv64, parent: bv64)
    ensures Factor(SetParent(word, parent)) == Factor(word)
    ensures Parent(SetParent(word, parent)) == parent <==> parent & 7 == 0
  {
    FactorRange(word);
    FactorRoundTrip(parent, Factor(word));
  }

  lemma FactorRange(word: bv64)
    ensures -4 <= Factor(word) <= 3
  {
  }
}
