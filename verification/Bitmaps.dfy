/** The bitmap the folder inventory keeps in an array of 64-bit words. */
module Bitmaps {
  function Mask(bit: nat): bv64
    requires bit < 64
  {
    (1 as bv64) << (bit as bv6)
  }

  predicate HasBit(word: bv64, bit: nat)
    requires bit < 64
  {
    word & Mask(bit) != 0
  }

  function SetBit(word: bv64, bit: nat): bv64
    requires bit < 64
  {
    word | Mask(bit)
  }

  lemma SetBitSetsOne(word: bv64, bit: nat, other: nat)
    requires bit < 64 && other < 64
    ensures HasBit(SetBit(word, bit), other) <==> bit == other || HasBit(word, other)
  {
    if bit != other {
      OtherBitUntouched(word, bit, other);
    } else {
      BitIsSet(word, bit);
    }
  }

  lemma OtherBitUntouched(word: bv64, bit: nat, other: nat)
    requires bit < 64 && other < 64 && bit != other
    ensures (word | Mask(bit)) & Mask(other) == word & Mask(other)
  {
    MasksAreApart(bit, other);
    OrThenAnd(word, Mask(bit), Mask(other));
  }

  lemma MasksAreApart(bit: nat, other: nat)
    requires bit < 64 && other < 64 && bit != other
    ensures Mask(bit) & Mask(other) == 0
  {
    assert (bit as bv6) as nat == bit && (other as bv6) as nat == other;
    ShiftsAreApart(bit as bv6, other as bv6);
  }

  lemma ShiftsAreApart(bit: bv6, other: bv6)
    requires bit != other
    ensures ((1 as bv64) << bit) & ((1 as bv64) << other) == 0
  {
  }

  lemma OrThenAnd(word: bv64, a: bv64, b: bv64)
    requires a & b == 0
    ensures (word | a) & b == word & b
  {
  }

  lemma BitIsSet(word: bv64, bit: nat)
    requires bit < 64
    ensures (word | Mask(bit)) & Mask(bit) != 0
  {
  }

  class Bitmap {
    const size: nat
    const words: array<bv64>
    ghost var marked: set<nat>

    ghost predicate Valid()
      reads this, words
    {
      && words.Length == (size + 63) / 64
      && (forall i :: i in marked ==> i < size)
      && forall i :: 0 <= i < size ==> (HasBit(words[i / 64], i % 64) <==> i in marked)
    }

    constructor (size: nat)
      ensures Valid() && fresh(words) && marked == {} && this.size == size
    {
      this.size := size;
      words := new bv64[(size + 63) / 64](i => 0);
      marked := {};
    }

    method Has(index: nat) returns (present: bool)
      requires Valid() && index < size
      ensures present <==> index in marked
    {
      return HasBit(words[index / 64], index % 64);
    }

    method Mark(index: nat)
      requires Valid() && index < size
      modifies this, words
      ensures Valid() && marked == old(marked) + {index}
    {
      var word, bit := index / 64, index % 64;
      ghost var before := words[word];
      words[word] := SetBit(words[word], bit);
      marked := marked + {index};
      forall i | 0 <= i < size
        ensures HasBit(words[i / 64], i % 64) <==> i in marked
      {
        if i / 64 == word {
          SetBitSetsOne(before, bit, i % 64);
        }
      }
    }
  }
}
