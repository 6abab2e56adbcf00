/** The 64-bit finaliser behind the rendezvous scores (shared/shard/shard.go): two multiplications by odd
    constants between three xor-shifts, each with its inverse. */
module Mix {

  function Fold30(x: bv64): bv64 { x ^ (x >> 30) }
  function Unfold30(y: bv64): bv64 { y ^ (y >> 30) ^ (y >> 60) }

  function Fold27(x: bv64): bv64 { x ^ (x >> 27) }
  function Unfold27(y: bv64): bv64 { y ^ (y >> 27) ^ (y >> 54) }

  function Fold31(x: bv64): bv64 { x ^ (x >> 31) }
  function Unfold31(y: bv64): bv64 { y ^ (y >> 31) ^ (y >> 62) }

  function Times1(x: bv64): bv64 { x * 0xbf58476d1ce4e5b9 }
  function Over1(y: bv64): bv64 { y * 0x96de1b173f119089 }

  function Times2(x: bv64): bv64 { x * 0x94d049bb133111eb }
  function Over2(y: bv64): bv64 { y * 0x319642b2d24d8ec3 }

  function Mixed(x: bv64): bv64
  {
    Fold31(Times2(Fold27(Times1(Fold30(x)))))
  }

  function Unmixed(y: bv64): bv64
  {
    Unfold30(Over1(Unfold27(Over2(Unfold31(y)))))
  }

  // Each pair of step and inverse: first on the operand spelled out, so that the words cancel, then as functions.

  lemma Unfold30OfFold30(x: bv64)
    ensures Unfold30(x ^ (x >> 30)) == x
  {
  }

  lemma Unfold30Undoes(x: bv64)
    ensures Unfold30(Fold30(x)) == x
  {
    hide Unfold30;
    Unfold30OfFold30(x);
  }

  lemma Fold30OfUnfold30(x: bv64)
    ensures Fold30(x ^ (x >> 30) ^ (x >> 60)) == x
  {
  }

  lemma Fold30Undoes(x: bv64)
    ensures Fold30(Unfold30(x)) == x
  {
    hide Fold30;
    Fold30OfUnfold30(x);
  }

  lemma Unfold27OfFold27(x: bv64)
    ensures Unfold27(x ^ (x >> 27)) == x
  {
  }

  lemma Unfold27Undoes(x: bv64)
    ensures Unfold27(Fold27(x)) == x
  {
    hide Unfold27;
    Unfold27OfFold27(x);
  }

  lemma Fold27OfUnfold27(x: bv64)
    ensures Fold27(x ^ (x >> 27) ^ (x >> 54)) == x
  {
  }

  lemma Fold27Undoes(x: bv64)
    ensures Fold27(Unfold27(x)) == x
  {
    hide Fold27;
    Fold27OfUnfold27(x);
  }

  lemma Unfold31OfFold31(x: bv64)
    ensures Unfold31(x ^ (x >> 31)) == x
  {
  }

  lemma Unfold31Undoes(x: bv64)
    ensures Unfold31(Fold31(x)) == x
  {
    hide Unfold31;
    Unfold31OfFold31(x);
  }

  lemma Fold31OfUnfold31(x: bv64)
    ensures Fold31(x ^ (x >> 31) ^ (x >> 62)) == x
  {
  }

  lemma Fold31Undoes(x: bv64)
    ensures Fold31(Unfold31(x)) == x
  {
    hide Fold31;
    Fold31OfUnfold31(x);
  }

  lemma Over1OfTimes1(x: bv64)
    ensures Over1(x * 0xbf58476d1ce4e5b9) == x
  {
  }

  lemma Over1Undoes(x: bv64)
    ensures Over1(Times1(x)) == x
  {
    hide Over1;
    Over1OfTimes1(x);
  }

  lemma Times1OfOver1(x: bv64)
    ensures Times1(x * 0x96de1b173f119089) == x
  {
  }

  lemma Times1Undoes(x: bv64)
    ensures Times1(Over1(x)) == x
  {
    hide Times1;
    Times1OfOver1(x);
  }

  lemma Over2OfTimes2(x: bv64)
    ensures Over2(x * 0x94d049bb133111eb) == x
  {
  }

  lemma Over2Undoes(x: bv64)
    ensures Over2(Times2(x)) == x
  {
    hide Over2;
    Over2OfTimes2(x);
  }

  lemma Times2OfOver2(x: bv64)
    ensures Times2(x * 0x319642b2d24d8ec3) == x
  {
  }

  lemma Times2Undoes(x: bv64)
    ensures Times2(Over2(x)) == x
  {
    hide Times2;
    Times2OfOver2(x);
  }

  /** Mixing loses nothing: Unmixed is its inverse on both sides. */
  lemma MixIsBijective(x: bv64)
    ensures Unmixed(Mixed(x)) == x
    ensures Mixed(Unmixed(x)) == x
  {
    hide Fold30, Unfold30, Fold27, Unfold27, Fold31, Unfold31, Times1, Over1, Times2, Over2;
    Unfold30Undoes(x);
    Over1Undoes(Fold30(x));
    Unfold27Undoes(Times1(Fold30(x)));
    Over2Undoes(Fold27(Times1(Fold30(x))));
    Unfold31Undoes(Times2(Fold27(Times1(Fold30(x)))));

    Fold31Undoes(x);
    Times2Undoes(Unfold31(x));
    Fold27Undoes(Over2(Unfold31(x)));
    Times1Undoes(Unfold27(Over2(Unfold31(x))));
    Fold30Undoes(Over1(Unfold27(Over2(Unfold31(x)))));
  }

  /** Two values of the mixer, which fix its shifts and constants. */
  lemma MixOfKnownWords()
    ensures Mixed(1) == 0x5692161d100b05e5 && Mixed(0x0123456789abcdef) == 0xb2c058e4ebb5112c
  {
  }

  lemma MixIsInjective(x: bv64, y: bv64)
    requires Mixed(x) == Mixed(y)
    ensures x == y
  {
    hide Mixed, Unmixed;
    MixIsBijective(x);
    MixIsBijective(y);
  }
}
