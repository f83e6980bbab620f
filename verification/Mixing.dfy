/** `mix64` (src/coordinator.cpp) is a permutation of 64-bit words: it never merges two inputs. */
module Mixing {

  function Fold30(x: bv64): bv64 { x ^ (x >> 30) }
  function Fold27(x: bv64): bv64 { x ^ (x >> 27) }
  function Fold31(x: bv64): bv64 { x ^ (x >> 31) }
  function Scale1(x: bv64): bv64 { x * 0xBF58476D1CE4E5B9 }
  function Scale2(x: bv64): bv64 { x * 0x94D049BB133111EB }

  function Mix64(value: bv64): bv64 { Fold31(Scale2(Fold27(Scale1(Fold30(value))))) }

  function Unfold30(y: bv64): bv64 { y ^ (y >> 30) ^ (y >> 60) }
  function Unfold27(y: bv64): bv64 { y ^ (y >> 27) ^ (y >> 54) }
  function Unfold31(y: bv64): bv64 { y ^ (y >> 31) ^ (y >> 62) }
  function Unscale1(y: bv64): bv64 { y * 0x96DE1B173F119089 }
  function Unscale2(y: bv64): bv64 { y * 0x319642B2D24D8EC3 }

  function Unmix64(value: bv64): bv64 { Unfold30(Unscale1(Unfold27(Unscale2(Unfold31(value))))) }

  lemma Undo30(x: bv64)
    ensures Unfold30(Fold30(x)) == x
  {
    calc {
      Unfold30(Fold30(x));
      Unfold30(x ^ (x >> 30));
      (x ^ (x >> 30)) ^ ((x ^ (x >> 30)) >> 30) ^ ((x ^ (x >> 30)) >> 60);
      x;
    }
  }

  lemma Redo30(y: bv64)
    ensures Fold30(Unfold30(y)) == y
  {
    calc {
      Fold30(Unfold30(y));
      Fold30(y ^ (y >> 30) ^ (y >> 60));
      (y ^ (y >> 30) ^ (y >> 60)) ^ ((y ^ (y >> 30) ^ (y >> 60)) >> 30);
      y;
    }
  }

  lemma Undo27(x: bv64)
    ensures Unfold27(Fold27(x)) == x
  {
    calc {
      Unfold27(Fold27(x));
      Unfold27(x ^ (x >> 27));
      (x ^ (x >> 27)) ^ ((x ^ (x >> 27)) >> 27) ^ ((x ^ (x >> 27)) >> 54);
      x;
    }
  }

  lemma Redo27(y: bv64)
    ensures Fold27(Unfold27(y)) == y
  {
    calc {
      Fold27(Unfold27(y));
      Fold27(y ^ (y >> 27) ^ (y >> 54));
      (y ^ (y >> 27) ^ (y >> 54)) ^ ((y ^ (y >> 27) ^ (y >> 54)) >> 27);
      y;
    }
  }

  lemma Undo31(x: bv64)
    ensures Unfold31(Fold31(x)) == x
  {
    calc {
      Unfold31(Fold31(x));
      Unfold31(x ^ (x >> 31));
      (x ^ (x >> 31)) ^ ((x ^ (x >> 31)) >> 31) ^ ((x ^ (x >> 31)) >> 62);
      x;
    }
  }

  lemma Redo31(y: bv64)
    ensures Fold31(Unfold31(y)) == y
  {
    calc {
      Fold31(Unfold31(y));
      Fold31(y ^ (y >> 31) ^ (y >> 62));
      (y ^ (y >> 31) ^ (y >> 62)) ^ ((y ^ (y >> 31) ^ (y >> 62)) >> 31);
      y;
    }
  }

  lemma Undo1(x: bv64)
    ensures Unscale1(Scale1(x)) == x
  {
    calc {
      Unscale1(Scale1(x));
      Unscale1(x * 0xBF58476D1CE4E5B9);
      (x * 0xBF58476D1CE4E5B9) * 0x96DE1B173F119089;
      x;
    }
  }

  lemma Redo1(y: bv64)
    ensures Scale1(Unscale1(y)) == y
  {
    calc {
      Scale1(Unscale1(y));
      Scale1(y * 0x96DE1B173F119089);
      (y * 0x96DE1B173F119089) * 0xBF58476D1CE4E5B9;
      y;
    }
  }

  lemma Undo2(x: bv64)
    ensures Unscale2(Scale2(x)) == x
  {
    calc {
      Unscale2(Scale2(x));
      Unscale2(x * 0x94D049BB133111EB);
      (x * 0x94D049BB133111EB) * 0x319642B2D24D8EC3;
      x;
    }
  }

  lemma Redo2(y: bv64)
    ensures Scale2(Unscale2(y)) == y
  {
    calc {
      Scale2(Unscale2(y));
      Scale2(y * 0x319642B2D24D8EC3);
      (y * 0x319642B2D24D8EC3) * 0x94D049BB133111EB;
      y;
    }
  }

  lemma MixIsPermutation(x: bv64)
    ensures Unmix64(Mix64(x)) == x && Mix64(Unmix64(x)) == x
  {
    UnmixMix(x);
    MixUnmix(x);
  }

  lemma UnmixMix(x: bv64)
    ensures Unmix64(Mix64(x)) == x
  {
    calc {
      Unmix64(Mix64(x));
    == { Undo31(Scale2(Fold27(Scale1(Fold30(x))))); }
      Unfold30(Unscale1(Unfold27(Unscale2(Scale2(Fold27(Scale1(Fold30(x))))))));
    == { Undo2(Fold27(Scale1(Fold30(x)))); }
      Unfold30(Unscale1(Unfold27(Fold27(Scale1(Fold30(x))))));
    == { Undo27(Scale1(Fold30(x))); }
      Unfold30(Unscale1(Scale1(Fold30(x))));
    == { Undo1(Fold30(x)); }
      Unfold30(Fold30(x));
    == { Undo30(x); }
      x;
    }
  }

  lemma MixUnmix(y: bv64)
    ensures Mix64(Unmix64(y)) == y
  {
    calc {
      Mix64(Unmix64(y));
    == { Redo30(Unscale1(Unfold27(Unscale2(Unfold31(y))))); }
      Fold31(Scale2(Fold27(Scale1(Unscale1(Unfold27(Unscale2(Unfold31(y))))))));
    == { Redo1(Unfold27(Unscale2(Unfold31(y)))); }
      Fold31(Scale2(Fold27(Unfold27(Unscale2(Unfold31(y))))));
    == { Redo27(Unscale2(Unfold31(y))); }
      Fold31(Scale2(Unscale2(Unfold31(y))));
    == { Redo2(Unfold31(y)); }
      Fold31(Unfold31(y));
    == { Redo31(y); }
      y;
    }
  }

  /** So equal outputs come from equal inputs. */
  lemma MixInjective(x: bv64, y: bv64)
    requires Mix64(x) == Mix64(y)
    ensures x == y
  {
    UnmixMix(x);
    UnmixMix(y);
  }
}
