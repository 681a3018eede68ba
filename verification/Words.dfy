/** Single bits of 64-bit machine words. */
module Words {

  predicate OneBit(m: bv64) { m != 0 && m & (m - 1) == 0 }

  /** The word has a bit of the mask. */
  predicate Meets(v: bv64, m: bv64) { v & m != 0 }

  lemma OrMeets(a: bv64, b: bv64, m: bv64)
    ensures (a | b) & m != 0 <==> a & m != 0 || b & m != 0
  {
    hide *;
  }

  lemma BitOfOr(a: bv64, b: bv64, m: bv64)
    ensures Meets(a | b, m) <==> Meets(a, m) || Meets(b, m)
  {
    OrMeets(a, b, m);
  }

  lemma NotMeets(v: bv64, m: bv64)
    requires m != 0 && m & (m - 1) == 0
    ensures !v & m != 0 <==> v & m == 0
  {
    hide *;
  }

  lemma BitOfNot(v: bv64, m: bv64)
    requires OneBit(m)
    ensures Meets(!v, m) <==> !Meets(v, m)
  {
    NotMeets(v, m);
  }
}
