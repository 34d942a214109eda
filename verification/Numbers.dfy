/** Numbers shared by the other modules. */
module Numbers {

  const MAX_U64: nat := 0xFFFF_FFFF_FFFF_FFFF

  function Total(gains: seq<nat>): nat {
    if gains == [] then 0 else Total(gains[..|gains| - 1]) + gains[|gains| - 1]
  }

  lemma MultipleBound(d: int, m: int)
    requires m > 0
    ensures d >= 1 ==> d * m >= m
    ensures d <= -1 ==> d * m <= -m
  {
    if d >= 1 {
      assert (d - 1) * m >= 0;
    } else {
      assert (d + 1) * m == d * m + m;
    }
  }
}
