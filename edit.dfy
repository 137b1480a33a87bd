/** The integer editor's arithmetic: the bounds are stored scaled (scale 1 for `int3`) and
    every poll clamps the encoder position into them, lower bound first. */
module IntEdit {
  import opened Ints

  /** The two clamps of one editor poll: a position below the minimum becomes the minimum,
      then a position above the maximum becomes the maximum. With ordered bounds the result
      lies between them, a position already between them is kept, and one outside lands on
      the nearer bound; with crossed bounds (a minimum above the maximum) every position ends
      on the maximum. */
  function EditClamp(p: int16, lo: int16, hi: int16): (r: int16)
    ensures lo <= hi ==> lo <= r <= hi
    ensures lo <= p <= hi ==> r == p
    ensures lo <= hi && p < lo ==> r == lo
    ensures p > hi || lo > hi ==> r == hi
  {
    var q := if p < lo then lo else p;
    if q > hi then hi else q
  }

  /** Clamping twice is clamping once, so polls without input leave the position alone. */
  lemma EditClampIdempotent(p: int16, lo: int16, hi: int16)
    ensures EditClamp(EditClamp(p, lo, hi), lo, hi) == EditClamp(p, lo, hi)
  {
  }

  /** The clamp is monotone: turning the knob further never moves the value back. */
  lemma EditClampMonotone(p: int16, p': int16, lo: int16, hi: int16)
    requires p <= p'
    ensures EditClamp(p, lo, hi) <= EditClamp(p', lo, hi)
  {
  }
}
