/** The colour band and percentage label of a catalogue-match confidence
    score, as both the pricing table's Match column and the catalogue search
    results show it. */
module Confidence {
  import opened Common

  datatype Band = Green | Yellow | Red

  /** Green from 0.8 up, yellow from 0.7 up, red below. */
  function BandOf(score: real): (b: Band)
    ensures b == Green <==> score >= 0.8
    ensures b == Yellow <==> 0.7 <= score < 0.8
    ensures b == Red <==> score < 0.7
  {
    if score >= 0.8 then Green else if score >= 0.7 then Yellow else Red
  }

  /** Bands ranked from best (0) to worst (2). */
  function Rank(b: Band): nat {
    match b
    case Green => 0
    case Yellow => 1
    case Red => 2
  }

  /** A higher score never lands in a worse band. */
  lemma BandMonotone(lo: real, hi: real)
    requires lo <= hi
    ensures Rank(BandOf(hi)) <= Rank(BandOf(lo))
  {
  }

  /** JavaScript rounding: the nearest integer, halves rounded up. */
  function Round(x: real): (n: int)
    ensures x - 0.5 < n as real <= x + 0.5
  {
    (x + 0.5).Floor
  }

  /** The score as a rounded percentage, the number shown in the badge. */
  function PercentLabel(score: real): (n: int)
    ensures 0.0 <= score <= 1.0 ==> 0 <= n <= 100
  {
    Round(score * 100.0)
  }

  /** The label never decreases as the score grows. */
  lemma PercentLabelMonotone(lo: real, hi: real)
    requires lo <= hi
    ensures PercentLabel(lo) <= PercentLabel(hi)
  {
  }

  /** A green badge always reads at least 80, a red one at most 70. */
  lemma BandAgreesWithLabel(score: real)
    ensures BandOf(score) == Green ==> PercentLabel(score) >= 80
    ensures BandOf(score) == Red ==> PercentLabel(score) <= 70
  {
  }

  /** A row's displayed score: an absent score reads as 0. */
  function ShownScore(p: Option<real>): (s: real)
    ensures p.None? ==> s == 0.0
    ensures p.Some? ==> s == p.value
  {
    p.GetOr(0.0)
  }

}
