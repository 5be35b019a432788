/**
 * The essence maturity score: how much the agent has learnt about its owner,
 * as a weighted mean of three factor scores, clamped into [0, 1]; and the
 * label shown for a score.
 */
module Maturity {

  const CorrectionsWeight: real := 0.40
  const PatternsWeight: real := 0.35
  const ContextWeight: real := 0.25

  lemma WeightsSumToOne()
    ensures CorrectionsWeight + PatternsWeight + ContextWeight == 1.0
  {
  }

  function Clamp01(x: real): (r: real)
    ensures 0.0 <= r <= 1.0
    ensures 0.0 <= x <= 1.0 ==> r == x
  {
    if x < 0.0 then 0.0 else if x > 1.0 then 1.0 else x
  }

  /** The weighted combination and clamp of `calculate_maturity`. */
  function Combine(corrections: real, patterns: real, context: real): (score: real)
    ensures 0.0 <= score <= 1.0
    ensures 0.0 <= corrections <= 1.0 && 0.0 <= patterns <= 1.0 && 0.0 <= context <= 1.0 ==>
      score == corrections * CorrectionsWeight + patterns * PatternsWeight + context * ContextWeight
  {
    Clamp01(corrections * CorrectionsWeight + patterns * PatternsWeight + context * ContextWeight)
  }

  /** Raising one factor never lowers the combined score. */
  lemma CombineMonotone(c: real, p: real, x: real, c': real, p': real, x': real)
    requires c <= c' && p <= p' && x <= x'
    ensures Combine(c, p, x) <= Combine(c', p', x')
  {
  }

  /** `calculate_maturity` over factor scores given by `sigmoid(value,
      midpoint)`: 50 corrections, 20 patterns and 500 context words are the
      midpoints. */
  function Calculate(sigmoid: (real, real) -> real, corrections: nat, patterns: nat, words: nat): real
  {
    Combine(sigmoid(corrections as real, 50.0), sigmoid(patterns as real, 20.0), sigmoid(words as real, 500.0))
  }

  /** A factor score that never falls as its value grows. */
  ghost predicate MonotoneScore(sigmoid: (real, real) -> real)
  {
    forall a, b, mid :: a <= b ==> sigmoid(a, mid) <= sigmoid(b, mid)
  }

  /** More corrections, patterns or context never lower the score. */
  lemma CalculateMonotone(sigmoid: (real, real) -> real, c: nat, p: nat, w: nat, c': nat, p': nat, w': nat)
    requires MonotoneScore(sigmoid)
    requires c <= c' && p <= p' && w <= w'
    ensures Calculate(sigmoid, c, p, w) <= Calculate(sigmoid, c', p', w')
  {
    CombineMonotone(sigmoid(c as real, 50.0), sigmoid(p as real, 20.0), sigmoid(w as real, 500.0),
                    sigmoid(c' as real, 50.0), sigmoid(p' as real, 20.0), sigmoid(w' as real, 500.0));
  }

  /** `maturity_label(score)`. */
  function Label(score: real): string
  {
    if score < 0.2 then "nascent"
    else if score < 0.4 then "emerging"
    else if score < 0.6 then "developing"
    else if score < 0.8 then "established"
    else "mature"
  }

  /** The position of a label on the scale. */
  function Rank(name: string): nat
  {
    if name == "nascent" then 0
    else if name == "emerging" then 1
    else if name == "developing" then 2
    else if name == "established" then 3
    else 4
  }

  /** Each label covers a half-open band; the lower bounds are inclusive. */
  lemma LabelBands(score: real)
    ensures Label(score) == "nascent" <==> score < 0.2
    ensures Label(score) == "emerging" <==> 0.2 <= score < 0.4
    ensures Label(score) == "developing" <==> 0.4 <= score < 0.6
    ensures Label(score) == "established" <==> 0.6 <= score < 0.8
    ensures Label(score) == "mature" <==> 0.8 <= score
  {
  }

  /** A higher score never gets a lower label. */
  lemma LabelMonotone(a: real, b: real)
    requires a <= b
    ensures Rank(Label(a)) <= Rank(Label(b))
  {
  }
}
