/**
 * The numeric side of matching a resume to a job: the experience fit, the
 * semantic score taken from the embeddings, and the weighted final score
 * (40% semantic, 40% skills, 20% experience capped at 1), rounded as the
 * engine rounds it.
 */
module Scoring {
  import opened Common

  // ---------------------------------------------------------------------------
  // Experience fit
  // ---------------------------------------------------------------------------

  /** The cap on the experience ratio: overqualification earns at most 1.2. */
  const ExperienceCap: real := 1.2

  /**
   * `calculateExperienceFit(candidateYears, requiredYears)`: partial credit
   * 0.8 or 0.5 with no requirement, 0.1 for a candidate without years, and
   * otherwise the ratio of years, capped.
   */
  function ExperienceFit(candidate: nat, required: nat): (r: real)
    ensures 0.0 < r <= ExperienceCap
    ensures required == 0 ==> (r == 0.8 <==> candidate > 0) && (r == 0.5 <==> candidate == 0)
    ensures required > 0 && candidate == 0 ==> r == 0.1
    ensures required > 0 && candidate > 0 ==> r <= candidate as real / required as real
    ensures required > 0 && candidate > 0 ==> (r == ExperienceCap <==> candidate as real >= ExperienceCap * required as real)
    ensures required > 0 && candidate > 0 && candidate as real < ExperienceCap * required as real ==>
      r * required as real == candidate as real
  {
    if required == 0 then (if candidate > 0 then 0.8 else 0.5)
    else if candidate == 0 then 0.1
    else MinReal(candidate as real / required as real, ExperienceCap)
  }

  /** Against a requirement, full credit (1.0 or more) is reached exactly when the candidate has the required years. */
  lemma ExperienceFitFullCredit(candidate: nat, required: nat)
    requires required > 0
    ensures ExperienceFit(candidate, required) >= 1.0 <==> candidate >= required
  {
  }

  /** Among candidates with some years, more years never lower the fit. */
  lemma ExperienceFitMonotone(c1: nat, c2: nat, required: nat)
    requires 0 < c1 <= c2
    ensures ExperienceFit(c1, required) <= ExperienceFit(c2, required)
  {
    if required > 0 {
      RatioMonotone(c1 as real, c2 as real, required as real);
    }
  }

  /**
   * The fit is not monotone at zero years: a candidate with less than a tenth
   * of the required years scores below the 0.1 a candidate with no years
   * gets (one year against twenty scores 0.05).
   */
  lemma ExperienceFitNotMonotoneAtZero(candidate: nat, required: nat)
    requires 0 < candidate && 10 * candidate < required
    ensures ExperienceFit(candidate, required) < ExperienceFit(0, required)
  {
    var fit := ExperienceFit(candidate, required);
    assert candidate as real < ExperienceCap * required as real;
    BelowTenth(fit, candidate as real, required as real);
  }

  lemma RatioMonotone(a: real, b: real, t: real)
    requires a <= b && t > 0.0
    ensures a / t <= b / t
  {
    assert b / t - a / t == (b - a) / t;
  }

  /** A share `f` of `t` that comes to less than a tenth of `t` is below 0.1. */
  lemma BelowTenth(f: real, c: real, t: real)
    requires t > 0.0 && f * t == c && 10.0 * c < t
    ensures f < 0.1
  {
    assert (0.1 - f) * t > 0.0;
  }

  // ---------------------------------------------------------------------------
  // Semantic score
  // ---------------------------------------------------------------------------

  /**
   * The semantic score: 0 unless both embeddings are present and non-empty
   * (an absent embedding is the empty sequence), otherwise `aligned` of the
   * two, which stands for the cosine similarity mapped to [0, 1] and raised
   * to the power 0.7.
   */
  function SemanticScore(resume: seq<real>, job: seq<real>, aligned: (seq<real>, seq<real>) -> real): (r: real)
    ensures resume == [] || job == [] ==> r == 0.0
    ensures resume != [] && job != [] ==> r == aligned(resume, job)
  {
    if resume != [] && job != [] then aligned(resume, job) else 0.0
  }

  // ---------------------------------------------------------------------------
  // Final score
  // ---------------------------------------------------------------------------

  const SemanticWeight: real := 0.4
  const SkillWeight: real := 0.4
  const ExperienceWeight: real := 0.2

  /** The weighted sum, as a percentage, before rounding. */
  function WeightedPercent(semantic: real, skill: real, experience: real): real {
    (semantic * SemanticWeight + skill * SkillWeight + MinReal(experience, 1.0) * ExperienceWeight) * 100.0
  }

  /** The final score: the weighted percentage rounded to one decimal. */
  function FinalScore(semantic: real, skill: real, experience: real): (r: real)
    ensures 0.0 <= semantic <= 1.0 && 0.0 <= skill <= 1.0 && 0.0 <= experience ==> 0.0 <= r <= 100.0
    ensures WeightedPercent(semantic, skill, experience) - 1.0 / 20.0 < r <= WeightedPercent(semantic, skill, experience) + 1.0 / 20.0
    ensures Tenths(r)
  {
    var w := WeightedPercent(semantic, skill, experience);
    if 0.0 <= semantic <= 1.0 && 0.0 <= skill <= 1.0 && 0.0 <= experience then
      Round1Bounds(w);
      Round1(w)
    else Round1(w)
  }

  /** Experience beyond the requirement adds nothing to the final score. */
  lemma FinalScoreCapsExperience(semantic: real, skill: real, experience: real)
    requires experience >= 1.0
    ensures FinalScore(semantic, skill, experience) == FinalScore(semantic, skill, 1.0)
  {
  }

  /** The final score never falls when one of its three inputs rises. */
  lemma FinalScoreMonotone(s1: real, k1: real, e1: real, s2: real, k2: real, e2: real)
    requires s1 <= s2 && k1 <= k2 && e1 <= e2
    ensures FinalScore(s1, k1, e1) <= FinalScore(s2, k2, e2)
  {
    var w1, w2 := WeightedPercent(s1, k1, e1), WeightedPercent(s2, k2, e2);
    assert MinReal(e1, 1.0) <= MinReal(e2, 1.0);
    assert w1 <= w2;
    RoundMonotone(w1 * 10.0, w2 * 10.0);
  }

  /** The reported scores: three rounded to two decimals, the final to one. */
  datatype Scores = Scores(semantic: real, skillMatch: real, experience: real, final: real)

  /**
   * The `scores` object of a match. The reported experience is the fit itself,
   * not capped at 1, so it can read 1.2 while the final score counts 1.
   */
  function ScoresOf(semantic: real, skill: real, experience: real): (r: Scores)
    ensures r.final == FinalScore(semantic, skill, experience)
    ensures semantic - 1.0 / 200.0 < r.semantic <= semantic + 1.0 / 200.0
    ensures skill - 1.0 / 200.0 < r.skillMatch <= skill + 1.0 / 200.0
    ensures experience - 1.0 / 200.0 < r.experience <= experience + 1.0 / 200.0
    ensures Hundredths(r.semantic) && Hundredths(r.skillMatch) && Hundredths(r.experience)
  {
    Scores(Round2(semantic), Round2(skill), Round2(experience), FinalScore(semantic, skill, experience))
  }
}
