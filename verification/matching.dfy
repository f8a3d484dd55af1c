/**
 * Matching one resume against one job: the semantic score, the skill
 * overlap, the experience fit, the weighted final score and the
 * interpretation, put together as the engine's `matchResumeToJob` does.
 */
module Matching {
  import opened Common
  import opened Overlap
  import opened Scoring
  import opened Interpretation

  /** Store identifiers (database object ids), kept abstract. */
  type Id = nat

  /**
   * A stored resume as the engine reads it. A missing profile reads as no
   * skills and 0 years; a missing embedding is the empty sequence.
   */
  datatype ResumeDoc = ResumeDoc(
    id: Id,
    candidateName: string,
    skills: seq<SkillRef>,
    totalYearsExperience: nat,
    embedding: seq<real>)

  /**
   * A stored job as the engine reads it. `totalYearsRequired` is 0 when the
   * stored profile lacks it.
   */
  datatype JobDoc = JobDoc(
    id: Id,
    title: string,
    requiredSkills: seq<SkillRef>,
    preferredSkills: seq<SkillRef>,
    totalYearsRequired: nat,
    embedding: seq<real>)

  datatype MatchResult = MatchResult(
    scores: Scores,
    matched: seq<SkillMatch>,
    missing: seq<SkillMatch>,
    bonus: seq<SkillMatch>,
    interpretation: Reading,
    candidateName: string,
    jobTitle: string)

  /**
   * `matchResumeToJob(resume, job)`. `aligned` stands for the cosine
   * similarity of two embeddings mapped to [0, 1] and raised to the power 0.7.
   */
  function MatchResumeToJob(resume: ResumeDoc, job: JobDoc, aligned: (seq<real>, seq<real>) -> real): (r: MatchResult)
    ensures resume.embedding == [] || job.embedding == [] ==> r.scores.semantic == 0.0
    ensures (resume.embedding == [] || job.embedding == [] || 0.0 <= aligned(resume.embedding, job.embedding) <= 1.0)
            ==> 0.0 <= r.scores.final <= 100.0
    ensures 0.0 <= r.scores.skillMatch <= 1.0
    ensures job.totalYearsRequired == 0 ==> r.scores.experience == 0.5 || r.scores.experience == 0.8
    ensures r.interpretation.tier == TierOf(r.scores.final)
    ensures |r.missing| <= |job.requiredSkills|
    ensures r.candidateName == resume.candidateName && r.jobTitle == job.title
    ensures r.scores == ScoresOf(SemanticScore(resume.embedding, job.embedding, aligned),
                                 CalculateSkillOverlap(resume.skills, job.requiredSkills, job.preferredSkills).score,
                                 ExperienceFit(resume.totalYearsExperience, job.totalYearsRequired))
    ensures r.interpretation == GenerateInterpretation(r.scores, CalculateSkillOverlap(resume.skills, job.requiredSkills, job.preferredSkills))
  {
    var semantic := SemanticScore(resume.embedding, job.embedding, aligned);
    var analysis := CalculateSkillOverlap(resume.skills, job.requiredSkills, job.preferredSkills);
    var experience := ExperienceFit(resume.totalYearsExperience, job.totalYearsRequired);
    var scores := ScoresOf(semantic, analysis.score, experience);
    RoundedUnitInterval(analysis.score);
    Round2Fixes(0.0);
    Round2Fixes(0.5);
    Round2Fixes(0.8);
    MatchResult(scores, analysis.matched, analysis.missing, analysis.bonus,
                GenerateInterpretation(scores, analysis), resume.candidateName, job.title)
  }

  /** Rounding to two decimals keeps a value in [0, 1] there. */
  lemma RoundedUnitInterval(x: real)
    requires 0.0 <= x <= 1.0
    ensures 0.0 <= Round2(x) <= 1.0
  {
    RoundBounds(x * 100.0, 0, 100);
  }

  /** The skill lines of a match are those of the overlap analysis. */
  lemma MatchCarriesAnalysis(resume: ResumeDoc, job: JobDoc, aligned: (seq<real>, seq<real>) -> real)
    ensures var r := MatchResumeToJob(resume, job, aligned);
      var a := CalculateSkillOverlap(resume.skills, job.requiredSkills, job.preferredSkills);
      && r.matched == a.matched && r.missing == a.missing && r.bonus == a.bonus
      && a.matchedCount + |r.missing| == |job.requiredSkills|
  {
  }

  /**
   * The stored experience is the uncapped fit: a strongly overqualified
   * candidate is reported at 1.2, while the final score counts 1.
   */
  lemma OverqualifiedReportsCap(resume: ResumeDoc, job: JobDoc, aligned: (seq<real>, seq<real>) -> real)
    requires job.totalYearsRequired > 0
    requires resume.totalYearsExperience as real >= 1.2 * job.totalYearsRequired as real
    ensures MatchResumeToJob(resume, job, aligned).scores.experience == 1.2
  {
    Round2Fixes(ExperienceCap);
  }
}
