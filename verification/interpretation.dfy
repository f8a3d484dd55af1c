/**
 * The human-readable reading of a match: the tier and its label, the
 * one-line summary assembled from clauses, and the detailed view with
 * strengths, concerns and a recommendation.
 *
 * Sentences are modelled as datatypes (`Clause`, `Strength`, `Concern`,
 * `Recommendation`) with a rendering function each giving the exact text.
 */
module Interpretation {
  import opened Common
  import opened Overlap
  import opened Scoring

  // ---------------------------------------------------------------------------
  // Tiers
  // ---------------------------------------------------------------------------

  datatype Tier = Excellent | Good | Partial | Weak

  /** The rank of a tier, weakest 0, for stating monotonicity. */
  function TierRank(t: Tier): nat {
    match t
    case Weak => 0
    case Partial => 1
    case Good => 2
    case Excellent => 3
  }

  /** The band of a whole percentage: 85 and up, 70 and up, 50 and up, below 50. */
  function TierOfPercent(p: int): (t: Tier)
    ensures t == Excellent <==> p >= 85
    ensures t == Good <==> 70 <= p < 85
    ensures t == Partial <==> 50 <= p < 70
    ensures t == Weak <==> p < 50
  {
    if p >= 85 then Excellent else if p >= 70 then Good else if p >= 50 then Partial else Weak
  }

  /** The tier of a final score, decided on `Math.round(final)`. */
  function TierOf(final: real): (t: Tier)
    ensures t == Excellent <==> final >= 84.5
    ensures t == Good <==> 69.5 <= final < 84.5
    ensures t == Partial <==> 49.5 <= final < 69.5
    ensures t == Weak <==> final < 49.5
  {
    TierOfPercent(Round(final))
  }

  /** A higher final score never gives a lower tier. */
  lemma TierMonotone(f1: real, f2: real)
    requires f1 <= f2
    ensures TierRank(TierOf(f1)) <= TierRank(TierOf(f2))
  {
  }

  function TierName(t: Tier): string {
    match t
    case Excellent => "excellent"
    case Good => "good"
    case Partial => "partial"
    case Weak => "weak"
  }

  function TierLabel(t: Tier): string {
    match t
    case Excellent => "Excellent Match"
    case Good => "Good Match"
    case Partial => "Partial Match"
    case Weak => "Weak Match"
  }

  // ---------------------------------------------------------------------------
  // Summary clauses
  // ---------------------------------------------------------------------------

  datatype Clause =
    | StrongAlignment
    | CoversPercent(pct: int)
    | OnlyPercent(pct: int)
    | MissingNamed(names: seq<string>)
    | MissingCount(count: nat)
    | BonusCount(count: nat)
    | MeetsExperience
    | SlightlyUnder
    | LimitedExperience

  function ClauseText(c: Clause): string {
    match c
    case StrongAlignment => "Strong skill alignment"
    case CoversPercent(p) => "Covers " + IntToString(p) + "% of required skills"
    case OnlyPercent(p) => "Only " + IntToString(p) + "% skill coverage"
    case MissingNamed(names) => "missing " + Join(names, ", ")
    case MissingCount(n) => "missing " + NatToString(n) + " required skills"
    case BonusCount(n) => NatToString(n) + " bonus skills"
    case MeetsExperience => "meets experience requirement"
    case SlightlyUnder => "slightly under experience requirement"
    case LimitedExperience => "limited experience"
  }

  /** The required-skill coverage as a whole percentage. */
  function CoveragePercent(matchedCount: nat, totalRequired: nat): (r: int)
    requires totalRequired > 0
    ensures matchedCount <= totalRequired ==> 0 <= r <= 100
    ensures matchedCount == totalRequired ==> r == 100
    ensures RoundedPercent(r, matchedCount, totalRequired)
  {
    var r := Round(matchedCount as real / totalRequired as real * 100.0);
    PercentRound(matchedCount, totalRequired);
    if matchedCount <= totalRequired then
      RoundedPercentBounds(r, matchedCount, totalRequired);
      r
    else r
  }

  /** The coverage clause: present exactly when something is required. */
  function CoverageClause(a: Analysis): (r: Option<Clause>)
    ensures r.Some? <==> a.totalRequired > 0
    ensures r.Some? ==> var p := CoveragePercent(a.matchedCount, a.totalRequired);
      && (r.value == StrongAlignment <==> p >= 90)
      && (r.value == CoversPercent(p) <==> 60 <= p < 90)
      && (r.value == OnlyPercent(p) <==> p < 60)
  {
    if a.totalRequired > 0 then
      var p := CoveragePercent(a.matchedCount, a.totalRequired);
      Some(if p >= 90 then StrongAlignment else if p >= 60 then CoversPercent(p) else OnlyPercent(p))
    else None
  }

  /** The names of match lines, in order. */
  function MatchNames(lines: seq<SkillMatch>): (r: seq<string>)
    ensures |r| == |lines|
    ensures forall i :: 0 <= i < |lines| ==> r[i] == lines[i].name
  {
    if lines == [] then [] else [lines[0].name] + MatchNames(lines[1..])
  }

  /** The missing-skills clause: one to three missing skills are named, more are counted. */
  function MissingClause(missing: seq<SkillMatch>): (r: Option<Clause>)
    ensures r.Some? <==> missing != []
    ensures 1 <= |missing| <= 3 ==> r == Some(MissingNamed(MatchNames(missing)))
    ensures |missing| > 3 ==> r == Some(MissingCount(|missing|))
  {
    if 0 < |missing| <= 3 then Some(MissingNamed(MatchNames(missing)))
    else if |missing| > 3 then Some(MissingCount(|missing|))
    else None
  }

  /** The bonus clause: only for more than two bonus skills. */
  function BonusClause(bonus: seq<SkillMatch>): (r: Option<Clause>)
    ensures r.Some? <==> |bonus| > 2
    ensures r.Some? ==> r.value == BonusCount(|bonus|)
  {
    if |bonus| > 2 then Some(BonusCount(|bonus|)) else None
  }

  /** The experience clause: none for an experience score in [0.5, 0.7). */
  function ExperienceClause(experience: real): (r: Option<Clause>)
    ensures r.None? <==> 0.5 <= experience < 0.7
    ensures r == Some(MeetsExperience) <==> experience >= 1.0
    ensures r == Some(SlightlyUnder) <==> 0.7 <= experience < 1.0
    ensures r == Some(LimitedExperience) <==> experience < 0.5
  {
    if experience >= 1.0 then Some(MeetsExperience)
    else if experience >= 0.7 then Some(SlightlyUnder)
    else if experience < 0.5 then Some(LimitedExperience)
    else None
  }

  /** The present values, in order. */
  function Listed<T(!new)>(options: seq<Option<T>>): (r: seq<T>)
    ensures |r| <= |options|
    ensures forall x :: x in r <==> Some(x) in options
  {
    if options == [] then []
    else (if options[0].Some? then [options[0].value] else []) + Listed(options[1..])
  }

  /** Listing keeps order: the values of a concatenation are those of each part, in turn. */
  lemma {:induction false} ListedConcat<T(!new)>(a: seq<Option<T>>, b: seq<Option<T>>)
    ensures Listed(a + b) == Listed(a) + Listed(b)
    decreases |a|
  {
    if a == [] {
      assert a + b == b;
    } else {
      assert (a + b)[0] == a[0];
      assert (a + b)[1..] == a[1..] + b;
      ListedConcat(a[1..], b);
    }
  }

  /** The summary clauses in their fixed order: coverage, missing, bonus, experience. */
  function Clauses(scores: Scores, a: Analysis): seq<Clause> {
    Listed([CoverageClause(a), MissingClause(a.missing), BonusClause(a.bonus), ExperienceClause(scores.experience)])
  }

  function ClauseTexts(clauses: seq<Clause>): (r: seq<string>)
    ensures |r| == |clauses|
    ensures forall i :: 0 <= i < |clauses| ==> r[i] == ClauseText(clauses[i])
  {
    if clauses == [] then [] else [ClauseText(clauses[0])] + ClauseTexts(clauses[1..])
  }

  const DefaultSummary: string := "See score breakdown for details."

  /**
   * The summary: the clauses joined by ". " with a closing full stop, or the
   * default sentence when there is none, with its first letter upper-cased.
   */
  function Summary(clauses: seq<Clause>): (r: string)
    ensures clauses == [] ==> r == Capitalize(DefaultSummary)
    ensures clauses != [] ==> |r| == |Join(ClauseTexts(clauses), ". ")| + 1 && r[1..] == (Join(ClauseTexts(clauses), ". ") + ".")[1..]
    ensures clauses != [] ==> r[0] == UpperChar((Join(ClauseTexts(clauses), ". ") + ".")[0])
    ensures r != [] && !IsLower(r[0])
  {
    var text := if clauses == [] then DefaultSummary else Join(ClauseTexts(clauses), ". ") + ".";
    Capitalize(text)
  }

  /** No clause leaves the default summary, already capitalised. */
  lemma DefaultSummaryKept()
    ensures Summary([]) == DefaultSummary
  {
    assert DefaultSummary[0] == 'S';
    assert Capitalize(DefaultSummary) == [UpperChar('S')] + DefaultSummary[1..];
  }

  datatype Reading = Reading(labelText: string, summary: string, tier: Tier)

  /** `generateInterpretation(scores, skillAnalysis)`. */
  function GenerateInterpretation(scores: Scores, a: Analysis): (r: Reading)
    ensures r.tier == TierOf(scores.final)
    ensures r.labelText == TierLabel(r.tier)
    ensures r.summary == Summary(Clauses(scores, a))
  {
    var tier := TierOf(scores.final);
    Reading(TierLabel(tier), Summary(Clauses(scores, a)), tier)
  }

  /** A missing-skills clause appears exactly when some required skill is missing. */
  lemma MissingClausePresent(scores: Scores, a: Analysis)
    ensures (exists c :: c in Clauses(scores, a) && (c.MissingNamed? || c.MissingCount?)) <==> a.missing != []
  {
    var cs := Clauses(scores, a);
    if a.missing != [] {
      assert MissingClause(a.missing).value in cs;
    }
  }

  /** The bonus and experience clauses appear exactly under their conditions. */
  lemma OtherClausesPresent(scores: Scores, a: Analysis)
    ensures var cs := Clauses(scores, a);
      && (BonusCount(|a.bonus|) in cs <==> |a.bonus| > 2)
      && (MeetsExperience in cs <==> scores.experience >= 1.0)
      && (SlightlyUnder in cs <==> 0.7 <= scores.experience < 1.0)
      && (LimitedExperience in cs <==> scores.experience < 0.5)
  {
  }

  /** The summary falls back to the default sentence exactly when no clause applies. */
  lemma NoClauses(scores: Scores, a: Analysis)
    ensures Clauses(scores, a) == [] <==>
      a.totalRequired == 0 && a.missing == [] && |a.bonus| <= 2 && 0.5 <= scores.experience < 0.7
  {
    var opts := [CoverageClause(a), MissingClause(a.missing), BonusClause(a.bonus), ExperienceClause(scores.experience)];
    var cs := Clauses(scores, a);
    if cs != [] {
      assert cs[0] in cs;
      assert Some(cs[0]) in opts;
    }
  }

  // ---------------------------------------------------------------------------
  // The detailed interpretation
  // ---------------------------------------------------------------------------

  datatype Strength =
    | StrongSemantic
    | GoodAlignment
    | CoversRequired(pct: int)
    | ExceedsExperience
    | AdditionalSkills(count: nat)

  function StrengthText(s: Strength): string {
    match s
    case StrongSemantic => "Strong semantic alignment with job description"
    case GoodAlignment => "Good overall profile alignment"
    case CoversRequired(p) => "Covers " + IntToString(p) + "% of required skills"
    case ExceedsExperience => "Meets or exceeds experience requirements"
    case AdditionalSkills(n) => "Brings " + NatToString(n) + " additional skills"
  }

  datatype Concern =
    | LowSemantic
    | MissingKeySkills(names: seq<string>)
    | FarBelowExperience
    | SlightlyUnderExperience

  function ConcernText(c: Concern): string {
    match c
    case LowSemantic => "Low semantic alignment \U{2014} profile may focus on different domain"
    case MissingKeySkills(names) => "Missing key skills: " + Join(names, ", ")
    case FarBelowExperience => "Significantly below experience requirement"
    case SlightlyUnderExperience => "Slightly under experience requirement"
  }

  datatype Recommendation = StronglyRecommended | Recommended | ConsiderIfLimited | NotAStrongFit

  function RecommendationText(r: Recommendation): string {
    match r
    case StronglyRecommended => "Strongly recommended for interview"
    case Recommended => "Recommended for further review"
    case ConsiderIfLimited => "Consider if other candidates are limited"
    case NotAStrongFit => "May not be a strong fit for this role"
  }

  /** The recommendation, decided on the rounded final score with its own thresholds. */
  function RecommendationOf(final: real): Recommendation {
    var p := Round(final);
    if p >= 85 then StronglyRecommended
    else if p >= 70 then Recommended
    else if p >= 50 then ConsiderIfLimited
    else NotAStrongFit
  }

  /** The recommendation that goes with each tier. */
  function RecommendationFor(t: Tier): Recommendation {
    match t
    case Excellent => StronglyRecommended
    case Good => Recommended
    case Partial => ConsiderIfLimited
    case Weak => NotAStrongFit
  }

  /** Recommendation and tier always agree: one determines the other. */
  lemma RecommendationAgreesWithTier(final: real)
    ensures RecommendationOf(final) == RecommendationFor(TierOf(final))
    ensures RecommendationOf(final) == StronglyRecommended <==> TierOf(final) == Excellent
    ensures RecommendationOf(final) == Recommended <==> TierOf(final) == Good
    ensures RecommendationOf(final) == ConsiderIfLimited <==> TierOf(final) == Partial
    ensures RecommendationOf(final) == NotAStrongFit <==> TierOf(final) == Weak
  {
  }

  /** The semantic strength: strong from 0.8, good from 0.6, none below. */
  function SemanticStrength(semantic: real): (r: Option<Strength>)
    ensures r == Some(StrongSemantic) <==> semantic >= 0.8
    ensures r == Some(GoodAlignment) <==> 0.6 <= semantic < 0.8
    ensures r.None? <==> semantic < 0.6
  {
    if semantic >= 0.8 then Some(StrongSemantic)
    else if semantic >= 0.6 then Some(GoodAlignment)
    else None
  }

  /**
   * The coverage strength: needs a matched required skill and a coverage of
   * at least 70%; with nothing required the coverage counts as 0.
   */
  function CoverageStrength(a: Analysis): (r: Option<Strength>)
    ensures r.Some? <==> a.matchedCount > 0 && a.totalRequired > 0 && CoveragePercent(a.matchedCount, a.totalRequired) >= 70
    ensures r.Some? ==> r.value == CoversRequired(CoveragePercent(a.matchedCount, a.totalRequired))
  {
    if a.matchedCount > 0 then
      var pct := if a.totalRequired > 0 then CoveragePercent(a.matchedCount, a.totalRequired) else 0;
      if pct >= 70 then Some(CoversRequired(pct)) else None
    else None
  }

  function Strengths(scores: Scores, a: Analysis): seq<Strength> {
    Listed([
      SemanticStrength(scores.semantic),
      CoverageStrength(a),
      if scores.experience >= 1.0 then Some(ExceedsExperience) else None,
      if |a.bonus| >= 3 then Some(AdditionalSkills(|a.bonus|)) else None])
  }

  /** The first three names of the missing skills. */
  function FirstMissingNames(missing: seq<SkillMatch>): (r: seq<string>)
    ensures |r| <= 3 && |r| <= |missing|
    ensures forall i :: 0 <= i < |r| ==> r[i] == missing[i].name
    ensures |missing| <= 3 ==> |r| == |missing|
  {
    MatchNames(Prefix(missing, 3))
  }

  /** The experience concern: significantly below under 0.5, slightly under in [0.5, 0.7). */
  function ExperienceConcern(experience: real): (r: Option<Concern>)
    ensures r == Some(FarBelowExperience) <==> experience < 0.5
    ensures r == Some(SlightlyUnderExperience) <==> 0.5 <= experience < 0.7
    ensures r.None? <==> experience >= 0.7
  {
    if experience < 0.5 then Some(FarBelowExperience)
    else if experience < 0.7 then Some(SlightlyUnderExperience)
    else None
  }

  function Concerns(scores: Scores, a: Analysis): seq<Concern> {
    Listed([
      if scores.semantic < 0.5 then Some(LowSemantic) else None,
      if a.missing != [] then Some(MissingKeySkills(FirstMissingNames(a.missing))) else None,
      ExperienceConcern(scores.experience)])
  }

  datatype DetailedReading = DetailedReading(
    base: Reading,
    strengths: seq<Strength>,
    concerns: seq<Concern>,
    recommendation: Recommendation)

  /** `generateDetailedInterpretation(scores, skillAnalysis)`. */
  function GenerateDetailedInterpretation(scores: Scores, a: Analysis): (r: DetailedReading)
    ensures r.base == GenerateInterpretation(scores, a)
    ensures r.strengths == Strengths(scores, a) && r.concerns == Concerns(scores, a)
    ensures r.recommendation == RecommendationFor(r.base.tier)
  {
    RecommendationAgreesWithTier(scores.final);
    DetailedReading(GenerateInterpretation(scores, a), Strengths(scores, a), Concerns(scores, a),
                    RecommendationOf(scores.final))
  }

  /** At most one semantic strength: strong from 0.8, good in [0.6, 0.8). */
  lemma SemanticStrengthsPresent(scores: Scores, a: Analysis)
    ensures var ss := Strengths(scores, a);
      && !(StrongSemantic in ss && GoodAlignment in ss)
      && (StrongSemantic in ss <==> scores.semantic >= 0.8)
      && (GoodAlignment in ss <==> 0.6 <= scores.semantic < 0.8)
  {
  }

  /** A coverage strength needs a matched required skill and a coverage of at least 70%. */
  lemma CoverageStrengthPresent(scores: Scores, a: Analysis)
    ensures (exists s :: s in Strengths(scores, a) && s.CoversRequired?) <==>
      a.matchedCount > 0 && a.totalRequired > 0 && CoveragePercent(a.matchedCount, a.totalRequired) >= 70
  {
    var ss := Strengths(scores, a);
    if CoverageStrength(a).Some? {
      assert CoverageStrength(a).value in ss;
    }
  }

  /** The experience strength appears iff experience reaches 1.0, the bonus strength iff there are 3 or more bonus skills. */
  lemma OtherStrengthsPresent(scores: Scores, a: Analysis)
    ensures var ss := Strengths(scores, a);
      && (ExceedsExperience in ss <==> scores.experience >= 1.0)
      && (AdditionalSkills(|a.bonus|) in ss <==> |a.bonus| >= 3)
  {
  }

  /** The semantic and experience concerns appear exactly under their conditions. */
  lemma ScoreConcernsPresent(scores: Scores, a: Analysis)
    ensures var cs := Concerns(scores, a);
      && (LowSemantic in cs <==> scores.semantic < 0.5)
      && !(FarBelowExperience in cs && SlightlyUnderExperience in cs)
      && (FarBelowExperience in cs <==> scores.experience < 0.5)
      && (SlightlyUnderExperience in cs <==> 0.5 <= scores.experience < 0.7)
  {
  }

  /** The missing-skills concern appears iff a skill is missing, naming the first three. */
  lemma MissingConcernPresent(scores: Scores, a: Analysis)
    ensures var cs := Concerns(scores, a);
      && (MissingKeySkills(FirstMissingNames(a.missing)) in cs <==> a.missing != [])
      && ((exists c :: c in cs && c.MissingKeySkills?) <==> a.missing != [])
  {
  }
}
