# SkillSense matching core in Dafny

SkillSense is a recruiting server. It turns resume and job-description text into
structured profiles: detected skills, roles, education and a summary. It scores each
of a recruiter's resumes against a job, explains the score in words, and stores one
match record per (job, resume) pair. The recruiter can mark a record as pending,
shortlisted or rejected. This project models that core as pure Dafny functions and
proves what the code promises about it.

| module | file | models |
|---|---|---|
| `Common` | common.dfy | string helpers the JavaScript uses: `toLowerCase`, `trim`, `substring`, `split`, `join`, `filter`, `Math.round` and number-to-text |
| `Sorting` | sorting.dfy | the stable descending `Array.prototype.sort` used for skills, matches and categories |
| `SkillVocabulary` | skill_vocabulary.dfy | the alias table, the reverse normalisation map, the category table and `normalizeSkill` / `getSkillCategory` / `getAllSkillPatterns` |
| `Profiler` | profiler.dfy | `extractSkills`, `extractExperience`, `extractEducation`, `extractSummary`, `generateProfile` |
| `Overlap` | overlap.dfy | `calculateSkillOverlap`: the candidate map, the required, preferred and bonus passes, and the skill score |
| `Scoring` | scoring.dfy | `calculateExperienceFit`, the semantic score and the weighted final score |
| `Interpretation` | interpretation.dfy | `generateInterpretation` (tier, label, summary) and `generateDetailedInterpretation` |
| `Matching` | matching.dfy | `matchResumeToJob` |
| `CategoryCoverage` | category_coverage.dfy | `groupSkillsByCategory` and `getCategoryCoverage` |
| `EmbeddingText` | embedding_text.dfy | the texts built for embeddings (`prepareResumeTextForEmbedding`, `prepareJobTextForEmbedding`) and `calculateProfileCompleteness` / `generateSuggestions` |
| `MatchStore` | match_store.dfy | the matching routes: run matching for a job (upsert, rank, average) and set a match's status |

Pattern matching by regular expression is not modelled as a matcher. Wherever the
code runs a regular expression over the text, the model takes its matches as an
input: hit counts per pattern, title, year and company captures, degree captures and
summary sections. The model then proves what the code does with those matches. The
embedding similarity is a parameter too: `aligned` stands for the cosine similarity
mapped to [0, 1] and raised to the power 0.7. So is the matcher that the route applies
to each resume.

Behaviour of the code worth noting:

- The tier is read from the final score before rounding to an integer. `Math.round(84.5)`
  is 85, so a final score of 84.5 is already "excellent" (`Interpretation.TierOf`).
- `generateProfile` stores `totalYearsExperience` for jobs as well as resumes, but the
  engine reads the job's `totalYearsRequired`. That field is therefore 0 for parsed jobs
  unless it is stored some other way. The model keeps the field, with 0 as its default.
- When more than ten roles are found, the company is attached to the eleventh or a later
  role. The ten roles kept then carry no company (`Profiler.CompanyAttachment`).
- The experience fit is not monotone at 0 years: 0 years scores 0.1, while any candidate
  with less than a tenth of the required years scores less, e.g. 0.05 for 1 year against
  20 (`Scoring.ExperienceFitNotMonotoneAtZero`).
- The Resume schema has no `embeddingStatus` field, yet completeness reads one. The model
  keeps it as a field of the resume record.

## Model

| member | source | states |
|---|---|---|
| Common.ToLower | server/services/skillNormalizer.js:131 | lower-casing keeps the length and maps every character to its lower-case form |
| Common.Trim | server/services/skillNormalizer.js:131 | trimming never lengthens a string and leaves no leading or trailing white space |
| Common.TrimSpec | server/services/skillNormalizer.js:131 | the trimmed text is a slice of the input with only white space cut off on either side |
| Common.Prefix | server/services/resumeEmbedding.js:62 | `substring(0, n)` keeps at most n characters, is a prefix of the input, and is the whole input when it is short enough |
| Common.Filter | server/services/profiler.js:205-206 | `filter` keeps exactly the elements that pass the test and never adds any |
| Common.FilterPartition | server/services/profiler.js:205-206 | a test and its negation split a sequence: the lengths add up and the multisets recombine into the original |
| Common.FilterKeepsOrder | server/services/resumeEmbedding.js:66 | `filter` keeps the relative order of the elements it keeps |
| Common.SplitOn | server/services/profiler.js:58 | `split` yields at least one piece and no piece contains the separator |
| Common.SplitJoin | server/services/resumeEmbedding.js:66 | splitting a join of separator-free parts on the separator gives back those parts |
| Common.Round | server/services/matchingEngine.js:231-235 | `Math.round` lands within one half of its argument, rounding halves up |
| Common.RoundMonotone | server/services/matchingEngine.js:231-235 | rounding preserves order |
| Common.Round2 | server/services/matchingEngine.js:231-233 | rounding to two decimals moves a value by at most 1/200, halves up, and yields a whole number of hundredths |
| Common.Round2Unique | server/services/matchingEngine.js:231-233 | exactly one multiple of 1/100 lies in the rounding window, so the two facts above pin the result down |
| Common.Round2Fixes | server/services/matchingEngine.js:231-233 | every multiple of 1/100 is left unchanged by rounding to two decimals |
| Common.Round1 | server/services/matchingEngine.js:234 | rounding to one decimal moves a value by at most 1/20, halves up, and yields a whole number of tenths |
| Common.Round1Unique | server/services/matchingEngine.js:234 | exactly one multiple of 1/10 lies in the rounding window, so the two facts above pin the result down |
| Common.PercentRound | server/services/matchingEngine.js:150 | `Math.round(part / total * 100)` is the whole r with (2r - 1)·total <= 200·part < (2r + 1)·total |
| Common.RoundedPercentUnique | server/services/matchingEngine.js:150 | at most one whole number meets that rounding window |
| Common.RoundedPercentBounds | server/services/matchingEngine.js:150 | a rounded share of at most the whole lies in [0, 100], and the whole rounds to 100 |
| Common.Capitalize | server/services/matchingEngine.js:185 | upper-casing the first character keeps the length and the rest of the text |
| Common.FirstSeenOrder | server/services/skillOverlap.js:25-31 | the distinct values of a sequence are listed in the order of their first occurrences |
| Common.NatToString | server/services/resumeEmbedding.js:41 | a number's decimal text is non-empty, made of digits only, has no leading zero, and its digits denote the number |
| Sorting.SortDesc | server/services/profiler.js:46 | the sort returns a permutation of its input in descending key order |
| Sorting.SortDescStable | server/services/profiler.js:46 | elements with equal keys keep their original relative order |
| Sorting.SortDescOfSorted | server/routes/matching.js:79 | an input already in descending order comes back unchanged |
| SkillVocabulary.SetAll | server/services/skillNormalizer.js:98-103 | writing one canonical name over a list of aliases maps each alias to it and leaves other keys as they were |
| SkillVocabulary.LastOwnerSpec | server/services/skillNormalizer.js:98-103 | an alias resolves exactly when some row lists it, and it resolves to a canonical name of the table |
| SkillVocabulary.InvertIsLastOwner | server/services/skillNormalizer.js:98-103 | building the reverse map row by row gives every alias the canonical name of the last row that lists it |
| SkillVocabulary.LookupAlias | server/services/skillNormalizer.js:98-103 | a lookup in the reverse map yields a canonical skill name, the one of the last row listing the key |
| SkillVocabulary.NormalizeSkill | server/services/skillNormalizer.js:129-133 | empty input has no canonical form; otherwise the lower-cased, trimmed input is looked up and any result is a canonical name |
| SkillVocabulary.NormalizeSkillCaseInsensitive | server/services/skillNormalizer.js:129-133 | normalising ignores case and surrounding white space |
| SkillVocabulary.NoEmptyAlias | server/services/skillNormalizer.js:7-95 | the empty string is not an alias |
| SkillVocabulary.RorResolvesToRails | server/services/skillNormalizer.js:98-103 | "ror", listed under both ruby and rails, normalises to "rails", the later row |
| SkillVocabulary.RubyOnRailsResolvesToRails | server/services/skillNormalizer.js:98-103 | "ruby on rails", listed under both ruby and rails, normalises to "rails" |
| SkillVocabulary.TfResolvesToTensorflow | server/services/skillNormalizer.js:98-103 | "tf", listed under both terraform and tensorflow, normalises to "tensorflow", the later row |
| SkillVocabulary.GitlabResolvesToGit | server/services/skillNormalizer.js:98-103 | "gitlab", a canonical name of its own and an alias of git, normalises to "git", the later row |
| SkillVocabulary.GetSkillCategory | server/services/skillNormalizer.js:140-142 | a skill's category is the last category row listing it, and "other" when no row does |
| SkillVocabulary.CanonicalsHaveCategories | server/services/skillNormalizer.js:106-122 | every canonical skill of the alias table has a real category, never "other" |
| SkillVocabulary.CategoryNamesNotOther | server/services/skillNormalizer.js:106-114 | no category row is named "other" |
| SkillVocabulary.GetAllSkillPatterns | server/services/skillNormalizer.js:148-155 | the pattern list holds every alias of every row, longest first |
| Profiler.Confidence | server/services/profiler.js:31-38 | confidence is 0.5 plus a tenth per hit below five hits, exactly 1 from five hits on, so at least 0.6 for a detected skill |
| Profiler.FirstHitMakes | server/services/profiler.js:22-42 | a skill is recorded from the first pattern whose alias normalises to it, with at least one hit |
| Profiler.CollectDistinct | server/services/profiler.js:28-29 | no canonical skill is recorded twice |
| Profiler.CollectFinds | server/services/profiler.js:22-42 | a skill is detected exactly when some pattern for it has hits |
| Profiler.CollectRecordsFirstHit | server/services/profiler.js:22-42 | each recorded skill is the record made by the first matching pattern |
| Profiler.ExtractSkillsFrom | server/services/profiler.js:13-47 | empty text yields no skills; the result is sorted by confidence, has distinct names, and lists exactly the detected skills |
| Profiler.ExtractSkills | server/services/profiler.js:13-47 | the extracted skills are sorted by confidence, distinct by name, well formed, with confidence between 0.6 and 1 |
| Profiler.AddRolesDistinct | server/services/profiler.js:74-82 | a title is added only when no role has it yet, ignoring case |
| Profiler.AddRolesShape | server/services/profiler.js:74-82 | each added role comes from a match, its title is the cleaned match, longer than three characters, and has no company yet |
| Profiler.AddRolesComplete | server/services/profiler.js:74-82 | every match whose cleaned title is long enough ends up represented among the roles |
| Profiler.MaxYears | server/services/profiler.js:85-95 | total years is the largest plausible figure (between 1 and 49) found, or 0 when there is none |
| Profiler.FirstCompany | server/services/profiler.js:98-108 | a company is taken only when its capture is plausible |
| Profiler.AttachCompanies | server/services/profiler.js:98-108 | attaching a company touches only the last role and keeps every title |
| Profiler.AttachCompaniesLast | server/services/profiler.js:98-108 | the last role, if it has no company, receives the first plausible capture |
| Profiler.ExtractExperience | server/services/profiler.js:54-114 | empty text yields no roles and 0 years; otherwise the roles are the first ten (or all, when fewer) of the full title list with the company attached; titles are distinct up to case and longer than three characters; total years is the largest plausible figure |
| Profiler.CompanyAttachment | server/services/profiler.js:98-111 | only the last role found can carry a company, and only when at most ten roles were found |
| Profiler.EveryTitleRepresented | server/services/profiler.js:74-82 | every long-enough title match is represented before the cut to ten |
| Profiler.CleanField | server/services/profiler.js:140-142 | a cleaned field of study is non-empty and at most 50 characters |
| Profiler.AddEducation | server/services/profiler.js:139-151 | entries stay distinct by level and field (ignoring case), and each degree match is represented |
| Profiler.ExtractEducation | server/services/profiler.js:121-155 | empty text yields no entries; otherwise the result is the first five entries (or all, when fewer) of the full pass over every pattern's matches; entries are distinct by level and field up to case, with non-empty fields of at most 50 characters |
| Profiler.EducationFrom | server/services/profiler.js:135-151 | the pass over the patterns from a given one on only appends to the entries it starts from, and leaves an entry with each match's level and cleaned field for every match of those patterns |
| Profiler.EveryDegreeRepresented | server/services/profiler.js:135-151 | every match of every degree pattern is represented, by level and field up to case, in the full pass before the cut to five |
| Profiler.EveryEntryFromAMatch | server/services/profiler.js:135-154 | every returned entry is the level, cleaned field and matched text of some match of some pattern |
| Profiler.ExtractSummary | server/services/profiler.js:162-180 | empty text yields an empty summary; it is at most 500 characters, and at most 200 when no section or lead paragraph was found |
| Profiler.SplitSkills | server/services/profiler.js:205-206 | required skills are those of confidence at least 0.7; preferred ones lie between 0.5 and 0.7 |
| Profiler.SplitSkillsPartition | server/services/profiler.js:205-206 | since every detected skill has confidence at least 0.5, required and preferred together are exactly the detected skills |
| Profiler.GenerateProfile | server/services/profiler.js:188-210 | a resume profile has no required or preferred lists; a job profile splits its skills into required and preferred without loss |
| Profiler.GenerateProfileFields | server/services/profiler.js:190-199 | every profile carries the extracted roles, total years, education and summary |
| Overlap.CompareKeyChars | server/services/matchingEngine.js:14-16 | the comparison key keeps exactly the kept characters of the lower-cased name |
| Overlap.CompareKeyIdempotent | server/services/matchingEngine.js:14-16 | normalising a comparison key again changes nothing |
| Overlap.CompareKeyIgnoresCase | server/services/matchingEngine.js:14-16 | the comparison key ignores case |
| Overlap.CompareKeyIgnoresSeparator | server/services/matchingEngine.js:14-16 | dots, dashes, underscores, slashes and white space (ASCII white space and the no-break space) do not affect the comparison key |
| Overlap.SetEntry | server/services/matchingEngine.js:23-26 | `Map.set` keeps a key at its first position, takes the latest value, and leaves other entries alone |
| Overlap.CandidateIndex | server/services/matchingEngine.js:23-26 | the candidate map has one entry per distinct key of the resume's skills |
| Overlap.CandidateIndexLastWriter | server/services/matchingEngine.js:23-26 | each key of the candidate map holds the last resume skill with that key |
| Overlap.RequiredPass | server/services/matchingEngine.js:33-51 | required skills present in the map are matched with similarity 1, the rest are missing with similarity 0, in order |
| Overlap.RequiredNames | server/services/matchingEngine.js:33-51 | a key is marked used after the required pass exactly when it is both required and held by the candidate |
| Overlap.RequiredPartition | server/services/matchingEngine.js:33-51 | every required skill is either matched or missing, never both |
| Overlap.PreferredPass | server/services/matchingEngine.js:54-65 | the preferred pass never touches the missing list and appends exactly one 0.8 line for each preferred skill the candidate has whose key was not used before and that is the first preferred skill with its key, in the order of the preferred list; the used keys grow by exactly the preferred keys the candidate has |
| Overlap.PreferredComplete | server/services/matchingEngine.js:54-65 | every preferred skill the candidate has, with a key not used by the required pass, is represented by the 0.8 line of the first preferred skill with that key |
| Overlap.PreferredNames | server/services/matchingEngine.js:54-65 | a key is used after the preferred pass exactly when it was used before or is a preferred key held by the candidate |
| Overlap.Bonus | server/services/matchingEngine.js:68-78 | one bonus line with similarity 1 per candidate-map entry whose key neither pass used, in map insertion order, and no other line |
| Overlap.BonusDisjoint | server/services/matchingEngine.js:68-78 | no bonus skill shares a key with a matched skill |
| Overlap.BonusCovers | server/services/matchingEngine.js:68-78 | every candidate skill is used by a pass or reported as bonus |
| Overlap.MatchedCountIsRequired | server/services/matchingEngine.js:81-91 | the matched count counts required matches only, not preferred ones |
| Overlap.SkillScore | server/services/matchingEngine.js:81-91 | the score is the matched share of the required skills; with none required it is 0.5 when anything matched and 0 otherwise |
| Overlap.PreferredCredit | server/services/matchingEngine.js:54-91 | with nothing required, the score is 0.5 exactly when the candidate has some preferred skill by key, and 0 otherwise |
| Overlap.AnalyseWith | server/services/matchingEngine.js:22-98 | the analysis lists the required matches first and the missing required skills, which together account for every required skill, with a score in [0, 1] |
| Scoring.ExperienceFit | server/services/matchingEngine.js:106-120 | with no requirement the fit is 0.8 or 0.5 by whether the candidate has experience; with none it is 0.1; otherwise it is exactly candidate / required below the cap and 1.2 from 1.2 times the required years on |
| Scoring.ExperienceFitFullCredit | server/services/matchingEngine.js:106-120 | the fit reaches 1 exactly when the candidate has at least the required years |
| Scoring.ExperienceFitMonotone | server/services/matchingEngine.js:106-120 | more years never lower the fit, as long as the candidate has some |
| Scoring.ExperienceFitNotMonotoneAtZero | server/services/matchingEngine.js:112-119 | 0 years scores higher than any candidate with less than a tenth of the required years |
| Scoring.SemanticScore | server/services/matchingEngine.js:200-208 | without both embeddings the semantic score is 0; otherwise it is the alignment of the two |
| Scoring.FinalScore | server/services/matchingEngine.js:224-234 | the final score is a whole number of tenths within 1/20 of the 40/40/20 weighted percentage (so the one-decimal rounding of it), with experience counted at most 1, and in [0, 100] for inputs in range |
| Scoring.FinalScoreCapsExperience | server/services/matchingEngine.js:228 | experience above 1 adds nothing to the final score |
| Scoring.FinalScoreMonotone | server/services/matchingEngine.js:224-234 | raising any component never lowers the final score |
| Scoring.ScoresOf | server/services/matchingEngine.js:230-235 | the reported component scores are whole numbers of hundredths within 1/200 of the exact ones, so their two-decimal roundings |
| Interpretation.TierOfPercent | server/services/matchingEngine.js:128-144 | the tiers split the rounded percentage at 85, 70 and 50 |
| Interpretation.TierOf | server/services/matchingEngine.js:128-144 | read off the unrounded score, the tier boundaries fall at 84.5, 69.5 and 49.5 |
| Interpretation.TierMonotone | server/services/matchingEngine.js:128-144 | a higher final score never gives a lower tier |
| Interpretation.CoveragePercent | server/services/matchingEngine.js:150-159 | the coverage percentage is the whole r with (2r - 1)·total <= 200·matched < (2r + 1)·total, in [0, 100] and 100 when every required skill matched |
| Interpretation.CoverageClause | server/services/matchingEngine.js:150-159 | a coverage clause appears exactly when skills are required, and its wording follows the 90 and 60 percent thresholds |
| Interpretation.MissingClause | server/services/matchingEngine.js:162-167 | a missing-skills clause appears exactly when skills are missing; it names up to three, and counts them beyond that |
| Interpretation.BonusClause | server/services/matchingEngine.js:170-172 | a bonus clause appears exactly when there are more than two bonus skills |
| Interpretation.ExperienceClause | server/services/matchingEngine.js:175-181 | the experience clause follows the thresholds 1, 0.7 and 0.5, with none between 0.5 and 0.7 |
| Interpretation.Listed | server/services/matchingEngine.js:183-185 | the summary keeps exactly the clauses that were produced |
| Interpretation.ListedConcat | server/services/matchingEngine.js:150-183 | the produced clauses keep the order in which they are built |
| Interpretation.Summary | server/services/matchingEngine.js:183-185 | the summary joins the clauses with ". " and ends in a full stop, with its first character upper-cased and the rest unchanged; with no clauses it is the default sentence |
| Interpretation.GenerateInterpretation | server/services/matchingEngine.js:127-188 | the reading carries the tier of the final score, that tier's label and the summary of its clauses |
| Interpretation.MissingClausePresent | server/services/matchingEngine.js:162-167 | the summary mentions missing skills exactly when some are missing |
| Interpretation.OtherClausesPresent | server/services/matchingEngine.js:170-181 | the bonus and experience clauses appear exactly under their thresholds |
| Interpretation.NoClauses | server/services/matchingEngine.js:150-185 | the default summary is used exactly when nothing is required, nothing is missing, bonus skills are at most two and experience lies between 0.5 and 0.7 |
| Interpretation.RecommendationAgreesWithTier | server/services/interpretationGenerator.js:68-78 | the recommendation follows the same thresholds as the tier, one recommendation per tier |
| Interpretation.SemanticStrength | server/services/interpretationGenerator.js:20-25 | the semantic strength is strong from 0.8, good from 0.6, absent below |
| Interpretation.CoverageStrength | server/services/interpretationGenerator.js:27-36 | a coverage strength is listed exactly when some required skill matched and coverage is at least 70 percent |
| Interpretation.FirstMissingNames | server/services/interpretationGenerator.js:52-58 | the concern names the first three missing skills, or all when there are fewer |
| Interpretation.ExperienceConcern | server/services/interpretationGenerator.js:61-65 | the experience concern is "significantly below" under 0.5, "slightly under" below 0.7, and absent from 0.7 |
| Interpretation.GenerateDetailedInterpretation | server/services/interpretationGenerator.js:15-86 | the detailed reading extends the basic one with the recommendation for its tier |
| Interpretation.SemanticStrengthsPresent | server/services/interpretationGenerator.js:20-25 | at most one semantic strength is listed, each exactly under its threshold |
| Interpretation.CoverageStrengthPresent | server/services/interpretationGenerator.js:27-36 | a coverage strength is listed exactly under its condition |
| Interpretation.OtherStrengthsPresent | server/services/interpretationGenerator.js:38-44 | the experience strength appears from 1 and the bonus strength from three bonus skills |
| Interpretation.ScoreConcernsPresent | server/services/interpretationGenerator.js:47-65 | the semantic and experience concerns appear exactly under their thresholds, and never both experience concerns |
| Interpretation.MissingConcernPresent | server/services/interpretationGenerator.js:52-58 | a missing-skills concern is listed exactly when skills are missing |
| Matching.MatchResumeToJob | server/services/matchingEngine.js:198-250 | the scores are those of the semantic score, skill overlap and experience fit of the pair, and the interpretation is that of those scores and that overlap; without both embeddings the semantic score is 0; the final score is in [0, 100]; names are carried over |
| Matching.RoundedUnitInterval | server/services/matchingEngine.js:232 | the rounded skill score stays in [0, 1] |
| Matching.MatchCarriesAnalysis | server/services/matchingEngine.js:243-246 | the matched, missing and bonus lists of a match are those of the overlap analysis, and matched plus missing account for every required skill |
| Matching.OverqualifiedReportsCap | server/services/matchingEngine.js:116-119 | a candidate with at least 1.2 times the required years is reported at the cap 1.2 |
| CategoryCoverage.Find | server/services/skillOverlap.js:25-31 | a category's bucket is found when it exists, and reported absent otherwise |
| CategoryCoverage.Add | server/services/skillOverlap.js:25-31 | adding a skill keeps categories distinct and appends a new category at the end, if any |
| CategoryCoverage.AddLinesSame | server/services/skillOverlap.js:25-35 | after adding a skill, each bucket holds exactly the skills of its category, in order |
| CategoryCoverage.AddAllSame | server/services/skillOverlap.js:33-35 | adding a list fills each bucket with exactly that list's skills of its category |
| CategoryCoverage.AddAllOther | server/services/skillOverlap.js:33-35 | adding skills of one kind leaves the other kinds of lines as they were |
| CategoryCoverage.GroupSkillsByCategory | server/services/skillOverlap.js:22-38 | every bucket holds exactly the matched, missing and bonus skills of its category, in order, no bucket is empty, and the buckets follow the first-seen order of the categories in matched, then missing, then bonus |
| CategoryCoverage.GroupOrder | server/services/skillOverlap.js:22-38 | of two buckets, the earlier one's category occurs first in matched, missing and bonus taken in turn |
| CategoryCoverage.GroupTotals | server/services/skillOverlap.js:22-38 | grouping loses and duplicates no skill |
| CategoryCoverage.Coverage | server/services/skillOverlap.js:49-52 | coverage is the whole r with (2r - 1)·total <= 200·matched < (2r + 1)·total, in [0, 100]; 100 without required skills; 100 exactly when at most one in 200 is missing; 0 exactly when fewer than one in 200 matched |
| CategoryCoverage.PercentFacts | server/services/skillOverlap.js:50-52 | the unrounded percentage is in [0, 100] and rounds to 100 or 0 exactly at the half-point thresholds |
| CategoryCoverage.CoverageOf | server/services/skillOverlap.js:47-60 | a category line counts its bucket's skills and totals matched plus missing |
| CategoryCoverage.GetCategoryCoverage | server/services/skillOverlap.js:45-63 | the lines are sorted by total, descending, and are a permutation of the per-category lines |
| CategoryCoverage.CoverageLineCounts | server/services/skillOverlap.js:45-63 | each line's counts are those of its category in the input lists, and no line is empty |
| CategoryCoverage.CoverageLinePresent | server/services/skillOverlap.js:45-63 | every skill's category has a line |
| CategoryCoverage.CoverageLinesDistinct | server/services/skillOverlap.js:45-63 | no category has two lines |
| CategoryCoverage.CoverageStable | server/services/skillOverlap.js:62 | categories with equal totals keep their bucket order, which is first-seen order |
| EmbeddingText.TextLines | server/services/resumeEmbedding.js:66 | splitting the text on newlines gives back the shown lines, one per heading |
| EmbeddingText.TextEmpty | server/services/resumeEmbedding.js:66 | the text is empty exactly when no line is shown |
| EmbeddingText.ShowsHeadingShown | server/services/resumeEmbedding.js:14-67 | a heading shows exactly when some shown line has it |
| EmbeddingText.ShowsFlagged | server/services/resumeEmbedding.js:14-67 | with distinct headings, a heading shows exactly when its own condition holds |
| EmbeddingText.ShownInOrder | server/services/resumeEmbedding.js:14-67 | shown lines keep the order in which they are built |
| EmbeddingText.ListTextNonEmpty | server/services/resumeEmbedding.js:29-37 | a joined list is non-empty exactly when some item renders non-empty |
| EmbeddingText.Excerpt | server/services/resumeEmbedding.js:61-64 | an excerpt is at most the limit and the raw text long, with no surrounding white space |
| EmbeddingText.ResumeShows | server/services/resumeEmbedding.js:14-67 | each resume line appears exactly when its field is present: name, skills, a non-empty role or degree, years, summary, raw text |
| EmbeddingText.ResumeInOrder | server/services/resumeEmbedding.js:14-67 | the resume lines appear in the code's order |
| EmbeddingText.ResumeDetails | server/services/resumeEmbedding.js:61-64 | the details line holds at most 400 characters of the raw text |
| EmbeddingText.ResumeTextEmpty | server/services/resumeEmbedding.js:14-67 | the resume text is empty exactly when every field is absent |
| EmbeddingText.JobShows | server/services/jobEmbedding.js:14-46 | each job line appears exactly when its field is present: title, required and preferred skills, years, description |
| EmbeddingText.JobInOrder | server/services/jobEmbedding.js:14-46 | the job lines appear in the code's order |
| EmbeddingText.JobDescription | server/services/jobEmbedding.js:40-43 | the description line holds at most 500 characters of the raw text |
| EmbeddingText.JobTextEmpty | server/services/jobEmbedding.js:14-46 | the job text is empty exactly when every field is absent |
| EmbeddingText.BreakdownOf | server/services/resumeEmbedding.js:75-81 | each part earns its full weight exactly when present (summary: more than 50 characters; embedding: status "ready"), and nothing otherwise |
| EmbeddingText.ProfileCompleteness | server/services/resumeEmbedding.js:74-92 | the score is the sum of the parts, at most 100; the label and colour follow the 80 and 50 thresholds; there are no suggestions exactly at 100 |
| EmbeddingText.SuggestionsComplete | server/services/resumeEmbedding.js:83-105 | the score plus the weights of the suggested parts is exactly 100 |
| EmbeddingText.CompletenessAccounts | server/services/resumeEmbedding.js:74-105 | every missing point of a profile's score is accounted for by a suggestion |
| EmbeddingText.SuggestionsName | server/services/resumeEmbedding.js:97-105 | each suggestion appears exactly when its part is missing, so there are at most five |
| EmbeddingText.CompleteProfile | server/services/resumeEmbedding.js:83-92 | a "Complete" profile has skills and experience and at most one suggestion |
| MatchStore.ParseStatus | server/routes/matching.js:158-160 | only "pending", "shortlisted" and "rejected" are accepted, each as its own status |
| MatchStore.ParseStatusName | server/models/Match.js:47-51 | every stored status parses back to itself |
| MatchStore.Upsert | server/routes/matching.js:40-56 | the upsert writes one record under (job, resume), keeps an existing status, starts a new one as pending and leaves other records alone |
| MatchStore.UpsertIdempotent | server/routes/matching.js:40-56 | repeating the same upsert changes nothing |
| MatchStore.UpsertKeepsStatuses | server/routes/matching.js:40-56 | an upsert never changes any existing status |
| MatchStore.UpdateStatus | server/routes/matching.js:154-182 | a bad status is refused; a missing or foreign match is not found; otherwise only that record's status changes |
| MatchStore.StatusSurvivesUpsert | server/routes/matching.js:40-56 | a status set by the recruiter survives re-matching |
| MatchStore.FindJob | server/routes/matching.js:15-22 | the job is found only among the recruiter's own jobs |
| MatchStore.ResumesOf | server/routes/matching.js:25-29 | the resumes matched are exactly the recruiter's own |
| MatchStore.MatchAll | server/routes/matching.js:35-76 | one entry per resume, in order, carrying the matcher's result and the stored status, and no status changes |
| MatchStore.MatchAllKeys | server/routes/matching.js:35-76 | the store afterwards holds the old keys plus one per matched resume |
| MatchStore.MatchAllRecords | server/routes/matching.js:40-56 | written records belong to the recruiter and the pair; all other records are untouched |
| MatchStore.Rank | server/routes/matching.js:82-84 | ranks count up from 1 in list order |
| MatchStore.AverageScore | server/routes/matching.js:93-95 | the average is 0 without scores, and otherwise a whole number of tenths within 1/20 of the mean |
| MatchStore.AverageScoreBounds | server/routes/matching.js:93-95 | the average of scores in [0, 100] is in [0, 100] |
| MatchStore.EntryIdsPermutation | server/routes/matching.js:79 | reordering the entries reorders their resume ids the same way |
| MatchStore.Respond | server/routes/matching.js:79-96 | the reply ranks every entry once, sorted by final score descending, with ranks 1 to n and the average of the scores |
| MatchStore.RespondStable | server/routes/matching.js:79 | entries with equal final scores keep their order |
| MatchStore.RunWith | server/routes/matching.js:13-101 | an unknown job or no resumes leaves the store unchanged; otherwise every resume is ranked once, and no status changes |
| MatchStore.RunMatching | server/routes/matching.js:13-101 | each ranked line is the engine's match of one of the recruiter's resumes against the job |
| MatchStore.RunWithRanking | server/routes/matching.js:13-101 | a ranking reply is the response to matching all the recruiter's resumes |
| MatchStore.RunWithLines | server/routes/matching.js:35-76 | every ranked line comes from one of the recruiter's resumes |
| MatchStore.RunWithOnePerResume | server/routes/matching.js:35-96 | the ranking lists each resume exactly once |
| MatchStore.RunWithStable | server/routes/matching.js:79 | resumes with equal final scores appear in their stored order |
| MatchStore.RunWithRecords | server/routes/matching.js:40-56 | a run writes exactly one record per resume and leaves the rest as they were |
| MatchStore.StatusSurvivesRun | server/routes/matching.js:40-56 | after a status is set, a later run keeps it in the store and shows it in the ranking |
| MatchStore.RunWithShowsStatus | server/routes/matching.js:64-75 | a run shows each pair's stored status and never changes it |

## Left out

- Character handling is limited: `toLowerCase` maps ASCII letters only, with no Unicode case mapping, and `trim` and `\s` know ASCII white space plus the no-break space U+00A0, not the other Unicode spaces.
- Regular expressions are not executed: their matches (hit counts, captures, sections) are inputs of the profiler functions, so what a pattern matches in a given text is not modelled.
- Floating point is modelled as exact real arithmetic; rounding error of JavaScript numbers is not modelled.
- The cosine similarity, `(x + 1) / 2` and `Math.pow(x, 0.7)` are the `aligned` parameter; their numeric behaviour is not modelled.
- Database access, HTTP status codes, `Date` stamps (`calculatedAt`), `console.log` and the count of newly created matches are not modelled; the store is a map keyed by (job id, resume id), which stands for the unique index of the Match schema.
- The results listing route (`GET /job/:jobId/results` of the matching router) is left out: it only reads and sorts stored records.
- `generateResumeEmbedding`, `generateJobEmbedding` and the Hugging Face client, including the minimum text length of 10, are left out: they call an external service asynchronously.
- Absent values (`undefined`, `null`) are modelled as the empty string, the empty list or 0, which the code's `||` defaults and truthiness tests treat the same way.
- Years of experience are natural numbers; a fractional stored value is not modelled.
- JavaScript object key order is modelled as insertion order for the category buckets (`CategoryCoverage.GroupOrder`). JavaScript lists integer-like keys first; the category names of the table are words, so that rule is not modelled.
- EmbeddingText.ProfileCompleteness: suggestions are the `Tip` values whose text `TipText` gives, and the completeness `label` is the field `status`.
- Lengths and cuts count Unicode characters, not the UTF-16 code units that JavaScript's `length` and `substring` count: text outside the Basic Multilingual Plane measures shorter in the model (26 emoji are 26 characters here and 52 code units in JavaScript), and a cut never splits a surrogate pair. This concerns the profiler's 500- and 200-character summary cuts, its 50-character field cut and its title length test, the completeness test for a summary longer than 50, and the 400- and 500-character excerpts of the embedding texts.
- Profiler.ExtractSkills: states the shape of the result and not which text produces which skill, because pattern matching is an input.
- Matching.MatchResumeToJob: the final score is bounded only when `aligned` is in [0, 1], because the alignment is a parameter.
